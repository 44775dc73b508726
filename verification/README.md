# BCP 47 language tags and ISO 639 code tables of Kodi's i18n utilities

This project models the core of Kodi's `xbmc/utils/i18n` component in Dafny:

- **Parsing.** `CBcp47Parser::Parse` recognises a well-formed language tag
  (RFC 5646, section 2.1) or one of the grandfathered tags (section 2.2.8).
  Its body is not part of this model. It is specified by the grammar it
  implements, and the tests pin down the expected results.
- **`CBcp47`, the language-tag value.** This covers construction from text
  (`ParseTag`) and the validity rules computed and cached at construction
  (`Validate` and its helpers). It also covers formatting with the
  recommended casing of section 2.1.1 (`Format`), canonicalisation (step 1
  of section 4.5: extensions sorted by singleton) and the audio-track tag
  without a script (`ToAudioLanguageTag`).
- **Subtag registry loaders** (`SubTagLoader.cpp`). These copy an already
  decoded registry record into a base, language, extended-language or
  variant subtag, and fail without touching the target.
- **ISO 639 tables.** This covers the packing of a code of up to four
  characters into an `unsigned long` and back, and the tables sorted by code
  and by name. It includes the ISO 639-1 table with its Kodi addition "pb"
  and the deprecated codes. It also includes the legacy `LanguageCodes`
  table with its copies sorted by ISO 639-2/B code and by Windows
  identifier.

## Module layout

| module | file | models |
|---|---|---|
| `Wrappers` | wrappers.dfy | `Option`, for `std::optional` |
| `Ascii` | ascii.dfy | ASCII letter classes, case mapping, the `std::string` order |
| `Text` | text.dfy | joining and splitting at a separator (`StringUtils::Join`/`Split`) |
| `Sorting` | sorting.dfy | `std::ranges::sort`, specified as "some sorted permutation", and `adjacent_find` |
| `Bcp47Subtags` | bcp47_subtags.dfy | the subtag fields shared by `ParsedBcp47Tag` and `CBcp47`; `Bcp47Extension` |
| `Bcp47Parser` | bcp47_parser.dfy | `Bcp47TagType`, `ParsedBcp47Tag`, `CBcp47Parser::Parse` |
| `Bcp47` | bcp47.dfy | `CBcp47` |
| `SubTagLoader` | subtag_loader.dfy | the four `Load*SubTag` functions |
| `TableIso639` | table_iso639.dfy | `TableISO639.h` |
| `SortedTable` | sorted_table.dfy | facts about constant tables in ascending key order |
| `TableIso639_1` | table_iso639_1.dfy | `TableISO639_1.h` |
| `TableLanguageCodes` | table_language_codes.dfy | `TableLanguageCodes.h` |
| `Bcp47Examples`, `Bcp47ParserExamples` | bcp47_examples.dfy, bcp47_parser_examples.dfy | the unit-test vectors, as lemmas |

### Modelling choices

- **Text and case.** Text is a sequence of characters. Case mapping and
  letter classes are ASCII, as in `StringUtils`. The parser stores every
  subtag in lower case; the tests require this.
- **Lookup services.** The validity rules consult code-lookup services
  (`CIso639_1`, `CIso639_2`, `CIso3166_1` and `g_LangCodeExpander`). They
  are not part of this model and enter as the predicates of
  `Bcp47.CodeLookups`.
- **`unsigned long` and `char`.** `unsigned long` is 64 bits (`bv64`) and
  `char` is signed. A byte of 0x80 or more is therefore sign-extended by the
  cast in `StringToLongCode`.
- **Unstable sorts.** `std::ranges::sort` is not stable. The model computes
  one sorted permutation (an insertion sort) and states every sort's
  contract as `IsSortingOf` ("sorted, and a permutation of the input"). Some
  lemmas show when the outcome is fully determined; others show when it is
  not.
- **Mutating members.** Members that mutate a `CBcp47` (`Canonicalize`) or
  fill a target passed by reference (the loaders) return the new value
  instead.

## Model

| member | source | states |
|---|---|---|
| Bcp47Parser.Parse | xbmc/utils/i18n/Bcp47Parser.h:19-43 | Grandfathered exactly when the lower-cased text is in one of the two grandfathered lists, with only that field set. A malformed result is the default value with every field empty. A regular or private-use result is well-formed, has the kind its subtags call for (PRIVATE_USE when there is no language), and joins back with '-' to the lower-cased text. |
| Bcp47Parser.ParseComplete | xbmc/utils/i18n/Bcp47Parser.h:19-43 | Every non-grandfathered text whose lower-case form spells out well-formed subtags parses to exactly those subtags. |
| Bcp47Parser.ParseMalformedIff | xbmc/utils/i18n/Bcp47Parser.h:19-43 | The parse is MALFORMED exactly when the text is neither grandfathered nor the spelling of some well-formed subtags. |
| Bcp47Parser.ParseCaseInsensitive | xbmc/utils/i18n/Bcp47Parser.h:27-43 | Two texts that differ only in letter case parse to the same result. |
| Bcp47ParserExamples.TwoLetterLanguage | xbmc/utils/i18n/test/TestBcp47Parser.cpp:87 | "ab" parses as a REGULAR tag whose only field is the language "ab". |
| Bcp47ParserExamples.ExtendedLanguages | xbmc/utils/i18n/test/TestBcp47Parser.cpp:91 | "abc-def-ghi" gives the language "abc" with the extended languages "def" and "ghi", in order. |
| Bcp47ParserExamples.FiveLetterLanguage | xbmc/utils/i18n/test/TestBcp47Parser.cpp:93 | "abcde" is a five-letter language. |
| Bcp47ParserExamples.TenLettersMalformed | xbmc/utils/i18n/test/TestBcp47Parser.cpp:95 | "montenegro" (ten letters) is malformed. |
| Bcp47ParserExamples.Script | xbmc/utils/i18n/test/TestBcp47Parser.cpp:97 | In "ab-abcd" the four-letter subtag is the script. |
| Bcp47ParserExamples.LetterRegion | xbmc/utils/i18n/test/TestBcp47Parser.cpp:99 | In "ab-ab" the two-letter subtag is the region. |
| Bcp47ParserExamples.DigitRegion | xbmc/utils/i18n/test/TestBcp47Parser.cpp:101 | In "ab-012" the three-digit subtag is the region. |
| Bcp47ParserExamples.Variants | xbmc/utils/i18n/test/TestBcp47Parser.cpp:104 | "ab-abcde-0abc-1def" gives three variants, in order. |
| Bcp47ParserExamples.RepeatedSingletonBlocks | xbmc/utils/i18n/test/TestBcp47Parser.cpp:107 | "ab-a-bc-de-a-fg-hi" gives two extensions named 'a' with two segments each, kept apart and in order. |
| Bcp47ParserExamples.PrivateUseAfterLanguage | xbmc/utils/i18n/test/TestBcp47Parser.cpp:111 | "ab-x-b-cdefghij" gives the private-use segments "b" and "cdefghij". |
| Bcp47ParserExamples.PrivateUseOnly | xbmc/utils/i18n/test/TestBcp47Parser.cpp:116 | "x-a-bcd" is PRIVATE_USE with an empty language. |
| Bcp47ParserExamples.GrandfatheredTags | xbmc/utils/i18n/test/TestBcp47Parser.cpp:117-120 | "i-ami" (irregular) and "cel-gaulish" (regular) are GRANDFATHERED, with only the grandfathered field set. |
| Bcp47ParserExamples.DefaultIsMalformed | xbmc/utils/i18n/Bcp47Parser.h:27-38 | A default `ParsedBcp47Tag` is MALFORMED with every field empty. |
| Bcp47.ParseTag | xbmc/utils/i18n/Bcp47.cpp:29-49 | Nothing exactly when the text is neither grandfathered nor the spelling of well-formed subtags. Otherwise the tag holds the parsed subtags and a validity flag equal to `Validate` on them. Its grandfathered field, or else its pieces joined with '-', is the lower-cased text. |
| Bcp47.IsValidLanguage | xbmc/utils/i18n/Bcp47.cpp:84-137 | An empty language is valid exactly when there is private use. Two letters are valid exactly when the code is in ISO 639-1. A lower-case three-letter code is valid exactly when it is in the reserved range qaa-qtz, or when it is a known ISO 639-2 T or B code that has no ISO 639-1 equivalent. Any other language is invalid. |
| Bcp47.ReservedLanguageRange | xbmc/utils/i18n/Bcp47.cpp:112-114 | For lower-case three-letter codes, the string comparison "qaa" <= code <= "qtz" means exactly: 'q', then a letter from 'a' to 't', then any letter. |
| Bcp47.IsValidRegion | xbmc/utils/i18n/Bcp47.cpp:145-175 | An empty region is valid. A lower-case two-letter region is valid exactly when it is reserved for private use or is a known ISO 3166-1 code. A three-digit (UN M.49) region is invalid. |
| Bcp47.ReservedRegionRange | xbmc/utils/i18n/Bcp47.cpp:151-154 | For lower-case two-letter regions, the string comparisons mean exactly: "aa", "zz", "qm" to "qz", or "x" followed by any letter. |
| Bcp47.DigitsOutsideReservedRegions | xbmc/utils/i18n/Bcp47.cpp:151-154 | No three-digit region falls in the reserved ranges, so digits reach the "not a valid region" branch. |
| Bcp47.HasDuplicateVariants | xbmc/utils/i18n/Bcp47.cpp:185-197 | Sorting the variants and finding equal neighbours answers true exactly when some variant occurs twice. |
| Bcp47.HasDuplicateExtensions | xbmc/utils/i18n/Bcp47.cpp:199-211 | Sorting the singletons and finding equal neighbours answers true exactly when two extensions share a singleton. |
| Bcp47.Validate | xbmc/utils/i18n/Bcp47.cpp:51-82 | The early-exit checks in source order agree with the rules stated on their own: grandfathered, or a valid language and region, at most one extended language, and no repeated variant or singleton. |
| Bcp47.FormatIsJoin | xbmc/utils/i18n/Bcp47.cpp:213-270 | For well-formed subtags, `Format` is the pieces in recommended casing (script title case, region upper case) joined with '-', "x" before the private use. |
| Bcp47.FormatLowerCase | xbmc/utils/i18n/Bcp47.cpp:213-270 | The formatted text of a parsed tag is the parsed text up to letter case. |
| Bcp47.FormatParseRoundTrip | xbmc/utils/i18n/Bcp47.cpp:29-49 | Any tag that parsing could have produced is parsed back, unchanged, from its formatted text. |
| Bcp47.ParseFormatParse | xbmc/utils/i18n/Bcp47.cpp:213-270 | Parsing, formatting and parsing again gives the tag of the first parse. |
| Bcp47.Canonicalize | xbmc/utils/i18n/Bcp47.cpp:272-298 | The extensions become a permutation of themselves sorted by singleton. Every other field, and the validity flag, are unchanged. |
| Bcp47.CanonicalizeUnique | xbmc/utils/i18n/Bcp47.cpp:285-288 | When the singletons are distinct, every sorted permutation is the one `Canonicalize` produces, so the unstable sort has one outcome. |
| Bcp47.CanonicalizeIdempotent | xbmc/utils/i18n/Bcp47.cpp:272-298 | With distinct singletons, canonicalising twice is canonicalising once. |
| Bcp47.CanonicalizeAmbiguousExample | xbmc/utils/i18n/Bcp47.cpp:285-288 | With a repeated singleton ("a-bc" and "a-de") both orders are sorted permutations, so the unstable sort's outcome is not determined. |
| Bcp47.ValidateExtensionOrder | xbmc/utils/i18n/Bcp47.cpp:199-211 | Reordering the extensions does not change the verdict of `Validate`. |
| Bcp47.ValidateVariantOrder | xbmc/utils/i18n/Bcp47.cpp:185-197 | Reordering the variants does not change the verdict of `Validate`. |
| Bcp47.CanonicalizeConsistent | xbmc/utils/i18n/Bcp47.cpp:272-298 | A canonicalised tag is still of a shape parsing produces, and its kept flag is still the verdict of `Validate`. |
| Bcp47.ToAudioLanguageTag | xbmc/utils/i18n/Bcp47.cpp:300-306 | The copy has an empty script. Every other field, and the validity flag, are those of the original. |
| Bcp47.ValidateIgnoresScript | xbmc/utils/i18n/Bcp47.cpp:51-82 | The validity rules do not look at the script. |
| Bcp47.AudioConsistent | xbmc/utils/i18n/Bcp47.cpp:300-306 | The audio tag keeps a parsable shape and a truthful flag. A grandfathered tag stays grandfathered and formats to the same text. |
| Bcp47.AudioMayFormatGrandfathered | xbmc/utils/i18n/Bcp47.cpp:300-306 | Dropping the script of the regular tag "art-Latn-lojban" formats as "art-lojban", the text of a grandfathered tag. |
| Bcp47Examples.CanonicalOrder | xbmc/utils/i18n/test/TestBcp47.cpp:24-26 | "ab-d-ef-g-hi-a-bc" canonicalised formats as "ab-a-bc-d-ef-g-hi". |
| Bcp47Examples.SingleVariantValid | xbmc/utils/i18n/test/TestBcp47.cpp:31-32 | "en-variant" is a tag, valid exactly when "en" is an ISO 639-1 code. |
| Bcp47Examples.RepeatedVariantInvalid | xbmc/utils/i18n/test/TestBcp47.cpp:37-38 | "en-variant-variant" is a tag that is never valid. |
| Bcp47Examples.RepeatedExtensionInvalid | xbmc/utils/i18n/test/TestBcp47.cpp:56-57 | "ab-a-bc-a-de" is a tag that is never valid. |
| Bcp47Examples.RegionCasing | xbmc/utils/i18n/test/TestBcp47.cpp:75 | "En-Ca-X-cA" formats as "en-CA-x-ca". |
| Bcp47Examples.ScriptCasing | xbmc/utils/i18n/test/TestBcp47.cpp:77 | "az-lAtN-x-Latn" formats as "az-Latn-x-latn". |
| Bcp47Examples.AudioDropsScript | xbmc/utils/i18n/test/TestBcp47.cpp:119-127 | The audio tag of "zh-Hant" formats as "zh". |
| Bcp47Examples.GrandfatheredCasing | xbmc/utils/i18n/test/TestBcp47.cpp:141-151 | "Zh-GuOyU" is grandfathered and formats as "zh-guoyu". Its audio tag formats the same. |
| SubTagLoader.LoadBaseSubTag | xbmc/utils/i18n/SubTagLoader.cpp:16-28 | Succeeds exactly when the record has a subtag, and then copies the common fields. On failure the target is untouched. |
| SubTagLoader.LoadLanguageSubTag | xbmc/utils/i18n/SubTagLoader.cpp:30-40 | Succeeds exactly when the base load does. It then also copies suppress-script, macrolanguage and scope. On failure the target is untouched. |
| SubTagLoader.LoadExtLangSubTag | xbmc/utils/i18n/SubTagLoader.cpp:42-56 | Succeeds exactly when the record has a subtag and exactly one prefix. It then also copies that prefix, suppress-script, macrolanguage and scope. On failure the target is untouched. |
| SubTagLoader.LoadVariantSubTag | xbmc/utils/i18n/SubTagLoader.cpp:58-66 | Succeeds exactly when the base load does. It then also copies every prefix in order. On failure the target is untouched. |
| SubTagLoader.LoadRoundTrip | xbmc/utils/i18n/SubTagLoader.cpp:16-66 | Every subtag with a name is loaded back from the record written from it, whatever the target held. |
| SubTagLoader.LoadersShareBase | xbmc/utils/i18n/SubTagLoader.cpp:30-66 | The derived loaders succeed like the base loader and set the same common fields. A successful load does not depend on the target. |
| SubTagLoader.LoadIdempotent | xbmc/utils/i18n/SubTagLoader.cpp:16-66 | Loading the same record twice leaves what the first load left. |
| SubTagLoader.ExtLangPrefixCount | xbmc/utils/i18n/test/TestSubTagLoader.cpp:122-184 | An extended-language record with no prefix or two prefixes is refused. A variant record keeps both prefixes. |
| TableIso639.LongCodeToString | xbmc/utils/i18n/TableISO639.h:35-48 | The text has at most four characters, and is empty exactly when the low byte is zero. |
| TableIso639.StringToLongCodeRange | xbmc/utils/i18n/TableISO639.h:16-27 | An ASCII code of one to four characters packs into 32 bits and never into the `-1` marker. |
| TableIso639.NoCodeForBadLength | xbmc/utils/i18n/TableISO639.h:18-21 | The empty text and texts longer than four characters pack to the `-1` marker. |
| TableIso639.LongCodeRoundTrip | xbmc/utils/i18n/TableISO639.h:16-48 | `LongCodeToString` inverts `StringToLongCode` on ASCII codes of one to four characters. |
| TableIso639.StringToLongCodeInjective | xbmc/utils/i18n/TableISO639.h:16-27 | Distinct ASCII codes of one to four characters pack to distinct numbers. |
| TableIso639.CreateIso639ByCode | xbmc/utils/i18n/TableISO639.h:62-67 | The result is a permutation of the rows in ascending code order. |
| TableIso639.CreateIso639ByName | xbmc/utils/i18n/TableISO639.h:74-82 | The result is a permutation of the rows in ascending order of their names, ignoring case. |
| TableIso639.ByCodeUnique | xbmc/utils/i18n/TableISO639.h:62-67 | When no two rows share a code, every sorted permutation by code is the result of `CreateIso639ByCode`. |
| TableIso639.Concat | xbmc/utils/i18n/TableISO639.h:84-112 | The result has the summed size: the first array's elements, then the second's, each in order. |
| TableIso639_1.ActiveAscending | xbmc/utils/i18n/TableISO639_1.h:49-234 | The 183 active codes are two lower-case letters each, in strictly ascending order ("sorted by alpha-2"). |
| TableIso639_1.KodiCodeNotActive | xbmc/utils/i18n/TableISO639_1.h:238-242 | The Kodi addition "pb" is not among the active ISO codes. |
| TableIso639_1.DeprecatedNotActive | xbmc/utils/i18n/TableISO639_1.h:249-274 | No deprecated code is among the codes of the main table. |
| TableIso639_1.DeprecatedShape | xbmc/utils/i18n/TableISO639_1.h:246-274 | The deprecated codes are two lower-case letters each, all different. |
| TableIso639_1.TableShape | xbmc/utils/i18n/TableISO639_1.h:44-274 | The tables have the declared sizes, 184 and 7. Every code is the packing of two lower-case letters and unpacks to them. |
| TableIso639_1.ActiveCodesDistinct | xbmc/utils/i18n/TableISO639_1.h:48-243 | No two rows of the main table share an alpha-2 code. |
| TableIso639_1.ByCodeDetermined | xbmc/utils/i18n/TableISO639_1.h:277-300 | The four sorted arrays are sorted permutations of their tables. The two sorted by code are the only ones, since no two rows share a code. |
| TableLanguageCodes.LanguageCodesSorted | xbmc/utils/i18n/TableLanguageCodes.h:28-230 | The table has 192 rows whose alpha-2 codes ascend strictly, so it is sorted as the `static_assert` demands. |
| TableLanguageCodes.CreateLanguageCodesSortedByIso639_2b | xbmc/utils/i18n/TableLanguageCodes.h:232-237 | The result is a permutation of the table in ascending B-code order. |
| TableLanguageCodes.CreateLanguageCodesSortedByWin_Id | xbmc/utils/i18n/TableLanguageCodes.h:240-245 | The result is a permutation of the table in ascending Windows-identifier order. |
| TableLanguageCodes.SharedBCodeNotDetermined | xbmc/utils/i18n/TableLanguageCodes.h:232-237 | Two different rows with the same B code leave the unstable sort's outcome open: another sorted permutation exists. |
| TableLanguageCodes.Iso639_2bNotUnique | xbmc/utils/i18n/TableLanguageCodes.h:88-109 | The B code is not a key: "ind" is shared by "id" and "in", and "heb" by "he" and "iw". |
| TableLanguageCodes.KodiRows | xbmc/utils/i18n/TableLanguageCodes.h:221-226 | The last four rows map the made-up codes "zv", "zx", "zy" and "zz" to "und", "zxx", "mis" and "mul". |

## Left out

- **The parser body.** The body of `CBcp47Parser::Parse` and its helpers
  (`TryParseIso639`, `TryGenericParse` and the two grandfathered parsers)
  is not part of this model. `Parse` is defined from the grammar of RFC 5646
  that they implement, and the parser tests are proved against that
  definition.
- **Case of stored subtags.** The doc comment of `CBcp47::ParseTag` says the
  subtags are "not altered". The tests, however, expect lower-case subtags:
  "Zh-GuOyU" formats as "zh-guoyu", and "ab-AbCdE-bCdEfGhI" as
  "ab-abcde-bcdefghi". The model follows the tests and lower-cases the text.
- **Lookup services.** `CIso639_1`, `CIso639_2`, `CIso3166_1` and
  `g_LangCodeExpander` are not part of this model. They are parameters
  (`CodeLookups`).
- **Logging.** `CLog` debug messages have no effect on results and are
  omitted.
- **Commented-out `Canonicalize` steps.** The commented-out conversion of
  alpha-3 languages in `Canonicalize`, and its to-do list, are not behaviour.
- **Registry file I/O.** Reading the registry file, splitting records, and
  decoding the `Scope` text into the scope value are not modelled; the
  loaders take records whose fields are already decoded. `RegistryFileRecord`
  and `SubTagRegistryManager` are not part of this model.
- **Context files.** The Windows error utilities, `DNSNameCache`,
  `VideoSyncD3D` and `DirectoryHistory` are not part of the i18n core.
- **Non-ASCII text.** `CompareNoCase`, `ToLower`, `ToUpper` and
  `ToCapitalize` are modelled on ASCII letters only. Locale-dependent case
  mapping of other characters is not modelled.
- **Accessors and constructors.** The accessors of `CBcp47` and its private
  default constructor are the fields of the `Bcp47.Tag` datatype and its
  constructor.
- **The sorted-view constants.** `LanguageCodesByIso639_2b` and
  `LanguageCodesByWin_Id` are represented by the functions that compute
  them.
- **Duplicate helper.** The copy of `StringToLongCode` in `TableISO639_1.h`
  (lines 21-32) is identical to the one in `TableISO639.h` and is modelled
  once.
- **Code order versus letter order.** The numeric order of packed codes is
  not related to alphabetical order by a lemma. The tables are proved
  sorted by their text keys, and their code-sorted copies are specified
  through `IsSortingOf`.
- **The Windows-identifier sort.** Many rows share the empty Windows
  identifier, so that sort is not determined either. This is not stated as
  a lemma; only the B-code case is (`SharedBCodeNotDetermined`).
- **The combined parser vector.** The vector that combines every kind of
  subtag ("ab-ext-bcde-fg-…-x-a-bcd") is covered by `ParseComplete`, but is
  not worked out as its own example lemma. The same holds for the remaining
  extension vectors and for the casing vectors not listed in the table.
- Bcp47.IsValidLanguage: the three-letter rule is stated for lower-case
  codes only. The parser hands only lower-case subtags to the rule, and the
  source's range comparison with "qaa".."qtz" is case-sensitive.
- Bcp47.IsValidRegion: the two-letter rule is stated for lower-case regions
  only, for the same reason as the language rule.
- TableIso639.LongCodeToString: its contract gives the length and the empty
  case. The full inverse is stated separately for ASCII codes
  (`LongCodeRoundTrip`); codes holding bytes of 0x80 or more are not
  characterised.
