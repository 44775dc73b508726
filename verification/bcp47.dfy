/**
 * The language-tag value `CBcp47`: construction from text, the validity
 * rules it caches, formatting with the recommended casing of section 2.1.1
 * of RFC 5646, canonicalisation (step 1 of section 4.5) and the audio-track
 * variant without a script.
 *
 * The code tables consulted by the validity rules are services outside this
 * model; they enter as the predicates of `CodeLookups`.
 */
module Bcp47 {
  import opened Wrappers
  import opened Ascii
  import opened Text
  import opened Sorting
  import opened Bcp47Subtags
  import opened Bcp47Parser
  import opened TableIso639

  /** The lookup services the validity rules consult. */
  datatype CodeLookups = CodeLookups(
    /** `CIso639_1::LookupByCode(code)` finds the code. */
    iso639_1: string -> bool,
    /** `CIso639_2::LookupByCode(code)` finds the code. */
    iso639_2: string -> bool,
    /** `CIso639_2::BCodeToTCode(code)` finds a T code for the packed B code. */
    bCodeToTCode: Code -> bool,
    /** `g_LangCodeExpander.ConvertToISO6391(code, ...)` succeeds. */
    hasIso639_1: string -> bool,
    /** `CIso3166_1::ContainsAlpha2(code)`. */
    iso3166_1: string -> bool)

  /** `CBcp47`: the subtags and the validity flag computed when the tag was made. */
  datatype Tag = Tag(subtags: Subtags, isValid: bool)
  {
    /** `IsGrandfathered`. */
    predicate IsGrandfathered() { subtags.grandfathered != "" }
  }

  // Validity.

  /** The private-use range "qaa".."qtz" of ISO 639-2, as the source compares it. */
  predicate InReservedLanguageRange(language: string)
  {
    LexLe("qaa", language) && LexLe(language, "qtz")
  }

  /** Reference description of the reserved languages among lower-case three-letter codes. */
  predicate IsReservedLanguage(language: string)
  {
    |language| == 3 && language[0] == 'q' && 'a' <= language[1] <= 't' && IsLower(language[2])
  }

  lemma ReservedLanguageRange(language: string)
    ensures |language| == 3 && AllLowerLetters(language) ==>
      (InReservedLanguageRange(language) <==> IsReservedLanguage(language))
  {
    if |language| == 3 && AllLowerLetters(language) {
      LexOfTriples("qaa", language);
      LexOfTriples(language, "qtz");
      assert IsLower(language[0]) && IsLower(language[1]) && IsLower(language[2]);
    }
  }

  /** `IsValidLanguage`. */
  function IsValidLanguage(lookups: CodeLookups, language: string, privateUse: seq<string>): (r: bool)
    ensures language == "" ==> (r <==> |privateUse| > 0)
    ensures |language| == 2 && IsAsciiLetters(language) ==> (r <==> lookups.iso639_1(language))
    ensures |language| == 3 && AllLowerLetters(language) ==>
      (r <==> IsReservedLanguage(language)
              || ((lookups.iso639_2(language) || lookups.bCodeToTCode(StringToLongCode(language)))
                  && !lookups.hasIso639_1(language)))
    ensures language != "" && !((|language| == 2 || |language| == 3) && IsAsciiLetters(language)) ==> !r
  {
    ReservedLanguageRange(language);
    if language == "" then
      |privateUse| > 0
    else if |language| == 2 && IsAsciiLetters(language) then
      lookups.iso639_1(language)
    else if |language| == 3 && IsAsciiLetters(language) then
      if InReservedLanguageRange(language) then true
      else if !lookups.iso639_2(language) && !lookups.bCodeToTCode(StringToLongCode(language)) then false
      else if lookups.hasIso639_1(language) then false
      else true
    else false
  }

  /** The private-use and reserved region ranges, as the source compares them. */
  predicate InReservedRegionRange(region: string)
  {
    || region == "aa"
    || (LexLe("qm", region) && LexLe(region, "qz"))
    || (LexLe("xa", region) && LexLe(region, "xz"))
    || region == "zz"
  }

  /** Reference description of the reserved regions among lower-case two-letter codes. */
  predicate IsReservedRegion(region: string)
  {
    && |region| == 2
    && (|| region == "aa" || region == "zz"
        || (region[0] == 'q' && 'm' <= region[1] <= 'z')
        || (region[0] == 'x' && IsLower(region[1])))
  }

  lemma ReservedRegionRange(region: string)
    ensures |region| == 2 && AllLowerLetters(region) ==>
      (InReservedRegionRange(region) <==> IsReservedRegion(region))
  {
    if |region| == 2 && AllLowerLetters(region) {
      LexOfPairs("qm", region);
      LexOfPairs(region, "qz");
      LexOfPairs("xa", region);
      LexOfPairs(region, "xz");
      assert IsLower(region[0]) && IsLower(region[1]);
    }
  }

  /** No three-digit text lies in the reserved region ranges: they start with a letter. */
  lemma DigitsOutsideReservedRegions(region: string)
    ensures |region| == 3 && AllDigits(region) ==> !InReservedRegionRange(region)
  {
    if |region| == 3 && AllDigits(region) {
      assert IsDigit(region[0]);
      assert LexLess(region, "qm");
      assert LexLess(region, "xa");
    }
  }

  /** `IsValidRegion`. */
  function IsValidRegion(lookups: CodeLookups, region: string): (r: bool)
    ensures region == "" ==> r
    ensures |region| == 2 && AllLowerLetters(region) ==>
      (r <==> IsReservedRegion(region) || lookups.iso3166_1(region))
    ensures |region| == 3 && AllDigits(region) ==> !r
  {
    ReservedRegionRange(region);
    DigitsOutsideReservedRegions(region);
    if region == "" then true
    else if InReservedRegionRange(region) then true
    else if |region| == 2 && IsAsciiLetters(region) then lookups.iso3166_1(region)
    else false
  }

  /** `HasMultipleExtLang`. */
  predicate HasMultipleExtLang(extLangs: seq<string>)
  {
    |extLangs| > 1
  }

  /** `HasDuplicateVariants`: sorts the variants and looks for equal neighbours. */
  function HasDuplicateVariants(variants: seq<string>): (r: bool)
    ensures r <==> HasDuplicates(variants)
  {
    if |variants| < 2 then false
    else
      LexLeTotalOrder();
      var sorted := SortBy(variants, LexLe);
      AdjacentFindSorted(sorted, LexLe);
      DuplicatesPermutation(sorted, variants);
      AdjacentFind(sorted) < |sorted|
  }

  /** `HasDuplicateExtensions`: sorts the singletons and looks for equal neighbours. */
  function HasDuplicateExtensions(extensions: seq<Extension>): (r: bool)
    ensures r <==> HasDuplicates(Names(extensions))
  {
    if |extensions| < 2 then false
    else
      var names := Names(extensions);
      var sorted := SortBy(names, CharLe);
      AdjacentFindSorted(sorted, CharLe);
      DuplicatesPermutation(sorted, names);
      AdjacentFind(sorted) < |sorted|
  }

  predicate CharLe(a: char, b: char) { a <= b }

  /** The validity rules, stated on their own. */
  predicate ValidByRules(lookups: CodeLookups, st: Subtags)
  {
    || st.grandfathered != ""
    || (&& IsValidLanguage(lookups, st.language, st.privateUse)
        && IsValidRegion(lookups, st.region)
        && |st.extLangs| <= 1
        && !HasDuplicates(st.variants)
        && !HasDuplicates(Names(st.extensions)))
  }

  /** `Validate`: the checks in the source's order, stopping at the first failure. */
  function Validate(lookups: CodeLookups, st: Subtags): (r: bool)
    ensures r <==> ValidByRules(lookups, st)
  {
    if st.grandfathered != "" then true
    else if !IsValidLanguage(lookups, st.language, st.privateUse) || !IsValidRegion(lookups, st.region) then false
    else if HasMultipleExtLang(st.extLangs) then false
    else if HasDuplicateVariants(st.variants) then false
    else if HasDuplicateExtensions(st.extensions) then false
    else true
  }

  /** The flag a tag carries is the verdict of `Validate` on its subtags. */
  predicate Consistent(lookups: CodeLookups, t: Tag)
  {
    t.isValid == Validate(lookups, t.subtags)
  }

  /** The subtags a tag can hold: a grandfathered literal alone, or well-formed subtags. */
  predicate Shaped(st: Subtags)
  {
    || (st.grandfathered != "" && st == EmptySubtags.(grandfathered := st.grandfathered))
    || WellFormed(st)
  }

  // Construction.

  /**
   * `CBcp47::ParseTag`: nothing for a text that is neither grandfathered nor
   * well-formed; otherwise the parser's subtags with their validity.
   */
  function ParseTag(lookups: CodeLookups, text: string): (r: Option<Tag>)
    ensures r.None? <==>
      && !IsGrandfatheredText(Lower(text))
      && forall st :: WellFormed(st) ==> Join(Pieces(st), "-") != Lower(text)
    ensures r.Some? ==> Consistent(lookups, r.value) && Shaped(r.value.subtags)
    ensures r.Some? && r.value.IsGrandfathered() ==>
      r.value.subtags.grandfathered == Lower(text) && IsGrandfatheredText(Lower(text))
    ensures r.Some? && !r.value.IsGrandfathered() ==>
      Join(Pieces(r.value.subtags), "-") == Lower(text) && !IsGrandfatheredText(Lower(text))
  {
    ParseMalformedIff(text);
    var p := Parse(text);
    if p.kind == Malformed then None
    else Some(Tag(p.subtags, Validate(lookups, p.subtags)))
  }

  // Formatting.

  /** The text of the extensions: "-name-segments" for each, in stored order. */
  function ExtensionsText(exts: seq<Extension>): string
  {
    if |exts| == 0 then ""
    else "-" + [exts[0].name] + "-" + Join(exts[0].segments, "-") + ExtensionsText(exts[1..])
  }

  /** The language-based part of `Format`: empty when there is no language. */
  function LangtagText(st: Subtags): string
  {
    if st.language == "" then ""
    else
      st.language
      + (if st.extLangs != [] then "-" + Join(st.extLangs, "-") else "")
      + (if st.script != "" then "-" + Capitalize(st.script) else "")
      + (if st.region != "" then "-" + Upper(st.region) else "")
      + (if st.variants != [] then "-" + Join(st.variants, "-") else "")
      + ExtensionsText(st.extensions)
  }

  /** `CBcp47::Format`. */
  function Format(t: Tag): string
  {
    var st := t.subtags;
    if st.grandfathered != "" then st.grandfathered
    else
      var tag := LangtagText(st);
      if st.privateUse != [] then
        (if tag != "" then tag + "-" else tag) + "x-" + Join(st.privateUse, "-")
      else tag
  }

  /** The pieces in the recommended casing: script in title case, region in upper case. */
  function FormatPieces(st: Subtags): seq<string>
  {
    Pieces(st.(script := Capitalize(st.script), region := Upper(st.region)))
  }

  /** For well-formed subtags, `Format` joins the cased pieces with '-'. */
  lemma FormatIsJoin(t: Tag)
    requires WellFormed(t.subtags)
    ensures Format(t) == Join(FormatPieces(t.subtags), "-")
  {
    var st := t.subtags;
    var cs := st.(script := Capitalize(st.script), region := Upper(st.region));
    var pu := PrivateUsePieces(st.privateUse);
    if st.language == "" {
      PrivateUseText(st.privateUse);
    } else {
      LangtagJoin(st);
      if |st.privateUse| > 0 {
        PrivateUseText(st.privateUse);
        JoinAppend(Pieces(cs)[..|Pieces(cs)| - |pu|], pu, "-");
        assert Pieces(cs) == Pieces(cs)[..|Pieces(cs)| - |pu|] + pu;
      } else {
        assert Pieces(cs) == Pieces(cs)[..|Pieces(cs)| - |pu|];
      }
    }
  }

  /** The private-use text: "x-" then the segments. */
  lemma PrivateUseText(pu: seq<string>)
    requires |pu| > 0
    ensures Join(PrivateUsePieces(pu), "-") == "x-" + Join(pu, "-")
  {
    JoinCons("x", pu, "-");
  }

  /** The language-based text joins the cased pieces before private use. */
  lemma LangtagJoin(st: Subtags)
    requires WellFormed(st) && st.language != ""
    ensures var cs := st.(script := Capitalize(st.script), region := Upper(st.region));
      && |Pieces(cs)| >= |PrivateUsePieces(st.privateUse)| + 1
      && Pieces(cs) == Pieces(cs)[..|Pieces(cs)| - |PrivateUsePieces(st.privateUse)|] + PrivateUsePieces(st.privateUse)
      && LangtagText(st) == Join(Pieces(cs)[..|Pieces(cs)| - |PrivateUsePieces(st.privateUse)|], "-")
  {
    var cs := st.(script := Capitalize(st.script), region := Upper(st.region));
    var pu := PrivateUsePieces(st.privateUse);
    var head := [st.language] + st.extLangs + Optional(cs.script) + Optional(cs.region) + st.variants;
    var ep := ExtensionPieces(st.extensions);
    assert Pieces(cs) == head + ep + pu;
    assert Pieces(cs)[..|Pieces(cs)| - |pu|] == head + ep;
    HeadJoin(st);
    ExtensionsJoin(head, st.extensions);
  }

  /** The text up to the variants joins the cased pieces up to the variants. */
  lemma HeadJoin(st: Subtags)
    requires WellFormed(st) && st.language != ""
    ensures var cs := st.(script := Capitalize(st.script), region := Upper(st.region));
      Join([st.language] + st.extLangs + Optional(cs.script) + Optional(cs.region) + st.variants, "-")
      == st.language
         + (if st.extLangs != [] then "-" + Join(st.extLangs, "-") else "")
         + (if st.script != "" then "-" + Capitalize(st.script) else "")
         + (if st.region != "" then "-" + Upper(st.region) else "")
         + (if st.variants != [] then "-" + Join(st.variants, "-") else "")
  {
    var cs := st.(script := Capitalize(st.script), region := Upper(st.region));
    assert Optional(cs.script) == (if st.script != "" then [Capitalize(st.script)] else []);
    assert Optional(cs.region) == (if st.region != "" then [Upper(st.region)] else []);
    var a := [st.language];
    var b := a + st.extLangs;
    JoinAppendOptional(a, st.extLangs);
    var c := b + Optional(cs.script);
    JoinAppendOptional(b, Optional(cs.script));
    var d := c + Optional(cs.region);
    JoinAppendOptional(c, Optional(cs.region));
    JoinAppendOptional(d, st.variants);
  }

  /** Appending a possibly empty list of parts to a non-empty one. */
  lemma JoinAppendOptional(a: seq<string>, b: seq<string>)
    requires |a| > 0
    ensures Join(a + b, "-") == Join(a, "-") + (if b != [] then "-" + Join(b, "-") else "")
  {
    if b == [] {
      assert a + b == a;
    } else {
      JoinAppend(a, b, "-");
    }
  }

  /** The extensions' text continues a join of non-empty parts. */
  lemma {:induction false} ExtensionsJoin(head: seq<string>, exts: seq<Extension>)
    requires |head| > 0
    requires forall k :: 0 <= k < |exts| ==> WellFormedExtension(exts[k])
    ensures Join(head + ExtensionPieces(exts), "-") == Join(head, "-") + ExtensionsText(exts)
    decreases |exts|
  {
    if |exts| > 0 {
      var e := exts[0];
      var head' := head + [[e.name]] + e.segments;
      ExtensionsJoin(head', exts[1..]);
      ExtensionsJoinStep(head, exts);
    } else {
      assert head + ExtensionPieces(exts) == head;
    }
  }

  /** The first block of `exts` moves from the pieces into the head. */
  lemma ExtensionsJoinStep(head: seq<string>, exts: seq<Extension>)
    requires |head| > 0 && |exts| > 0 && |exts[0].segments| > 0
    requires var head' := head + [[exts[0].name]] + exts[0].segments;
      Join(head' + ExtensionPieces(exts[1..]), "-") == Join(head', "-") + ExtensionsText(exts[1..])
    ensures Join(head + ExtensionPieces(exts), "-") == Join(head, "-") + ExtensionsText(exts)
  {
    var e := exts[0];
    var head' := head + [[e.name]] + e.segments;
    PiecesShift(head, exts);
    ExtensionBlockJoin(head, e);
    var joined, segments, tail := Join(head, "-"), Join(e.segments, "-"), ExtensionsText(exts[1..]);
    var block := "-" + [e.name] + "-" + segments;
    BlockAssociative(joined, [e.name], segments);
    ConcatAssociative(joined, block, tail);
    assert ExtensionsText(exts) == block + tail;
  }

  lemma ConcatAssociative(a: string, b: string, c: string)
    ensures (a + b) + c == a + (b + c)
  {
  }

  lemma PiecesShift(head: seq<string>, exts: seq<Extension>)
    requires |exts| > 0
    ensures head + ExtensionPieces(exts) == head + [[exts[0].name]] + exts[0].segments + ExtensionPieces(exts[1..])
  {
  }

  lemma BlockAssociative(joined: string, name: string, segments: string)
    ensures joined + "-" + name + "-" + segments == joined + ("-" + name + "-" + segments)
  {
  }

  /** One extension block appended to a join of non-empty parts. */
  lemma ExtensionBlockJoin(head: seq<string>, e: Extension)
    requires |head| > 0 && |e.segments| > 0
    ensures Join(head + [[e.name]] + e.segments, "-") == Join(head, "-") + "-" + [e.name] + "-" + Join(e.segments, "-")
  {
    JoinAppend(head, [[e.name]], "-");
    JoinSingle([e.name], "-");
    JoinAppend(head + [[e.name]], e.segments, "-");
  }

  /** Lower-casing the cased pieces gives back the stored pieces. */
  lemma FormatPiecesLower(st: Subtags)
    requires WellFormed(st)
    ensures Lower(Join(FormatPieces(st), "-")) == Join(Pieces(st), "-")
  {
    var cs := st.(script := Capitalize(st.script), region := Upper(st.region));
    LowerJoin(FormatPieces(st), "-");
    LowerOfCapitalize(st.script);
    LowerOfUpper(st.region);
    LowerOfNoUpper(st.script);
    LowerOfNoUpper(st.region);
    assert Lower("-") == "-";
    if st.language != "" {
      assert Capitalize(st.script) == "" <==> st.script == "";
      assert Upper(st.region) == "" <==> st.region == "";
      assert LowerAll(Optional(cs.script)) == Optional(st.script);
      assert LowerAll(Optional(cs.region)) == Optional(st.region);
    }
    LowerAllPieces(st);
    LowerAllConcat(st);
  }

  /** Every stored piece is already lower-case. */
  lemma LowerAllPieces(st: Subtags)
    requires WellFormed(st)
    ensures LowerAll(Pieces(st)) == Pieces(st)
  {
    PiecesShape(st);
    var ps := Pieces(st);
    forall k | 0 <= k < |ps|
      ensures LowerAll(ps)[k] == ps[k]
    {
      assert NoUpper(ps[k]);
      LowerOfNoUpper(ps[k]);
    }
  }

  /** Lower-casing the cased pieces undoes the casing of script and region only. */
  lemma LowerAllConcat(st: Subtags)
    requires WellFormed(st)
    ensures LowerAll(FormatPieces(st)) == LowerAll(Pieces(st))
  {
    var cs := st.(script := Capitalize(st.script), region := Upper(st.region));
    LowerOfCapitalize(st.script);
    LowerOfUpper(st.region);
    var fp, ps := FormatPieces(st), Pieces(st);
    if st.language != "" {
      var n := 1 + |st.extLangs|;
      assert |Optional(cs.script)| == |Optional(st.script)|;
      assert |Optional(cs.region)| == |Optional(st.region)|;
      assert |fp| == |ps|;
      forall k | 0 <= k < |fp|
        ensures Lower(fp[k]) == Lower(ps[k])
      {
        var ns := |Optional(st.script)|;
        if n <= k < n + ns {
          assert fp[k] == Capitalize(st.script) && ps[k] == st.script;
        } else if n + ns <= k < n + ns + |Optional(st.region)| {
          assert fp[k] == Upper(st.region) && ps[k] == st.region;
        } else {
          assert fp[k] == ps[k];
        }
      }
    } else {
      assert fp == ps;
    }
  }

  /** `Format` keeps the text up to case: its lower-case form is that of the parsed text. */
  lemma FormatLowerCase(lookups: CodeLookups, text: string)
    requires ParseTag(lookups, text).Some?
    ensures Lower(Format(ParseTag(lookups, text).value)) == Lower(text)
  {
    var t := ParseTag(lookups, text).value;
    if !t.IsGrandfathered() {
      FormatIsJoin(t);
      FormatPiecesLower(t.subtags);
    } else {
      LowerIdempotent(text);
    }
  }

  /**
   * Formatting then parsing gives the tag back, for a tag whose text is not
   * one of the grandfathered literals (a grandfathered literal is read back as
   * such, whatever subtags spelled it).
   */
  lemma FormatParseRoundTrip(lookups: CodeLookups, t: Tag)
    requires Shaped(t.subtags) && Consistent(lookups, t)
    requires !t.IsGrandfathered() ==> !IsGrandfatheredText(Join(Pieces(t.subtags), "-"))
    requires t.IsGrandfathered() ==> IsGrandfatheredText(t.subtags.grandfathered)
    ensures ParseTag(lookups, Format(t)) == Some(t)
  {
    var st := t.subtags;
    if t.IsGrandfathered() {
      LowerOfGrandfathered(st.grandfathered);
    } else {
      FormatIsJoin(t);
      FormatPiecesLower(st);
      ParseComplete(st, Format(t));
    }
  }

  /** The grandfathered literals are lower-case. */
  lemma LowerOfGrandfathered(s: string)
    requires IsGrandfatheredText(s)
    ensures Lower(s) == s
  {
    assert NoUpper(s);
    LowerOfNoUpper(s);
  }

  /** A tag made from text formats to a text that makes the same tag. */
  lemma ParseFormatParse(lookups: CodeLookups, text: string)
    requires ParseTag(lookups, text).Some?
    ensures ParseTag(lookups, Format(ParseTag(lookups, text).value)) == ParseTag(lookups, text)
  {
    var t := ParseTag(lookups, text).value;
    FormatParseRoundTrip(lookups, t);
  }

  // Canonicalisation and the audio tag.

  predicate ExtensionLe(a: Extension, b: Extension) { a.name <= b.name }

  lemma ExtensionLeTotal()
    ensures TotalPreorder(ExtensionLe)
  {
  }

  /** `Canonicalize`: the extensions sorted by singleton; nothing else changes, not even the flag. */
  function Canonicalize(t: Tag): (r: Tag)
    ensures IsSortingOf(r.subtags.extensions, t.subtags.extensions, ExtensionLe)
    ensures r.subtags.(extensions := t.subtags.extensions) == t.subtags
    ensures r.isValid == t.isValid
  {
    ExtensionLeTotal();
    Tag(t.subtags.(extensions := SortBy(t.subtags.extensions, ExtensionLe)), t.isValid)
  }

  /** Sorting with distinct singletons has one outcome, whatever order the sort leaves equal names in. */
  lemma CanonicalizeUnique(t: Tag, exts: seq<Extension>)
    requires !HasDuplicates(Names(t.subtags.extensions))
    requires IsSortingOf(exts, t.subtags.extensions, ExtensionLe)
    ensures Canonicalize(t).subtags.extensions == exts
  {
    ExtensionLeTotal();
    var e := t.subtags.extensions;
    DistinctNamesEquivalentsEqual(e);
    EquivalentsEqualPermutation(e, exts, ExtensionLe);
    SortedPermutationUnique(exts, Canonicalize(t).subtags.extensions, ExtensionLe);
  }

  /** With distinct singletons, extensions that sort together are the same extension. */
  lemma DistinctNamesEquivalentsEqual(e: seq<Extension>)
    requires !HasDuplicates(Names(e))
    ensures EquivalentsEqual(e, ExtensionLe)
  {
    assert forall i, j :: 0 <= i < |e| && 0 <= j < |e| && i != j ==> e[i].name != e[j].name by {
      forall i, j | 0 <= i < |e| && 0 <= j < |e| && i != j
        ensures e[i].name != e[j].name
      {
        assert Names(e)[i] == e[i].name && Names(e)[j] == e[j].name;
      }
    }
  }

  /** Canonicalising twice is canonicalising once, when singletons are distinct. */
  lemma CanonicalizeIdempotent(t: Tag)
    requires !HasDuplicates(Names(t.subtags.extensions))
    ensures Canonicalize(Canonicalize(t)) == Canonicalize(t)
  {
    ExtensionLeTotal();
    var c := Canonicalize(t);
    var e := c.subtags.extensions;
    NamesMultiset(e, t.subtags.extensions);
    DuplicatesPermutation(Names(e), Names(t.subtags.extensions));
    DistinctNamesEquivalentsEqual(e);
    SortSorted(e, ExtensionLe);
  }

  /**
   * With a repeated singleton the unstable sort may leave either order:
   * both orders of "a-bc" and "a-de" are sorted permutations of each other.
   */
  lemma CanonicalizeAmbiguousExample()
    ensures var x, y := Extension('a', ["bc"]), Extension('a', ["de"]);
      && IsSortingOf([x, y], [x, y], ExtensionLe)
      && IsSortingOf([y, x], [x, y], ExtensionLe)
      && [x, y] != [y, x]
  {
    var x, y := Extension('a', ["bc"]), Extension('a', ["de"]);
    assert [x, y][0] != [y, x][0];
  }

  /** Reordering the extensions does not change the verdict of `Validate`. */
  lemma ValidateExtensionOrder(lookups: CodeLookups, st: Subtags, exts: seq<Extension>)
    requires multiset(exts) == multiset(st.extensions)
    ensures Validate(lookups, st.(extensions := exts)) == Validate(lookups, st)
  {
    NamesMultiset(exts, st.extensions);
    DuplicatesPermutation(Names(exts), Names(st.extensions));
  }

  /** Reordering the variants does not change the verdict of `Validate`. */
  lemma ValidateVariantOrder(lookups: CodeLookups, st: Subtags, variants: seq<string>)
    requires multiset(variants) == multiset(st.variants)
    ensures Validate(lookups, st.(variants := variants)) == Validate(lookups, st)
  {
    DuplicatesPermutation(variants, st.variants);
  }

  /** `Canonicalize` keeps a tag's shape and its flag truthful. */
  lemma CanonicalizeConsistent(lookups: CodeLookups, t: Tag)
    requires Shaped(t.subtags) && Consistent(lookups, t)
    ensures Shaped(Canonicalize(t).subtags) && Consistent(lookups, Canonicalize(t))
  {
    var c := Canonicalize(t);
    ValidateExtensionOrder(lookups, t.subtags, c.subtags.extensions);
    if t.IsGrandfathered() {
      assert t.subtags.extensions == [];
      assert c.subtags == t.subtags;
    } else {
      var e, e' := t.subtags.extensions, c.subtags.extensions;
      forall k | 0 <= k < |e'|
        ensures WellFormedExtension(e'[k])
      {
        assert e'[k] in multiset(e);
        var j :| 0 <= j < |e| && e[j] == e'[k];
      }
    }
  }

  /** `ToAudioLanguageTag`: a copy without the script, keeping the flag as it was. */
  function ToAudioLanguageTag(t: Tag): (r: Tag)
    ensures r.subtags.script == ""
    ensures r.subtags.(script := t.subtags.script) == t.subtags
    ensures r.isValid == t.isValid
  {
    Tag(t.subtags.(script := ""), t.isValid)
  }

  /** The validity rules do not look at the script. */
  lemma ValidateIgnoresScript(lookups: CodeLookups, st: Subtags, script: string)
    ensures Validate(lookups, st.(script := script)) == Validate(lookups, st)
  {
  }

  /** The audio tag keeps a tag's shape and its flag truthful; a grandfathered tag formats unchanged. */
  lemma AudioConsistent(lookups: CodeLookups, t: Tag)
    requires Shaped(t.subtags) && Consistent(lookups, t)
    ensures Shaped(ToAudioLanguageTag(t).subtags) && Consistent(lookups, ToAudioLanguageTag(t))
    ensures t.IsGrandfathered() ==> ToAudioLanguageTag(t).IsGrandfathered()
    ensures t.IsGrandfathered() ==> Format(ToAudioLanguageTag(t)) == Format(t)
  {
    ValidateIgnoresScript(lookups, t.subtags, "");
  }

  /**
   * Clearing the script can turn a regular tag into the text of a
   * grandfathered one: "art-Latn-lojban" becomes "art-lojban".
   */
  lemma AudioMayFormatGrandfathered()
    ensures var st := EmptySubtags.(language := "art", script := "latn", variants := ["lojban"]);
      && WellFormed(st)
      && !IsGrandfatheredText(Join(Pieces(st), "-"))
      && IsGrandfatheredText(Format(ToAudioLanguageTag(Tag(st, true))))
  {
    var st := EmptySubtags.(language := "art", script := "latn", variants := ["lojban"]);
    ArtLatnLojbanText(st);
    ArtLojbanText(st);
    assert "art-latn-lojban" !in IrregularGrandfathered;
    assert "art-latn-lojban" !in RegularGrandfathered;
    assert "art-lojban" in RegularGrandfathered;
  }

  lemma ArtLatnLojbanText(st: Subtags)
    requires st == EmptySubtags.(language := "art", script := "latn", variants := ["lojban"])
    ensures WellFormed(st) && Join(Pieces(st), "-") == "art-latn-lojban"
  {
    assert IsVariant("lojban");
    assert Pieces(st) == ["art"] + ["latn", "lojban"];
    JoinCons("art", ["latn", "lojban"], "-");
    assert ["latn", "lojban"] == ["latn"] + ["lojban"];
    JoinCons("latn", ["lojban"], "-");
    JoinSingle("lojban", "-");
  }

  lemma ArtLojbanText(st: Subtags)
    requires st == EmptySubtags.(language := "art", script := "latn", variants := ["lojban"])
    ensures Format(ToAudioLanguageTag(Tag(st, true))) == "art-lojban"
  {
    var a := ToAudioLanguageTag(Tag(st, true));
    assert a.subtags == EmptySubtags.(language := "art", variants := ["lojban"]);
    assert LangtagText(a.subtags) == "art" + "-" + Join(["lojban"], "-");
    JoinSingle("lojban", "-");
  }
}
