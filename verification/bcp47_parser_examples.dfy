/**
 * Worked examples of the parser contract, one per behaviour the parser's
 * unit tests pin down: the lengths a language subtag may have, extended
 * language subtags, script, both kinds of region, variants, extension blocks
 * kept apart even when their singletons repeat, private use, and the two
 * kinds of grandfathered tag.
 */
module Bcp47ParserExamples {
  import opened Ascii
  import opened Text
  import opened Bcp47Subtags
  import opened Bcp47Parser
  import opened Bcp47Examples

  /** A lower-case, non-grandfathered text spelling well-formed subtags parses to exactly them. */
  lemma ParseOf(text: string, st: Subtags)
    requires WellFormed(st)
    requires Join(Pieces(st), "-") == text
    requires NoUpper(text)
    requires !IsGrandfatheredText(text)
    ensures Parse(text) == ParsedTag(KindOf(st), st)
  {
    LowerOfNoUpper(text);
    ParseComplete(st, text);
  }

  lemma Join7(a: string, b: string, c: string, d: string, e: string, f: string, g: string)
    ensures Join([a, b, c, d, e, f, g], "-") == a + "-" + b + "-" + c + "-" + d + "-" + e + "-" + f + "-" + g
  {
    assert [a, b, c, d, e, f, g] == [a, b, c] + [d, e, f, g];
    JoinAppend([a, b, c], [d, e, f, g], "-");
    Join3(a, b, c);
    Join4(d, e, f, g);
  }

  /** "ab": a two-letter language alone. */
  lemma TwoLetterLanguage()
    ensures Parse("ab") == ParsedTag(Regular, EmptySubtags.(language := "ab"))
  {
    var st := EmptySubtags.(language := "ab");
    assert Pieces(st) == ["ab"];
    JoinSingle("ab", "-");
    assert "ab" !in IrregularGrandfathered && "ab" !in RegularGrandfathered;
    ParseOf("ab", st);
  }

  /** "abc-def-ghi": three-letter subtags after a three-letter language are extended languages, in order. */
  lemma ExtendedLanguages()
    ensures Parse("abc-def-ghi") == ParsedTag(Regular, EmptySubtags.(language := "abc", extLangs := ["def", "ghi"]))
  {
    var st := EmptySubtags.(language := "abc", extLangs := ["def", "ghi"]);
    ExtendedLanguagesPieces(st);
    assert "abc-def-ghi" !in IrregularGrandfathered && "abc-def-ghi" !in RegularGrandfathered;
    ParseOf("abc-def-ghi", st);
  }

  lemma ExtendedLanguagesPieces(st: Subtags)
    requires st == EmptySubtags.(language := "abc", extLangs := ["def", "ghi"])
    ensures WellFormed(st) && Join(Pieces(st), "-") == "abc-def-ghi"
  {
    assert IsExtLang("def") && IsExtLang("ghi");
    assert Pieces(st) == ["abc", "def", "ghi"];
    Join3("abc", "def", "ghi");
  }

  /** "abcde": a registered language of five to eight letters. */
  lemma FiveLetterLanguage()
    ensures Parse("abcde") == ParsedTag(Regular, EmptySubtags.(language := "abcde"))
  {
    var st := EmptySubtags.(language := "abcde");
    assert Pieces(st) == ["abcde"];
    JoinSingle("abcde", "-");
    assert "abcde" !in IrregularGrandfathered && "abcde" !in RegularGrandfathered;
    ParseOf("abcde", st);
  }

  /** "montenegro": ten letters are too many for a language, so the text is malformed. */
  lemma TenLettersMalformed()
    ensures Parse("montenegro") == MalformedTag
  {
    LowerOfNoUpper("montenegro");
    assert "montenegro" !in IrregularGrandfathered && "montenegro" !in RegularGrandfathered;
    SplitNoSeparator("montenegro", '-');
    assert !IsLanguage("montenegro");
  }

  /** "ab-abcd": a four-letter subtag is the script. */
  lemma Script()
    ensures Parse("ab-abcd") == ParsedTag(Regular, EmptySubtags.(language := "ab", script := "abcd"))
  {
    var st := EmptySubtags.(language := "ab", script := "abcd");
    assert IsScript("abcd");
    assert Pieces(st) == ["ab", "abcd"];
    Join2("ab", "abcd");
    assert "ab-abcd" !in IrregularGrandfathered && "ab-abcd" !in RegularGrandfathered;
    ParseOf("ab-abcd", st);
  }

  /** "ab-ab": a two-letter region (ISO 3166-1). */
  lemma LetterRegion()
    ensures Parse("ab-ab") == ParsedTag(Regular, EmptySubtags.(language := "ab", region := "ab"))
  {
    var st := EmptySubtags.(language := "ab", region := "ab");
    assert IsRegion("ab") && !IsExtLang("ab") && !IsScript("ab");
    assert Pieces(st) == ["ab", "ab"];
    Join2("ab", "ab");
    assert "ab-ab" !in IrregularGrandfathered && "ab-ab" !in RegularGrandfathered;
    ParseOf("ab-ab", st);
  }

  /** "ab-012": a three-digit region (UN M.49). */
  lemma DigitRegion()
    ensures Parse("ab-012") == ParsedTag(Regular, EmptySubtags.(language := "ab", region := "012"))
  {
    var st := EmptySubtags.(language := "ab", region := "012");
    assert IsRegion("012");
    assert Pieces(st) == ["ab", "012"];
    Join2("ab", "012");
    assert "ab-012" !in IrregularGrandfathered && "ab-012" !in RegularGrandfathered;
    ParseOf("ab-012", st);
  }

  /** "ab-abcde-0abc-1def": variants of five letters or of a digit and three characters, in order. */
  lemma Variants()
    ensures Parse("ab-abcde-0abc-1def") == ParsedTag(Regular, EmptySubtags.(language := "ab", variants := ["abcde", "0abc", "1def"]))
  {
    var st := EmptySubtags.(language := "ab", variants := ["abcde", "0abc", "1def"]);
    VariantsPieces(st);
    VariantsPlain();
    ParseOf("ab-abcde-0abc-1def", st);
  }

  lemma VariantsPlain()
    ensures NoUpper("ab-abcde-0abc-1def")
    ensures !IsGrandfatheredText("ab-abcde-0abc-1def")
  {
    assert "ab-abcde-0abc-1def" !in IrregularGrandfathered;
    assert "ab-abcde-0abc-1def" !in RegularGrandfathered;
  }

  lemma VariantsPieces(st: Subtags)
    requires st == EmptySubtags.(language := "ab", variants := ["abcde", "0abc", "1def"])
    ensures WellFormed(st) && Join(Pieces(st), "-") == "ab-abcde-0abc-1def"
  {
    VariantsWellFormed(st);
    VariantsText(st);
  }

  lemma VariantsText(st: Subtags)
    requires st == EmptySubtags.(language := "ab", variants := ["abcde", "0abc", "1def"])
    ensures Join(Pieces(st), "-") == "ab-abcde-0abc-1def"
  {
    PiecesOfVariants(st);
    Join4("ab", "abcde", "0abc", "1def");
  }

  lemma PiecesOfVariants(st: Subtags)
    requires st == EmptySubtags.(language := "ab", variants := ["abcde", "0abc", "1def"])
    ensures Pieces(st) == ["ab", "abcde", "0abc", "1def"]
  {
  }

  lemma VariantsWellFormed(st: Subtags)
    requires st == EmptySubtags.(language := "ab", variants := ["abcde", "0abc", "1def"])
    ensures WellFormed(st)
  {
    forall k | 0 <= k < |st.variants|
      ensures IsVariant(st.variants[k])
    {
      if k == 0 { } else if k == 1 { } else { }
    }
  }

  /** "ab-a-bc-de-a-fg-hi": two blocks with the same singleton stay two blocks, in order. */
  lemma RepeatedSingletonBlocks()
    ensures Parse("ab-a-bc-de-a-fg-hi") == ParsedTag(Regular, EmptySubtags.(language := "ab",
      extensions := [Extension('a', ["bc", "de"]), Extension('a', ["fg", "hi"])]))
  {
    var st := EmptySubtags.(language := "ab", extensions := [Extension('a', ["bc", "de"]), Extension('a', ["fg", "hi"])]);
    RepeatedSingletonPieces(st);
    RepeatedSingletonText();
    ParseOf("ab-a-bc-de-a-fg-hi", st);
  }

  lemma RepeatedSingletonText()
    ensures NoUpper("ab-a-bc-de-a-fg-hi")
    ensures !IsGrandfatheredText("ab-a-bc-de-a-fg-hi")
  {
    assert "ab-a-bc-de-a-fg-hi" !in IrregularGrandfathered;
    assert "ab-a-bc-de-a-fg-hi" !in RegularGrandfathered;
  }

  lemma RepeatedSingletonPieces(st: Subtags)
    requires st == EmptySubtags.(language := "ab", extensions := [Extension('a', ["bc", "de"]), Extension('a', ["fg", "hi"])])
    ensures WellFormed(st) && Join(Pieces(st), "-") == "ab-a-bc-de-a-fg-hi"
  {
    var x, y := st.extensions[0], st.extensions[1];
    RepeatedSingletonExtensionPieces(x, y);
    assert st.extensions == [x, y];
    RepeatedSingletonJoin(st);
  }

  lemma RepeatedSingletonJoin(st: Subtags)
    requires st.language == "ab" && Pieces(st) == ["ab"] + ["a", "bc", "de", "a", "fg", "hi"]
    ensures Join(Pieces(st), "-") == "ab-a-bc-de-a-fg-hi"
  {
    assert ["ab"] + ["a", "bc", "de", "a", "fg", "hi"] == ["ab", "a", "bc", "de", "a", "fg", "hi"];
    Join7("ab", "a", "bc", "de", "a", "fg", "hi");
  }

  lemma RepeatedSingletonExtensionPieces(x: Extension, y: Extension)
    requires x == Extension('a', ["bc", "de"]) && y == Extension('a', ["fg", "hi"])
    ensures WellFormedExtension(x) && WellFormedExtension(y)
    ensures ExtensionPieces([x, y]) == ["a", "bc", "de", "a", "fg", "hi"]
  {
    TwoSegmentExtension('a', "bc", "de");
    TwoSegmentExtension('a', "fg", "hi");
    TwoExtensionPieces(x, y);
    assert [[x.name]] + x.segments == ["a", "bc", "de"];
    assert [[y.name]] + y.segments == ["a", "fg", "hi"];
    assert ["a", "bc", "de"] + ["a", "fg", "hi"] == ["a", "bc", "de", "a", "fg", "hi"];
  }

  lemma TwoExtensionPieces(x: Extension, y: Extension)
    ensures ExtensionPieces([x, y]) == ([[x.name]] + x.segments) + ([[y.name]] + y.segments)
  {
    assert [x, y] == [x] + ([y] + []);
    ExtensionPiecesCons1(y, []);
    ExtensionPiecesCons1(x, [y] + []);
  }

  lemma TwoSegmentExtension(name: char, s1: string, s2: string)
    requires IsSingletonChar(name) && IsExtensionSegment(s1) && IsExtensionSegment(s2)
    ensures WellFormedExtension(Extension(name, [s1, s2]))
  {
  }

  /** "ab-x-b-cdefghij": private use after a language, segments of one to eight characters. */
  lemma PrivateUseAfterLanguage()
    ensures Parse("ab-x-b-cdefghij") == ParsedTag(Regular, EmptySubtags.(language := "ab", privateUse := ["b", "cdefghij"]))
  {
    var st := EmptySubtags.(language := "ab", privateUse := ["b", "cdefghij"]);
    PrivateUseAfterLanguagePieces(st);
    assert "ab-x-b-cdefghij" !in IrregularGrandfathered && "ab-x-b-cdefghij" !in RegularGrandfathered;
    ParseOf("ab-x-b-cdefghij", st);
  }

  lemma PrivateUseAfterLanguagePieces(st: Subtags)
    requires st == EmptySubtags.(language := "ab", privateUse := ["b", "cdefghij"])
    ensures WellFormed(st) && Join(Pieces(st), "-") == "ab-x-b-cdefghij"
  {
    forall k | 0 <= k < |st.privateUse|
      ensures IsPrivateUseSegment(st.privateUse[k])
    {
      if k == 0 { } else { }
    }
    PrivateUseAfterLanguageText(st);
  }

  lemma PrivateUseAfterLanguageText(st: Subtags)
    requires st == EmptySubtags.(language := "ab", privateUse := ["b", "cdefghij"])
    ensures Join(Pieces(st), "-") == "ab-x-b-cdefghij"
  {
    assert Pieces(st) == ["ab", "x", "b", "cdefghij"];
    Join4("ab", "x", "b", "cdefghij");
  }

  /** "x-a-bcd": private use alone is PRIVATE_USE with an empty language. */
  lemma PrivateUseOnly()
    ensures Parse("x-a-bcd") == ParsedTag(PrivateUse, EmptySubtags.(privateUse := ["a", "bcd"]))
  {
    var st := EmptySubtags.(privateUse := ["a", "bcd"]);
    assert IsPrivateUseSegment("a") && IsPrivateUseSegment("bcd");
    assert Pieces(st) == ["x", "a", "bcd"];
    Join3("x", "a", "bcd");
    assert "x-a-bcd" !in IrregularGrandfathered && "x-a-bcd" !in RegularGrandfathered;
    ParseOf("x-a-bcd", st);
  }

  /** "i-ami" and "cel-gaulish": grandfathered, with only the grandfathered field set, to the text. */
  lemma GrandfatheredTags()
    ensures Parse("i-ami") == ParsedTag(Grandfathered, EmptySubtags.(grandfathered := "i-ami"))
    ensures Parse("cel-gaulish") == ParsedTag(Grandfathered, EmptySubtags.(grandfathered := "cel-gaulish"))
  {
    LowerOfNoUpper("i-ami");
    LowerOfNoUpper("cel-gaulish");
  }

  /** A default parse result is MALFORMED with every field empty. */
  lemma DefaultIsMalformed()
    ensures MalformedTag.kind == Malformed
    ensures MalformedTag.subtags == Subtags("", [], "", "", [], [], [], "")
  {
  }
}
