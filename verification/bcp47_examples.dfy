/**
 * Worked examples of the language-tag value, one per behaviour the tag's
 * unit tests pin down: casing on output, the audio tag, canonical order of
 * extensions and the duplicate rules. The lookup services are left open, so
 * each example holds for every content of the code tables, or says which
 * table entry it depends on.
 */
module Bcp47Examples {
  import opened Wrappers
  import opened Ascii
  import opened Text
  import opened Sorting
  import opened Bcp47Subtags
  import opened Bcp47Parser
  import opened Bcp47

  /** A text spelling well-formed subtags, up to case, makes the tag of those subtags. */
  lemma ParseTagOf(lookups: CodeLookups, text: string, st: Subtags)
    requires WellFormed(st)
    requires Lower(text) == Join(Pieces(st), "-")
    requires !IsGrandfatheredText(Lower(text))
    ensures ParseTag(lookups, text) == Some(Tag(st, Validate(lookups, st)))
  {
    ParseComplete(st, text);
  }

  lemma Join2(a: string, b: string)
    ensures Join([a, b], "-") == a + "-" + b
  {
    assert [a, b] == [a] + [b];
    JoinCons(a, [b], "-");
    JoinSingle(b, "-");
  }

  lemma Join3(a: string, b: string, c: string)
    ensures Join([a, b, c], "-") == a + "-" + b + "-" + c
  {
    assert [a, b, c] == [a] + [b, c];
    JoinCons(a, [b, c], "-");
    Join2(b, c);
  }

  lemma Join4(a: string, b: string, c: string, d: string)
    ensures Join([a, b, c, d], "-") == a + "-" + b + "-" + c + "-" + d
  {
    assert [a, b, c, d] == [a] + [b, c, d];
    JoinCons(a, [b, c, d], "-");
    Join3(b, c, d);
  }

  /** "en-variant-variant" is a well-formed tag that is never valid: its variant repeats. */
  lemma RepeatedVariantInvalid(lookups: CodeLookups)
    ensures ParseTag(lookups, "en-variant-variant").Some?
    ensures !ParseTag(lookups, "en-variant-variant").value.isValid
  {
    var st := EmptySubtags.(language := "en", variants := ["variant", "variant"]);
    RepeatedVariantText(st);
    ParseTagOf(lookups, "en-variant-variant", st);
    assert HasDuplicates(st.variants) by {
      assert st.variants[0] == st.variants[1];
    }
  }

  lemma RepeatedVariantText(st: Subtags)
    requires st == EmptySubtags.(language := "en", variants := ["variant", "variant"])
    ensures WellFormed(st)
    ensures Lower("en-variant-variant") == Join(Pieces(st), "-")
    ensures !IsGrandfatheredText(Lower("en-variant-variant"))
  {
    RepeatedVariantPieces(st);
    LowerOfNoUpper("en-variant-variant");
    assert "en-variant-variant" !in IrregularGrandfathered;
    assert "en-variant-variant" !in RegularGrandfathered;
  }

  lemma RepeatedVariantPieces(st: Subtags)
    requires st == EmptySubtags.(language := "en", variants := ["variant", "variant"])
    ensures WellFormed(st)
    ensures Join(Pieces(st), "-") == "en-variant-variant"
  {
    assert IsVariant("variant");
    assert Pieces(st) == ["en", "variant", "variant"];
    Join3("en", "variant", "variant");
  }

  /** "en-variant" is valid exactly when "en" is an ISO 639-1 code. */
  lemma SingleVariantValid(lookups: CodeLookups)
    ensures ParseTag(lookups, "en-variant").Some?
    ensures ParseTag(lookups, "en-variant").value.isValid <==> lookups.iso639_1("en")
  {
    var st := EmptySubtags.(language := "en", variants := ["variant"]);
    SingleVariantText(st);
    ParseTagOf(lookups, "en-variant", st);
    assert !HasDuplicates(st.variants);
    assert IsAsciiLetters("en");
  }

  lemma SingleVariantText(st: Subtags)
    requires st == EmptySubtags.(language := "en", variants := ["variant"])
    ensures WellFormed(st)
    ensures Lower("en-variant") == Join(Pieces(st), "-")
    ensures !IsGrandfatheredText(Lower("en-variant"))
  {
    assert IsVariant("variant");
    assert Pieces(st) == ["en", "variant"];
    Join2("en", "variant");
    LowerOfNoUpper("en-variant");
    assert "en-variant" !in IrregularGrandfathered && "en-variant" !in RegularGrandfathered;
  }

  /** "ab-a-bc-a-de" is a well-formed tag that is never valid: the singleton 'a' repeats. */
  lemma RepeatedExtensionInvalid(lookups: CodeLookups)
    ensures ParseTag(lookups, "ab-a-bc-a-de").Some?
    ensures !ParseTag(lookups, "ab-a-bc-a-de").value.isValid
  {
    var st := EmptySubtags.(language := "ab", extensions := [Extension('a', ["bc"]), Extension('a', ["de"])]);
    RepeatedExtensionText(st);
    ParseTagOf(lookups, "ab-a-bc-a-de", st);
    assert HasDuplicates(Names(st.extensions)) by {
      assert Names(st.extensions)[0] == Names(st.extensions)[1];
    }
  }

  lemma RepeatedExtensionText(st: Subtags)
    requires st == EmptySubtags.(language := "ab", extensions := [Extension('a', ["bc"]), Extension('a', ["de"])])
    ensures WellFormed(st)
    ensures Lower("ab-a-bc-a-de") == Join(Pieces(st), "-")
    ensures !IsGrandfatheredText(Lower("ab-a-bc-a-de"))
  {
    RepeatedExtensionPieces(st);
    LowerOfNoUpper("ab-a-bc-a-de");
    assert "ab-a-bc-a-de" !in IrregularGrandfathered;
    assert "ab-a-bc-a-de" !in RegularGrandfathered;
  }

  lemma RepeatedExtensionPieces(st: Subtags)
    requires st == EmptySubtags.(language := "ab", extensions := [Extension('a', ["bc"]), Extension('a', ["de"])])
    ensures WellFormed(st)
    ensures Join(Pieces(st), "-") == "ab-a-bc-a-de"
  {
    assert WellFormedExtension(st.extensions[0]) && WellFormedExtension(st.extensions[1]);
    RepeatedExtensionPiecesList(st);
    RepeatedExtensionJoin();
  }

  lemma RepeatedExtensionJoin()
    ensures Join(["ab"] + ["a", "bc", "a", "de"], "-") == "ab-a-bc-a-de"
  {
    JoinCons("ab", ["a", "bc", "a", "de"], "-");
    Join4("a", "bc", "a", "de");
    assert Join(["a", "bc", "a", "de"], "-") == "a-bc-a-de";
  }

  lemma RepeatedExtensionPiecesList(st: Subtags)
    requires st == EmptySubtags.(language := "ab", extensions := [Extension('a', ["bc"]), Extension('a', ["de"])])
    ensures Pieces(st) == ["ab"] + ["a", "bc", "a", "de"]
  {
    assert ExtensionPieces(st.extensions[1..]) == ["a", "de"];
    assert ExtensionPieces(st.extensions) == ["a", "bc", "a", "de"];
  }

  /** The region is written in upper case, private use in lower case: "En-Ca-X-cA" formats as "en-CA-x-ca". */
  lemma RegionCasing(lookups: CodeLookups)
    ensures ParseTag(lookups, "En-Ca-X-cA").Some?
    ensures Format(ParseTag(lookups, "En-Ca-X-cA").value) == "en-CA-x-ca"
  {
    var st := EmptySubtags.(language := "en", region := "ca", privateUse := ["ca"]);
    RegionCasingText(st);
    ParseTagOf(lookups, "En-Ca-X-cA", st);
    RegionCasingFormat(Tag(st, Validate(lookups, st)));
  }

  lemma RegionCasingText(st: Subtags)
    requires st == EmptySubtags.(language := "en", region := "ca", privateUse := ["ca"])
    ensures WellFormed(st)
    ensures Lower("En-Ca-X-cA") == Join(Pieces(st), "-")
    ensures !IsGrandfatheredText(Lower("En-Ca-X-cA"))
  {
    RegionCasingJoin(st);
    assert Lower("En-Ca-X-cA") == "en-ca-x-ca";
    assert "en-ca-x-ca" !in IrregularGrandfathered && "en-ca-x-ca" !in RegularGrandfathered;
  }

  lemma RegionCasingJoin(st: Subtags)
    requires st == EmptySubtags.(language := "en", region := "ca", privateUse := ["ca"])
    ensures WellFormed(st)
    ensures Join(Pieces(st), "-") == "en-ca-x-ca"
  {
    assert IsRegion("ca") && IsPrivateUseSegment("ca");
    assert Pieces(st) == ["en", "ca", "x", "ca"];
    Join4("en", "ca", "x", "ca");
  }

  lemma RegionCasingFormat(t: Tag)
    requires t.subtags == EmptySubtags.(language := "en", region := "ca", privateUse := ["ca"])
    ensures Format(t) == "en-CA-x-ca"
  {
    assert Upper("ca") == "CA";
    assert LangtagText(t.subtags) == "en-CA";
    JoinSingle("ca", "-");
  }

  /** The script is written in title case: "az-lAtN-x-Latn" formats as "az-Latn-x-latn". */
  lemma ScriptCasing(lookups: CodeLookups)
    ensures ParseTag(lookups, "az-lAtN-x-Latn").Some?
    ensures Format(ParseTag(lookups, "az-lAtN-x-Latn").value) == "az-Latn-x-latn"
  {
    var st := EmptySubtags.(language := "az", script := "latn", privateUse := ["latn"]);
    ScriptCasingText(st);
    ParseTagOf(lookups, "az-lAtN-x-Latn", st);
    ScriptCasingFormat(Tag(st, Validate(lookups, st)));
  }

  lemma ScriptCasingText(st: Subtags)
    requires st == EmptySubtags.(language := "az", script := "latn", privateUse := ["latn"])
    ensures WellFormed(st)
    ensures Lower("az-lAtN-x-Latn") == Join(Pieces(st), "-")
    ensures !IsGrandfatheredText(Lower("az-lAtN-x-Latn"))
  {
    ScriptCasingJoin(st);
    assert Lower("az-lAtN-x-Latn") == "az-latn-x-latn";
    assert "az-latn-x-latn" !in IrregularGrandfathered && "az-latn-x-latn" !in RegularGrandfathered;
  }

  lemma ScriptCasingJoin(st: Subtags)
    requires st == EmptySubtags.(language := "az", script := "latn", privateUse := ["latn"])
    ensures WellFormed(st)
    ensures Join(Pieces(st), "-") == "az-latn-x-latn"
  {
    assert IsScript("latn") && IsPrivateUseSegment("latn");
    assert Pieces(st) == ["az", "latn", "x", "latn"];
    Join4("az", "latn", "x", "latn");
  }

  lemma ScriptCasingFormat(t: Tag)
    requires t.subtags == EmptySubtags.(language := "az", script := "latn", privateUse := ["latn"])
    ensures Format(t) == "az-Latn-x-latn"
  {
    assert Capitalize("latn") == "Latn";
    assert LangtagText(t.subtags) == "az-Latn";
    JoinSingle("latn", "-");
  }

  /** A grandfathered tag is kept as its lower-case literal: "Zh-GuOyU" formats as "zh-guoyu". */
  lemma GrandfatheredCasing(lookups: CodeLookups)
    ensures ParseTag(lookups, "Zh-GuOyU").Some?
    ensures ParseTag(lookups, "Zh-GuOyU").value.IsGrandfathered()
    ensures Format(ParseTag(lookups, "Zh-GuOyU").value) == "zh-guoyu"
    ensures Format(ToAudioLanguageTag(ParseTag(lookups, "Zh-GuOyU").value)) == "zh-guoyu"
  {
    assert Lower("Zh-GuOyU") == "zh-guoyu";
    assert "zh-guoyu" in RegularGrandfathered;
  }

  /** The audio tag drops the script: "zh-Hant" gives "zh". */
  lemma AudioDropsScript(lookups: CodeLookups)
    ensures ParseTag(lookups, "zh-Hant").Some?
    ensures Format(ToAudioLanguageTag(ParseTag(lookups, "zh-Hant").value)) == "zh"
  {
    var st := EmptySubtags.(language := "zh", script := "hant");
    AudioDropsScriptText(st);
    ParseTagOf(lookups, "zh-Hant", st);
  }

  lemma AudioDropsScriptText(st: Subtags)
    requires st == EmptySubtags.(language := "zh", script := "hant")
    ensures WellFormed(st)
    ensures Lower("zh-Hant") == Join(Pieces(st), "-")
    ensures !IsGrandfatheredText(Lower("zh-Hant"))
  {
    assert IsScript("hant");
    assert Pieces(st) == ["zh", "hant"];
    Join2("zh", "hant");
    assert Lower("zh-Hant") == "zh-hant";
    assert "zh-hant" !in IrregularGrandfathered && "zh-hant" !in RegularGrandfathered;
  }

  /** Canonical order: "ab-d-ef-g-hi-a-bc" formats as "ab-a-bc-d-ef-g-hi" once canonicalised. */
  lemma CanonicalOrder(lookups: CodeLookups)
    ensures ParseTag(lookups, "ab-d-ef-g-hi-a-bc").Some?
    ensures Format(Canonicalize(ParseTag(lookups, "ab-d-ef-g-hi-a-bc").value)) == "ab-a-bc-d-ef-g-hi"
  {
    var d, g, a := Extension('d', ["ef"]), Extension('g', ["hi"]), Extension('a', ["bc"]);
    var st := EmptySubtags.(language := "ab", extensions := [d, g, a]);
    CanonicalOrderText(st);
    ParseTagOf(lookups, "ab-d-ef-g-hi-a-bc", st);
    var t := ParseTag(lookups, "ab-d-ef-g-hi-a-bc").value;
    CanonicalOrderSorted(t);
    CanonicalOrderFormat(Canonicalize(t));
  }

  lemma CanonicalOrderText(st: Subtags)
    requires st == EmptySubtags.(language := "ab", extensions := [Extension('d', ["ef"]), Extension('g', ["hi"]), Extension('a', ["bc"])])
    ensures WellFormed(st)
    ensures Lower("ab-d-ef-g-hi-a-bc") == Join(Pieces(st), "-")
    ensures !IsGrandfatheredText(Lower("ab-d-ef-g-hi-a-bc"))
  {
    CanonicalOrderPieces(st);
    LowerOfNoUpper("ab-d-ef-g-hi-a-bc");
    assert "ab-d-ef-g-hi-a-bc" !in IrregularGrandfathered;
    assert "ab-d-ef-g-hi-a-bc" !in RegularGrandfathered;
  }

  lemma CanonicalOrderPieces(st: Subtags)
    requires st == EmptySubtags.(language := "ab", extensions := [Extension('d', ["ef"]), Extension('g', ["hi"]), Extension('a', ["bc"])])
    ensures WellFormed(st)
    ensures Join(Pieces(st), "-") == "ab-d-ef-g-hi-a-bc"
  {
    CanonicalOrderExtensionPieces(st.extensions);
    assert Pieces(st) == ["ab"] + ["d", "ef", "g", "hi", "a", "bc"];
    CanonicalOrderJoin();
  }

  lemma CanonicalOrderExtensionPieces(e: seq<Extension>)
    requires e == [Extension('d', ["ef"]), Extension('g', ["hi"]), Extension('a', ["bc"])]
    ensures forall k :: 0 <= k < |e| ==> WellFormedExtension(e[k])
    ensures ExtensionPieces(e) == ["d", "ef", "g", "hi", "a", "bc"]
  {
    assert e == [e[0], e[1], e[2]];
    CanonicalOrderBlocks(e[0], e[1], e[2]);
  }

  lemma CanonicalOrderBlocks(x: Extension, y: Extension, z: Extension)
    requires x == Extension('d', ["ef"]) && y == Extension('g', ["hi"]) && z == Extension('a', ["bc"])
    ensures WellFormedExtension(x) && WellFormedExtension(y) && WellFormedExtension(z)
    ensures ExtensionPieces([x, y, z]) == ["d", "ef", "g", "hi", "a", "bc"]
  {
    OneSegmentExtension('d', "ef");
    OneSegmentExtension('g', "hi");
    OneSegmentExtension('a', "bc");
    ThreeExtensionPieces(x, y, z);
    assert [[x.name]] + x.segments == ["d", "ef"];
    assert [[y.name]] + y.segments == ["g", "hi"];
    assert [[z.name]] + z.segments == ["a", "bc"];
    assert ["d", "ef"] + ["g", "hi"] + ["a", "bc"] == ["d", "ef", "g", "hi", "a", "bc"];
  }

  lemma ThreeExtensionPieces(x: Extension, y: Extension, z: Extension)
    ensures ExtensionPieces([x, y, z]) == [[x.name]] + x.segments + [[y.name]] + y.segments + [[z.name]] + z.segments
  {
    assert [x, y, z] == [x] + ([y] + ([z] + []));
    ExtensionPiecesCons1(z, []);
    ExtensionPiecesCons1(y, [z] + []);
    ExtensionPiecesCons1(x, [y] + ([z] + []));
  }

  lemma OneSegmentExtension(name: char, segment: string)
    requires IsSingletonChar(name) && IsExtensionSegment(segment)
    ensures WellFormedExtension(Extension(name, [segment]))
  {
  }

  lemma ExtensionPiecesCons1(x: Extension, rest: seq<Extension>)
    ensures ExtensionPieces([x] + rest) == [[x.name]] + x.segments + ExtensionPieces(rest)
  {
    assert ([x] + rest)[1..] == rest;
  }

  lemma CanonicalOrderJoin()
    ensures Join(["ab"] + ["d", "ef", "g", "hi", "a", "bc"], "-") == "ab-d-ef-g-hi-a-bc"
  {
    var tail := ["g", "hi", "a", "bc"];
    assert ["ab"] + ["d", "ef", "g", "hi", "a", "bc"] == ["ab"] + (["d"] + (["ef"] + tail));
    Join4("g", "hi", "a", "bc");
    JoinCons("ef", tail, "-");
    JoinCons("d", ["ef"] + tail, "-");
    JoinCons("ab", ["d"] + (["ef"] + tail), "-");
    CanonicalOrderSpelling();
  }

  lemma CanonicalOrderSpelling()
    ensures "g" + "-" + "hi" + "-" + "a" + "-" + "bc" == "g-hi-a-bc"
    ensures "ef" + "-" + "g-hi-a-bc" == "ef-g-hi-a-bc"
    ensures "d" + "-" + "ef-g-hi-a-bc" == "d-ef-g-hi-a-bc"
    ensures "ab" + "-" + "d-ef-g-hi-a-bc" == "ab-d-ef-g-hi-a-bc"
  {
  }

  lemma CanonicalOrderSorted(t: Tag)
    requires t.subtags.extensions == [Extension('d', ["ef"]), Extension('g', ["hi"]), Extension('a', ["bc"])]
    ensures Canonicalize(t).subtags.extensions == [Extension('a', ["bc"]), Extension('d', ["ef"]), Extension('g', ["hi"])]
  {
    var e := t.subtags.extensions;
    var sorted := [e[2], e[0], e[1]];
    assert multiset(sorted) == multiset(e);
    assert SortedBy(sorted, ExtensionLe);
    assert !HasDuplicates(Names(e)) by {
      assert Names(e) == ['d', 'g', 'a'];
    }
    CanonicalizeUnique(t, sorted);
  }

  lemma CanonicalOrderFormat(t: Tag)
    requires t.subtags == EmptySubtags.(language := "ab", extensions := [Extension('a', ["bc"]), Extension('d', ["ef"]), Extension('g', ["hi"])])
    ensures Format(t) == "ab-a-bc-d-ef-g-hi"
  {
    var e := t.subtags.extensions;
    assert e[2..][1..] == [] && e[1..][1..] == e[2..];
    OneSegmentText(e[2..], "");
    OneSegmentText(e[1..], "-g-hi");
    OneSegmentText(e, "-d-ef-g-hi");
    CanonicalFormatSpelling();
  }

  lemma CanonicalFormatSpelling()
    ensures "-" + ['g'] + "-" + "hi" + "" == "-g-hi"
    ensures "-" + ['d'] + "-" + "ef" + "-g-hi" == "-d-ef-g-hi"
    ensures "-" + ['a'] + "-" + "bc" + "-d-ef-g-hi" == "-a-bc-d-ef-g-hi"
    ensures "ab" + "" + "" + "" + "" + "-a-bc-d-ef-g-hi" == "ab-a-bc-d-ef-g-hi"
  {
  }

  /** The text of extensions whose first block has one segment. */
  lemma OneSegmentText(e: seq<Extension>, rest: string)
    requires |e| > 0 && |e[0].segments| == 1 && ExtensionsText(e[1..]) == rest
    ensures ExtensionsText(e) == "-" + [e[0].name] + "-" + e[0].segments[0] + rest
  {
    JoinSingle(e[0].segments[0], "-");
  }
}
