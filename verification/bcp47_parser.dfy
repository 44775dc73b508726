/**
 * The contract of `CBcp47Parser::Parse`: well-formedness of a language tag
 * as given by the ABNF of section 2.1 of RFC 5646, with the grandfathered
 * tags of section 2.2.8 recognised first.
 *
 * The text is lower-cased, then compared with the two grandfathered lists,
 * then split at '-' and matched greedily against
 *
 *   langtag    = language ["-" script] ["-" region] *("-" variant)
 *                *("-" extension) ["-" privateuse]
 *   language   = 2*3ALPHA *3("-" extlang) / 4ALPHA / 5*8ALPHA
 *   extlang    = 3ALPHA
 *   script     = 4ALPHA
 *   region     = 2ALPHA / 3DIGIT
 *   variant    = 5*8alphanum / (DIGIT 3alphanum)
 *   extension  = singleton 1*("-" (2*8alphanum))      singleton: alphanum but "x"
 *   privateuse = "x" 1*("-" (1*8alphanum))
 *
 * At every position the candidate productions have disjoint shapes, so the
 * greedy match is the only match. `WellFormed` and `Pieces` restate the
 * grammar declaratively; `ParseComplete` and `ParseMalformedIff` tie the two
 * descriptions together.
 */
module Bcp47Parser {
  import opened Wrappers
  import opened Ascii
  import opened Text
  import opened Bcp47Subtags

  /** `Bcp47TagType`. */
  datatype TagType = Malformed | Regular | Grandfathered | PrivateUse

  /** `ParsedBcp47Tag`: a tag type and the subtags found. */
  datatype ParsedTag = ParsedTag(kind: TagType, subtags: Subtags)

  /** A default-constructed `ParsedBcp47Tag`: MALFORMED, every field empty. */
  const MalformedTag := ParsedTag(Malformed, EmptySubtags)

  /** The irregular grandfathered tags of RFC 5646, lower-cased. */
  const IrregularGrandfathered: set<string> := {
    "en-gb-oed", "i-ami", "i-bnn", "i-default", "i-enochian", "i-hak",
    "i-klingon", "i-lux", "i-mingo", "i-navajo", "i-pwn", "i-tao", "i-tay",
    "i-tsu", "sgn-be-fr", "sgn-be-nl", "sgn-ch-de"
  }

  /** The regular grandfathered tags of RFC 5646, lower-cased. */
  const RegularGrandfathered: set<string> := {
    "art-lojban", "cel-gaulish", "no-bok", "no-nyn", "zh-guoyu", "zh-hakka",
    "zh-min", "zh-min-nan", "zh-xiang"
  }

  predicate IsGrandfatheredText(lower: string)
  {
    lower in IrregularGrandfathered || lower in RegularGrandfathered
  }

  // Shapes of the subtags, on lower-cased text.

  predicate IsLanguage(s: string) { 2 <= |s| <= 8 && AllLowerLetters(s) }

  predicate IsExtLang(s: string) { |s| == 3 && AllLowerLetters(s) }

  predicate IsScript(s: string) { |s| == 4 && AllLowerLetters(s) }

  predicate IsRegion(s: string)
  {
    (|s| == 2 && AllLowerLetters(s)) || (|s| == 3 && AllDigits(s))
  }

  predicate IsVariant(s: string)
  {
    && AllLowerAlphaNum(s)
    && ((5 <= |s| <= 8) || (|s| == 4 && IsDigit(s[0])))
  }

  predicate IsSingletonChar(c: char) { (IsLower(c) || IsDigit(c)) && c != 'x' }

  predicate IsSingleton(s: string) { |s| == 1 && IsSingletonChar(s[0]) }

  predicate IsExtensionSegment(s: string) { 2 <= |s| <= 8 && AllLowerAlphaNum(s) }

  predicate IsPrivateUseSegment(s: string) { 1 <= |s| <= 8 && AllLowerAlphaNum(s) }

  predicate WellFormedExtension(e: Extension)
  {
    && IsSingletonChar(e.name)
    && |e.segments| > 0
    && forall k :: 0 <= k < |e.segments| ==> IsExtensionSegment(e.segments[k])
  }

  /**
   * The subtags of a well-formed, non-grandfathered tag: either private use
   * alone, or a language with the optional parts in their grammatical shapes.
   */
  predicate WellFormed(st: Subtags)
  {
    && st.grandfathered == ""
    && (forall k :: 0 <= k < |st.privateUse| ==> IsPrivateUseSegment(st.privateUse[k]))
    && if st.language == "" then
         && st.extLangs == [] && st.script == "" && st.region == ""
         && st.variants == [] && st.extensions == [] && |st.privateUse| > 0
       else
         && IsLanguage(st.language)
         && |st.extLangs| <= 3
         && (|st.extLangs| > 0 ==> |st.language| <= 3)
         && (forall k :: 0 <= k < |st.extLangs| ==> IsExtLang(st.extLangs[k]))
         && (st.script == "" || IsScript(st.script))
         && (st.region == "" || IsRegion(st.region))
         && (forall k :: 0 <= k < |st.variants| ==> IsVariant(st.variants[k]))
         && (forall k :: 0 <= k < |st.extensions| ==> WellFormedExtension(st.extensions[k]))
  }

  /** The type the parser reports for well-formed subtags. */
  function KindOf(st: Subtags): TagType
  {
    if st.language == "" then PrivateUse else Regular
  }

  function Optional(s: string): seq<string>
  {
    if s == "" then [] else [s]
  }

  function ExtensionPieces(exts: seq<Extension>): seq<string>
  {
    if |exts| == 0 then []
    else [[exts[0].name]] + exts[0].segments + ExtensionPieces(exts[1..])
  }

  function PrivateUsePieces(pu: seq<string>): seq<string>
  {
    if |pu| == 0 then [] else ["x"] + pu
  }

  /** The '-'-separated subtags a tag is written with, in order. */
  function Pieces(st: Subtags): seq<string>
  {
    if st.language == "" then PrivateUsePieces(st.privateUse)
    else
      [st.language] + st.extLangs + Optional(st.script) + Optional(st.region)
      + st.variants + ExtensionPieces(st.extensions) + PrivateUsePieces(st.privateUse)
  }

  // The parser.

  /** How many leading parts, at most `max`, satisfy `p`. */
  function CountLeading(parts: seq<string>, p: string -> bool, max: nat): (n: nat)
    ensures n <= |parts| && n <= max
    ensures forall k :: 0 <= k < n ==> p(parts[k])
    ensures n < |parts| && n < max ==> !p(parts[n])
  {
    if |parts| == 0 || max == 0 || !p(parts[0]) then 0
    else 1 + CountLeading(parts[1..], p, max - 1)
  }

  /**
   * Private use at the end of the part list: nothing at all, or "x"
   * followed by one or more segments that run to the end.
   */
  function PrivateUseTail(parts: seq<string>): (r: Option<seq<string>>)
    ensures r.Some? ==> PrivateUsePieces(r.value) == parts
    ensures r.Some? ==> forall k :: 0 <= k < |r.value| ==> IsPrivateUseSegment(r.value[k])
    ensures r.None? ==> |parts| > 0
  {
    if |parts| == 0 then Some([])
    else if parts[0] == "x" && |parts| > 1
            && forall k :: 1 <= k < |parts| ==> IsPrivateUseSegment(parts[k]) then
      assert parts == ["x"] + parts[1..];
      Some(parts[1..])
    else None
  }

  /**
   * Extension blocks at the front of the part list: each a singleton and its
   * maximal run of segments, which must not be empty. Returns the blocks in
   * encounter order and the parts after them.
   */
  function ParseExtensions(parts: seq<string>): (r: Option<(seq<Extension>, seq<string>)>)
    ensures r.Some? ==> ExtensionPieces(r.value.0) + r.value.1 == parts
    ensures r.Some? ==> forall k :: 0 <= k < |r.value.0| ==> WellFormedExtension(r.value.0[k])
    ensures r.Some? ==> |r.value.1| == 0 || !IsSingleton(r.value.1[0])
  {
    if |parts| > 0 && IsSingleton(parts[0]) then
      var n := CountLeading(parts[1..], IsExtensionSegment, |parts| - 1);
      if n == 0 then None
      else
        match ParseExtensions(parts[1 + n..])
        case None => None
        case Some((exts, rest)) =>
          var e := Extension(parts[0][0], parts[1..1 + n]);
          ExtensionPiecesCons(parts, n, exts, rest);
          BlockWellFormed(parts, n);
          Some(([e] + exts, rest))
    else Some(([], parts))
  }

  /** A singleton followed by `n > 0` extension segments makes a well-formed extension. */
  lemma BlockWellFormed(parts: seq<string>, n: nat)
    requires 0 < n < |parts| && IsSingleton(parts[0])
    requires forall k :: 0 <= k < n ==> IsExtensionSegment(parts[1..][k])
    ensures WellFormedExtension(Extension(parts[0][0], parts[1..1 + n]))
  {
    var segments, after := parts[1..1 + n], parts[1..];
    forall k | 0 <= k < n
      ensures IsExtensionSegment(segments[k])
    {
      assert segments[k] == after[k];
    }
  }

  lemma ExtensionPiecesCons(parts: seq<string>, n: nat, exts: seq<Extension>, rest: seq<string>)
    requires 0 < n < |parts| && |parts[0]| == 1
    requires ExtensionPieces(exts) + rest == parts[1 + n..]
    ensures ExtensionPieces([Extension(parts[0][0], parts[1..1 + n])] + exts) + rest == parts
  {
    var e := Extension(parts[0][0], parts[1..1 + n]);
    assert [e.name] == parts[0];
    assert ([e] + exts)[1..] == exts;
    assert parts == [parts[0]] + parts[1..1 + n] + parts[1 + n..];
  }

  /**
   * An optional subtag at the front: taken when the first part has the
   * shape `p`. Returns the subtag ("" when absent) and the parts after it.
   */
  function TakeOptional(parts: seq<string>, p: string -> bool): (r: (string, seq<string>))
    requires !p("")
    ensures Optional(r.0) + r.1 == parts
    ensures r.0 == "" || p(r.0)
    ensures r.0 == "" ==> |parts| == 0 || !p(parts[0])
  {
    if |parts| > 0 && p(parts[0]) then
      assert parts == [parts[0]] + parts[1..];
      (parts[0], parts[1..])
    else ([], parts)
  }

  /**
   * The part of `langtag` after the region: variants, extensions and
   * private use, which must together consume all remaining parts.
   */
  function ParseTail(parts: seq<string>): (r: Option<(seq<string>, seq<Extension>, seq<string>)>)
    ensures r.Some? ==>
      r.value.0 + ExtensionPieces(r.value.1) + PrivateUsePieces(r.value.2) == parts
    ensures r.Some? ==>
      && (forall k :: 0 <= k < |r.value.0| ==> IsVariant(r.value.0[k]))
      && (forall k :: 0 <= k < |r.value.1| ==> WellFormedExtension(r.value.1[k]))
      && (forall k :: 0 <= k < |r.value.2| ==> IsPrivateUseSegment(r.value.2[k]))
  {
    var nVar := CountLeading(parts, IsVariant, |parts|);
    match ParseExtensions(parts[nVar..])
    case None => None
    case Some((exts, rest)) =>
      match PrivateUseTail(rest)
      case None => None
      case Some(pu) =>
        var variants := parts[..nVar];
        TailShapes(parts, nVar, exts, rest, pu);
        Some((variants, exts, pu))
  }

  lemma TailShapes(parts: seq<string>, nVar: nat, exts: seq<Extension>, rest: seq<string>, pu: seq<string>)
    requires nVar <= |parts|
    requires forall k :: 0 <= k < nVar ==> IsVariant(parts[k])
    requires ExtensionPieces(exts) + rest == parts[nVar..]
    requires PrivateUsePieces(pu) == rest
    ensures parts[..nVar] + ExtensionPieces(exts) + PrivateUsePieces(pu) == parts
    ensures forall k :: 0 <= k < nVar ==> IsVariant(parts[..nVar][k])
  {
    assert parts == parts[..nVar] + parts[nVar..];
  }

  /** A tag starting with a language subtag: the `langtag` production. */
  function ParseLangtag(language: string, rest0: seq<string>): (r: ParsedTag)
    requires IsLanguage(language)
    ensures r.kind == Malformed || r.kind == Regular
    ensures r.kind == Malformed ==> r == MalformedTag
    ensures r.kind == Regular ==>
      && WellFormed(r.subtags)
      && r.subtags.language == language
      && Pieces(r.subtags) == [language] + rest0
  {
    var nExt := if |language| <= 3 then CountLeading(rest0, IsExtLang, 3) else 0;
    var (script, rest2) := TakeOptional(rest0[nExt..], IsScript);
    var (region, rest3) := TakeOptional(rest2, IsRegion);
    match ParseTail(rest3)
    case None => MalformedTag
    case Some((variants, exts, pu)) =>
      var st := Subtags(language, rest0[..nExt], script, region, variants, exts, pu, "");
      LangtagShapes(st, rest0, nExt, rest2, rest3);
      ParsedTag(Regular, st)
  }

  /** The stages of `ParseLangtag` assemble well-formed subtags that spell out the input. */
  lemma LangtagShapes(st: Subtags, rest0: seq<string>, nExt: nat, rest2: seq<string>, rest3: seq<string>)
    requires IsLanguage(st.language) && st.grandfathered == ""
    requires nExt <= |rest0| && nExt <= 3 && (|st.language| > 3 ==> nExt == 0)
    requires forall k :: 0 <= k < nExt ==> IsExtLang(rest0[k])
    requires st.extLangs == rest0[..nExt]
    requires Optional(st.script) + rest2 == rest0[nExt..]
    requires st.script == "" || IsScript(st.script)
    requires Optional(st.region) + rest3 == rest2
    requires st.region == "" || IsRegion(st.region)
    requires st.variants + ExtensionPieces(st.extensions) + PrivateUsePieces(st.privateUse) == rest3
    requires forall k :: 0 <= k < |st.variants| ==> IsVariant(st.variants[k])
    requires forall k :: 0 <= k < |st.extensions| ==> WellFormedExtension(st.extensions[k])
    requires forall k :: 0 <= k < |st.privateUse| ==> IsPrivateUseSegment(st.privateUse[k])
    ensures WellFormed(st)
    ensures Pieces(st) == [st.language] + rest0
  {
    assert forall k :: 0 <= k < |st.extLangs| ==> IsExtLang(st.extLangs[k]);
    assert rest0 == st.extLangs + (Optional(st.script) + (Optional(st.region) + rest3)) by {
      assert rest0 == rest0[..nExt] + rest0[nExt..];
    }
    PiecesOfLangtag(st, rest3);
  }

  lemma PiecesOfLangtag(st: Subtags, rest3: seq<string>)
    requires st.language != ""
    requires st.variants + ExtensionPieces(st.extensions) + PrivateUsePieces(st.privateUse) == rest3
    ensures Pieces(st) == [st.language] + (st.extLangs + (Optional(st.script) + (Optional(st.region) + rest3)))
  {
    var a, b, c, d := [st.language], st.extLangs, Optional(st.script), Optional(st.region);
    var v, e, p := st.variants, ExtensionPieces(st.extensions), PrivateUsePieces(st.privateUse);
    calc {
      Pieces(st);
      a + b + c + d + v + e + p;
      { assert a + b + c + d + v + e + p == (a + b + c + d) + (v + e + p); }
      (a + b + c + d) + rest3;
      { assert (a + b + c + d) + rest3 == a + (b + (c + (d + rest3))); }
      a + (b + (c + (d + rest3)));
    }
  }

  /** The generic grammar on the '-'-separated parts of the lower-cased text. */
  function ParseParts(parts: seq<string>): (r: ParsedTag)
    ensures r.kind != Grandfathered
    ensures r.kind == Malformed ==> r == MalformedTag
    ensures r.kind != Malformed ==>
      WellFormed(r.subtags) && r.kind == KindOf(r.subtags) && Pieces(r.subtags) == parts
  {
    if |parts| > 0 && parts[0] == "x" then
      match PrivateUseTail(parts)
      case None => MalformedTag
      case Some(pu) => ParsedTag(PrivateUse, EmptySubtags.(privateUse := pu))
    else if |parts| > 0 && IsLanguage(parts[0]) then
      assert parts == [parts[0]] + parts[1..];
      ParseLangtag(parts[0], parts[1..])
    else MalformedTag
  }

  /**
   * `CBcp47Parser::Parse`. Grandfathered exactly for the two closed lists;
   * otherwise a well-formed result spells out the lower-cased text, and
   * anything else is the default MALFORMED value.
   */
  function Parse(text: string): (r: ParsedTag)
    ensures r.kind == Grandfathered <==> IsGrandfatheredText(Lower(text))
    ensures r.kind == Grandfathered ==> r.subtags == EmptySubtags.(grandfathered := Lower(text))
    ensures r.kind == Malformed ==> r == MalformedTag
    ensures r.kind == Regular || r.kind == PrivateUse ==>
      && WellFormed(r.subtags)
      && r.kind == KindOf(r.subtags)
      && Join(Pieces(r.subtags), "-") == Lower(text)
  {
    var lower := Lower(text);
    if IsGrandfatheredText(lower) then
      ParsedTag(Grandfathered, EmptySubtags.(grandfathered := lower))
    else
      JoinSplit(lower, '-');
      ParseParts(Split(lower, '-'))
  }

  // Completeness: the parser accepts every well-formed tag.

  /** `CountLeading` stops exactly after a prefix of matching parts followed by a non-match. */
  lemma CountLeadingExact(pre: seq<string>, post: seq<string>, p: string -> bool, max: nat)
    requires |pre| <= max
    requires forall k :: 0 <= k < |pre| ==> p(pre[k])
    requires |pre| == max || |post| == 0 || !p(post[0])
    ensures CountLeading(pre + post, p, max) == |pre|
  {
    var s := pre + post;
    assert forall k :: 0 <= k < |pre| ==> s[k] == pre[k];
    assert |post| > 0 ==> s[|pre|] == post[0];
  }

  /** What follows the variants starts with a one-character subtag, if anything. */
  lemma TailHead(exts: seq<Extension>, tail: seq<string>)
    requires forall k :: 0 <= k < |exts| ==> WellFormedExtension(exts[k])
    requires |tail| == 0 || |tail[0]| == 1
    ensures |ExtensionPieces(exts) + tail| == 0 || |(ExtensionPieces(exts) + tail)[0]| == 1
  {
    if |exts| > 0 {
      assert (ExtensionPieces(exts) + tail)[0] == [exts[0].name];
    }
  }

  lemma PrivateUseTailComplete(pu: seq<string>)
    requires forall k :: 0 <= k < |pu| ==> IsPrivateUseSegment(pu[k])
    ensures PrivateUseTail(PrivateUsePieces(pu)) == Some(pu)
  {
    if |pu| > 0 {
      var parts := PrivateUsePieces(pu);
      assert parts[1..] == pu;
      assert forall k :: 1 <= k < |parts| ==> parts[k] == pu[k - 1];
    }
  }

  lemma {:induction false} ParseExtensionsComplete(exts: seq<Extension>, tail: seq<string>)
    requires forall k :: 0 <= k < |exts| ==> WellFormedExtension(exts[k])
    requires |tail| == 0 || (|tail[0]| == 1 && !IsSingleton(tail[0]))
    ensures ParseExtensions(ExtensionPieces(exts) + tail) == Some((exts, tail))
  {
    if |exts| == 0 {
      assert ExtensionPieces(exts) + tail == tail;
    } else {
      var e := exts[0];
      var rest' := ExtensionPieces(exts[1..]) + tail;
      var parts := ExtensionPieces(exts) + tail;
      TailHead(exts[1..], tail);
      ExtensionBlock(e, exts, tail, rest', parts);
      ParseExtensionsComplete(exts[1..], tail);
      ParseExtensionsStep(parts, e, rest', exts[1..], tail);
      assert [e] + exts[1..] == exts;
    }
  }

  /** A block the parser reads back as `e`, followed by text it parses to `exts` and `tail`. */
  lemma ParseExtensionsStep(parts: seq<string>, e: Extension, rest': seq<string>, exts: seq<Extension>, tail: seq<string>)
    requires |parts| > 0 && IsSingleton(parts[0]) && parts[0][0] == e.name
    requires CountLeading(parts[1..], IsExtensionSegment, |parts| - 1) == |e.segments| > 0
    requires parts[1..1 + |e.segments|] == e.segments
    requires parts[1 + |e.segments|..] == rest'
    requires ParseExtensions(rest') == Some((exts, tail))
    ensures ParseExtensions(parts) == Some(([e] + exts, tail))
  {
    assert Extension(parts[0][0], parts[1..1 + |e.segments|]) == e;
  }

  /** One extension block at the front: the singleton, then exactly its segments. */
  lemma ExtensionBlock(e: Extension, exts: seq<Extension>, tail: seq<string>, rest': seq<string>, parts: seq<string>)
    requires |exts| > 0 && e == exts[0] && WellFormedExtension(e)
    requires parts == ExtensionPieces(exts) + tail
    requires rest' == ExtensionPieces(exts[1..]) + tail
    requires |rest'| == 0 || |rest'[0]| == 1
    ensures |parts| > 0 && IsSingleton(parts[0]) && parts[0][0] == e.name
    ensures CountLeading(parts[1..], IsExtensionSegment, |parts| - 1) == |e.segments|
    ensures parts[1..1 + |e.segments|] == e.segments
    ensures parts[1 + |e.segments|..] == rest'
  {
    var n := |e.segments|;
    var body := e.segments + rest';
    ExtensionBlockSplit(e, exts, tail, rest', parts);
    assert parts[0] == [e.name] && parts[1..] == body;
    assert |rest'| == 0 || !IsExtensionSegment(rest'[0]);
    CountLeadingExact(e.segments, rest', IsExtensionSegment, |parts| - 1);
    assert parts[1..1 + n] == body[..n] == e.segments;
    assert parts[1 + n..] == body[n..] == rest';
  }

  lemma ExtensionBlockSplit(e: Extension, exts: seq<Extension>, tail: seq<string>, rest': seq<string>, parts: seq<string>)
    requires |exts| > 0 && e == exts[0]
    requires parts == ExtensionPieces(exts) + tail
    requires rest' == ExtensionPieces(exts[1..]) + tail
    ensures parts == [[e.name]] + (e.segments + rest')
  {
    assert ExtensionPieces(exts) == [[e.name]] + e.segments + ExtensionPieces(exts[1..]);
    Associative([[e.name]], e.segments, ExtensionPieces(exts[1..]), tail);
  }

  lemma Associative<T>(a: seq<T>, b: seq<T>, c: seq<T>, d: seq<T>)
    ensures a + b + c + d == a + (b + (c + d))
  {
  }

  /** `ParseTail` recovers variants, extensions and private use from their pieces. */
  lemma ParseTailComplete(st: Subtags)
    requires WellFormed(st)
    ensures ParseTail(st.variants + ExtensionPieces(st.extensions) + PrivateUsePieces(st.privateUse))
      == Some((st.variants, st.extensions, st.privateUse))
  {
    var pu := PrivateUsePieces(st.privateUse);
    var t := ExtensionPieces(st.extensions) + pu;
    var parts := st.variants + t;
    assert st.variants + ExtensionPieces(st.extensions) + pu == parts;
    TailHead(st.extensions, pu);
    CountLeadingExact(st.variants, t, IsVariant, |parts|);
    var nVar := |st.variants|;
    assert parts[nVar..] == t && parts[..nVar] == st.variants;
    ParseExtensionsComplete(st.extensions, pu);
    PrivateUseTailComplete(st.privateUse);
  }

  /** The parts after the language: the shapes that can follow one another. */
  lemma ParseLangtagComplete(st: Subtags)
    requires WellFormed(st) && st.language != ""
    ensures ParseLangtag(st.language, Pieces(st)[1..]) == ParsedTag(Regular, st)
  {
    var rest3 := st.variants + ExtensionPieces(st.extensions) + PrivateUsePieces(st.privateUse);
    var rest2 := Optional(st.region) + rest3;
    var rest1 := Optional(st.script) + rest2;
    var rest0 := st.extLangs + rest1;
    PiecesOfLangtag(st, rest3);
    assert Pieces(st)[1..] == rest0;
    LangtagStages(st, rest0, rest1, rest2, rest3);
    ParseLangtagStages(st.language, rest0, st.extLangs, rest1, st.script, rest2, st.region, rest3,
                       st.variants, st.extensions, st.privateUse);
    assert st == Subtags(st.language, st.extLangs, st.script, st.region, st.variants, st.extensions, st.privateUse, "");
  }

  /** Each stage of `ParseLangtag` takes exactly its own field of well-formed subtags. */
  lemma LangtagStages(st: Subtags, rest0: seq<string>, rest1: seq<string>, rest2: seq<string>, rest3: seq<string>)
    requires WellFormed(st) && st.language != ""
    requires rest3 == st.variants + ExtensionPieces(st.extensions) + PrivateUsePieces(st.privateUse)
    requires rest2 == Optional(st.region) + rest3
    requires rest1 == Optional(st.script) + rest2
    requires rest0 == st.extLangs + rest1
    ensures (if |st.language| <= 3 then CountLeading(rest0, IsExtLang, 3) else 0) == |st.extLangs|
    ensures |st.extLangs| <= |rest0| && rest0[..|st.extLangs|] == st.extLangs && rest0[|st.extLangs|..] == rest1
    ensures TakeOptional(rest1, IsScript) == (st.script, rest2)
    ensures TakeOptional(rest2, IsRegion) == (st.region, rest3)
    ensures ParseTail(rest3) == Some((st.variants, st.extensions, st.privateUse))
  {
    TailHead(st.extensions, PrivateUsePieces(st.privateUse));
    RestHead(st, rest3);
    LeadingExtLangs(st, rest1);
    TakeOptionalExact(st.script, rest2, IsScript);
    TakeOptionalExact(st.region, rest3, IsRegion);
    ParseTailComplete(st);
  }

  /** `ParseLangtag` assembles the results of its stages. */
  lemma ParseLangtagStages(language: string, rest0: seq<string>, extLangs: seq<string>, rest1: seq<string>,
                           script: string, rest2: seq<string>, region: string, rest3: seq<string>,
                           variants: seq<string>, exts: seq<Extension>, pu: seq<string>)
    requires IsLanguage(language)
    requires (if |language| <= 3 then CountLeading(rest0, IsExtLang, 3) else 0) == |extLangs|
    requires |extLangs| <= |rest0| && rest0[..|extLangs|] == extLangs && rest0[|extLangs|..] == rest1
    requires TakeOptional(rest1, IsScript) == (script, rest2)
    requires TakeOptional(rest2, IsRegion) == (region, rest3)
    requires ParseTail(rest3) == Some((variants, exts, pu))
    ensures ParseLangtag(language, rest0) == ParsedTag(Regular, Subtags(language, extLangs, script, region, variants, exts, pu, ""))
  {
  }

  /** The extended languages are exactly the leading three-letter parts the parser counts. */
  lemma LeadingExtLangs(st: Subtags, rest1: seq<string>)
    requires WellFormed(st) && st.language != ""
    requires |rest1| == 0 || !IsExtLang(rest1[0])
    ensures var rest0 := st.extLangs + rest1;
      var nExt := if |st.language| <= 3 then CountLeading(rest0, IsExtLang, 3) else 0;
      && nExt == |st.extLangs|
      && rest0[..nExt] == st.extLangs && rest0[nExt..] == rest1
  {
    if |st.language| <= 3 {
      CountLeadingExact(st.extLangs, rest1, IsExtLang, 3);
    }
    var rest0 := st.extLangs + rest1;
    assert rest0[..|st.extLangs|] == st.extLangs && rest0[|st.extLangs|..] == rest1;
  }

  /** An optional subtag followed by parts that do not start with its shape is taken back exactly. */
  lemma TakeOptionalExact(sub: string, rest: seq<string>, p: string -> bool)
    requires !p("")
    requires sub == "" || p(sub)
    requires sub == "" ==> |rest| == 0 || !p(rest[0])
    ensures TakeOptional(Optional(sub) + rest, p) == (sub, rest)
  {
    if sub != "" {
      assert (Optional(sub) + rest)[0] == sub && (Optional(sub) + rest)[1..] == rest;
    } else {
      assert Optional(sub) + rest == rest;
    }
  }

  /** The first part after each optional subtag never has that subtag's shape. */
  lemma RestHead(st: Subtags, rest3: seq<string>)
    requires WellFormed(st) && st.language != ""
    requires rest3 == st.variants + ExtensionPieces(st.extensions) + PrivateUsePieces(st.privateUse)
    requires |ExtensionPieces(st.extensions) + PrivateUsePieces(st.privateUse)| == 0
      || |(ExtensionPieces(st.extensions) + PrivateUsePieces(st.privateUse))[0]| == 1
    ensures |rest3| == 0 || (!IsRegion(rest3[0]) && !IsScript(rest3[0]) && !IsExtLang(rest3[0]))
    ensures var rest2 := Optional(st.region) + rest3;
      |rest2| == 0 || (!IsScript(rest2[0]) && !IsExtLang(rest2[0]))
    ensures var rest1 := Optional(st.script) + (Optional(st.region) + rest3);
      |rest1| == 0 || !IsExtLang(rest1[0])
  {
    if |st.variants| > 0 {
      assert rest3[0] == st.variants[0];
    }
    if st.region != "" {
      assert (Optional(st.region) + rest3)[0] == st.region;
      assert |st.region| == 3 ==> IsDigit(st.region[0]);
    }
    if st.script != "" {
      assert (Optional(st.script) + (Optional(st.region) + rest3))[0] == st.script;
    } else if st.region != "" {
      assert Optional(st.script) + (Optional(st.region) + rest3) == Optional(st.region) + rest3;
    }
  }

  /** The parser accepts every well-formed list of parts and returns its subtags. */
  lemma ParsePartsComplete(st: Subtags)
    requires WellFormed(st)
    ensures ParseParts(Pieces(st)) == ParsedTag(KindOf(st), st)
  {
    if st.language == "" {
      PrivateUseTailComplete(st.privateUse);
    } else {
      assert Pieces(st)[0] == st.language;
      ParseLangtagComplete(st);
    }
  }

  // Shape of the pieces.

  predicate AllAlphaNumPieces(ps: seq<string>)
  {
    forall k :: 0 <= k < |ps| ==> AllLowerAlphaNum(ps[k])
  }

  lemma {:induction false} ExtensionPiecesShape(exts: seq<Extension>)
    requires forall k :: 0 <= k < |exts| ==> WellFormedExtension(exts[k])
    ensures AllAlphaNumPieces(ExtensionPieces(exts))
  {
    if |exts| > 0 {
      ExtensionPiecesShape(exts[1..]);
      var e := exts[0];
      assert AllLowerAlphaNum([e.name]);
      assert AllAlphaNumPieces(e.segments);
    }
  }

  /** Every piece of a well-formed tag is lower-case letters and digits, and there is one at least. */
  lemma PiecesShape(st: Subtags)
    requires WellFormed(st)
    ensures |Pieces(st)| > 0
    ensures AllAlphaNumPieces(Pieces(st))
  {
    assert AllAlphaNumPieces(PrivateUsePieces(st.privateUse));
    if st.language != "" {
      ExtensionPiecesShape(st.extensions);
      assert AllAlphaNumPieces([st.language] + st.extLangs + Optional(st.script) + Optional(st.region) + st.variants);
    }
  }

  /** The text of a well-formed tag: its pieces joined with '-', lower-case throughout. */
  lemma PiecesText(st: Subtags)
    requires WellFormed(st)
    ensures Split(Join(Pieces(st), "-"), '-') == Pieces(st)
    ensures Lower(Join(Pieces(st), "-")) == Join(Pieces(st), "-")
  {
    var ps := Pieces(st);
    PiecesShape(st);
    assert Unseparated(ps, '-');
    SplitJoin(ps, '-');
    LowerJoin(ps, "-");
    forall k | 0 <= k < |ps|
      ensures LowerAll(ps)[k] == ps[k]
    {
      assert NoUpper(ps[k]);
      LowerOfNoUpper(ps[k]);
    }
    assert LowerAll(ps) == ps;
    assert Lower("-") == "-";
  }

  /**
   * Completeness: every text whose lower-case form spells out well-formed
   * subtags, and is not grandfathered, parses to exactly those subtags.
   */
  lemma ParseComplete(st: Subtags, text: string)
    requires WellFormed(st)
    requires Lower(text) == Join(Pieces(st), "-")
    requires !IsGrandfatheredText(Lower(text))
    ensures Parse(text) == ParsedTag(KindOf(st), st)
  {
    PiecesText(st);
    ParsePartsComplete(st);
  }

  /** The parser fails exactly on the texts no well-formed or grandfathered tag spells. */
  lemma ParseMalformedIff(text: string)
    ensures Parse(text).kind == Malformed <==>
      && !IsGrandfatheredText(Lower(text))
      && forall st :: WellFormed(st) ==> Join(Pieces(st), "-") != Lower(text)
  {
    if !IsGrandfatheredText(Lower(text)) {
      if st :| WellFormed(st) && Join(Pieces(st), "-") == Lower(text) {
        ParseComplete(st, text);
      }
    }
  }

  /** The stored subtags are lower-case: the parser normalises case. */
  lemma ParseCaseInsensitive(a: string, b: string)
    requires Lower(a) == Lower(b)
    ensures Parse(a) == Parse(b)
  {
  }
}
