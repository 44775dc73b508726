/**
 * The subtag fields shared by the parser result (`ParsedBcp47Tag`) and the
 * tag value (`CBcp47`), and the extension record `Bcp47Extension`.
 * Datatype equality is the defaulted `operator==` of the source: field by
 * field, an extension being equal when its name and its segment sequence are.
 */
module Bcp47Subtags {

  /** An extension block: its singleton name and its segments, in order. */
  datatype Extension = Extension(name: char, segments: seq<string>)

  /**
   * The subtags of a language tag. `grandfathered` is non-empty only for a
   * grandfathered tag, whose other fields are then empty.
   */
  datatype Subtags = Subtags(
    language: string,
    extLangs: seq<string>,
    script: string,
    region: string,
    variants: seq<string>,
    extensions: seq<Extension>,
    privateUse: seq<string>,
    grandfathered: string)

  /** Every field empty, as in a default-constructed parser result. */
  const EmptySubtags := Subtags("", [], "", "", [], [], [], "")

  /** The singleton names of the extensions, in order. */
  function Names(exts: seq<Extension>): (r: seq<char>)
    ensures |r| == |exts|
    ensures forall k :: 0 <= k < |exts| ==> r[k] == exts[k].name
  {
    seq(|exts|, k requires 0 <= k < |exts| => exts[k].name)
  }

  lemma NamesAppend(a: seq<Extension>, b: seq<Extension>)
    ensures Names(a + b) == Names(a) + Names(b)
  {
  }

  /** Reordering the extensions reorders their names alike. */
  lemma {:induction false} NamesMultiset(a: seq<Extension>, b: seq<Extension>)
    requires multiset(a) == multiset(b)
    ensures multiset(Names(a)) == multiset(Names(b))
    decreases |a|
  {
    if |a| == 0 {
      assert |b| == |multiset(b)| == 0;
    } else {
      assert a[0] in multiset(b);
      var k :| 0 <= k < |b| && b[k] == a[0];
      RemoveAt(b, k);
      assert a == [a[0]] + a[1..];
      assert multiset(a[1..]) == multiset(b[..k] + b[k + 1..]);
      NamesMultiset(a[1..], b[..k] + b[k + 1..]);
      NamesStep(a, b, k);
    }
  }

  /** One step of `NamesMultiset`: the first name of `a` matched with the `k`-th of `b`. */
  lemma NamesStep(a: seq<Extension>, b: seq<Extension>, k: nat)
    requires 0 < |a| && k < |b| && b[k] == a[0]
    requires multiset(Names(a[1..])) == multiset(Names(b[..k] + b[k + 1..]))
    ensures multiset(Names(a)) == multiset(Names(b))
  {
    assert a == [a[0]] + a[1..];
    NamesAppend([a[0]], a[1..]);
    assert Names([a[0]]) == [a[0].name];
    NamesRemoveAt(b, k);
  }

  /** The names of `b` are those of `b` without its `k`-th extension, plus that one's name. */
  lemma NamesRemoveAt(b: seq<Extension>, k: nat)
    requires k < |b|
    ensures multiset(Names(b)) == multiset(Names(b[..k] + b[k + 1..])) + multiset{b[k].name}
  {
    assert b == b[..k] + ([b[k]] + b[k + 1..]);
    NamesAppend(b[..k], [b[k]] + b[k + 1..]);
    NamesAppend([b[k]], b[k + 1..]);
    NamesAppend(b[..k], b[k + 1..]);
    assert Names([b[k]]) == [b[k].name];
  }

  lemma RemoveAt<T>(b: seq<T>, k: nat)
    requires k < |b|
    ensures b == b[..k] + ([b[k]] + b[k + 1..])
    ensures multiset(b[..k] + b[k + 1..]) == multiset(b) - multiset{b[k]}
  {
    assert b == b[..k] + ([b[k]] + b[k + 1..]);
  }
}
