/**
 * Joining strings with a separator (`StringUtils::Join`) and its inverse,
 * splitting a string at every occurrence of a separator character.
 */
module Text {
  import opened Ascii

  /** `StringUtils::Join(parts, sep)`: the parts with `sep` between neighbours. */
  function Join(parts: seq<string>, sep: string): string
  {
    if |parts| == 0 then ""
    else if |parts| == 1 then parts[0]
    else parts[0] + sep + Join(parts[1..], sep)
  }

  /** The parts of `s` between occurrences of `c`; empty parts are kept. */
  function Split(s: string, c: char): (r: seq<string>)
    ensures |r| >= 1
    ensures forall k :: 0 <= k < |r| ==> c !in r[k]
  {
    if |s| == 0 then [""]
    else
      var rest := Split(s[1..], c);
      if s[0] == c then [""] + rest
      else [[s[0]] + rest[0]] + rest[1..]
  }

  /** No part contains the separator character. */
  predicate Unseparated(parts: seq<string>, c: char)
  {
    forall k :: 0 <= k < |parts| ==> c !in parts[k]
  }

  lemma {:induction false} JoinAppend(a: seq<string>, b: seq<string>, sep: string)
    requires |a| > 0 && |b| > 0
    ensures Join(a + b, sep) == Join(a, sep) + sep + Join(b, sep)
    decreases |a|
  {
    assert (a + b)[0] == a[0];
    if |a| == 1 {
      assert (a + b)[1..] == b;
    } else {
      assert (a + b)[1..] == a[1..] + b;
      JoinAppend(a[1..], b, sep);
      assert Join(a + b, sep) == a[0] + sep + (Join(a[1..], sep) + sep + Join(b, sep));
    }
  }

  lemma JoinSingle(s: string, sep: string)
    ensures Join([s], sep) == s
  {
  }

  lemma JoinCons(s: string, rest: seq<string>, sep: string)
    requires |rest| > 0
    ensures Join([s] + rest, sep) == s + sep + Join(rest, sep)
  {
    JoinAppend([s], rest, sep);
  }

  /** Joining what `Split` produced restores the text. */
  lemma {:induction false} JoinSplit(s: string, c: char)
    ensures Join(Split(s, c), [c]) == s
  {
    if |s| > 0 {
      var rest := Split(s[1..], c);
      JoinSplit(s[1..], c);
      if s[0] == c {
        JoinCons("", rest, [c]);
      } else if |rest| == 1 {
        assert Split(s, c) == [[s[0]] + rest[0]];
      } else {
        assert Split(s, c) == [[s[0]] + rest[0]] + rest[1..];
        JoinCons([s[0]] + rest[0], rest[1..], [c]);
        JoinCons(rest[0], rest[1..], [c]);
      }
    }
  }

  /** Splitting a join of separator-free parts gives the parts back. */
  lemma {:induction false} SplitJoin(parts: seq<string>, c: char)
    requires |parts| >= 1
    requires Unseparated(parts, c)
    ensures Split(Join(parts, [c]), c) == parts
  {
    if |parts| == 1 {
      SplitNoSeparator(parts[0], c);
    } else {
      SplitJoin(parts[1..], c);
      JoinCons(parts[0], parts[1..], [c]);
      SplitPrefix(parts[0], Join(parts[1..], [c]), c);
      assert parts == [parts[0]] + parts[1..];
    }
  }

  lemma {:induction false} SplitNoSeparator(s: string, c: char)
    requires c !in s
    ensures Split(s, c) == [s]
  {
    if |s| > 0 {
      SplitNoSeparator(s[1..], c);
      assert s == [s[0]] + s[1..];
    }
  }

  /** A separator-free prefix followed by the separator becomes one leading part. */
  lemma {:induction false} SplitPrefix(p: string, rest: string, c: char)
    requires c !in p
    ensures Split(p + [c] + rest, c) == [p] + Split(rest, c)
  {
    if |p| == 0 {
      assert p + [c] + rest == [c] + rest;
      assert ([c] + rest)[1..] == rest;
    } else {
      var s := p + [c] + rest;
      assert s[0] == p[0];
      assert s[1..] == p[1..] + [c] + rest;
      SplitPrefix(p[1..], rest, c);
      assert p == [p[0]] + p[1..];
    }
  }

  /** Lower-casing commutes with joining. */
  lemma {:induction false} LowerJoin(parts: seq<string>, sep: string)
    ensures Lower(Join(parts, sep)) == Join(LowerAll(parts), Lower(sep))
  {
    if |parts| > 1 {
      LowerJoin(parts[1..], sep);
      LowerAppend(parts[0] + sep, Join(parts[1..], sep));
      LowerAppend(parts[0], sep);
      assert LowerAll(parts)[1..] == LowerAll(parts[1..]);
    }
  }

  /** Every part lower-cased. */
  function LowerAll(parts: seq<string>): (r: seq<string>)
    ensures |r| == |parts|
    ensures forall k :: 0 <= k < |parts| ==> r[k] == Lower(parts[k])
  {
    seq(|parts|, k requires 0 <= k < |parts| => Lower(parts[k]))
  }
}
