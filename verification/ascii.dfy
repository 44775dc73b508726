/**
 * ASCII character classes, case mapping and the byte-wise ordering of
 * `std::string`, as used by the language-tag code. Only the ASCII range is
 * given a case: every other character maps to itself, which is what the
 * modelled string helpers do for the language-tag alphabet.
 */
module Ascii {

  predicate IsLower(c: char) { 'a' <= c <= 'z' }

  predicate IsUpper(c: char) { 'A' <= c <= 'Z' }

  predicate IsLetter(c: char) { IsLower(c) || IsUpper(c) }

  predicate IsDigit(c: char) { '0' <= c <= '9' }

  predicate IsAlphaNum(c: char) { IsLetter(c) || IsDigit(c) }

  /** `StringUtils::IsAsciiLetters`: every character is an ASCII letter. */
  predicate IsAsciiLetters(s: string) {
    forall i :: 0 <= i < |s| ==> IsLetter(s[i])
  }

  /** Lower-case ASCII letters only (the alphabet of a parsed subtag). */
  predicate AllLowerLetters(s: string) {
    forall i :: 0 <= i < |s| ==> IsLower(s[i])
  }

  /** Lower-case letters and digits only. */
  predicate AllLowerAlphaNum(s: string) {
    forall i :: 0 <= i < |s| ==> IsLower(s[i]) || IsDigit(s[i])
  }

  predicate AllDigits(s: string) {
    forall i :: 0 <= i < |s| ==> IsDigit(s[i])
  }

  /** No upper-case ASCII letter occurs in `s`. */
  predicate NoUpper(s: string) {
    forall i :: 0 <= i < |s| ==> !IsUpper(s[i])
  }

  function ToLower(c: char): (r: char)
    ensures !IsUpper(r)
    ensures IsLetter(c) <==> IsLetter(r)
    ensures IsLower(c) ==> r == c
  {
    if IsUpper(c) then (c as int + 32) as char else c
  }

  function ToUpper(c: char): (r: char)
    ensures !IsLower(r)
    ensures ToLower(r) == ToLower(c)
  {
    if IsLower(c) then (c as int - 32) as char else c
  }

  /** `StringUtils::ToLower` restricted to ASCII. */
  function Lower(s: string): (r: string)
    ensures |r| == |s|
    ensures forall i :: 0 <= i < |s| ==> r[i] == ToLower(s[i])
  {
    seq(|s|, i requires 0 <= i < |s| => ToLower(s[i]))
  }

  /** `StringUtils::ToUpper` restricted to ASCII. */
  function Upper(s: string): (r: string)
    ensures |r| == |s|
    ensures forall i :: 0 <= i < |s| ==> r[i] == ToUpper(s[i])
  {
    seq(|s|, i requires 0 <= i < |s| => ToUpper(s[i]))
  }

  /**
   * `StringUtils::ToCapitalize` on a single word: the first character is
   * upper-cased and the rest is left as it is.
   */
  function Capitalize(s: string): (r: string)
    ensures |r| == |s|
    ensures |s| > 0 ==> r[0] == ToUpper(s[0]) && r[1..] == s[1..]
  {
    if |s| == 0 then s else [ToUpper(s[0])] + s[1..]
  }

  lemma LowerIdempotent(s: string)
    ensures Lower(Lower(s)) == Lower(s)
    ensures NoUpper(Lower(s))
  {
  }

  lemma LowerOfNoUpper(s: string)
    requires NoUpper(s)
    ensures Lower(s) == s
  {
  }

  lemma LowerAppend(a: string, b: string)
    ensures Lower(a + b) == Lower(a) + Lower(b)
  {
  }

  lemma LowerOfUpper(s: string)
    ensures Lower(Upper(s)) == Lower(s)
  {
  }

  lemma LowerOfCapitalize(s: string)
    ensures Lower(Capitalize(s)) == Lower(s)
  {
    var c := Capitalize(s);
    forall i | 0 <= i < |s|
      ensures Lower(c)[i] == Lower(s)[i]
    {
      if i > 0 {
        assert c[i] == c[1..][i - 1] == s[i];
      }
    }
  }

  /** The `<` of `std::string`: byte-wise lexicographic, a proper prefix first. */
  predicate LexLess(a: string, b: string)
  {
    if |a| == 0 then |b| > 0
    else if |b| == 0 then false
    else a[0] < b[0] || (a[0] == b[0] && LexLess(a[1..], b[1..]))
  }

  /** The `<=` of `std::string`. */
  predicate LexLe(a: string, b: string)
  {
    !LexLess(b, a)
  }

  lemma LexLessIrreflexive(a: string)
    ensures !LexLess(a, a)
  {
  }

  lemma LexLessTransitive(a: string, b: string, c: string)
    requires LexLess(a, b) && LexLess(b, c)
    ensures LexLess(a, c)
  {
    if |a| > 0 && |b| > 0 && |c| > 0 && a[0] == b[0] && b[0] == c[0] {
      LexLessTransitive(a[1..], b[1..], c[1..]);
    }
  }

  lemma LexLessTrichotomy(a: string, b: string)
    ensures a == b || LexLess(a, b) || LexLess(b, a)
  {
    if |a| > 0 && |b| > 0 && a[0] == b[0] {
      LexLessTrichotomy(a[1..], b[1..]);
      if a[1..] == b[1..] {
        assert a == [a[0]] + a[1..] && b == [b[0]] + b[1..];
      }
    }
  }

  lemma LexLessAsymmetric(a: string, b: string)
    requires LexLess(a, b)
    ensures !LexLess(b, a)
  {
    if LexLess(b, a) {
      LexLessTransitive(a, b, a);
      LexLessIrreflexive(a);
    }
  }

  /** `LexLe` is the reflexive closure of `LexLess`. */
  lemma LexLeIsLessOrEqual(a: string, b: string)
    ensures LexLe(a, b) <==> (LexLess(a, b) || a == b)
  {
    LexLessTrichotomy(a, b);
    if LexLess(a, b) {
      LexLessAsymmetric(a, b);
    }
    if a == b {
      LexLessIrreflexive(a);
    }
  }

  /** `LexLe` is a total order: total, transitive and antisymmetric. */
  lemma LexLeTotalOrder()
    ensures forall a, b :: LexLe(a, b) || LexLe(b, a)
    ensures forall a, b, c :: LexLe(a, b) && LexLe(b, c) ==> LexLe(a, c)
    ensures forall a, b :: LexLe(a, b) && LexLe(b, a) ==> a == b
  {
    forall a, b
      ensures LexLe(a, b) || LexLe(b, a)
    {
      LexLessTrichotomy(a, b);
      if LexLess(a, b) {
        LexLessAsymmetric(a, b);
      }
    }
    forall a, b, c | LexLe(a, b) && LexLe(b, c)
      ensures LexLe(a, c)
    {
      LexLeIsLessOrEqual(a, b);
      LexLeIsLessOrEqual(b, c);
      LexLeIsLessOrEqual(a, c);
      if LexLess(a, b) && LexLess(b, c) {
        LexLessTransitive(a, b, c);
      }
    }
    forall a, b | LexLe(a, b) && LexLe(b, a)
      ensures a == b
    {
      LexLessTrichotomy(a, b);
    }
  }

  /** On strings of two characters the order is decided by the pair of codes. */
  lemma LexOfPairs(a: string, b: string)
    requires |a| == 2 && |b| == 2
    ensures LexLess(a, b) <==> (a[0] < b[0] || (a[0] == b[0] && a[1] < b[1]))
    ensures LexLe(a, b) <==> (a[0] < b[0] || (a[0] == b[0] && a[1] <= b[1]))
  {
    assert !LexLess(a[1..][1..], b[1..][1..]);
    assert LexLess(a[1..], b[1..]) <==> a[1] < b[1];
    assert !LexLess(b[1..][1..], a[1..][1..]);
    assert LexLess(b[1..], a[1..]) <==> b[1] < a[1];
  }

  /** On strings of three characters the order is decided by the triple of codes. */
  lemma LexOfTriples(a: string, b: string)
    requires |a| == 3 && |b| == 3
    ensures LexLe(a, b) <==>
      (a[0] < b[0] || (a[0] == b[0] && (a[1] < b[1] || (a[1] == b[1] && a[2] <= b[2]))))
  {
    var a1, b1 := a[1..], b[1..];
    var a2, b2 := a1[1..], b1[1..];
    assert !LexLess(a2[1..], b2[1..]) && !LexLess(b2[1..], a2[1..]);
    assert LexLess(b2, a2) <==> b2[0] < a2[0];
    assert LexLess(b1, a1) <==> b1[0] < a1[0] || (b1[0] == a1[0] && b2[0] < a2[0]);
  }
}
