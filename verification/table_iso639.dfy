/**
 * Helpers shared by the ISO 639 tables: packing a code of up to four
 * characters into an `unsigned long`, unpacking it, sorting a table by code
 * or by name, and concatenating two tables.
 *
 * `unsigned long` is taken to be 64 bits wide (the LP64 platforms) and
 * `char` to be signed, so a byte of 0x80 or more is sign-extended before it
 * is shifted. A text is a sequence of bytes; a `char` of the model stands for
 * the byte given by its code modulo 256.
 */
module TableIso639 {
  import opened Ascii
  import opened Sorting

  type Code = bv64

  /** The value `-1` converted to `unsigned long`. */
  const NoCode: Code := 0xFFFF_FFFF_FFFF_FFFF

  /** The byte a character stands for. */
  function ByteOf(c: char): bv8
  {
    (c as int % 256) as bv8
  }

  /** `static_cast<unsigned long>(c)` for a signed `char`: sign extension. */
  function Widen(c: char): (w: Code)
    ensures ByteOf(c) < 0x80 ==> w == ByteOf(c) as Code
    ensures ByteOf(c) >= 0x80 ==> w >> 8 == 0x00FF_FFFF_FFFF_FFFF
  {
    var b := ByteOf(c) as Code;
    if b < 0x80 then b else b | 0xFFFF_FFFF_FFFF_FF00
  }

  /** The character at `len - k`, or the value 0 when the text is shorter than `k`. */
  function WidenFromEnd(a: string, k: nat): Code
    requires 1 <= k
  {
    if |a| >= k then Widen(a[|a| - k]) else 0
  }

  /** Four values shifted into place and or-ed together. */
  function Pack(w4: Code, w3: Code, w2: Code, w1: Code): Code
  {
    (w4 << 24) | (w3 << 16) | (w2 << 8) | w1
  }

  /**
   * `StringToLongCode`: the last four characters, the last one in the low
   * byte; `-1` for an empty text or one longer than four characters.
   */
  function StringToLongCode(a: string): Code
  {
    if |a| == 0 || |a| > 4 then NoCode
    else Pack(WidenFromEnd(a, 4), WidenFromEnd(a, 3), WidenFromEnd(a, 2), WidenFromEnd(a, 1))
  }

  /** Characters whose byte is a non-zero ASCII value: the alphabet of the codes. */
  predicate IsCodeChar(c: char) { 0 < c as int < 0x80 }

  predicate IsCodeText(a: string)
  {
    1 <= |a| <= 4 && forall i :: 0 <= i < |a| ==> IsCodeChar(a[i])
  }

  /** The low byte of `code`: `(char)code & 0xFF`. */
  function Low(code: Code): bv8
  {
    (code & 0xFF) as bv8
  }

  function CharOf(b: bv8): char
  {
    b as int as char
  }

  /**
   * `LongCodeToString`: the loop's four iterations written out. Iteration
   * `j` looks at the low byte of `code >> 8j`, stops at a zero byte, and
   * otherwise prepends the byte's character to the result.
   */
  function LongCodeToString(code: Code): (r: string)
    ensures |r| <= 4
    ensures r == "" <==> Low(code) == 0
  {
    var b0, b1, b2, b3 := Low(code), Low(code >> 8), Low(code >> 16), Low(code >> 24);
    if b0 == 0 then ""
    else if b1 == 0 then [CharOf(b0)]
    else if b2 == 0 then [CharOf(b1), CharOf(b0)]
    else if b3 == 0 then [CharOf(b2), CharOf(b1), CharOf(b0)]
    else [CharOf(b3), CharOf(b2), CharOf(b1), CharOf(b0)]
  }

  /** Values below 0x80 come back out of `Pack` byte by byte, and fit in 32 bits. */
  lemma PackBytes(w4: Code, w3: Code, w2: Code, w1: Code)
    requires w1 < 0x80 && w2 < 0x80 && w3 < 0x80 && w4 < 0x80
    ensures var c := Pack(w4, w3, w2, w1);
      && Low(c) == w1 as bv8
      && Low(c >> 8) == w2 as bv8
      && Low(c >> 16) == w3 as bv8
      && Low(c >> 24) == w4 as bv8
      && c < 0x1_0000_0000
  {
  }

  /** An ASCII code of one to four characters fits in 32 bits and is never the `-1` marker. */
  lemma StringToLongCodeRange(a: string)
    requires IsCodeText(a)
    ensures StringToLongCode(a) < 0x1_0000_0000
    ensures StringToLongCode(a) != NoCode
  {
    WidenFromEndAscii(a, 1);
    WidenFromEndAscii(a, 2);
    WidenFromEndAscii(a, 3);
    WidenFromEndAscii(a, 4);
    PackBytes(WidenFromEnd(a, 4), WidenFromEnd(a, 3), WidenFromEnd(a, 2), WidenFromEnd(a, 1));
  }

  /** The `k`-th character from the end of an ASCII code widens to its own code, an absent one to 0. */
  lemma WidenFromEndAscii(a: string, k: nat)
    requires IsCodeText(a) && 1 <= k
    ensures var w := WidenFromEnd(a, k);
      && w < 0x80
      && if k <= |a| then w != 0 && CharOf(w as bv8) == a[|a| - k] else w == 0
  {
    if k <= |a| {
      WidenAscii(a[|a| - k]);
    }
  }

  /** An ASCII character stands for the byte of its own code. */
  lemma ByteOfAscii(c: char)
    requires c as int < 0x80
    ensures ByteOf(c) as int == c as int
  {
    var n := c as int;
    assert n % 256 == n;
    assert (n as bv8) as int == n;
  }

  /** A non-zero ASCII character widens to its own code. */
  lemma WidenAscii(c: char)
    requires IsCodeChar(c)
    ensures Widen(c) < 0x80 && Widen(c) != 0
    ensures CharOf(Widen(c) as bv8) == c
  {
    var b := ByteOf(c);
    ByteOfAscii(c);
    assert b < 0x80;
    assert Widen(c) == b as Code;
    assert (b as Code) as bv8 == b;
  }

  /** `LongCodeToString` inverts `StringToLongCode` on ASCII codes of one to four characters. */
  lemma LongCodeRoundTrip(a: string)
    requires IsCodeText(a)
    ensures LongCodeToString(StringToLongCode(a)) == a
  {
    var w1, w2, w3, w4 := WidenFromEnd(a, 1), WidenFromEnd(a, 2), WidenFromEnd(a, 3), WidenFromEnd(a, 4);
    WidenFromEndAscii(a, 1);
    WidenFromEndAscii(a, 2);
    WidenFromEndAscii(a, 3);
    WidenFromEndAscii(a, 4);
    assert StringToLongCode(a) == Pack(w4, w3, w2, w1);
    UnpackText(a, w1, w2, w3, w4);
  }

  /** Reading back four packed characters, the last one lowest; absent ones are zero. */
  lemma UnpackText(a: string, w1: Code, w2: Code, w3: Code, w4: Code)
    requires 1 <= |a| <= 4
    requires w1 < 0x80 && w1 != 0 && CharOf(w1 as bv8) == a[|a| - 1]
    requires if |a| >= 2 then w2 < 0x80 && w2 != 0 && CharOf(w2 as bv8) == a[|a| - 2] else w2 == 0
    requires if |a| >= 3 then w3 < 0x80 && w3 != 0 && CharOf(w3 as bv8) == a[|a| - 3] else w3 == 0
    requires if |a| >= 4 then w4 < 0x80 && w4 != 0 && CharOf(w4 as bv8) == a[|a| - 4] else w4 == 0
    ensures LongCodeToString(Pack(w4, w3, w2, w1)) == a
  {
    PackedText(w4, w3, w2, w1);
    Spelled(a);
  }

  /** A short text is the display of its characters. */
  lemma Spelled(a: string)
    requires 1 <= |a| <= 4
    ensures |a| == 1 ==> a == [a[0]]
    ensures |a| == 2 ==> a == [a[0], a[1]]
    ensures |a| == 3 ==> a == [a[0], a[1], a[2]]
    ensures |a| == 4 ==> a == [a[0], a[1], a[2], a[3]]
  {
  }

  /** What `LongCodeToString` reads back from four packed values below 0x80. */
  lemma PackedText(w4: Code, w3: Code, w2: Code, w1: Code)
    requires w1 < 0x80 && w2 < 0x80 && w3 < 0x80 && w4 < 0x80
    ensures LongCodeToString(Pack(w4, w3, w2, w1)) ==
      if w1 == 0 then ""
      else if w2 == 0 then [CharOf(w1 as bv8)]
      else if w3 == 0 then [CharOf(w2 as bv8), CharOf(w1 as bv8)]
      else if w4 == 0 then [CharOf(w3 as bv8), CharOf(w2 as bv8), CharOf(w1 as bv8)]
      else [CharOf(w4 as bv8), CharOf(w3 as bv8), CharOf(w2 as bv8), CharOf(w1 as bv8)]
  {
    PackBytes(w4, w3, w2, w1);
  }

  /** Distinct ASCII codes of one to four characters pack to distinct numbers. */
  lemma StringToLongCodeInjective(a: string, b: string)
    requires IsCodeText(a) && IsCodeText(b)
    requires StringToLongCode(a) == StringToLongCode(b)
    ensures a == b
  {
    LongCodeRoundTrip(a);
    LongCodeRoundTrip(b);
  }

  /** The empty text and texts of five characters or more get the `-1` marker. */
  lemma NoCodeForBadLength(a: string)
    ensures (|a| == 0 || |a| > 4) ==> StringToLongCode(a) == NoCode
  {
  }

  /** A table row: `LCENTRY`. */
  datatype Entry = Entry(code: Code, name: string)

  /** `unsigned long` order of the codes. */
  predicate CodeLe(x: Entry, y: Entry) { x.code as int <= y.code as int }

  /** The comparison of `CreateIso639ByName`: `CompareNoCase(a, b) < 0`, as "not greater". */
  predicate NameLe(x: Entry, y: Entry) { LexLe(Lower(x.name), Lower(y.name)) }

  lemma CodeLeTotal()
    ensures TotalPreorder(CodeLe)
  {
  }

  lemma NameLeTotal()
    ensures TotalPreorder(NameLe)
  {
    LexLeTotalOrder();
  }

  /** `CreateIso639ByCode`: the rows sorted by code. */
  function CreateIso639ByCode(codes: seq<Entry>): (r: seq<Entry>)
    ensures IsSortingOf(r, codes, CodeLe)
  {
    CodeLeTotal();
    SortBy(codes, CodeLe)
  }

  /** `CreateIso639ByName`: the rows sorted by name, ignoring case. */
  function CreateIso639ByName(codes: seq<Entry>): (r: seq<Entry>)
    ensures IsSortingOf(r, codes, NameLe)
  {
    NameLeTotal();
    SortBy(codes, NameLe)
  }

  lemma CodeAsIntInjective(x: Code, y: Code)
    requires x as int == y as int
    ensures x == y
  {
    assert (x as int) as Code == x;
    assert (y as int) as Code == y;
  }

  /**
   * Although `std::ranges::sort` is not stable, the table sorted by code is
   * fully determined when no two rows share a code.
   */
  lemma ByCodeUnique(codes: seq<Entry>, r: seq<Entry>)
    requires forall i, j :: 0 <= i < j < |codes| ==> codes[i].code != codes[j].code
    requires IsSortingOf(r, codes, CodeLe)
    ensures r == CreateIso639ByCode(codes)
  {
    CodeLeTotal();
    var s := CreateIso639ByCode(codes);
    assert EquivalentsEqual(codes, CodeLe) by {
      forall i, j | 0 <= i < |codes| && 0 <= j < |codes| && CodeLe(codes[i], codes[j]) && CodeLe(codes[j], codes[i])
        ensures codes[i] == codes[j]
      {
        CodeAsIntInjective(codes[i].code, codes[j].code);
      }
    }
    EquivalentsEqualPermutation(codes, r, CodeLe);
    SortedPermutationUnique(r, s, CodeLe);
  }

  /**
   * `concat`: copies the first array and then the second into a fresh array
   * of the summed size.
   */
  method Concat<T>(a1: seq<T>, a2: seq<T>) returns (r: seq<T>)
    ensures |r| == |a1| + |a2|
    ensures forall i :: 0 <= i < |a1| ==> r[i] == a1[i]
    ensures forall i :: 0 <= i < |a2| ==> r[|a1| + i] == a2[i]
  {
    r := [];
    var i := 0;
    while i < |a1|
      invariant 0 <= i <= |a1|
      invariant r == a1[..i]
    {
      r := r + [a1[i]];
      i := i + 1;
    }
    var j := 0;
    while j < |a2|
      invariant 0 <= j <= |a2|
      invariant r == a1 + a2[..j]
    {
      r := r + [a2[j]];
      j := j + 1;
    }
  }
}
