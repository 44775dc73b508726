/**
 * Facts about constant tables kept in ascending order of a text key, as the
 * code tables are: ascending neighbours make the whole table ascending, the
 * keys are then distinct, and a key that falls strictly between two
 * neighbours is not in the table at all.
 */
module SortedTable {
  import opened Ascii

  /** Each key is smaller than the next one, in the order of `std::string_view`'s `<`. */
  predicate Ascending<T>(s: seq<T>, key: T -> string)
  {
    forall i :: 0 <= i < |s| - 1 ==> LexLess(key(s[i]), key(s[i + 1]))
  }

  /** Two lower-case ASCII letters: the shape of an ISO 639-1 code. */
  predicate IsAlpha2(s: string) { |s| == 2 && AllLowerLetters(s) }

  /** The order of two-letter codes, letter by letter. */
  predicate PairLess(a: string, b: string)
    requires |a| == 2 && |b| == 2
  {
    a[0] < b[0] || (a[0] == b[0] && a[1] < b[1])
  }

  /** Every key is a two-letter code and each is below the next. */
  predicate Alpha2Ascending<T>(s: seq<T>, key: T -> string)
  {
    forall i :: 0 <= i < |s| ==>
      IsAlpha2(key(s[i])) && (i + 1 < |s| ==> IsAlpha2(key(s[i + 1])) && PairLess(key(s[i]), key(s[i + 1])))
  }

  lemma Alpha2AscendingIsAscending<T>(s: seq<T>, key: T -> string)
    requires Alpha2Ascending(s, key)
    ensures Ascending(s, key)
    ensures forall i :: 0 <= i < |s| ==> IsAlpha2(key(s[i]))
  {
    forall i | 0 <= i < |s| - 1
      ensures LexLess(key(s[i]), key(s[i + 1]))
    {
      LexOfPairs(key(s[i]), key(s[i + 1]));
    }
  }

  /** Two tables of two-letter codes joined where the first's last code is below the second's first. */
  lemma Alpha2AscendingAppend<T>(a: seq<T>, b: seq<T>, key: T -> string)
    requires Alpha2Ascending(a, key) && Alpha2Ascending(b, key)
    requires |a| > 0 && |b| > 0 ==> |key(a[|a| - 1])| == 2 && |key(b[0])| == 2 && PairLess(key(a[|a| - 1]), key(b[0]))
    ensures Alpha2Ascending(a + b, key)
  {
    var s := a + b;
    forall i | 0 <= i < |s|
      ensures IsAlpha2(key(s[i]))
      ensures i + 1 < |s| ==> IsAlpha2(key(s[i + 1])) && PairLess(key(s[i]), key(s[i + 1]))
    {
      if i < |a| - 1 {
        assert s[i] == a[i] && s[i + 1] == a[i + 1];
      } else if i == |a| - 1 {
        assert s[i] == a[|a| - 1];
        if i + 1 < |s| { assert s[i + 1] == b[0]; }
      } else {
        assert s[i] == b[i - |a|];
        if i + 1 < |s| { assert s[i + 1] == b[i - |a| + 1]; }
      }
    }
  }

  /** Each key is not greater than the next one: `std::ranges::is_sorted`. */
  predicate IsSorted<T>(s: seq<T>, key: T -> string)
  {
    forall i :: 0 <= i < |s| - 1 ==> !LexLess(key(s[i + 1]), key(s[i]))
  }

  /** Two ascending tables joined where the first's last key is below the second's first. */
  lemma AscendingAppend<T>(a: seq<T>, b: seq<T>, key: T -> string)
    requires Ascending(a, key) && Ascending(b, key)
    requires |a| > 0 && |b| > 0 ==> LexLess(key(a[|a| - 1]), key(b[0]))
    ensures Ascending(a + b, key)
  {
    var s := a + b;
    forall i | 0 <= i < |s| - 1
      ensures LexLess(key(s[i]), key(s[i + 1]))
    {
      if i < |a| - 1 {
        assert s[i] == a[i] && s[i + 1] == a[i + 1];
      } else if i == |a| - 1 {
        assert s[i] == a[|a| - 1] && s[i + 1] == b[0];
      } else {
        assert s[i] == b[i - |a|] && s[i + 1] == b[i - |a| + 1];
      }
    }
  }

  /** In an ascending table every earlier key is smaller than every later one. */
  lemma {:induction false} AscendingPairs<T>(s: seq<T>, key: T -> string, i: nat, j: nat)
    requires Ascending(s, key)
    requires i < j < |s|
    ensures LexLess(key(s[i]), key(s[j]))
    decreases j - i
  {
    if i + 1 < j {
      AscendingPairs(s, key, i + 1, j);
      LexLessTransitive(key(s[i]), key(s[i + 1]), key(s[j]));
    }
  }

  /** Keys of an ascending table are distinct, and an ascending table is sorted. */
  lemma AscendingDistinct<T>(s: seq<T>, key: T -> string)
    requires Ascending(s, key)
    ensures forall i, j :: 0 <= i < j < |s| ==> key(s[i]) != key(s[j])
    ensures IsSorted(s, key)
  {
    forall i, j | 0 <= i < j < |s|
      ensures key(s[i]) != key(s[j])
    {
      AscendingPairs(s, key, i, j);
      LexLessIrreflexive(key(s[i]));
    }
    forall i | 0 <= i < |s| - 1
      ensures !LexLess(key(s[i + 1]), key(s[i]))
    {
      LexLessAsymmetric(key(s[i]), key(s[i + 1]));
    }
  }

  /**
   * A key outside the table: below the first key, above the last, or
   * strictly between two neighbours.
   */
  predicate Gap<T>(s: seq<T>, key: T -> string, x: string)
  {
    || (|s| > 0 && LexLess(x, key(s[0])))
    || (|s| > 0 && LexLess(key(s[|s| - 1]), x))
    || exists k :: 0 <= k < |s| - 1 && LexLess(key(s[k]), x) && LexLess(x, key(s[k + 1]))
  }

  /** A key that falls into a gap of an ascending table is not one of its keys. */
  lemma AbsentInGap<T>(s: seq<T>, key: T -> string, x: string)
    requires Ascending(s, key)
    requires Gap(s, key, x)
    ensures forall i :: 0 <= i < |s| ==> key(s[i]) != x
  {
    forall i | 0 <= i < |s|
      ensures key(s[i]) != x
    {
      if key(s[i]) == x {
        if LexLess(x, key(s[0])) {
          if i > 0 { AscendingPairs(s, key, 0, i); }
          LexLessIrreflexive(x);
          LexLessAsymmetric(x, key(s[0]));
        } else if LexLess(key(s[|s| - 1]), x) {
          if i < |s| - 1 { AscendingPairs(s, key, i, |s| - 1); }
          LexLessIrreflexive(x);
          LexLessAsymmetric(x, key(s[|s| - 1]));
        } else {
          var k :| 0 <= k < |s| - 1 && LexLess(key(s[k]), x) && LexLess(x, key(s[k + 1]));
          if i <= k {
            if i < k { AscendingPairs(s, key, i, k); }
            LexLessIrreflexive(x);
            LexLessAsymmetric(x, key(s[k]));
          } else {
            if k + 1 < i { AscendingPairs(s, key, k + 1, i); }
            LexLessIrreflexive(x);
            LexLessAsymmetric(x, key(s[k + 1]));
          }
        }
      }
    }
  }
}
