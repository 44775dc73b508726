/**
 * Sorting a sequence by a comparison, in the way `std::ranges::sort` with a
 * projection is used by the language-tag code, and `std::ranges::adjacent_find`
 * for duplicate detection.
 *
 * `std::ranges::sort` is not stable: for elements the comparison cannot tell
 * apart it may produce any order. `SortBy` below is one admissible outcome (an
 * insertion sort that keeps equivalent elements in input order); the lemma
 * `SortedPermutationUnique` shows that every admissible outcome coincides with
 * it when no two distinct elements are equivalent.
 */
module Sorting {

  /** `le` is total and transitive, i.e. the "not greater" of a strict weak order. */
  ghost predicate TotalPreorder<T(!new)>(le: (T, T) -> bool)
  {
    && (forall x, y :: le(x, y) || le(y, x))
    && (forall x, y, z :: le(x, y) && le(y, z) ==> le(x, z))
  }

  predicate SortedBy<T>(s: seq<T>, le: (T, T) -> bool)
  {
    forall i, j :: 0 <= i < j < |s| ==> le(s[i], s[j])
  }

  /** A possible result of sorting `s` with `le`: a permutation in order. */
  predicate IsSortingOf<T(==)>(r: seq<T>, s: seq<T>, le: (T, T) -> bool)
  {
    multiset(r) == multiset(s) && SortedBy(r, le)
  }

  /** Elements of `s` that `le` considers equivalent are equal. */
  predicate EquivalentsEqual<T(==)>(s: seq<T>, le: (T, T) -> bool)
  {
    forall i, j :: 0 <= i < |s| && 0 <= j < |s| && le(s[i], s[j]) && le(s[j], s[i]) ==> s[i] == s[j]
  }

  /** Inserts `x` before the first element it is not greater than. */
  function InsertBy<T(==,!new)>(x: T, s: seq<T>, le: (T, T) -> bool): (r: seq<T>)
    requires TotalPreorder(le)
    requires SortedBy(s, le)
    ensures multiset(r) == multiset(s) + multiset{x}
    ensures SortedBy(r, le)
  {
    if |s| == 0 then [x]
    else if le(x, s[0]) then [x] + s
    else
      var tail := InsertBy(x, s[1..], le);
      var r := [s[0]] + tail;
      assert s == [s[0]] + s[1..];
      assert SortedBy(r, le) by {
        forall k | 0 <= k < |tail|
          ensures le(s[0], tail[k])
        {
          assert tail[k] in multiset(tail);
          if tail[k] != x {
            assert tail[k] in multiset(s[1..]);
            var j :| 0 <= j < |s[1..]| && s[1..][j] == tail[k];
            assert s[j + 1] == tail[k];
          }
        }
      }
      r
  }

  /** Insertion sort: the model's outcome of `std::ranges::sort(s, le)`. */
  function SortBy<T(==,!new)>(s: seq<T>, le: (T, T) -> bool): (r: seq<T>)
    requires TotalPreorder(le)
    ensures IsSortingOf(r, s, le)
  {
    if |s| == 0 then []
    else
      assert s == [s[0]] + s[1..];
      InsertBy(s[0], SortBy(s[1..], le), le)
  }

  /**
   * Any two sortings of the same elements are equal when equivalent
   * elements are equal: so an unstable sort has only one possible outcome.
   */
  lemma {:induction false} SortedPermutationUnique<T(!new)>(xs: seq<T>, ys: seq<T>, le: (T, T) -> bool)
    requires TotalPreorder(le)
    requires SortedBy(xs, le) && SortedBy(ys, le)
    requires multiset(xs) == multiset(ys)
    requires EquivalentsEqual(xs, le)
    ensures xs == ys
  {
    if |xs| == 0 {
      assert |multiset(ys)| == 0;
    } else {
      SortedHeadsEqual(xs, ys, le);
      TailMultiset(xs, ys);
      EquivalentsEqualTail(xs, le);
      assert SortedBy(xs[1..], le) && SortedBy(ys[1..], le);
      SortedPermutationUnique(xs[1..], ys[1..], le);
      assert xs == [xs[0]] + xs[1..] && ys == [ys[0]] + ys[1..];
    }
  }

  /** The first elements of two sortings of the same elements are equivalent, hence equal. */
  lemma SortedHeadsEqual<T(!new)>(xs: seq<T>, ys: seq<T>, le: (T, T) -> bool)
    requires TotalPreorder(le)
    requires SortedBy(xs, le) && SortedBy(ys, le)
    requires multiset(xs) == multiset(ys)
    requires EquivalentsEqual(xs, le)
    requires |xs| > 0
    ensures |ys| > 0 && xs[0] == ys[0]
  {
    assert xs[0] in multiset(ys);
    var m :| 0 <= m < |ys| && ys[m] == xs[0];
    assert ys[0] in multiset(xs);
    var k :| 0 <= k < |xs| && xs[k] == ys[0];
    assert le(xs[0], xs[k]);
    assert le(ys[0], ys[m]);
  }

  lemma TailMultiset<T>(xs: seq<T>, ys: seq<T>)
    requires multiset(xs) == multiset(ys)
    requires |xs| > 0 && |ys| > 0 && xs[0] == ys[0]
    ensures multiset(xs[1..]) == multiset(ys[1..])
  {
    assert xs == [xs[0]] + xs[1..] && ys == [ys[0]] + ys[1..];
    assert multiset(xs[1..]) == multiset(xs) - multiset{xs[0]};
    assert multiset(ys[1..]) == multiset(ys) - multiset{ys[0]};
  }

  lemma EquivalentsEqualTail<T>(xs: seq<T>, le: (T, T) -> bool)
    requires |xs| > 0
    requires EquivalentsEqual(xs, le)
    ensures EquivalentsEqual(xs[1..], le)
  {
    forall i, j | 0 <= i < |xs[1..]| && 0 <= j < |xs[1..]|
      ensures le(xs[1..][i], xs[1..][j]) && le(xs[1..][j], xs[1..][i]) ==> xs[1..][i] == xs[1..][j]
    {
      assert xs[1..][i] == xs[i + 1] && xs[1..][j] == xs[j + 1];
    }
  }

  /** Sorting an already sorted sequence is a no-op. */
  lemma SortSorted<T(!new)>(s: seq<T>, le: (T, T) -> bool)
    requires TotalPreorder(le)
    requires SortedBy(s, le)
    requires EquivalentsEqual(s, le)
    ensures SortBy(s, le) == s
  {
    SortedPermutationUnique(s, SortBy(s, le), le);
  }

  /** Being pairwise-equal-when-equivalent depends on the elements only. */
  lemma EquivalentsEqualPermutation<T>(a: seq<T>, b: seq<T>, le: (T, T) -> bool)
    requires multiset(a) == multiset(b)
    requires EquivalentsEqual(a, le)
    ensures EquivalentsEqual(b, le)
  {
    forall i, j | 0 <= i < |b| && 0 <= j < |b| && le(b[i], b[j]) && le(b[j], b[i])
      ensures b[i] == b[j]
    {
      assert b[i] in multiset(a) && b[j] in multiset(a);
      var p :| 0 <= p < |a| && a[p] == b[i];
      var q :| 0 <= q < |a| && a[q] == b[j];
    }
  }

  /**
   * `std::ranges::adjacent_find`: the index of the first element equal to
   * its successor, or `|s|` (the end iterator) when there is none.
   */
  function AdjacentFind<T(==)>(s: seq<T>): (k: nat)
    ensures k <= |s|
    ensures k < |s| ==> k + 1 < |s| && s[k] == s[k + 1]
    ensures forall i :: 0 <= i < k && i + 1 < |s| ==> s[i] != s[i + 1]
    ensures k == |s| ==> forall i :: 0 <= i < |s| - 1 ==> s[i] != s[i + 1]
  {
    if |s| < 2 then |s|
    else if s[0] == s[1] then 0
    else
      var k := AdjacentFind(s[1..]);
      assert forall i :: 1 <= i < k + 1 && i + 1 < |s| ==> s[1..][i - 1] == s[i] && s[1..][i] == s[i + 1];
      k + 1
  }

  /** Some value occurs twice in `s`. */
  predicate HasDuplicates<T(==)>(s: seq<T>)
  {
    exists i, j :: 0 <= i < j < |s| && s[i] == s[j]
  }

  /** In a sorted sequence under an antisymmetric order, equal values are neighbours. */
  lemma AdjacentFindSorted<T>(s: seq<T>, le: (T, T) -> bool)
    requires SortedBy(s, le)
    requires EquivalentsEqual(s, le)
    ensures AdjacentFind(s) < |s| <==> HasDuplicates(s)
  {
    var k := AdjacentFind(s);
    if k < |s| {
      assert s[k] == s[k + 1];
    }
    if HasDuplicates(s) {
      var i, j :| 0 <= i < j < |s| && s[i] == s[j];
      DuplicateNeighbour(s, le, i, j);
    }
  }

  /** Two equal elements of a sorted sequence make the first of them equal to its successor. */
  lemma DuplicateNeighbour<T>(s: seq<T>, le: (T, T) -> bool, i: nat, j: nat)
    requires SortedBy(s, le)
    requires EquivalentsEqual(s, le)
    requires i < j < |s| && s[i] == s[j]
    ensures s[i] == s[i + 1]
  {
    if i + 1 < j {
      assert le(s[i], s[i + 1]);
      assert le(s[i + 1], s[j]);
    }
  }

  /** Occurrence count of `x` in `s` is at most one for every `x`. */
  lemma {:induction false} NoDuplicatesCount<T>(s: seq<T>, x: T)
    requires !HasDuplicates(s)
    ensures multiset(s)[x] <= 1
  {
    if |s| > 0 {
      assert s == [s[0]] + s[1..];
      assert !HasDuplicates(s[1..]) by {
        forall i, j | 0 <= i < j < |s[1..]|
          ensures s[1..][i] != s[1..][j]
        {
          assert s[1..][i] == s[i + 1] && s[1..][j] == s[j + 1];
        }
      }
      NoDuplicatesCount(s[1..], x);
      if x == s[0] {
        assert s[0] !in s[1..] by {
          forall j | 0 <= j < |s[1..]|
            ensures s[1..][j] != s[0]
          {
            assert s[1..][j] == s[j + 1];
          }
        }
      }
    }
  }

  /** Having a duplicate depends on the elements only, not on their order. */
  lemma DuplicatesPermutation<T>(a: seq<T>, b: seq<T>)
    requires multiset(a) == multiset(b)
    ensures HasDuplicates(a) <==> HasDuplicates(b)
  {
    if HasDuplicates(a) && !HasDuplicates(b) {
      TwiceCounted(a);
    }
    if HasDuplicates(b) && !HasDuplicates(a) {
      TwiceCounted(b);
    }
  }

  /** A duplicated value is counted at least twice; no duplicate means all counts are at most one. */
  lemma TwiceCounted<T>(s: seq<T>)
    requires HasDuplicates(s)
    ensures exists x :: multiset(s)[x] >= 2
    ensures forall t: seq<T> :: multiset(t) == multiset(s) ==> HasDuplicates(t)
  {
    var i, j :| 0 <= i < j < |s| && s[i] == s[j];
    var x := s[i];
    assert s == s[..i] + [s[i]] + s[i + 1..j] + [s[j]] + s[j + 1..];
    assert multiset(s)[x] >= 2;
    forall t: seq<T> | multiset(t) == multiset(s)
      ensures HasDuplicates(t)
    {
      if !HasDuplicates(t) {
        NoDuplicatesCount(t, x);
      }
    }
  }

  /**
   * Exchanging two different elements that `le` considers equivalent turns a
   * sorting into another sorting: an unstable sort may return either.
   */
  lemma SwapEquivalents<T(!new)>(r: seq<T>, s: seq<T>, le: (T, T) -> bool, p: nat, q: nat)
    requires TotalPreorder(le)
    requires IsSortingOf(r, s, le)
    requires p < q < |r| && le(r[p], r[q]) && le(r[q], r[p]) && r[p] != r[q]
    ensures IsSortingOf(r[p := r[q]][q := r[p]], s, le)
    ensures r[p := r[q]][q := r[p]] != r
  {
    var t := r[p := r[q]][q := r[p]];
    assert forall k :: 0 <= k < |t| ==> le(t[k], r[k]) && le(r[k], t[k]);
    forall i, j | 0 <= i < j < |t|
      ensures le(t[i], t[j])
    {
      assert le(t[i], r[i]) && le(r[i], r[j]) && le(r[j], t[j]);
    }
    assert t[p] != r[p];
  }

  /**
   * When `s` holds two different elements that `le` considers equivalent,
   * sorting `s` has more than one admissible result.
   */
  lemma SortingNotUnique<T(!new)>(r: seq<T>, s: seq<T>, le: (T, T) -> bool, i: nat, j: nat)
    requires TotalPreorder(le)
    requires IsSortingOf(r, s, le)
    requires i < |s| && j < |s| && le(s[i], s[j]) && le(s[j], s[i]) && s[i] != s[j]
    ensures exists t :: IsSortingOf(t, s, le) && t != r
  {
    assert s[i] in multiset(r) && s[j] in multiset(r);
    var p :| 0 <= p < |r| && r[p] == s[i];
    var q :| 0 <= q < |r| && r[q] == s[j];
    if p < q {
      SwapEquivalents(r, s, le, p, q);
    } else {
      SwapEquivalents(r, s, le, q, p);
    }
  }
}
