/** A comparison sort, and why its result does not depend on the order of its input. */
module Sorting {

  function InsertBy<T>(less: (T, T) -> bool, sorted: seq<T>, x: T): seq<T> {
    if sorted == [] then [x]
    else
      var n := |sorted| - 1;
      if less(x, sorted[n]) then InsertBy(less, sorted[..n], x) + [sorted[n]] else sorted + [x]
  }

  function SortBy<T>(less: (T, T) -> bool, s: seq<T>): seq<T> {
    if s == [] then [] else InsertBy(less, SortBy(less, s[..|s| - 1]), s[|s| - 1])
  }

  ghost predicate StrictOrder<T(!new)>(less: (T, T) -> bool) {
    && (forall x, y :: !(less(x, y) && less(y, x)))
    && (forall x, y, z :: less(x, y) && less(y, z) ==> less(x, z))
  }

  ghost predicate TotalOrder<T(!new)>(less: (T, T) -> bool) {
    StrictOrder(less) && forall x, y :: x != y ==> less(x, y) || less(y, x)
  }

  ghost predicate Increasing<T>(less: (T, T) -> bool, s: seq<T>) {
    forall i, j :: 0 <= i < j < |s| ==> less(s[i], s[j])
  }

  /** Any two entries are ordered one way or the other. */
  ghost predicate Comparable<T>(less: (T, T) -> bool, s: seq<T>) {
    forall i, j :: 0 <= i < j < |s| ==> less(s[i], s[j]) || less(s[j], s[i])
  }

  lemma {:induction false} InsertMembers<T>(less: (T, T) -> bool, sorted: seq<T>, x: T, y: T)
    ensures y in InsertBy(less, sorted, x) <==> y in sorted || y == x
  {
    if sorted != [] {
      var n := |sorted| - 1;
      assert sorted == sorted[..n] + [sorted[n]];
      InsertMembers(less, sorted[..n], x, y);
    }
  }

  lemma {:induction false} InsertIncreasing<T(!new)>(less: (T, T) -> bool, sorted: seq<T>, x: T)
    requires StrictOrder(less) && Increasing(less, sorted)
    requires forall k :: 0 <= k < |sorted| ==> less(x, sorted[k]) || less(sorted[k], x)
    ensures Increasing(less, InsertBy(less, sorted, x))
  {
    if sorted != [] {
      var n := |sorted| - 1;
      if less(x, sorted[n]) {
        InsertIncreasing(less, sorted[..n], x);
        var head := InsertBy(less, sorted[..n], x);
        forall i | 0 <= i < |head| ensures less(head[i], sorted[n]) {
          InsertMembers(less, sorted[..n], x, head[i]);
          assert head[i] in head;
        }
      }
    }
  }

  lemma {:induction false} SortMembers<T>(less: (T, T) -> bool, s: seq<T>, y: T)
    ensures y in SortBy(less, s) <==> y in s
  {
    if s != [] {
      SortMembers(less, s[..|s| - 1], y);
      InsertMembers(less, SortBy(less, s[..|s| - 1]), s[|s| - 1], y);
      assert s == s[..|s| - 1] + [s[|s| - 1]];
    }
  }

  lemma {:induction false} SortIncreasing<T(!new)>(less: (T, T) -> bool, s: seq<T>)
    requires StrictOrder(less) && Comparable(less, s)
    ensures Increasing(less, SortBy(less, s))
  {
    if s != [] {
      var n := |s| - 1;
      SortIncreasing(less, s[..n]);
      var sorted := SortBy(less, s[..n]);
      forall k | 0 <= k < |sorted| ensures less(s[n], sorted[k]) || less(sorted[k], s[n]) {
        SortMembers(less, s[..n], sorted[k]);
        assert sorted[k] in sorted;
        var i :| 0 <= i < n && s[i] == sorted[k];
      }
      InsertIncreasing(less, sorted, s[n]);
    }
  }

  lemma HeadIsIn<T>(s: seq<T>)
    ensures s == [] || s[0] in s
  {
  }

  lemma {:induction false} IncreasingUnique<T(!new)>(less: (T, T) -> bool, a: seq<T>, b: seq<T>)
    requires StrictOrder(less) && Increasing(less, a) && Increasing(less, b)
    requires forall x :: x in a <==> x in b
    ensures a == b
  {
    if a == [] {
      HeadIsIn(b);
    } else {
      var m, n := |a| - 1, |b| - 1;
      assert a[m] in b && (b == [] || b[n] in a);
      assert a[m] == b[n];
      forall x ensures x in a[..m] <==> x in b[..n] {
        if x in a[..m] {
          var i :| 0 <= i < m && a[i] == x;
          assert less(x, a[m]) && x in a && x in b;
        }
        if x in b[..n] {
          var i :| 0 <= i < n && b[i] == x;
          assert less(x, b[n]) && x in b && x in a;
        }
      }
      IncreasingUnique(less, a[..m], b[..n]);
      assert a == a[..m] + [a[m]] && b == b[..n] + [b[n]];
    }
  }

  /** Two lists with the same entries, any two of them ordered, sort to the same list. */
  lemma {:induction false} SortForgetsOrder<T(!new)>(less: (T, T) -> bool, a: seq<T>, b: seq<T>)
    requires StrictOrder(less) && Comparable(less, a) && Comparable(less, b)
    requires forall x :: x in a <==> x in b
    ensures SortBy(less, a) == SortBy(less, b)
  {
    SortIncreasing(less, a);
    SortIncreasing(less, b);
    forall x ensures x in SortBy(less, a) <==> x in SortBy(less, b) {
      SortMembers(less, a, x);
      SortMembers(less, b, x);
    }
    IncreasingUnique(less, SortBy(less, a), SortBy(less, b));
  }

  // ---- Entries that may tie -----------------------------------------------------------------------

  /** No entry comes before one that should precede it. */
  ghost predicate NoneLate<T>(less: (T, T) -> bool, s: seq<T>) {
    forall i, j :: 0 <= i < j < |s| ==> !less(s[j], s[i])
  }

  ghost predicate WeakOrder<T(!new)>(less: (T, T) -> bool) {
    && (forall x, y :: !(less(x, y) && less(y, x)))
    && (forall x, y, z :: less(x, z) ==> less(x, y) || less(y, z))
  }

  lemma {:induction false} InsertNoneLate<T(!new)>(less: (T, T) -> bool, sorted: seq<T>, x: T)
    requires WeakOrder(less) && NoneLate(less, sorted)
    ensures NoneLate(less, InsertBy(less, sorted, x))
    ensures multiset(InsertBy(less, sorted, x)) == multiset(sorted) + multiset{x}
  {
    if sorted != [] {
      var n := |sorted| - 1;
      assert sorted == sorted[..n] + [sorted[n]];
      if less(x, sorted[n]) {
        InsertNoneLate(less, sorted[..n], x);
        var head := InsertBy(less, sorted[..n], x);
        forall i | 0 <= i < |head| ensures !less(sorted[n], head[i]) {
          InsertMembers(less, sorted[..n], x, head[i]);
          assert head[i] in head;
        }
      } else {
        forall i | 0 <= i < n ensures !less(x, sorted[i]) {
          assert !less(sorted[n], sorted[i]);
        }
      }
    }
  }

  /** The sorted list holds the same entries, none of them late. */
  lemma {:induction false} SortNoneLate<T(!new)>(less: (T, T) -> bool, s: seq<T>)
    requires WeakOrder(less)
    ensures NoneLate(less, SortBy(less, s)) && multiset(SortBy(less, s)) == multiset(s)
  {
    if s != [] {
      var n := |s| - 1;
      SortNoneLate(less, s[..n]);
      InsertNoneLate(less, SortBy(less, s[..n]), s[n]);
      assert s == s[..n] + [s[n]];
    }
  }
}
