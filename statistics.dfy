/**
 * Numeric helpers of the per-URL report: the sum of a list of request
 * times, the ascending sort applied to each list, and the median of a
 * sorted list.
 */
module Statistics {
  import opened Wrappers

  /** `sum(lst)`. */
  function Sum(s: seq<real>): real
  {
    if s == [] then 0.0 else s[0] + Sum(s[1..])
  }

  predicate Sorted(s: seq<real>)
  {
    forall i, j :: 0 <= i <= j < |s| ==> s[i] <= s[j]
  }

  /** Appending a time adds it to the sum. */
  lemma {:induction false} SumAppend(s: seq<real>, x: real)
    ensures Sum(s + [x]) == Sum(s) + x
  {
    if s != [] {
      assert (s + [x])[1..] == s[1..] + [x];
      SumAppend(s[1..], x);
    }
  }

  /** Every element lies between `lo` and `hi`, so the sum lies between `n*lo` and `n*hi`. */
  lemma {:induction false} SumBounds(s: seq<real>, lo: real, hi: real)
    requires forall i :: 0 <= i < |s| ==> lo <= s[i] <= hi
    ensures |s| as real * lo <= Sum(s) <= |s| as real * hi
  {
    if s != [] {
      SumBounds(s[1..], lo, hi);
    }
  }

  /** Places `x` before the first element not smaller than it. */
  function Insert(x: real, s: seq<real>): (r: seq<real>)
    ensures |r| == |s| + 1
  {
    if s == [] || x <= s[0] then [x] + s else [s[0]] + Insert(x, s[1..])
  }

  /** Inserting into a sorted list keeps it sorted, adds `x` once and adds `x` to the sum. */
  lemma InsertSpec(x: real, s: seq<real>)
    requires Sorted(s)
    ensures Sorted(Insert(x, s))
    ensures multiset(Insert(x, s)) == multiset(s) + multiset{x}
    ensures Sum(Insert(x, s)) == Sum(s) + x
  {
    InsertSorted(x, s);
    InsertElements(x, s);
    InsertSum(x, s);
  }

  lemma {:induction false} InsertSorted(x: real, s: seq<real>)
    requires Sorted(s)
    ensures Sorted(Insert(x, s))
  {
    if s == [] || x <= s[0] {
      ConsSorted(x, s);
    } else {
      InsertSorted(x, s[1..]);
      InsertAbove(x, s[1..], s[0]);
      ConsSorted(s[0], Insert(x, s[1..]));
    }
  }

  lemma {:induction false} InsertElements(x: real, s: seq<real>)
    ensures multiset(Insert(x, s)) == multiset(s) + multiset{x}
  {
    if s != [] && x > s[0] {
      InsertElements(x, s[1..]);
      var r := Insert(x, s);
      assert r[1..] == Insert(x, s[1..]);
      assert s == [s[0]] + s[1..];
    }
  }

  lemma {:induction false} InsertSum(x: real, s: seq<real>)
    ensures Sum(Insert(x, s)) == Sum(s) + x
  {
    if s != [] && x > s[0] {
      InsertSum(x, s[1..]);
      assert Insert(x, s)[1..] == Insert(x, s[1..]);
    }
  }

  /** Inserting a value not below `lo` into a list not below `lo` gives a list not below `lo`. */
  lemma {:induction false} InsertAbove(x: real, s: seq<real>, lo: real)
    requires lo <= x && forall i :: 0 <= i < |s| ==> lo <= s[i]
    ensures forall i :: 0 <= i < |Insert(x, s)| ==> lo <= Insert(x, s)[i]
  {
    if s != [] && x > s[0] {
      InsertAbove(x, s[1..], lo);
      assert Insert(x, s)[1..] == Insert(x, s[1..]);
    }
  }

  lemma ConsSorted(y: real, t: seq<real>)
    requires Sorted(t) && forall i :: 0 <= i < |t| ==> y <= t[i]
    ensures Sorted([y] + t)
  {
  }

  /** `list.sort()` on a list of times. */
  function Sort(s: seq<real>): (r: seq<real>)
    ensures |r| == |s|
  {
    if s == [] then [] else Insert(s[0], Sort(s[1..]))
  }

  /** The sorted list is ascending, holds the same times and has the same sum. */
  lemma {:induction false} SortSpec(s: seq<real>)
    ensures Sorted(Sort(s))
    ensures multiset(Sort(s)) == multiset(s)
    ensures Sum(Sort(s)) == Sum(s)
  {
    if s != [] {
      SortSpec(s[1..]);
      InsertSpec(s[0], Sort(s[1..]));
      assert s == [s[0]] + s[1..];
    }
  }

  /** Sorting keeps the sum. */
  lemma {:induction false} SortSum(s: seq<real>)
    ensures Sum(Sort(s)) == Sum(s)
  {
    if s != [] {
      SortSum(s[1..]);
      InsertSum(s[0], Sort(s[1..]));
    }
  }

  /**
   * The median of a list assumed sorted: None when it is empty, the middle
   * element when its length is odd, the mean of the two middle ones otherwise.
   */
  function Median(s: seq<real>): (m: Option<real>)
  {
    var n := |s|;
    if n < 1 then None
    else if n % 2 == 1 then Some(s[n / 2])
    else Some((s[n / 2 - 1] + s[n / 2]) / 2.0)
  }

  /** A median exists exactly for a non-empty list, and a sorted list's median lies between its ends. */
  lemma MedianBounds(s: seq<real>)
    requires Sorted(s)
    ensures Median(s).Some? <==> |s| >= 1
    ensures Median(s).Some? ==> s[0] <= Median(s).value <= s[|s| - 1]
  {
  }

  /**
   * The median splits a sorted list: every element of the lower half
   * (rounded up) is at most the median and every element of the upper half
   * is at least it.
   */
  lemma MedianSplits(s: seq<real>)
    requires Sorted(s) && |s| >= 1
    ensures forall i :: 0 <= i < (|s| + 1) / 2 ==> s[i] <= Median(s).value
    ensures forall i :: |s| / 2 <= i < |s| ==> Median(s).value <= s[i]
  {
  }

  /** Two lists with the same elements have the same sorted form, hence the same median. */
  lemma SortedUnique(a: seq<real>, b: seq<real>)
    requires Sorted(a) && Sorted(b) && multiset(a) == multiset(b)
    ensures a == b
  {
    if a != [] {
      assert a[0] in multiset(b);
      assert b[0] in multiset(a);
      SortedFirstIsMin(a, b[0]);
      SortedFirstIsMin(b, a[0]);
      assert a[0] == b[0];
      assert a == [a[0]] + a[1..];
      assert b == [b[0]] + b[1..];
      assert multiset(a) == multiset{a[0]} + multiset(a[1..]);
      assert multiset(b) == multiset{b[0]} + multiset(b[1..]);
      forall y
        ensures multiset(a[1..])[y] == multiset(b[1..])[y]
      {
        assert multiset(a)[y] == multiset(b)[y];
      }
      assert multiset(a[1..]) == multiset(b[1..]);
      SortedUnique(a[1..], b[1..]);
    } else {
      assert |b| == |multiset(b)|;
    }
  }

  lemma SortedFirstIsMin(s: seq<real>, x: real)
    requires Sorted(s) && x in multiset(s)
    ensures s[0] <= x
  {
    var k :| 0 <= k < |s| && s[k] == x;
  }

  /** The median of the sorted list does not depend on the order the times arrived in. */
  lemma MedianOfSortIgnoresOrder(a: seq<real>, b: seq<real>)
    requires multiset(a) == multiset(b)
    ensures Median(Sort(a)) == Median(Sort(b))
  {
    SortSpec(a);
    SortSpec(b);
    SortedUnique(Sort(a), Sort(b));
  }

  /** The test's two examples: `[1, 2, 3]` gives 2 and `[1, 2, 3, 4]` gives 2.5. */
  lemma MedianExamples()
    ensures Median([1.0, 2.0, 3.0]) == Some(2.0)
    ensures Median([1.0, 2.0, 3.0, 4.0]) == Some(2.5)
  {
  }
}
