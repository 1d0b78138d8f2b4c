/** Numbers and finite sets of numbers, as several modules need them.

    Sets of numbers come up where the program counts instead of looking: a file is complete when as many chunks have
    come as were announced, and two ports are free because fewer are blocked than there are. What such a count means
    for the set is stated here. */
module Basics {

  function Min(x: int, y: int): int { if x < y then x else y }
  function Max(x: int, y: int): int { if x < y then y else x }

  /** The numbers from `lo` up to but not including `hi`. */
  function Interval(lo: nat, hi: nat): (s: set<nat>)
    requires lo <= hi
    ensures |s| == hi - lo && forall q: nat :: q in s <==> lo <= q < hi
    decreases hi - lo
  {
    if lo == hi then {}
    else
      var below := Interval(lo, hi - 1);
      assert hi - 1 !in below;
      below + {hi - 1}
  }

  lemma {:induction false} SmallerSet(s: set<nat>, t: set<nat>)
    requires s <= t
    ensures |s| <= |t|
  {
    assert |t - s| == |t| - |s|;
  }

  lemma {:induction false} SubsetOfSameSize(s: set<nat>, t: set<nat>)
    requires s <= t && |s| == |t|
    ensures s == t
  {
    assert |t - s| == |t| - |s|;
  }

  lemma SumOfSizes(a: set<nat>, b: set<nat>)
    ensures |a + b| <= |a| + |b|
  {
    assert a + b == a + (b - a);
    SmallerSet(b - a, b);
  }

  lemma Pigeonhole(s: set<nat>, n: nat)
    requires |s| == n && forall i: nat :: i in s ==> i < n
    ensures s == Interval(0, n)
  {
    assert s <= Interval(0, n);
    SubsetOfSameSize(s, Interval(0, n));
  }
}
