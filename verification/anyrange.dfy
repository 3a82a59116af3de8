/** list_quick_sort of TCP_C/hash.c for any range: what it does where the range ends neither with the list nor with a
    maximum. */
module AnyRange {
  import opened Ring
  import opened ListSort

  /** A range of entries, or one that begins after its end, such as the code makes when a pivot comes to the end of its
      range. */
  ghost predicate Callable<T>(s: seq<T>, lo: nat, hi: nat, cmp: (T, T) -> int) {
    Distinct(s) && TailPreorder(s, cmp) && hi < |s| && (lo == hi || 0 < lo < |s|)
  }

  /** What every range keeps: nothing before it changes, and no node is lost. */
  ghost predicate Kept<T>(s: seq<T>, r: seq<T>, lo: nat, cmp: (T, T) -> int)
    ensures Kept(s, r, lo, cmp) ==> |r| == |s| && Distinct(r) && TailPreorder(r, cmp)
  {
    && |r| == |s| && multiset(r) == multiset(s) && Distinct(r) && TailPreorder(r, cmp)
    && forall i :: 0 <= i < lo && i < |s| ==> r[i] == s[i]
  }

  lemma KeptTwice<T>(s: seq<T>, t: seq<T>, r: seq<T>, lo: nat, lo': nat, cmp: (T, T) -> int)
    requires Kept(s, t, lo, cmp) && Kept(t, r, lo', cmp) && lo <= lo'
    ensures Kept(s, r, lo, cmp)
  {
  }

  /** list_quick_sort on a good range. */
  ghost function SortGood<T>(s: seq<T>, lo: nat, hi: nat, cmp: (T, T) -> int): (r: seq<T>)
    requires Sortable(s, lo, hi, cmp)
    ensures Kept(s, r, lo, cmp) && Rearranged(s, r, lo, hi, cmp)
  {
    var r := QuickSort(s, lo, hi, cmp);
    PermutedPreorder(s, r, cmp);
    r
  }

  /** The sort of everything from lo on. */
  ghost function SortRest<T>(s: seq<T>, lo: nat, cmp: (T, T) -> int): (r: seq<T>)
    requires Distinct(s) && TailPreorder(s, cmp) && 0 < lo < |s|
    ensures Kept(s, r, lo, cmp)
  {
    SortGood(s, lo, |s| - 1, cmp)
  }

  /** The first half of a range that is neither good nor run over: the partition, and the sort of what is before the
      pivot. */
  ghost function FirstHalf<T>(s: seq<T>, lo: nat, hi: nat, cmp: (T, T) -> int): (r: (seq<T>, nat))
    requires Range(s, lo, hi, cmp) && lo < hi < |s| - 1 && !EndMoves(s, lo, hi, cmp)
    ensures Kept(s, r.0, lo, cmp) && lo <= r.1 <= hi
    ensures cmp(s[hi], s[lo]) < 0 <==> r.1 == hi
  {
    PartitionCorrect(s, lo, hi, cmp);
    var (t, k, _) := Partition(s, lo, hi, cmp);
    LeftRange(t, lo, k, hi, cmp);
    var u := SortGood(t, lo, k, cmp);
    KeptTwice(s, t, u, lo, lo, cmp);
    (u, k)
  }

  /** list_quick_sort on a range that is not good: a range whose end node is swapped away, and one that begins after its
      end, as the range up to the tail; and otherwise what is before the pivot, and then what follows it. */
  ghost function SortOther<T>(s: seq<T>, lo: nat, hi: nat, cmp: (T, T) -> int): (r: seq<T>)
    requires Callable(s, lo, hi, cmp) && lo != hi && hi < |s| - 1
    ensures Kept(s, r, lo, cmp)
    decreases if lo <= hi then hi - lo else 0, 0
  {
    if lo > hi || EndMoves(s, lo, hi, cmp) then SortRest(s, lo, cmp)
    else
      var (u, k) := FirstHalf(s, lo, hi, cmp);
      if k == hi then
        KeptTwice(s, u, SortRest(u, hi + 1, cmp), lo, hi + 1, cmp);
        SortRest(u, hi + 1, cmp)
      else if k + 1 < hi then
        KeptTwice(s, u, Sort(u, k + 1, hi, cmp), lo, k + 1, cmp);
        Sort(u, k + 1, hi, cmp)
      else u
  }

  /** list_quick_sort on any range. */
  ghost function Sort<T>(s: seq<T>, lo: nat, hi: nat, cmp: (T, T) -> int): (r: seq<T>)
    requires Callable(s, lo, hi, cmp)
    ensures Kept(s, r, lo, cmp)
    decreases if lo <= hi then hi - lo else 0, 1
  {
    if lo == hi then s
    else if Sortable(s, lo, hi, cmp) then SortGood(s, lo, hi, cmp)
    else SortOther(s, lo, hi, cmp)
  }

  /** 0 for a good range, 1 for one that begins after its end, 2 for the others: no call inside the sort goes up. */
  ghost function Class<T>(s: seq<T>, lo: nat, hi: nat, cmp: (T, T) -> int): nat {
    if Sortable(s, lo, hi, cmp) then 0 else if lo > hi then 1 else 2
  }

  ghost function Span(lo: nat, hi: nat): nat {
    if lo <= hi then hi - lo else 0
  }

  ghost function Flag<T>(s: seq<T>, lo: nat, hi: nat, cmp: (T, T) -> int): nat
    requires hi < |s|
  {
    if EndMax(s, lo, hi, cmp) then 0 else 1
  }

  /** The inner range is smaller in the order that list_quick_sort goes down. */
  ghost predicate Smaller<T>(s': seq<T>, lo': nat, hi': nat, s: seq<T>, lo: nat, hi: nat, cmp: (T, T) -> int)
    requires hi' < |s'| && hi < |s|
  {
    || Class(s', lo', hi', cmp) < Class(s, lo, hi, cmp)
    || (Class(s', lo', hi', cmp) == Class(s, lo, hi, cmp) &&
        (Span(lo', hi') < Span(lo, hi) ||
         (Span(lo', hi') == Span(lo, hi) && Flag(s', lo', hi', cmp) < Flag(s, lo, hi, cmp))))
  }

  /** One call of list_quick_sort on the range from lo to hi: t is the list after the partition, which leaves the pivot
      at k and the end at h; u the list after the first call inside; the pointers to k and h are still good; and the
      second call inside is made as the code tests for it. */
  ghost predicate OneCall<T>(s: seq<T>, lo: nat, hi: nat, t: seq<T>, k: nat, h: nat, u: seq<T>, cmp: (T, T) -> int)
    requires Callable(s, lo, hi, cmp)
  {
    && Partition(s, lo, hi, cmp) == (t, k, h) && |t| == |u| == |s| && 0 < lo <= k <= h < |s|
    && Callable(t, lo, k, cmp) && u == Sort(t, lo, k, cmp) && Smaller(t, lo, k, s, lo, hi, cmp)
    && u[0] == s[0] && u[k] == t[k] && u[h] == t[h] && (forall i :: 0 <= i < |u| ==> u[i] in s)
    && if k + 1 != h && k + 1 != |s| then
         Callable(u, k + 1, h, cmp) && Smaller(u, k + 1, h, s, lo, hi, cmp) && Sort(s, lo, hi, cmp) == Sort(u, k + 1, h, cmp)
       else Sort(s, lo, hi, cmp) == u
  }

  lemma SortIsGood<T>(s: seq<T>, lo: nat, hi: nat, cmp: (T, T) -> int)
    requires Sortable(s, lo, hi, cmp)
    ensures Callable(s, lo, hi, cmp) && Sort(s, lo, hi, cmp) == QuickSort(s, lo, hi, cmp)
  {
    if lo == hi {
      QuickSortOne(s, lo, cmp);
    }
  }

  lemma GoodCall<T>(s: seq<T>, lo: nat, hi: nat, cmp: (T, T) -> int) returns (t: seq<T>, k: nat, u: seq<T>)
    requires Sortable(s, lo, hi, cmp) && lo < hi
    ensures Callable(s, lo, hi, cmp) && OneCall(s, lo, hi, t, k, hi, u, cmp)
    ensures Sortable(t, lo, k, cmp) && (k + 1 < hi ==> Sortable(u, k + 1, hi, cmp)) && (k < hi || hi == |s| - 1)
  {
    hide TailPreorder, Distinct, Partition, QuickSort, Sort, EndMax, Callable, Sortable;
    t, k, u := PointersStay(s, lo, hi, cmp);
    SortIsGood(s, lo, hi, cmp);
    SortIsGood(t, lo, k, cmp);
    if k + 1 < hi {
      SortIsGood(u, k + 1, hi, cmp);
    }
  }

  lemma RestIsGood<T>(s: seq<T>, lo: nat, cmp: (T, T) -> int)
    requires Distinct(s) && TailPreorder(s, cmp) && 0 < lo < |s|
    ensures Sortable(s, lo, |s| - 1, cmp) && SortRest(s, lo, cmp) == QuickSort(s, lo, |s| - 1, cmp)
    ensures Callable(s, lo, |s| - 1, cmp) && SortRest(s, lo, cmp) == Sort(s, lo, |s| - 1, cmp)
  {
    hide TailPreorder, Distinct, QuickSort;
    SortIsGood(s, lo, |s| - 1, cmp);
  }

  /** The ranges that are sorted as if they went up to the tail. */
  ghost predicate RunsToTail<T>(s: seq<T>, lo: nat, hi: nat, cmp: (T, T) -> int) {
    hi < |s| - 1 && (lo > hi || (lo < hi && EndMoves(s, lo, hi, cmp)))
  }

  lemma NotGood<T>(s: seq<T>, lo: nat, hi: nat, cmp: (T, T) -> int)
    requires Callable(s, lo, hi, cmp) && RunsToTail(s, lo, hi, cmp)
    ensures !Sortable(s, lo, hi, cmp) && Sort(s, lo, hi, cmp) == SortRest(s, lo, cmp)
  {
    if lo < hi {
      Flip(s, hi, lo, cmp);
    }
  }

  lemma TailPartition<T>(s: seq<T>, lo: nat, hi: nat, cmp: (T, T) -> int)
    requires Callable(s, lo, hi, cmp) && RunsToTail(s, lo, hi, cmp)
    ensures Partition(s, lo, hi, cmp).2 == |s| - 1
  {
    hide TailPreorder, Distinct, Partition, EndMoves;
    if lo < hi {
      PartitionEnd(s, lo, hi, cmp);
    } else {
      ReversedOverruns(s, lo, hi, cmp);
    }
  }

  lemma TailFacts<T>(s: seq<T>, lo: nat, hi: nat, cmp: (T, T) -> int)
    requires Callable(s, lo, hi, cmp) && RunsToTail(s, lo, hi, cmp) && lo < |s| - 1
    ensures !Sortable(s, lo, hi, cmp) && Sortable(s, lo, |s| - 1, cmp) && Callable(s, lo, |s| - 1, cmp)
    ensures Partition(s, lo, hi, cmp) == Partition(s, lo, |s| - 1, cmp)
    ensures Sort(s, lo, hi, cmp) == Sort(s, lo, |s| - 1, cmp)
  {
    hide TailPreorder, Distinct, Partition, Sort, SortRest, QuickSort, EndMoves, EndMax;
    NotGood(s, lo, hi, cmp);
    TailPartition(s, lo, hi, cmp);
    OverrunIsRest(s, lo, hi, cmp);
    RestIsGood(s, lo, cmp);
  }

  lemma TailCall<T>(s: seq<T>, lo: nat, hi: nat, cmp: (T, T) -> int) returns (t: seq<T>, k: nat, u: seq<T>)
    requires Callable(s, lo, hi, cmp) && RunsToTail(s, lo, hi, cmp) && lo < |s| - 1
    ensures OneCall(s, lo, hi, t, k, |s| - 1, u, cmp)
  {
    hide Callable, TailPreorder, Distinct, Partition, Sort, SortRest, QuickSort, RunsToTail, EndMax, Sortable;
    TailFacts(s, lo, hi, cmp);
    t, k, u := GoodCall(s, lo, |s| - 1, cmp);
  }

  lemma LastCall<T>(s: seq<T>, lo: nat, hi: nat, cmp: (T, T) -> int)
    requires hi < lo == |s| - 1 && Callable(s, lo, hi, cmp)
    ensures OneCall(s, lo, hi, s, lo, lo, s, cmp)
  {
    hide TailPreorder;
    NotGood(s, lo, hi, cmp);
    QuickSortOne(s, lo, cmp);
    assert Exchange(s, lo, lo) == s;
    Flip(s, lo, lo, cmp);
  }

  /** The ranges that are neither good nor run over. */
  ghost predicate Halved<T>(s: seq<T>, lo: nat, hi: nat, cmp: (T, T) -> int) {
    Range(s, lo, hi, cmp) && lo < hi < |s| - 1 && !EndMoves(s, lo, hi, cmp) && !EndMax(s, lo, hi, cmp)
  }

  /** The first half of such a range: what is before the pivot is sorted, and the pivot and what follows it have not
      moved since the partition. */
  lemma FirstHalfIs<T>(s: seq<T>, lo: nat, hi: nat, cmp: (T, T) -> int) returns (t: seq<T>, k: nat, u: seq<T>)
    requires Halved(s, lo, hi, cmp)
    ensures Partition(s, lo, hi, cmp) == (t, k, hi) && FirstHalf(s, lo, hi, cmp) == (u, k)
    ensures lo <= k <= hi && |t| == |u| == |s| && Sortable(t, lo, k, cmp) && u == QuickSort(t, lo, k, cmp)
    ensures PermutedRange(s, t, lo, hi) && Split(t, lo, k, hi, cmp) && t[k] == s[lo] && Rearranged(t, u, lo, k, cmp)
    ensures EndMax(t, lo, k, cmp)
    ensures Distinct(t) && TailPreorder(t, cmp) && Distinct(u) && TailPreorder(u, cmp)
    ensures cmp(s[hi], s[lo]) >= 0 ==> t[hi] == s[hi]
    ensures cmp(s[hi], s[lo]) < 0 <==> k == hi
  {
    hide TailPreorder, Distinct, Partition, QuickSort, PermutedRange, Split, SomeAbove;
    PartitionCorrect(s, lo, hi, cmp);
    t, k := Partition(s, lo, hi, cmp).0, Partition(s, lo, hi, cmp).1;
    LeftRange(t, lo, k, hi, cmp);
    u := QuickSort(t, lo, k, cmp);
  }

  /** What the sort of a halved range does after its first half. */
  lemma SortHalved<T>(s: seq<T>, lo: nat, hi: nat, u: seq<T>, k: nat, cmp: (T, T) -> int)
    requires Halved(s, lo, hi, cmp) && FirstHalf(s, lo, hi, cmp) == (u, k)
    ensures Class(s, lo, hi, cmp) == 2 && Callable(s, lo, hi, cmp) && |u| == |s| && lo <= k <= hi
    ensures Callable(u, k + 1, hi, cmp)
    ensures Sort(s, lo, hi, cmp) == if k + 1 == hi then u else Sort(u, k + 1, hi, cmp)
  {
    hide TailPreorder, Distinct, QuickSort, SortRest, FirstHalf, SomeAbove;
    assert Kept(s, u, lo, cmp) && lo <= k <= hi by { assert FirstHalf(s, lo, hi, cmp) == (u, k); }
    assert Sort(s, lo, hi, cmp) == SortOther(s, lo, hi, cmp);
    if k == hi {
      NotGood(u, hi + 1, hi, cmp);
    }
  }

  lemma HalvedCall<T>(s: seq<T>, lo: nat, hi: nat, cmp: (T, T) -> int) returns (t: seq<T>, k: nat, u: seq<T>)
    requires Halved(s, lo, hi, cmp)
    ensures Callable(s, lo, hi, cmp) && OneCall(s, lo, hi, t, k, hi, u, cmp)
  {
    hide TailPreorder, Distinct, Partition, Sort, QuickSort, FirstHalf, SortRest, EndMax, SomeAbove, Split;
    t, k, u := FirstHalfIs(s, lo, hi, cmp);
    SortIsGood(t, lo, k, cmp);
    SortHalved(s, lo, hi, u, k, cmp);
    HalvedElements(s, t, u, lo, k, hi, cmp);
  }

  lemma HalvedElements<T>(s: seq<T>, t: seq<T>, u: seq<T>, lo: nat, k: nat, hi: nat, cmp: (T, T) -> int)
    requires 0 < lo <= k <= hi < |s| == |t| && PermutedRange(s, t, lo, hi) && Rearranged(t, u, lo, k, cmp)
    requires EndMax(t, lo, k, cmp)
    ensures u[0] == s[0] && u[k] == t[k] && u[hi] == t[hi] && (forall i :: 0 <= i < |u| ==> u[i] in s)
  {
    forall i | 0 <= i < |u|
      ensures u[i] in s
    {
      assert u[i] in multiset(u);
    }
  }

  /** One call on any range. */
  lemma AnyCall<T>(s: seq<T>, lo: nat, hi: nat, cmp: (T, T) -> int) returns (t: seq<T>, k: nat, h: nat, u: seq<T>)
    requires Callable(s, lo, hi, cmp) && lo != hi
    ensures OneCall(s, lo, hi, t, k, h, u, cmp)
  {
    hide TailPreorder, Distinct, Partition, Sort, QuickSort, EndMax, EndMoves, OneCall;
    if Sortable(s, lo, hi, cmp) {
      h := hi;
      t, k, u := GoodCall(s, lo, hi, cmp);
    } else if lo > hi && lo == |s| - 1 {
      LastCall(s, lo, hi, cmp);
      t, k, h, u := s, lo, lo, s;
    } else if RunsToTail(s, lo, hi, cmp) {
      h := |s| - 1;
      t, k, u := TailCall(s, lo, hi, cmp);
    } else {
      h := hi;
      t, k, u := HalvedCall(s, lo, hi, cmp);
    }
  }

  /** A range that ends with the list, or with a node that nothing in it is above, is sorted, and nothing else is
      touched. */
  lemma GoodRangeSorted<T>(s: seq<T>, lo: nat, hi: nat, cmp: (T, T) -> int)
    requires Range(s, lo, hi, cmp) && GoodRange(s, lo, hi, cmp)
    ensures Callable(s, lo, hi, cmp) && PermutedRange(s, Sort(s, lo, hi, cmp), lo, hi)
    ensures Sorted(Sort(s, lo, hi, cmp), lo, hi, cmp)
  {
    hide TailPreorder, Distinct, QuickSort, Sort, EndMax;
    SortIsGood(s, lo, hi, cmp);
    QuickSortSorts(s, lo, hi, cmp);
  }

  /** From a node after the end on, everything up to the tail is sorted. */
  lemma AfterEndSorted<T>(s: seq<T>, lo: nat, hi: nat, cmp: (T, T) -> int)
    requires Callable(s, lo, hi, cmp) && hi < lo
    ensures PermutedRange(s, Sort(s, lo, hi, cmp), lo, |s| - 1) && Sorted(Sort(s, lo, hi, cmp), lo, |s| - 1, cmp)
  {
    hide TailPreorder, Distinct, QuickSort, Sort, SortRest, EndMax;
    RestIsGood(s, lo, cmp);
    if hi < |s| - 1 {
      NotGood(s, lo, hi, cmp);
    }
    QuickSortSorts(s, lo, |s| - 1, cmp);
  }

  /** The list r that the sort of a bad range of s leaves is in order from lo up to m and from m to its tail. What is
      before m was in the range; the others of the range are not below it. */
  ghost predicate Broken<T>(s: seq<T>, r: seq<T>, lo: nat, hi: nat, m: nat, cmp: (T, T) -> int) {
    && |r| == |s| && 0 < lo <= m <= hi + 1 < |s|
    && Sorted(r, lo, m - 1, cmp) && Sorted(r, m, |s| - 1, cmp)
    && (forall i :: lo <= i < m ==> r[i] in s[lo..hi + 1])
    && (lo < m <= hi ==> forall i :: lo <= i <= hi ==> s[i] in r[lo..m] || cmp(s[i], r[m - 1]) >= 0)
  }

  lemma TailBroken<T>(s: seq<T>, lo: nat, hi: nat, cmp: (T, T) -> int)
    requires Callable(s, lo, hi, cmp) && RunsToTail(s, lo, hi, cmp) && lo <= hi
    ensures Broken(s, Sort(s, lo, hi, cmp), lo, hi, lo, cmp)
  {
    hide TailPreorder, Distinct, QuickSort, Sort, SortRest, EndMoves;
    NotGood(s, lo, hi, cmp);
    RestIsGood(s, lo, cmp);
    QuickSortSorts(s, lo, |s| - 1, cmp);
  }

  lemma LastBroken<T>(s: seq<T>, t: seq<T>, u: seq<T>, r: seq<T>, lo: nat, hi: nat, cmp: (T, T) -> int)
    requires 0 < lo <= hi < |s| - 1 && PermutedRange(s, t, lo, hi) && PermutedRange(t, u, lo, hi)
    requires Kept(u, r, hi + 1, cmp) && Sorted(u, lo, hi, cmp) && Sorted(r, hi + 1, |s| - 1, cmp)
    ensures Broken(s, r, lo, hi, hi + 1, cmp)
  {
    forall i | lo <= i < hi + 1
      ensures r[i] in s[lo..hi + 1]
    {
      var j := PermutedRangeElements(t, u, lo, hi, i);
      var j' := PermutedRangeElements(s, t, lo, hi, j);
      assert s[lo..hi + 1][j' - lo] == r[i];
    }
  }

  /** t is s split at k, u is t with what is before k sorted, and r is u with what follows k sorted as a bad range. */
  lemma OuterBroken<T>(s: seq<T>, t: seq<T>, u: seq<T>, r: seq<T>, lo: nat, k: nat, hi: nat, m: nat, cmp: (T, T) -> int)
    requires 0 < lo <= k && k + 1 < hi < |s| - 1 && Distinct(s)
    requires PermutedRange(s, t, lo, hi) && PermutedRange(t, u, lo, k) && u[k] == t[k]
    requires Split(t, lo, k, hi, cmp) && Sorted(u, lo, k, cmp) && Kept(u, r, k + 1, cmp)
    requires Broken(u, r, k + 1, hi, m, cmp)
    ensures Broken(s, r, lo, hi, m, cmp)
  {
    assert forall j :: k < j <= hi ==> u[j] == t[j];
    OuterFrom(s, t, u, r, lo, k, hi, m, cmp);
    OuterSorted(u, r, lo, k, hi, m, cmp);
    if m <= hi {
      OuterOthers(s, t, u, r, lo, k, hi, m, cmp);
    }
  }

  lemma BeforeBreak<T>(u: seq<T>, r: seq<T>, k: nat, hi: nat, m: nat, i: nat, cmp: (T, T) -> int) returns (j: nat)
    requires Broken(u, r, k + 1, hi, m, cmp) && k < i < m
    ensures k < j <= hi && j < |u| && r[i] == u[j]
  {
    assert r[i] in u[k + 1..hi + 1];
    var j' :| 0 <= j' < |u[k + 1..hi + 1]| && u[k + 1..hi + 1][j'] == r[i];
    j := j' + k + 1;
  }

  lemma OuterFrom<T>(s: seq<T>, t: seq<T>, u: seq<T>, r: seq<T>, lo: nat, k: nat, hi: nat, m: nat, cmp: (T, T) -> int)
    requires 0 < lo <= k && k + 1 < hi < |s| - 1 && PermutedRange(s, t, lo, hi) && PermutedRange(t, u, lo, k)
    requires Kept(u, r, k + 1, cmp) && Broken(u, r, k + 1, hi, m, cmp)
    ensures forall i :: lo <= i < m ==> r[i] in s[lo..hi + 1]
  {
    forall i | lo <= i < m
      ensures r[i] in s[lo..hi + 1]
    {
      var j := i;
      if i <= k {
        j := PermutedRangeElements(t, u, lo, k, i);
      } else {
        j := BeforeBreak(u, r, k, hi, m, i, cmp);
      }
      assert r[i] == t[j] && lo <= j <= hi;
      var j' := PermutedRangeElements(s, t, lo, hi, j);
      assert s[lo..hi + 1][j' - lo] == r[i];
    }
  }

  lemma OuterSorted<T>(u: seq<T>, r: seq<T>, lo: nat, k: nat, hi: nat, m: nat, cmp: (T, T) -> int)
    requires 0 < lo <= k && k + 1 < hi < |u| - 1 && Sorted(u, lo, k, cmp)
    requires (forall j :: k < j <= hi ==> cmp(u[j], u[k]) >= 0)
    requires Kept(u, r, k + 1, cmp) && Broken(u, r, k + 1, hi, m, cmp)
    ensures Sorted(r, lo, m - 1, cmp)
  {
    forall j | k < j <= m - 1
      ensures cmp(r[j], r[k]) >= 0
    {
      var i := BeforeBreak(u, r, k, hi, m, j, cmp);
    }
    JoinSorted(r, lo, k, m - 1, cmp);
  }

  lemma OuterOthers<T>(s: seq<T>, t: seq<T>, u: seq<T>, r: seq<T>, lo: nat, k: nat, hi: nat, m: nat, cmp: (T, T) -> int)
    requires 0 < lo <= k && k + 1 < hi < |s| - 1 && PermutedRange(s, t, lo, hi) && PermutedRange(t, u, lo, k)
    requires (forall j :: k < j <= hi ==> cmp(u[j], u[k]) >= 0)
    requires Distinct(s) && Kept(u, r, k + 1, cmp) && Broken(u, r, k + 1, hi, m, cmp) && m <= hi
    ensures forall i :: lo <= i <= hi ==> s[i] in r[lo..m] || cmp(s[i], r[m - 1]) >= 0
  {
    forall i | lo <= i <= hi
      ensures s[i] in r[lo..m] || cmp(s[i], r[m - 1]) >= 0
    {
      var j := WhereNow(s, t, u, lo, k, hi, i);
      if j <= k {
        assert r[lo..m][j - lo] == s[i];
      } else if u[j] in r[k + 1..m] {
        assert r[lo..m][k + 1 - lo..] == r[k + 1..m];
      }
    }
  }

  lemma WhereNow<T>(s: seq<T>, t: seq<T>, u: seq<T>, lo: nat, k: nat, hi: nat, i: nat) returns (j: nat)
    requires 0 < lo <= k && k <= hi < |s| && PermutedRange(s, t, lo, hi) && PermutedRange(t, u, lo, k) && Distinct(s)
    requires lo <= i <= hi
    ensures lo <= j <= hi && u[j] == s[i]
  {
    assert s[i] in multiset(s);
    assert s[i] in u;
    assert forall x :: 0 <= x < |u| && (x < lo || hi < x) ==> u[x] == s[x];
    j :| 0 <= j < |u| && u[j] == s[i];
  }

  /** What is above the end node of a halved range is above the pivot too, and so in its second half. */
  lemma StillBad<T>(s: seq<T>, t: seq<T>, u: seq<T>, lo: nat, k: nat, hi: nat, cmp: (T, T) -> int)
    requires Range(s, lo, hi, cmp) && lo <= k < hi && !EndMax(s, lo, hi, cmp)
    requires PermutedRange(s, t, lo, hi) && PermutedRange(t, u, lo, k) && Split(t, lo, k, hi, cmp)
    requires TailPreorder(u, cmp)
    requires t[k] == u[k] && t[hi] == s[hi] && Distinct(t)
    ensures !EndMax(u, k + 1, hi, cmp) && k + 1 < hi
  {
    hide TailPreorder, Distinct;
    var i :| lo <= i <= hi && cmp(s[i], s[hi]) > 0;
    assert u[hi] == t[hi];
    var j := WhereNow(s, t, t, lo, hi, hi, i);
    InSecondHalf(t, u, lo, k, hi, j, cmp);
    Flip(u, hi, hi, cmp);
  }

  lemma InSecondHalf<T>(t: seq<T>, u: seq<T>, lo: nat, k: nat, hi: nat, j: nat, cmp: (T, T) -> int)
    requires 0 < lo <= k < hi < |t| && lo <= j <= hi && PermutedRange(t, u, lo, k) && Split(t, lo, k, hi, cmp)
    requires TailPreorder(u, cmp) && t[k] == u[k] && Distinct(t) && cmp(t[j], t[hi]) > 0
    ensures k < j && u[j] == t[j]
  {
    hide TailPreorder, Distinct;
    if j <= k {
      var j' := WhereNow(t, u, u, lo, k, k, j);
      BelowPivot(t, u, lo, k, cmp, j, j');
      Flip(u, hi, k, cmp);
      Chain(u, j', k, hi, cmp);
    }
  }

  lemma BelowPivot<T>(t: seq<T>, u: seq<T>, lo: nat, k: nat, cmp: (T, T) -> int, j: nat, j': nat)
    requires 0 < lo <= j <= k < |t| == |u| && 0 < j' < |u| && u[j'] == t[j] && u[k] == t[k] && TailPreorder(u, cmp)
    requires forall i :: lo <= i < k ==> cmp(t[i], t[k]) < 0
    ensures cmp(u[j'], u[k]) <= 0
  {
    Flip(u, k, k, cmp);
  }

  /** A range that ends neither with the list nor with a maximum is sorted up to some point, and everything from there
      to the list's tail is sorted too: the tail is never left out of order. */
  lemma {:induction false} BadRangeBroken<T>(s: seq<T>, lo: nat, hi: nat, cmp: (T, T) -> int) returns (m: nat)
    requires Range(s, lo, hi, cmp) && !GoodRange(s, lo, hi, cmp)
    ensures Callable(s, lo, hi, cmp) && Broken(s, Sort(s, lo, hi, cmp), lo, hi, m, cmp)
    ensures lo < hi && (m == lo <==> EndMoves(s, lo, hi, cmp))
    ensures cmp(s[hi], s[lo]) < 0 ==> m == lo || m == hi + 1
    decreases hi - lo
  {
    hide TailPreorder, Distinct, QuickSort, Sort, EndMax, EndMoves, Broken, PermutedRange, Split, Sorted, Kept,
      Partition, SortRest, FirstHalf;
    NotOne(s, lo, hi, cmp);
    if EndMoves(s, lo, hi, cmp) {
      m := lo;
      TailBroken(s, lo, hi, cmp);
    } else {
      var t, k, u := FirstHalfIs(s, lo, hi, cmp);
      SortHalved(s, lo, hi, u, k, cmp);
      QuickSortSorts(t, lo, k, cmp);
      if k == hi {
        m := hi + 1;
        NotGood(u, hi + 1, hi, cmp);
        RestIsGood(u, hi + 1, cmp);
        QuickSortSorts(u, hi + 1, |s| - 1, cmp);
        LastBroken(s, t, u, Sort(s, lo, hi, cmp), lo, hi, cmp);
      } else {
        StillBad(s, t, u, lo, k, hi, cmp);
        m := BadRangeBroken(u, k + 1, hi, cmp);
        NotBefore(u, Sort(s, lo, hi, cmp), k, hi, m, cmp);
        OuterBroken(s, t, u, Sort(s, lo, hi, cmp), lo, k, hi, m, cmp);
      }
    }
  }

  lemma NotOne<T>(s: seq<T>, lo: nat, hi: nat, cmp: (T, T) -> int)
    requires Range(s, lo, hi, cmp) && !GoodRange(s, lo, hi, cmp)
    ensures lo < hi < |s| - 1 && Callable(s, lo, hi, cmp)
  {
    if lo == hi {
      Flip(s, lo, lo, cmp);
    }
  }

  /** The sort leaves a tail that is out of order alone exactly when nothing in the range is above its end node. */
  lemma TailLeftAlone<T>(s: seq<T>, lo: nat, hi: nat, cmp: (T, T) -> int)
    requires Range(s, lo, hi, cmp) && hi < |s| - 1 && !Sorted(s, hi + 1, |s| - 1, cmp)
    ensures Callable(s, lo, hi, cmp)
    ensures (forall i :: hi < i < |s| ==> Sort(s, lo, hi, cmp)[i] == s[i]) <==> EndMax(s, lo, hi, cmp)
  {
    hide TailPreorder, Distinct, Sort;
    if EndMax(s, lo, hi, cmp) {
      GoodRangeSorted(s, lo, hi, cmp);
    } else {
      var m := BadRangeBroken(s, lo, hi, cmp);
    }
  }

  lemma RestElement<T>(s: seq<T>, r: seq<T>, lo: nat, hi: nat, m: nat, i: nat, cmp: (T, T) -> int) returns (j: nat)
    requires Distinct(s) && Kept(s, r, lo, cmp) && Broken(s, r, lo, hi, m, cmp) && m <= i < |s|
    ensures lo <= j < |s| && r[i] == s[j] && r[i] !in r[lo..m]
  {
    assert r[i] in multiset(r);
    assert r[i] in s;
    assert forall x :: 0 <= x < lo ==> s[x] == r[x];
    assert forall x :: 0 <= x < m ==> r[x] != r[i];
    j :| 0 <= j < |s| && s[j] == r[i];
  }

  lemma TailElement<T>(s: seq<T>, r: seq<T>, lo: nat, hi: nat, m: nat, j: nat, cmp: (T, T) -> int) returns (i: nat)
    requires Distinct(s) && Kept(s, r, lo, cmp) && Broken(s, r, lo, hi, m, cmp) && hi < j < |s|
    ensures m <= i < |s| && r[i] == s[j]
  {
    assert s[j] in multiset(s);
    assert s[j] in r;
    assert forall x :: 0 <= x < lo ==> r[x] == s[x];
    assert s[j] !in s[lo..hi + 1];
    i :| 0 <= i < |r| && r[i] == s[j];
  }

  /** The two sorted parts fit together exactly when nothing after the range is below the last node of the first. */
  lemma PartsFit<T>(s: seq<T>, r: seq<T>, lo: nat, hi: nat, m: nat, cmp: (T, T) -> int)
    requires Distinct(s) && Kept(s, r, lo, cmp) && Broken(s, r, lo, hi, m, cmp) && lo < m <= hi
    ensures Sorted(r, lo, hi, cmp) <==> forall j :: hi < j < |s| ==> cmp(s[j], r[m - 1]) >= 0
  {
    hide TailPreorder, Distinct, Kept;
    if Sorted(r, lo, hi, cmp) {
      assert cmp(r[m - 1], r[m]) <= 0;
      forall j | hi < j < |s|
        ensures cmp(s[j], r[m - 1]) >= 0
      {
        var i := TailElement(s, r, lo, hi, m, j, cmp);
        Flip(r, m, m, cmp);
        Chain(r, m - 1, m, i, cmp);
        Flip(r, i, m - 1, cmp);
      }
    }
    if forall j :: hi < j < |s| ==> cmp(s[j], r[m - 1]) >= 0 {
      forall i | m - 1 < i <= hi
        ensures cmp(r[i], r[m - 1]) >= 0
      {
        var j := RestElement(s, r, lo, hi, m, i, cmp);
      }
      JoinSorted(r, lo, m - 1, hi, cmp);
    }
  }

  /** The condition, on the list before the call, under which a range comes out sorted: it ends with the list or with a
      maximum; or its end node is below its first one; or the same holds of what follows the pivot after the partition,
      where, if that part has its end node swapped away, nothing after the range may be below the pivot. */
  ghost predicate WillBeSorted<T>(s: seq<T>, lo: nat, hi: nat, cmp: (T, T) -> int)
    requires lo <= hi < |s|
    decreases hi - lo
  {
    || GoodRange(s, lo, hi, cmp)
    || cmp(s[hi], s[lo]) < 0
    || var (t, k, _) := Partition(s, lo, hi, cmp);
       k + 1 < hi &&
       if EndMoves(t, k + 1, hi, cmp) then forall j :: hi < j < |s| ==> cmp(s[j], s[lo]) >= 0
       else WillBeSorted(t, k + 1, hi, cmp)
  }

  lemma SameConditions<T>(s: seq<T>, s': seq<T>, lo: nat, hi: nat, cmp: (T, T) -> int)
    requires SameFrom(s, s', lo) && lo <= hi < |s|
    ensures GoodRange(s, lo, hi, cmp) == GoodRange(s', lo, hi, cmp)
    ensures lo < hi ==> EndMoves(s, lo, hi, cmp) == EndMoves(s', lo, hi, cmp)
  {
  }

  /** One unfolding of WillBeSorted, where the range is bad and its end node not below its first. */
  lemma WillBeStep<T>(s: seq<T>, lo: nat, hi: nat, t: seq<T>, k: nat, h: nat, cmp: (T, T) -> int)
    requires lo <= hi < |s| && !GoodRange(s, lo, hi, cmp) && cmp(s[hi], s[lo]) >= 0
    requires Partition(s, lo, hi, cmp) == (t, k, h)
    ensures WillBeSorted(s, lo, hi, cmp) <==>
            k + 1 < hi && if EndMoves(t, k + 1, hi, cmp) then forall j :: hi < j < |s| ==> cmp(s[j], s[lo]) >= 0
                          else WillBeSorted(t, k + 1, hi, cmp)
  {
    hide GoodRange, EndMoves, Partition;
  }

  lemma {:induction false} WillBeFrom<T>(s: seq<T>, s': seq<T>, lo: nat, hi: nat, cmp: (T, T) -> int)
    requires SameFrom(s, s', lo) && lo <= hi < |s|
    ensures WillBeSorted(s, lo, hi, cmp) == WillBeSorted(s', lo, hi, cmp)
    decreases hi - lo
  {
    hide Partition, GoodRange, EndMoves;
    SameConditions(s, s', lo, hi, cmp);
    if !GoodRange(s, lo, hi, cmp) && cmp(s[hi], s[lo]) >= 0 {
      PartitionFrom(s, s', lo, hi, cmp);
      var (t, k, h) := Partition(s, lo, hi, cmp);
      var (t', _, _) := Partition(s', lo, hi, cmp);
      WillBeStep(s, lo, hi, t, k, h, cmp);
      WillBeStep(s', lo, hi, t', k, h, cmp);
      if k + 1 < hi {
        SameConditions(t, t', k + 1, hi, cmp);
        WillBeFrom(t, t', k + 1, hi, cmp);
      }
    }
  }

  /** The last pivot before the one whose partition runs to the tail is the range's first node. */
  lemma OverrunNext<T>(s: seq<T>, t: seq<T>, u: seq<T>, r: seq<T>, lo: nat, k: nat, hi: nat, cmp: (T, T) -> int)
    requires 0 < lo <= k && k + 1 < hi < |s| - 1 && Distinct(s) && Kept(s, r, lo, cmp)
    requires |t| == |u| == |s| && t[k] == s[lo] && u[k] == t[k] && Kept(u, r, k + 1, cmp)
    requires Broken(s, r, lo, hi, k + 1, cmp)
    ensures Sorted(r, lo, hi, cmp) <==> forall j :: hi < j < |s| ==> cmp(s[j], s[lo]) >= 0
  {
    hide Distinct, TailPreorder, Broken, Sorted;
    assert r[k] == s[lo];
    PartsFit(s, r, lo, hi, k + 1, cmp);
  }

  /** Otherwise the range comes out sorted exactly when what follows the pivot does. */
  lemma InnerDecides<T>(s: seq<T>, u: seq<T>, r: seq<T>, lo: nat, k: nat, hi: nat, m: nat, cmp: (T, T) -> int)
    requires 0 < lo <= k && k + 1 < hi < |s| - 1 && Distinct(s) && Kept(s, r, lo, cmp) && Kept(u, r, k + 1, cmp)
    requires |u| == |s| && Distinct(u) && forall j :: hi < j < |s| ==> u[j] == s[j]
    requires k + 1 < m && Broken(s, r, lo, hi, m, cmp) && Broken(u, r, k + 1, hi, m, cmp)
    ensures Sorted(r, lo, hi, cmp) <==> Sorted(r, k + 1, hi, cmp)
  {
    if m <= hi {
      hide Distinct, TailPreorder, Kept;
      PartsFit(s, r, lo, hi, m, cmp);
      PartsFit(u, r, k + 1, hi, m, cmp);
    }
  }

  /** A range whose end node is below its first one is sorted, by itself or together with the tail. */
  lemma EndBelowSorted<T>(s: seq<T>, lo: nat, hi: nat, cmp: (T, T) -> int)
    requires Range(s, lo, hi, cmp) && !GoodRange(s, lo, hi, cmp) && cmp(s[hi], s[lo]) < 0
    ensures Callable(s, lo, hi, cmp) && Sorted(Sort(s, lo, hi, cmp), lo, hi, cmp)
  {
    hide TailPreorder, Distinct, Sort, GoodRange, EndMoves;
    var m := BadRangeBroken(s, lo, hi, cmp);
  }

  /** The other bad ranges, after their first partition and call. */
  lemma SecondHalf<T>(s: seq<T>, lo: nat, hi: nat, cmp: (T, T) -> int)
    returns (t: seq<T>, k: nat, u: seq<T>, m: nat)
    requires Range(s, lo, hi, cmp) && !GoodRange(s, lo, hi, cmp) && cmp(s[hi], s[lo]) >= 0
    ensures lo <= k && k + 1 < hi < |s| - 1 && Partition(s, lo, hi, cmp) == (t, k, hi) && |t| == |u| == |s|
    ensures SameFrom(t, u, k + 1) && t[k] == s[lo] && u[k] == t[k] && (forall j :: hi < j < |s| ==> u[j] == s[j])
    ensures Callable(s, lo, hi, cmp) && Range(u, k + 1, hi, cmp) && Callable(u, k + 1, hi, cmp)
    ensures Sort(s, lo, hi, cmp) == Sort(u, k + 1, hi, cmp)
    ensures Broken(s, Sort(s, lo, hi, cmp), lo, hi, m, cmp) && Broken(u, Sort(s, lo, hi, cmp), k + 1, hi, m, cmp)
    ensures m == k + 1 <==> EndMoves(u, k + 1, hi, cmp)
  {
    hide TailPreorder, Distinct, QuickSort, Sort, EndMax, Broken, Split, Sorted, Kept, Partition, SortRest, FirstHalf,
      SomeAbove;
    NotOne(s, lo, hi, cmp);
    t, k, u := FirstHalfIs(s, lo, hi, cmp);
    SortHalved(s, lo, hi, u, k, cmp);
    QuickSortSorts(t, lo, k, cmp);
    StillBad(s, t, u, lo, k, hi, cmp);
    m := BadRangeBroken(u, k + 1, hi, cmp);
    OuterBroken(s, t, u, Sort(s, lo, hi, cmp), lo, k, hi, m, cmp);
  }

  /** A range comes out sorted exactly when the condition holds of the list before the call. */
  lemma {:induction false} RangeSortedIff<T>(s: seq<T>, lo: nat, hi: nat, cmp: (T, T) -> int)
    requires Range(s, lo, hi, cmp)
    ensures Callable(s, lo, hi, cmp) && (Sorted(Sort(s, lo, hi, cmp), lo, hi, cmp) <==> WillBeSorted(s, lo, hi, cmp))
    decreases hi - lo
  {
    hide TailPreorder, Distinct, Sort, EndMoves, Broken, Sorted, Partition, GoodRange, SameFrom, WillBeSorted;
    WillBeAtOnce(s, lo, hi, cmp);
    if GoodRange(s, lo, hi, cmp) {
      GoodRangeSorted(s, lo, hi, cmp);
    } else if cmp(s[hi], s[lo]) < 0 {
      EndBelowSorted(s, lo, hi, cmp);
    } else {
      var t, k, u, m := SecondHalf(s, lo, hi, cmp);
      var r := Sort(s, lo, hi, cmp);
      WillBeStep(s, lo, hi, t, k, hi, cmp);
      SameConditions(t, u, k + 1, hi, cmp);
      if EndMoves(u, k + 1, hi, cmp) {
        OverrunNext(s, t, u, r, lo, k, hi, cmp);
      } else {
        RangeSortedIff(u, k + 1, hi, cmp);
        WillBeFrom(t, u, k + 1, hi, cmp);
        NotBefore(u, r, k, hi, m, cmp);
        InnerDecides(s, u, r, lo, k, hi, m, cmp);
      }
    }
  }

  lemma WillBeAtOnce<T>(s: seq<T>, lo: nat, hi: nat, cmp: (T, T) -> int)
    requires lo <= hi < |s|
    ensures GoodRange(s, lo, hi, cmp) || cmp(s[hi], s[lo]) < 0 ==> WillBeSorted(s, lo, hi, cmp)
  {
  }

  lemma NotBefore<T>(u: seq<T>, r: seq<T>, k: nat, hi: nat, m: nat, cmp: (T, T) -> int)
    requires Broken(u, r, k + 1, hi, m, cmp)
    ensures k + 1 <= m
  {
  }

  /** Where nothing after the range is below anything in it, the range comes out sorted. */
  lemma SortedUnderTail<T>(s: seq<T>, lo: nat, hi: nat, cmp: (T, T) -> int)
    requires Range(s, lo, hi, cmp) && forall i, j :: lo <= i <= hi < j < |s| ==> cmp(s[j], s[i]) >= 0
    ensures Callable(s, lo, hi, cmp) && Sorted(Sort(s, lo, hi, cmp), lo, hi, cmp)
  {
    hide TailPreorder, Distinct, Sort, Kept;
    if GoodRange(s, lo, hi, cmp) {
      GoodRangeSorted(s, lo, hi, cmp);
    } else {
      var m := BadRangeBroken(s, lo, hi, cmp);
      var r := Sort(s, lo, hi, cmp);
      if lo < m <= hi {
        PartsFit(s, r, lo, hi, m, cmp);
        assert r[m - 1] in s[lo..hi + 1];
        var i :| 0 <= i < |s[lo..hi + 1]| && s[lo..hi + 1][i] == r[m - 1];
        assert r[m - 1] == s[lo + i];
      }
    }
  }

  lemma NothingBelow(s: seq<int>, cmp: (int, int) -> int)
    requires s == [0, 5, 7, 9, 6, 1] && cmp == ((x: int, y: int) => x - y)
    ensures Partition(s, 1, 4, cmp) == (s, 1, 4)
  {
    hide PartLoop;
    PartLoopStep(s, 1, 6, 1, 2, cmp);
    PartLoopStep(s, 1, 6, 1, 3, cmp);
    PartLoopStep(s, 1, 6, 1, 4, cmp);
    PartLoopStep(s, 1, 6, 1, 5, cmp);
    assert Exchange(s, 1, 1) == s;
  }

  lemma ByDifference(s: seq<int>, cmp: (int, int) -> int)
    requires s != [] && cmp == ((x: int, y: int) => x - y)
    ensures TailPreorder(s, cmp)
  {
    assert forall x: int, y: int :: cmp(x, y) == x - y;
  }

  lemma ExampleRanges(s: seq<int>, cmp: (int, int) -> int)
    requires s == [0, 5, 7, 9, 6, 1] && cmp == ((x: int, y: int) => x - y)
    ensures Range(s, 1, 4, cmp) && Halved(s, 1, 4, cmp) && RunsToTail(s, 2, 4, cmp) && Callable(s, 1, 4, cmp)
    ensures Callable(s, 2, 4, cmp)
  {
    hide TailPreorder;
    ByDifference(s, cmp);
    assert cmp(s[3], s[4]) > 0 && cmp(s[3], s[2]) >= 0 && cmp(s[4], s[2]) < 0;
  }

  /** A range whose first node is its least, and whose second partition runs to the tail, is not sorted if something in
      the tail is below that first node. */
  lemma TakesInTail<T>(s: seq<T>, lo: nat, hi: nat, j: nat, cmp: (T, T) -> int)
    requires Halved(s, lo, hi, cmp) && Partition(s, lo, hi, cmp) == (s, lo, hi)
    requires lo + 1 < hi < j < |s| && RunsToTail(s, lo + 1, hi, cmp) && cmp(s[j], s[lo]) < 0
    ensures Callable(s, lo, hi, cmp) && !Sorted(Sort(s, lo, hi, cmp), lo, hi, cmp)
  {
    hide Sort, QuickSort, Partition, TailPreorder, Distinct, RunsToTail, FirstHalf, Split, PermutedRange, EndMax,
      EndMoves, Broken, Kept;
    var t, k, u := FirstHalfIs(s, lo, hi, cmp);
    QuickSortOne(s, lo, cmp);
    SortHalved(s, lo, hi, u, k, cmp);
    TailBroken(s, lo + 1, hi, cmp);
    SmallestFirst(s, Sort(s, lo, hi, cmp), lo, hi, j, cmp);
  }

  lemma SmallestFirst<T>(s: seq<T>, r: seq<T>, lo: nat, hi: nat, j: nat, cmp: (T, T) -> int)
    requires Distinct(s) && 0 < lo && lo + 1 < hi < j < |s| && cmp(s[j], s[lo]) < 0
    requires Kept(s, r, lo + 1, cmp) && Broken(s, r, lo + 1, hi, lo + 1, cmp)
    ensures |r| == |s| && !Sorted(r, lo, hi, cmp)
  {
    hide TailPreorder, Distinct;
    var i := TailElement(s, r, lo + 1, hi, lo + 1, j, cmp);
    Flip(r, i, i, cmp);
    if cmp(r[lo], r[lo + 1]) <= 0 {
      Chain(r, lo, lo + 1, i, cmp);
      Flip(r, i, lo, cmp);
    }
  }

  /** A range that is not sorted: 5, 7, 9, 6 with 1 after it, where the pivot 7 takes the 1 in. */
  lemma RangeLeftUnsorted()
    ensures var s, cmp := [0, 5, 7, 9, 6, 1], (x: int, y: int) => x - y;
            Range(s, 1, 4, cmp) && Callable(s, 1, 4, cmp) && !Sorted(Sort(s, 1, 4, cmp), 1, 4, cmp)
  {
    hide Sort, Range, Callable, TailPreorder, Distinct, RunsToTail, Halved, Sorted, Partition;
    var s, cmp := [0, 5, 7, 9, 6, 1], (x: int, y: int) => x - y;
    ExampleRanges(s, cmp);
    NothingBelow(s, cmp);
    TakesInTail(s, 1, 4, 5, cmp);
  }
}
