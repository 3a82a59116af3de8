/** list_get_partion and list_quick_sort of TCP_C/hash.c. The range to sort is given by two node pointers,
    and a swap can move the node that marks its end; the functions below say on sequences what the loops do,
    position 0 being the list head. ListPointers has the loops themselves. */
module ListSort {
  import opened Ring

  /** cmp is a total preorder on the elements of s: the sign of cmp(x, y) orders x and y. */
  ghost predicate TotalPreorder<T>(s: seq<T>, cmp: (T, T) -> int) {
    && (forall x, y :: x in s && y in s ==> (cmp(x, y) < 0 <==> cmp(y, x) > 0))
    && (forall x, y, z :: x in s && y in s && z in s && cmp(x, y) <= 0 && cmp(y, z) <= 0 ==> cmp(x, z) <= 0)
  }

  /** The comparator need only make sense on the nodes after the list head. */
  ghost predicate TailPreorder<T>(s: seq<T>, cmp: (T, T) -> int) {
    s != [] && TotalPreorder(s[1..], cmp)
  }

  lemma Flip<T>(s: seq<T>, i: nat, j: nat, cmp: (T, T) -> int)
    requires TailPreorder(s, cmp) && 0 < i < |s| && 0 < j < |s|
    ensures cmp(s[i], s[j]) < 0 <==> cmp(s[j], s[i]) > 0
  {
    assert s[1..][i - 1] in s[1..] && s[1..][j - 1] in s[1..];
  }

  lemma Chain<T>(s: seq<T>, i: nat, j: nat, k: nat, cmp: (T, T) -> int)
    requires TailPreorder(s, cmp) && 0 < i < |s| && 0 < j < |s| && 0 < k < |s|
    requires cmp(s[i], s[j]) <= 0 && cmp(s[j], s[k]) <= 0
    ensures cmp(s[i], s[k]) <= 0
  {
    assert s[1..][i - 1] in s[1..] && s[1..][j - 1] in s[1..] && s[1..][k - 1] in s[1..];
  }

  ghost predicate Sorted<T>(s: seq<T>, lo: nat, hi: nat, cmp: (T, T) -> int)
    requires hi < |s|
  {
    forall i, j :: lo <= i < j <= hi ==> cmp(s[i], s[j]) <= 0
  }

  /** The while loop of list_get_partion from positions p and q on; `e` is the node that marks the end.
      Exchanging position q with itself is the step in which the loop does not call list_swap. */
  ghost function PartLoop<T>(s: seq<T>, lo: nat, e: T, p: nat, q: nat, cmp: (T, T) -> int): (r: (seq<T>, nat, nat))
    requires lo <= p < q <= |s|
    ensures |r.0| == |s| && p <= r.1 < r.2 <= |s| && q <= r.2
    decreases |s| - q
  {
    if s[q - 1] == e || q == |s| then (s, p, q)
    else if cmp(s[q], s[lo]) < 0 then PartLoop(Exchange(s, p + 1, q), lo, e, p + 1, q + 1, cmp)
    else PartLoop(s, lo, e, p, q + 1, cmp)
  }

  lemma PartLoopStep<T>(s: seq<T>, lo: nat, e: T, p: nat, q: nat, cmp: (T, T) -> int)
    requires lo <= p < q <= |s|
    ensures s[q - 1] == e || q == |s| ==> PartLoop(s, lo, e, p, q, cmp) == (s, p, q)
    ensures q < |s| && s[q - 1] != e && cmp(s[q], s[lo]) < 0 ==>
      PartLoop(s, lo, e, p, q, cmp) == PartLoop(Exchange(s, p + 1, q), lo, e, p + 1, q + 1, cmp)
    ensures q < |s| && s[q - 1] != e && cmp(s[q], s[lo]) >= 0 ==>
      PartLoop(s, lo, e, p, q, cmp) == PartLoop(s, lo, e, p, q + 1, cmp)
  {
  }

  /** list_get_partion: the new ring, the position of the pivot and the position of the new end. */
  ghost function Partition<T>(s: seq<T>, lo: nat, hi: nat, cmp: (T, T) -> int): (r: (seq<T>, nat, nat))
    requires lo < |s| && hi < |s|
    ensures |r.0| == |s| && lo <= r.1 <= r.2 < |s|
  {
    var (t, p, q) := PartLoop(s, lo, s[hi], lo, lo + 1, cmp);
    (Exchange(t, p, lo), p, q - 1)
  }

  /** What the loop keeps: the pivot stays at lo, everything in (lo, p] is below it, everything in (p, q) is
      not, and nothing at or beyond q or before lo has been touched. */
  ghost predicate PartInv<T>(s0: seq<T>, s: seq<T>, lo: nat, p: nat, q: nat, cmp: (T, T) -> int)
  {
    && |s| == |s0| && lo <= p < q <= |s| && s[lo] == s0[lo]
    && (forall i :: lo < i <= p ==> cmp(s[i], s[lo]) < 0)
    && (forall i :: p < i < q ==> cmp(s[i], s[lo]) >= 0)
    && (forall i :: 0 <= i < lo || q <= i < |s| ==> s[i] == s0[i])
  }

  lemma ExchangeMultiset<T>(s: seq<T>, i: nat, j: nat)
    requires i < |s| && j < |s|
    ensures multiset(Exchange(s, i, j)) == multiset(s)
  {
    assert Exchange(s, i, j) == s[i := s[j]][j := s[i]];
  }

  lemma PartStart<T>(s: seq<T>, lo: nat, cmp: (T, T) -> int)
    requires lo + 1 < |s|
    ensures PartInv(s, s, lo, lo, lo + 1, cmp)
  {
  }

  lemma PartStepBelow<T>(s0: seq<T>, s: seq<T>, lo: nat, p: nat, q: nat, cmp: (T, T) -> int)
    requires PartInv(s0, s, lo, p, q, cmp) && q < |s| && cmp(s[q], s[lo]) < 0
    ensures PartInv(s0, Exchange(s, p + 1, q), lo, p + 1, q + 1, cmp)
  {
  }

  lemma PartStepAbove<T>(s0: seq<T>, s: seq<T>, lo: nat, p: nat, q: nat, cmp: (T, T) -> int)
    requires PartInv(s0, s, lo, p, q, cmp) && q < |s| && cmp(s[q], s[lo]) >= 0
    ensures PartInv(s0, s, lo, p, q + 1, cmp)
  {
  }

  lemma {:induction false} PartLoopInv<T>(s0: seq<T>, s: seq<T>, lo: nat, e: T, p: nat, q: nat, cmp: (T, T) -> int)
    requires lo <= p < q <= |s| && PartInv(s0, s, lo, p, q, cmp)
    ensures var (t, p', q') := PartLoop(s, lo, e, p, q, cmp); PartInv(s0, t, lo, p', q', cmp)
    decreases |s| - q
  {
    hide PartInv, PartLoop, Exchange;
    PartLoopStep(s, lo, e, p, q, cmp);
    if s[q - 1] == e || q == |s| {
    } else if cmp(s[q], s[lo]) < 0 {
      PartStepBelow(s0, s, lo, p, q, cmp);
      PartLoopInv(s0, Exchange(s, p + 1, q), lo, e, p + 1, q + 1, cmp);
    } else {
      PartStepAbove(s0, s, lo, p, q, cmp);
      PartLoopInv(s0, s, lo, e, p, q + 1, cmp);
    }
  }

  lemma {:induction false} PartLoopPermutes<T>(s: seq<T>, lo: nat, e: T, p: nat, q: nat, cmp: (T, T) -> int)
    requires lo <= p < q <= |s|
    ensures multiset(PartLoop(s, lo, e, p, q, cmp).0) == multiset(s)
    decreases |s| - q
  {
    hide PartLoop, Exchange;
    PartLoopStep(s, lo, e, p, q, cmp);
    if s[q - 1] == e || q == |s| {
    } else if cmp(s[q], s[lo]) < 0 {
      ExchangeMultiset(s, p + 1, q);
      PartLoopPermutes(Exchange(s, p + 1, q), lo, e, p + 1, q + 1, cmp);
    } else {
      PartLoopPermutes(s, lo, e, p, q + 1, cmp);
    }
  }

  lemma {:induction false} CountInDistinct<T>(s: seq<T>, x: T)
    requires Distinct(s)
    ensures multiset(s)[x] <= 1
  {
    if s != [] {
      var t := s[..|s| - 1];
      assert s == t + [s[|s| - 1]];
      CountInDistinct(t, x);
      assert x == s[|s| - 1] ==> x !in t;
    }
  }

  lemma RepeatedTwice<T>(t: seq<T>, i: nat, j: nat)
    requires i < j < |t| && t[i] == t[j]
    ensures multiset(t)[t[i]] >= 2
  {
    assert t == t[..j] + [t[j]] + t[j + 1..];
    assert t[i] in t[..j];
  }

  /** A rearrangement of a sequence without repetitions has none either. */
  lemma PermutedDistinct<T>(s: seq<T>, t: seq<T>)
    requires Distinct(s) && multiset(t) == multiset(s)
    ensures Distinct(t)
  {
    forall i, j | 0 <= i < j < |t|
      ensures t[i] != t[j]
    {
      if t[i] == t[j] {
        var x := t[i];
        CountInDistinct(s, x);
        RepeatedTwice(t, i, j);
      }
    }
  }

  /** With the end marker at a position that was passed, the loop runs to the list's tail. */
  lemma {:induction false} PartRunsOn<T>(s: seq<T>, lo: nat, e: T, at: nat, p: nat, q: nat, cmp: (T, T) -> int)
    requires lo <= p < q <= |s| && Distinct(s)
    requires at <= p && s[at] == e && at + 1 < q
    ensures PartLoop(s, lo, e, p, q, cmp).2 == |s|
    decreases |s| - q
  {
    hide Distinct, PartLoop, Exchange;
    DistinctAt(s, at, q - 1);
    PartLoopStep(s, lo, e, p, q, cmp);
    if q == |s| {
    } else if cmp(s[q], s[lo]) < 0 {
      ExchangeDistinct(s, p + 1, q);
      PartRunsOn(Exchange(s, p + 1, q), lo, e, at, p + 1, q + 1, cmp);
    } else {
      PartRunsOn(s, lo, e, at, p, q + 1, cmp);
    }
  }

  /** Some element of s strictly between lo and q is not below the pivot. */
  ghost predicate SomeAbove<T>(s: seq<T>, lo: nat, q: nat, cmp: (T, T) -> int)
    requires lo < q <= |s|
  {
    exists i :: lo < i < q && cmp(s[i], s[lo]) >= 0
  }

  /** The end node is below the pivot and some node between them is not, so a swap moves the end node. */
  ghost predicate EndMoves<T>(s: seq<T>, lo: nat, hi: nat, cmp: (T, T) -> int)
    requires lo < hi < |s|
  {
    cmp(s[hi], s[lo]) < 0 && SomeAbove(s, lo, hi, cmp)
  }

  lemma SomeAboveStep<T>(s: seq<T>, lo: nat, q: nat, cmp: (T, T) -> int)
    requires lo < q < |s|
    ensures SomeAbove(s, lo, q + 1, cmp) <==> SomeAbove(s, lo, q, cmp) || cmp(s[q], s[lo]) >= 0
  {
  }

  lemma DistinctAt<T>(s: seq<T>, i: nat, j: nat)
    requires i < j < |s| && Distinct(s)
    ensures s[i] != s[j]
  {
  }

  lemma ExchangeDistinct<T>(s: seq<T>, i: nat, j: nat)
    requires i < |s| && j < |s| && Distinct(s)
    ensures Distinct(Exchange(s, i, j))
    ensures forall k {:trigger Exchange(s, i, j)[k]} :: 0 <= k < |s| ==>
      Exchange(s, i, j)[k] == if k == i then s[j] else if k == j then s[i] else s[k]
  {
  }

  /** The step at which the loop looks at the end node. */
  lemma PartLast<T>(s: seq<T>, lo: nat, p: nat, q: nat, cmp: (T, T) -> int)
    requires lo <= p < q < |s| && Distinct(s)
    ensures PartLoop(s, lo, s[q], p, q, cmp).2 == if cmp(s[q], s[lo]) < 0 && p + 1 < q then |s| else q + 1
  {
    hide Distinct, PartLoop, Exchange;
    DistinctAt(s, q - 1, q);
    PartLoopStep(s, lo, s[q], p, q, cmp);
    if cmp(s[q], s[lo]) < 0 {
      var t := Exchange(s, p + 1, q);
      ExchangeDistinct(s, p + 1, q);
      if p + 1 < q {
        PartRunsOn(t, lo, s[q], p + 1, p + 1, q + 1, cmp);
      } else {
        PartLoopStep(t, lo, s[q], p + 1, q + 1, cmp);
      }
    } else {
      PartLoopStep(s, lo, s[q], p, q + 1, cmp);
    }
  }

  lemma {:induction false} PartStops<T>(s0: seq<T>, s: seq<T>, lo: nat, hi: nat, p: nat, q: nat, cmp: (T, T) -> int)
    requires lo <= p < q <= hi < |s| == |s0| && s[lo] == s0[lo] && Distinct(s)
    requires forall i :: q <= i < |s| ==> s[i] == s0[i]
    requires p + 1 < q <==> SomeAbove(s0, lo, q, cmp)
    ensures PartLoop(s, lo, s0[hi], p, q, cmp).2 == if EndMoves(s0, lo, hi, cmp) then |s| else hi + 1
    decreases |s| - q
  {
    hide Distinct, SomeAbove, PartLoop, Exchange;
    var e := s0[hi];
    DistinctAt(s, q - 1, hi);
    if q == hi {
      PartLast(s, lo, p, q, cmp);
    } else {
      assert s[q] == s0[q];
      SomeAboveStep(s0, lo, q, cmp);
      PartLoopStep(s, lo, e, p, q, cmp);
      if cmp(s[q], s[lo]) < 0 {
        var t := Exchange(s, p + 1, q);
        ExchangeDistinct(s, p + 1, q);
        assert t[lo] == s0[lo];
        assert forall i :: q + 1 <= i < |s| ==> t[i] == s0[i];
        PartStops(s0, t, lo, hi, p + 1, q + 1, cmp);
      } else {
        PartStops(s0, s, lo, hi, p, q + 1, cmp);
      }
    }
  }

  /** An end node that is not below the pivot keeps its place. */
  lemma {:induction false} PartEndStays<T>(s: seq<T>, lo: nat, hi: nat, p: nat, q: nat, cmp: (T, T) -> int)
    requires lo <= p < q <= hi < |s| && Distinct(s) && cmp(s[hi], s[lo]) >= 0
    ensures PartLoop(s, lo, s[hi], p, q, cmp).0[hi] == s[hi]
    decreases |s| - q
  {
    hide Distinct, PartLoop, Exchange;
    DistinctAt(s, q - 1, hi);
    PartLoopStep(s, lo, s[hi], p, q, cmp);
    if cmp(s[q], s[lo]) < 0 {
      ExchangeDistinct(s, p + 1, q);
      PartEndStays(Exchange(s, p + 1, q), lo, hi, p + 1, q + 1, cmp);
    } else if q < hi {
      PartEndStays(s, lo, hi, p, q + 1, cmp);
    } else {
      PartLoopStep(s, lo, s[hi], p, q + 1, cmp);
    }
  }

  /** The partition of a range ends at the range's own end exactly when no swap moves the end node or
      the range ends with the list; otherwise it ends at the list's tail. */
  lemma PartitionEnd<T>(s: seq<T>, lo: nat, hi: nat, cmp: (T, T) -> int)
    requires lo < hi < |s| && Distinct(s)
    ensures Partition(s, lo, hi, cmp).2 == if EndMoves(s, lo, hi, cmp) then |s| - 1 else hi
  {
    PartStops(s, s, lo, hi, lo, lo + 1, cmp);
  }

  /** A range whose partition runs on to the tail of the list. */
  lemma PartitionOverruns()
    ensures Partition([0, 5, 7, 3, 1], 1, 3, (x: int, y: int) => x - y).2 == 4
  {
    var s, cmp := [0, 5, 7, 3, 1], (x: int, y: int) => x - y;
    assert cmp(s[2], s[1]) >= 0;
    PartitionEnd(s, 1, 3, cmp);
  }

  /** No element of the range is above the end node. */
  ghost predicate EndMax<T>(s: seq<T>, lo: nat, hi: nat, cmp: (T, T) -> int)
    requires hi < |s|
  {
    forall i :: lo <= i <= hi ==> cmp(s[i], s[hi]) <= 0
  }

  /** The ranges that the sort of a whole list gives to its recursive calls: they end with the list, or with
      a node that nothing in them is above. */
  ghost predicate GoodRange<T>(s: seq<T>, lo: nat, hi: nat, cmp: (T, T) -> int) {
    lo <= hi < |s| && (hi == |s| - 1 || EndMax(s, lo, hi, cmp))
  }

  /** t is s with only the elements of the range rearranged. */
  ghost predicate PermutedRange<T>(s: seq<T>, t: seq<T>, lo: nat, hi: nat) {
    && |t| == |s| && Distinct(t) && multiset(t) == multiset(s)
    && (forall i :: 0 <= i < |s| && (i < lo || hi < i) ==> t[i] == s[i])
  }

  lemma PermutedRangeElements<T>(s: seq<T>, t: seq<T>, lo: nat, hi: nat, i: nat) returns (j: nat)
    requires PermutedRange(s, t, lo, hi) && lo <= i <= hi < |s|
    ensures lo <= j <= hi && t[i] == s[j]
  {
    assert t[i] in multiset(t);
    assert t[i] in s;
    j :| 0 <= j < |s| && s[j] == t[i];
  }

  lemma PermutedPreorder<T>(s: seq<T>, t: seq<T>, cmp: (T, T) -> int)
    requires TailPreorder(s, cmp) && multiset(t) == multiset(s) && |t| == |s| && t[0] == s[0]
    ensures TailPreorder(t, cmp)
  {
    assert s == [s[0]] + s[1..] && t == [t[0]] + t[1..];
    assert multiset(s) == multiset{s[0]} + multiset(s[1..]);
    assert multiset(t) == multiset{t[0]} + multiset(t[1..]);
    assert multiset(t[1..]) == multiset(t) - multiset{t[0]};
    assert multiset(s[1..]) == multiset(s) - multiset{s[0]};
    forall x | x in t[1..]
      ensures x in s[1..]
    {
      assert x in multiset(t[1..]);
    }
  }

  /** The pivot is at k; what is before it in the range is below it and what is after it is not. */
  ghost predicate Split<T>(t: seq<T>, lo: nat, k: nat, hi: nat, cmp: (T, T) -> int)
    requires lo <= k <= hi < |t|
  {
    && (forall i :: lo <= i < k ==> cmp(t[i], t[k]) < 0)
    && (forall i :: k < i <= hi ==> cmp(t[i], t[k]) >= 0)
  }

  ghost predicate Sortable<T>(s: seq<T>, lo: nat, hi: nat, cmp: (T, T) -> int)
    ensures Sortable(s, lo, hi, cmp) ==> lo <= hi < |s| && (0 < lo || lo == hi)
  {
    Distinct(s) && TailPreorder(s, cmp) && GoodRange(s, lo, hi, cmp) && (0 < lo || lo == hi)
  }

  /** A range of the entries of a list. */
  ghost predicate Range<T>(s: seq<T>, lo: nat, hi: nat, cmp: (T, T) -> int) {
    Distinct(s) && TailPreorder(s, cmp) && 0 < lo <= hi < |s|
  }

  /** Where the partition of a range ends. */
  ghost function PartEnd<T>(s: seq<T>, lo: nat, hi: nat, cmp: (T, T) -> int): (h: nat)
    requires lo < hi < |s|
  {
    if EndMoves(s, lo, hi, cmp) then |s| - 1 else hi
  }

  lemma PartitionPermutes<T>(s: seq<T>, lo: nat, hi: nat, cmp: (T, T) -> int)
    requires Range(s, lo, hi, cmp) && lo < hi
    ensures var (t, k, h) := Partition(s, lo, hi, cmp);
            h == PartEnd(s, lo, hi, cmp) && PermutedRange(s, t, lo, h) && Distinct(t) && TailPreorder(t, cmp)
  {
    hide TailPreorder, Distinct, PartLoop, PartInv, Exchange;
    PartStart(s, lo, cmp);
    PartitionEnd(s, lo, hi, cmp);
    PartLoopInv(s, s, lo, s[hi], lo, lo + 1, cmp);
    PartLoopPermutes(s, lo, s[hi], lo, lo + 1, cmp);
    var (u, p, q) := PartLoop(s, lo, s[hi], lo, lo + 1, cmp);
    PivotPlaced(s, u, lo, p, q - 1, cmp);
    var t := Exchange(u, p, lo);
    ExchangeMultiset(u, p, lo);
    PermutedDistinct(s, t);
    PermutedPreorder(s, t, cmp);
  }

  lemma PivotPlaced<T>(s: seq<T>, u: seq<T>, lo: nat, k: nat, hi: nat, cmp: (T, T) -> int)
    requires lo < hi < |u| && PartInv(s, u, lo, k, hi + 1, cmp)
    ensures var t := Exchange(u, k, lo);
            && Split(t, lo, k, hi, cmp) && t[k] == s[lo]
            && (forall i :: 0 <= i < |s| && (i < lo || hi < i) ==> t[i] == s[i])
            && (cmp(s[hi], s[lo]) >= 0 && u[hi] == s[hi] ==> k < hi && t[hi] == s[hi])
  {
  }

  /** The partition of any range splits what it goes over at the pivot. An end node that is not below the pivot has
      not moved, and the pivot comes before it; if all the others are below the pivot, the pivot comes last. */
  lemma PartitionCorrect<T>(s: seq<T>, lo: nat, hi: nat, cmp: (T, T) -> int)
    requires Range(s, lo, hi, cmp) && lo < hi
    ensures var (t, k, h) := Partition(s, lo, hi, cmp);
            && h == PartEnd(s, lo, hi, cmp) && PermutedRange(s, t, lo, h) && Distinct(t) && TailPreorder(t, cmp)
            && t[k] == s[lo] && Split(t, lo, k, h, cmp)
            && (cmp(s[hi], s[lo]) >= 0 ==> h == hi && k < hi && t[hi] == s[hi])
            && (cmp(s[hi], s[lo]) < 0 && h == hi < |s| - 1 ==> k == hi)
  {
    hide TailPreorder, Distinct, PermutedRange, Split, PartInv, PartLoop, Exchange, SomeAbove;
    PartitionPermutes(s, lo, hi, cmp);
    PartStart(s, lo, cmp);
    PartLoopInv(s, s, lo, s[hi], lo, lo + 1, cmp);
    var (u, p, q) := PartLoop(s, lo, s[hi], lo, lo + 1, cmp);
    PivotPlaced(s, u, lo, p, q - 1, cmp);
    if cmp(s[hi], s[lo]) >= 0 {
      PartEndStays(s, lo, hi, lo, lo + 1, cmp);
    } else {
      var (t, k, h) := Partition(s, lo, hi, cmp);
      if h == hi < |s| - 1 {
        PivotLast(s, t, lo, k, hi, cmp);
      }
    }
  }

  /** With all the others below it, the pivot is last. */
  lemma PivotLast<T>(s: seq<T>, t: seq<T>, lo: nat, k: nat, hi: nat, cmp: (T, T) -> int)
    requires lo < hi < |s| && lo <= k <= hi && PermutedRange(s, t, lo, hi) && Split(t, lo, k, hi, cmp) && t[k] == s[lo]
    requires cmp(s[hi], s[lo]) < 0 && !SomeAbove(s, lo, hi, cmp)
    ensures k == hi
  {
    var j := PermutedRangeElements(s, t, lo, hi, hi);
    assert lo < j < hi ==> cmp(s[j], s[lo]) < 0;
  }

  /** On a good range the partition keeps to the range. */
  lemma GoodPartition<T>(s: seq<T>, lo: nat, hi: nat, cmp: (T, T) -> int)
    requires Sortable(s, lo, hi, cmp) && lo < hi
    ensures var (t, k, h) := Partition(s, lo, hi, cmp);
            && h == hi && PermutedRange(s, t, lo, hi) && Distinct(t) && TailPreorder(t, cmp) && Split(t, lo, k, hi, cmp)
            && (EndMax(s, lo, hi, cmp) ==> k < hi && t[hi] == s[hi]) && (k < hi || hi == |s| - 1)
  {
    hide TailPreorder, Distinct, PermutedRange, Split;
    Flip(s, hi, lo, cmp);
    PartitionCorrect(s, lo, hi, cmp);
  }

  /** What the sort of a range promises its caller: only the range is rearranged, and an end node that is a
      maximum of the range is at its end afterwards. */
  ghost predicate Rearranged<T>(s: seq<T>, r: seq<T>, lo: nat, hi: nat, cmp: (T, T) -> int)
    requires hi < |s|
    ensures Rearranged(s, r, lo, hi, cmp) ==> |r| == |s|
  {
    PermutedRange(s, r, lo, hi) && (EndMax(s, lo, hi, cmp) ==> r[hi] == s[hi])
  }

  /** The partition step of a sortable range, and the facts that make its left part sortable. */
  ghost function Parted<T>(s: seq<T>, lo: nat, hi: nat, cmp: (T, T) -> int): (r: (seq<T>, nat))
    requires Sortable(s, lo, hi, cmp) && lo < hi
    ensures |r.0| == |s| && lo <= r.1 <= hi && Split(r.0, lo, r.1, hi, cmp)
    ensures Sortable(r.0, lo, r.1, cmp) && EndMax(r.0, lo, r.1, cmp)
    ensures r.1 < hi || (hi == |s| - 1 && !EndMax(s, lo, hi, cmp))
    ensures Rearranged(s, r.0, lo, hi, cmp)
  {
    GoodPartition(s, lo, hi, cmp);
    var (t, k, _) := Partition(s, lo, hi, cmp);
    LeftRange(t, lo, k, hi, cmp);
    (t, k)
  }

  /** list_quick_sort on a good range. */
  ghost function QuickSort<T>(s: seq<T>, lo: nat, hi: nat, cmp: (T, T) -> int): (r: seq<T>)
    requires Sortable(s, lo, hi, cmp)
    ensures Rearranged(s, r, lo, hi, cmp)
    decreases hi - lo, if EndMax(s, lo, hi, cmp) then 0 else 1
  {
    NothingRearranged(s, lo, hi, cmp);
    if lo == hi then s
    else
      var (t, k) := Parted(s, lo, hi, cmp);
      var u := if lo != k then QuickSort(t, lo, k, cmp) else t;
      NothingRearranged(t, lo, k, cmp);
      RightRange(s, t, u, lo, k, hi, cmp);
      if k + 1 != hi && k + 1 != |s| then
        var v := QuickSort(u, k + 1, hi, cmp);
        RearrangedBoth(s, u, v, lo, k + 1, hi, cmp);
        v
      else u
  }

  lemma NothingRearranged<T>(s: seq<T>, lo: nat, hi: nat, cmp: (T, T) -> int)
    requires Sortable(s, lo, hi, cmp)
    ensures Rearranged(s, s, lo, hi, cmp)
  {
  }

  lemma RearrangedBoth<T>(s: seq<T>, u: seq<T>, v: seq<T>, lo: nat, lo': nat, hi: nat, cmp: (T, T) -> int)
    requires hi < |s| == |u| && Rearranged(s, u, lo, hi, cmp) && Rearranged(u, v, lo', hi, cmp) && lo <= lo'
    requires EndMax(s, lo, hi, cmp) ==> EndMax(u, lo', hi, cmp)
    ensures Rearranged(s, v, lo, hi, cmp)
  {
  }

  lemma LeftRange<T>(t: seq<T>, lo: nat, k: nat, hi: nat, cmp: (T, T) -> int)
    requires 0 < lo <= k <= hi < |t| && Split(t, lo, k, hi, cmp) && Distinct(t) && TailPreorder(t, cmp)
    ensures Sortable(t, lo, k, cmp) && EndMax(t, lo, k, cmp)
    ensures k == lo ==> PermutedRange(t, t, lo, k)
  {
    Flip(t, k, k, cmp);
  }

  lemma RightRange<T>(s: seq<T>, t: seq<T>, u: seq<T>, lo: nat, k: nat, hi: nat, cmp: (T, T) -> int)
    requires 0 < lo <= k <= hi < |t| == |s| && Sortable(s, lo, hi, cmp) && Sortable(t, lo, k, cmp)
    requires Rearranged(s, t, lo, hi, cmp) && Rearranged(t, u, lo, k, cmp)
    requires k < hi || !EndMax(s, lo, hi, cmp)
    ensures Rearranged(s, u, lo, hi, cmp) && TailPreorder(u, cmp) && Distinct(u)
    ensures EndMax(s, lo, hi, cmp) ==> EndMax(u, k + 1, hi, cmp)
    ensures k < hi ==> Sortable(u, k + 1, hi, cmp)
  {
    PermutedPreorder(t, u, cmp);
    hide TailPreorder;
    if EndMax(s, lo, hi, cmp) {
      forall i | k + 1 <= i <= hi
        ensures cmp(u[i], u[hi]) <= 0
      {
        var j := PermutedRangeElements(s, t, lo, hi, i);
      }
    }
  }

  /** Two sorted parts on the two sides of a pivot make a sorted whole. */
  lemma JoinSorted<T>(u: seq<T>, lo: nat, k: nat, hi: nat, cmp: (T, T) -> int)
    requires 0 < lo <= k <= hi < |u| && TailPreorder(u, cmp)
    requires Sorted(u, lo, k, cmp) && Sorted(u, k + 1, hi, cmp)
    requires forall j :: k < j <= hi ==> cmp(u[j], u[k]) >= 0
    ensures Sorted(u, lo, hi, cmp)
  {
    forall i, j | lo <= i < j <= hi
      ensures cmp(u[i], u[j]) <= 0
    {
      if i <= k < j {
        Flip(u, i, i, cmp);
        Flip(u, j, k, cmp);
        Chain(u, i, k, j, cmp);
      }
    }
  }

  lemma KeepsAbove<T>(t: seq<T>, u: seq<T>, lo: nat, hi: nat, pivot: T, cmp: (T, T) -> int)
    requires hi < |t| && PermutedRange(t, u, lo, hi)
    requires forall i :: lo <= i <= hi ==> cmp(t[i], pivot) >= 0
    ensures forall i :: lo <= i <= hi ==> cmp(u[i], pivot) >= 0
  {
    forall i | lo <= i <= hi
      ensures cmp(u[i], pivot) >= 0
    {
      var j := PermutedRangeElements(t, u, lo, hi, i);
    }
  }

  /** t is the split range, u has its left part sorted, v both parts. */
  lemma BothSorted<T>(t: seq<T>, u: seq<T>, v: seq<T>, lo: nat, k: nat, hi: nat, cmp: (T, T) -> int)
    requires 0 < lo <= k <= hi < |t| && Split(t, lo, k, hi, cmp) && EndMax(t, lo, k, cmp)
    requires Rearranged(t, u, lo, k, cmp) && Rearranged(u, v, k + 1, hi, cmp)
    requires TailPreorder(u, cmp) && Sorted(u, lo, k, cmp) && Sorted(v, k + 1, hi, cmp)
    ensures Sorted(v, lo, hi, cmp)
  {
    PermutedPreorder(u, v, cmp);
    assert forall i :: k + 1 <= i <= hi ==> u[i] == t[i];
    KeepsAbove(u, v, k + 1, hi, t[k], cmp);
    hide TailPreorder;
    JoinSorted(v, lo, k, hi, cmp);
  }

  /** One unfolding of QuickSort. */
  lemma QuickSortStep<T>(s: seq<T>, lo: nat, hi: nat, cmp: (T, T) -> int) returns (t: seq<T>, k: nat, u: seq<T>)
    requires Sortable(s, lo, hi, cmp) && lo < hi
    ensures (t, k) == Parted(s, lo, hi, cmp) && u == QuickSort(t, lo, k, cmp)
    ensures TailPreorder(u, cmp) && Distinct(u) && (k + 1 < hi ==> Sortable(u, k + 1, hi, cmp))
    ensures QuickSort(s, lo, hi, cmp) == if k + 1 < hi then QuickSort(u, k + 1, hi, cmp) else u
  {
    hide TailPreorder, Distinct, Parted, Rearranged, Split, EndMax, Sortable;
    t, k := Parted(s, lo, hi, cmp).0, Parted(s, lo, hi, cmp).1;
    u := QuickSort(t, lo, k, cmp);
    assert lo == k ==> u == t;
    RightRange(s, t, u, lo, k, hi, cmp);
  }

  lemma QuickSortOne<T>(s: seq<T>, lo: nat, cmp: (T, T) -> int)
    requires Sortable(s, lo, lo, cmp)
    ensures QuickSort(s, lo, lo, cmp) == s
    ensures Sorted(QuickSort(s, lo, lo, cmp), lo, lo, cmp)
  {
  }

  /** The range comes out sorted. Together with the contract of QuickSort (only the range is rearranged) this
      says that list_quick_sort sorts, for every comparator that is a total preorder. */
  lemma {:induction false} QuickSortSorts<T>(s: seq<T>, lo: nat, hi: nat, cmp: (T, T) -> int)
    requires Sortable(s, lo, hi, cmp)
    ensures Sorted(QuickSort(s, lo, hi, cmp), lo, hi, cmp)
    decreases hi - lo, if EndMax(s, lo, hi, cmp) then 0 else 1
  {
    hide QuickSort, Parted, Split, EndMax, Sortable, TailPreorder, Distinct, Rearranged, Sorted;
    if lo == hi {
      QuickSortOne(s, lo, cmp);
    } else {
      var t, k, u := QuickSortStep(s, lo, hi, cmp);
      QuickSortSorts(t, lo, k, cmp);
      if k + 1 < hi {
        QuickSortSorts(u, k + 1, hi, cmp);
        BothSorted(t, u, QuickSort(u, k + 1, hi, cmp), lo, k, hi, cmp);
      } else {
        NothingToSort(u, k + 1, hi, cmp);
        BothSorted(t, u, u, lo, k, hi, cmp);
      }
    }
  }

  lemma NothingToSort<T>(u: seq<T>, lo: nat, hi: nat, cmp: (T, T) -> int)
    requires hi < |u| && lo >= hi && Distinct(u)
    ensures Sorted(u, lo, hi, cmp) && Rearranged(u, u, lo, hi, cmp)
  {
  }

  lemma RearrangedElements<T>(s: seq<T>, t: seq<T>, lo: nat, hi: nat, cmp: (T, T) -> int)
    requires 0 < lo && hi < |s| && Rearranged(s, t, lo, hi, cmp)
    ensures t[0] == s[0] && (forall i :: 0 <= i < |t| ==> t[i] in s)
    ensures forall i :: hi < i < |s| ==> t[i] == s[i]
  {
    forall i | 0 <= i < |t|
      ensures t[i] in s
    {
      assert t[i] in multiset(t);
    }
  }

  lemma PartedIsPartition<T>(s: seq<T>, lo: nat, hi: nat, cmp: (T, T) -> int)
    requires Sortable(s, lo, hi, cmp) && lo < hi
    ensures Partition(s, lo, hi, cmp) == (Parted(s, lo, hi, cmp).0, Parted(s, lo, hi, cmp).1, hi)
  {
    hide Partition, Sortable;
    GoodPartition(s, lo, hi, cmp);
  }

  /** Where the nodes that list_quick_sort still points at are when its first recursive call has returned:
      the pivot has stayed at k, the end at hi. */
  lemma PointersStay<T>(s: seq<T>, lo: nat, hi: nat, cmp: (T, T) -> int) returns (t: seq<T>, k: nat, u: seq<T>)
    requires Sortable(s, lo, hi, cmp) && lo < hi
    ensures Partition(s, lo, hi, cmp) == (t, k, hi) && |t| == |u| == |s| && 0 < lo <= k <= hi
    ensures Sortable(t, lo, k, cmp) && u == QuickSort(t, lo, k, cmp) && (lo == k ==> u == t)
    ensures EndMax(t, lo, k, cmp) && (k < hi || (hi == |s| - 1 && !EndMax(s, lo, hi, cmp)))
    ensures u[0] == s[0] && u[k] == t[k] && (k < hi ==> u[hi] == t[hi])
    ensures forall i :: 0 <= i < |u| ==> u[i] in s
    ensures k + 1 < hi ==> Sortable(u, k + 1, hi, cmp)
    ensures QuickSort(s, lo, hi, cmp) == if k + 1 < hi then QuickSort(u, k + 1, hi, cmp) else u
  {
    hide Partition, Parted, Sortable, EndMax;
    t, k, u := QuickSortStep(s, lo, hi, cmp);
    PartedIsPartition(s, lo, hi, cmp);
    RearrangedElements(s, t, lo, hi, cmp);
    RearrangedElements(t, u, lo, k, cmp);
  }

  /** Two end markers that the loop does not come to make no difference. */
  lemma {:induction false} PartSame<T>(s: seq<T>, lo: nat, e: T, e': T, p: nat, q: nat, cmp: (T, T) -> int)
    requires lo <= p < q <= |s| && PartLoop(s, lo, e, p, q, cmp).2 == |s| && PartLoop(s, lo, e', p, q, cmp).2 == |s|
    ensures PartLoop(s, lo, e, p, q, cmp) == PartLoop(s, lo, e', p, q, cmp)
    decreases |s| - q
  {
    hide PartLoop, Exchange;
    PartLoopStep(s, lo, e, p, q, cmp);
    PartLoopStep(s, lo, e', p, q, cmp);
    if q < |s| {
      if cmp(s[q], s[lo]) < 0 {
        PartSame(Exchange(s, p + 1, q), lo, e, e', p + 1, q + 1, cmp);
      } else {
        PartSame(s, lo, e, e', p, q + 1, cmp);
      }
    }
  }

  /** A partition that runs to the tail is the partition of the range up to the tail. */
  lemma OverrunIsRest<T>(s: seq<T>, lo: nat, hi: nat, cmp: (T, T) -> int)
    requires Distinct(s) && lo < |s| - 1 && hi < |s| && Partition(s, lo, hi, cmp).2 == |s| - 1
    ensures Partition(s, lo, hi, cmp) == Partition(s, lo, |s| - 1, cmp)
  {
    PartitionEnd(s, lo, |s| - 1, cmp);
    PartSame(s, lo, s[hi], s[|s| - 1], lo, lo + 1, cmp);
  }

  /** The partition of a range that begins after its end runs to the tail. */
  lemma ReversedOverruns<T>(s: seq<T>, lo: nat, hi: nat, cmp: (T, T) -> int)
    requires Distinct(s) && hi < lo < |s|
    ensures Partition(s, lo, hi, cmp).2 == |s| - 1
  {
    PartRunsOn(s, lo, s[hi], hi, lo, lo + 1, cmp);
  }

  /** s and s' are the same from lo on. */
  ghost predicate SameFrom<T>(s: seq<T>, s': seq<T>, lo: nat) {
    |s| == |s'| && forall i :: lo <= i < |s| ==> s[i] == s'[i]
  }

  lemma ExchangeSame<T>(s: seq<T>, s': seq<T>, lo: nat, i: nat, j: nat)
    requires SameFrom(s, s', lo) && lo <= i < |s| && lo <= j < |s|
    ensures SameFrom(Exchange(s, i, j), Exchange(s', i, j), lo)
  {
  }

  /** What is before the range makes no difference to the loop. */
  lemma {:induction false} PartLoopFrom<T>(s: seq<T>, s': seq<T>, lo: nat, e: T, p: nat, q: nat, cmp: (T, T) -> int)
    requires SameFrom(s, s', lo) && lo <= p < q <= |s|
    ensures var r, r' := PartLoop(s, lo, e, p, q, cmp), PartLoop(s', lo, e, p, q, cmp);
            SameFrom(r.0, r'.0, lo) && r.1 == r'.1 && r.2 == r'.2
    decreases |s| - q
  {
    hide PartLoop, Exchange;
    PartLoopStep(s, lo, e, p, q, cmp);
    PartLoopStep(s', lo, e, p, q, cmp);
    if s[q - 1] == e || q == |s| {
    } else if cmp(s[q], s[lo]) < 0 {
      ExchangeSame(s, s', lo, p + 1, q);
      PartLoopFrom(Exchange(s, p + 1, q), Exchange(s', p + 1, q), lo, e, p + 1, q + 1, cmp);
    } else {
      PartLoopFrom(s, s', lo, e, p, q + 1, cmp);
    }
  }

  lemma PartitionFrom<T>(s: seq<T>, s': seq<T>, lo: nat, hi: nat, cmp: (T, T) -> int)
    requires SameFrom(s, s', lo) && lo <= hi < |s|
    ensures var r, r' := Partition(s, lo, hi, cmp), Partition(s', lo, hi, cmp);
            SameFrom(r.0, r'.0, lo) && r.1 == r'.1 && r.2 == r'.2
  {
    hide PartLoop, Exchange;
    PartLoopFrom(s, s', lo, s[hi], lo, lo + 1, cmp);
    var r, r' := PartLoop(s, lo, s[hi], lo, lo + 1, cmp), PartLoop(s', lo, s[hi], lo, lo + 1, cmp);
    ExchangeSame(r.0, r'.0, lo, r.1, lo);
  }
}
