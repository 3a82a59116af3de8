/** list_get_partion and list_quick_sort of TCP_C/hash.c on the node pointers. */
module ListPointers {
  import opened Ring
  import opened ListSort
  import opened AnyRange

  lemma ExchangeElements<T>(s: seq<T>, i: nat, j: nat)
    requires i < |s| && j < |s|
    ensures forall k {:trigger Exchange(s, i, j)[k]} :: 0 <= k < |s| ==> Exchange(s, i, j)[k] in s
  {
  }

  /** One pass of the loop of list_get_partion in the case where q compares below the pivot. */
  method SwapBelow(p: ListHead, q: ListHead, ghost s: seq<ListHead>, ghost ip: nat, ghost iq: nat)
    returns (p': ListHead, q': ListHead)
    requires IsRing(s) && 0 < ip < iq < |s| && p == s[ip] && q == s[iq]
    modifies s
    ensures var t := Exchange(s, ip + 1, iq); IsRing(t) && p' == t[ip + 1] && q' == At(t, iq + 1)
  {
    p' := p.next;
    if p' != q {
      var qNext := q.next;
      var pPrev := p'.prev;
      ListSwap(p', q, s, ip + 1, s, iq);
      assert pPrev == Exchange(s, ip + 1, iq)[ip];
      p' := pPrev.next;
      q' := qNext;
    } else {
      assert Exchange(s, ip + 1, iq) == s;
      q' := q.next;
    }
  }

  /** The loop of list_get_partion stands at p and q, positions ip and iq of the ring s, which is r rearranged. */
  ghost predicate AtLoop(r: seq<ListHead>, s: seq<ListHead>, lo: nat, p: ListHead, q: ListHead?, ip: nat, iq: nat)
    reads s
  {
    && IsRing(s) && |s| == |r| && 0 < lo <= ip < iq <= |s| && s[0] == r[0] && s[lo] == r[lo]
    && (forall i :: 0 <= i < |s| ==> s[i] in r)
    && p == s[ip] && q == At(s, iq)
  }

  method PartitionStep(p: ListHead, q: ListHead, begin: ListHead, end: ListHead, cmp: (ListHead, ListHead) -> int,
                       ghost r: seq<ListHead>, ghost s: seq<ListHead>, ghost lo: nat, ghost ip: nat, ghost iq: nat)
    returns (p': ListHead, q': ListHead, ghost s': seq<ListHead>, ghost ip': nat)
    requires AtLoop(r, s, lo, p, q, ip, iq) && begin == r[lo] && iq < |s| && s[iq - 1] != end
    modifies s
    ensures AtLoop(r, s', lo, p', q', ip', iq + 1)
    ensures PartLoop(s', lo, end, ip', iq + 1, cmp) == PartLoop(s, lo, end, ip, iq, cmp)
  {
    hide PartLoop;
    PartLoopStep(s, lo, end, ip, iq, cmp);
    if cmp(q, begin) < 0 {
      ExchangeElements(s, ip + 1, iq);
      p', q' := SwapBelow(p, q, s, ip, iq);
      s', ip' := Exchange(s, ip + 1, iq), ip + 1;
    } else {
      p', q', s', ip' := p, q.next, s, ip;
    }
  }

  /** t is a ring of the nodes of r, and the three pointers that list_get_partion hands back are at k, lo and h. */
  ghost predicate Handed(r: seq<ListHead>, t: seq<ListHead>, lo: nat, k: nat, h: nat,
                         partition: ListHead, begin: ListHead, end: ListHead)
    reads t
  {
    && IsRing(t) && |t| == |r| && lo <= k <= h < |t| && 0 < |r| && t[0] == r[0]
    && (forall i :: 0 <= i < |t| ==> t[i] in r)
    && partition == t[k] && begin == t[lo] && end == t[h]
  }

  /** The end of list_get_partion: the pivot changes places with p, and the new end is what then precedes q. */
  method PlacePivot(begin: ListHead, p: ListHead, q: ListHead,
                    ghost r: seq<ListHead>, ghost s: seq<ListHead>, ghost lo: nat, ghost ip: nat, ghost iq: nat)
    returns (end': ListHead)
    requires AtLoop(r, s, lo, p, q, ip, iq) && begin == r[lo]
    modifies s
    ensures Handed(r, Exchange(s, ip, lo), lo, ip, iq - 1, begin, p, end')
  {
    ghost var t := Exchange(s, ip, lo);
    ExchangeElements(s, ip, lo);
    if p != begin {
      ListSwap(p, begin, s, ip, s, lo);
    } else {
      assert t == s;
    }
    assert q == At(t, iq);
    end' := q.prev;
  }

  lemma PartitionIs<T>(r: seq<T>, s: seq<T>, lo: nat, hi: nat, ip: nat, iq: nat, cmp: (T, T) -> int)
    requires lo < |r| && hi < |r| && |s| == |r| && lo <= ip < iq <= |s| && (s[iq - 1] == r[hi] || iq == |s|)
    requires PartLoop(s, lo, r[hi], ip, iq, cmp) == PartLoop(r, lo, r[hi], lo, lo + 1, cmp)
    ensures Partition(r, lo, hi, cmp) == (Exchange(s, ip, lo), ip, iq - 1)
  {
  }

  /** list_get_partion, for any two nodes of any ring, the first of them not the head. */
  method GetPartition(head: ListHead, begin: ListHead, end: ListHead, cmp: (ListHead, ListHead) -> int,
                      ghost r: seq<ListHead>, ghost lo: nat, ghost hi: nat)
    returns (partition: ListHead, begin': ListHead, end': ListHead)
    requires IsRing(r) && r[0] == head && 0 < lo < |r| && hi < |r| && r[lo] == begin && r[hi] == end
    modifies r
    ensures var (t, k, h) := Partition(r, lo, hi, cmp); Handed(r, t, lo, k, h, partition, begin', end')
  {
    hide PartLoop, Partition, Handed;
    var p := begin;
    var q := p.next;
    ghost var s, ip, iq := r, lo, lo + 1;
    while q.prev != end && q != head
      invariant AtLoop(r, s, lo, p, q, ip, iq)
      invariant PartLoop(s, lo, end, ip, iq, cmp) == PartLoop(r, lo, end, lo, lo + 1, cmp)
      decreases |s| - iq
    {
      p, q, s, ip := PartitionStep(p, q, begin, end, cmp, r, s, lo, ip, iq);
      iq := iq + 1;
    }
    PartitionIs(r, s, lo, hi, ip, iq, cmp);
    end' := PlacePivot(begin, p, q, r, s, lo, ip, iq);
    begin' := p;
    partition := begin;
  }

  /** The test before the second call inside. */
  lemma MoreToSort(u: seq<ListHead>, k: nat, h: nat)
    requires 0 < k <= h < |u| && Distinct(u)
    ensures At(u, k + 1) != u[h] && At(u, k + 1) != u[0] <==> k + 1 != h && k + 1 != |u|
  {
  }

  lemma NextIs(u: seq<ListHead>, k: nat)
    requires IsRing(u) && k < |u|
    ensures Distinct(u) && u[k].next == At(u, k + 1)
  {
  }

  lemma SameNode(r: seq<ListHead>, i: nat, j: nat)
    requires IsRing(r) && i < |r| && j < |r|
    ensures r[i] == r[j] <==> i == j
  {
  }

  lemma SortOne<T>(s: seq<T>, lo: nat, cmp: (T, T) -> int)
    requires Callable(s, lo, lo, cmp)
    ensures Sort(s, lo, lo, cmp) == s
  {
  }

  /** list_quick_sort, on any range. */
  method ListQuickSort(head: ListHead, begin: ListHead, end: ListHead, cmp: (ListHead, ListHead) -> int,
                       ghost r: seq<ListHead>, ghost lo: nat, ghost hi: nat)
    requires IsRing(r) && r[0] == head && Callable(r, lo, hi, cmp) && r[lo] == begin && r[hi] == end
    modifies r
    ensures IsRing(Sort(r, lo, hi, cmp))
    decreases Class(r, lo, hi, cmp), Span(lo, hi), Flag(r, lo, hi, cmp)
  {
    hide Sortable, Partition, EndMax, TailPreorder, Sort, IsRing, Distinct, Class, Span, Flag;
    SameNode(r, lo, hi);
    if begin != end {
      ghost var t, k, h, u := AnyCall(r, lo, hi, cmp);
      var partition, begin', end' := GetPartition(head, begin, end, cmp, r, lo, hi);
      SameNode(t, lo, k);
      if begin' != partition {
        ListQuickSort(head, begin', partition, cmp, t, lo, k);
      } else {
        SortOne(t, lo, cmp);
      }
      NextIs(u, k);
      MoreToSort(u, k, h);
      if partition.next != end' && partition.next != head {
        ListQuickSort(head, partition.next, end', cmp, u, k + 1, h);
      }
    } else {
      SortOne(r, lo, cmp);
    }
  }

  /** The call that sorts a whole list: list_quick_sort(head, head->next, head->prev, ...). The ring is left
      well linked, with the same head and nodes, and in order, whatever total preorder the comparator is. */
  method SortList(head: ListHead, cmp: (ListHead, ListHead) -> int, ghost r: seq<ListHead>)
    returns (ghost t: seq<ListHead>)
    requires IsRing(r) && r[0] == head && TailPreorder(r, cmp)
    modifies r
    ensures IsRing(t) && |t| == |r| && t[0] == head && multiset(t) == multiset(r)
    ensures forall i, j :: 0 < i < j < |t| ==> cmp(t[i], t[j]) <= 0
  {
    ghost var lo := if |r| == 1 then 0 else 1;
    WholeList(r, cmp);
    ListQuickSort(head, head.next, head.prev, cmp, r, lo, |r| - 1);
    t := Sort(r, lo, |r| - 1, cmp);
  }

  lemma WholeList<T>(r: seq<T>, cmp: (T, T) -> int)
    requires r != [] && Distinct(r) && TailPreorder(r, cmp)
    ensures var lo := if |r| == 1 then 0 else 1;
            Callable(r, lo, |r| - 1, cmp) &&
            var t := Sort(r, lo, |r| - 1, cmp);
            |t| == |r| && t[0] == r[0] && multiset(t) == multiset(r) && Sorted(t, 1, |t| - 1, cmp)
  {
    hide QuickSort, TailPreorder, Sort;
    var lo := if |r| == 1 then 0 else 1;
    SortIsGood(r, lo, |r| - 1, cmp);
    QuickSortSorts(r, lo, |r| - 1, cmp);
    if |r| == 1 {
      QuickSortOne(r, 0, cmp);
    }
  }
}
