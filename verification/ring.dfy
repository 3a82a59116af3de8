/** The intrusive circular list of TCP_C/list.h at the level of its next and prev pointers.
    A ghost sequence names the nodes of a ring in order, the list head first. */
module Ring {

  class ListHead {
    var next: ListHead?
    var prev: ListHead?

    constructor ()
      ensures next == null && prev == null
    {
      next, prev := null, null;
    }
  }

  ghost predicate Distinct<T>(s: seq<T>) {
    forall i, j :: 0 <= i < j < |s| ==> s[i] != s[j]
  }

  /** r[0] -> r[1] -> ... -> r[|r|-1] -> r[0], with every prev the inverse of every next. */
  ghost predicate IsRing(r: seq<ListHead>)
    reads r
  {
    && 0 < |r|
    && Distinct(r)
    && (forall i {:trigger r[i].next} :: 0 <= i < |r| - 1 ==> r[i].next == r[i + 1])
    && (forall i {:trigger r[i].prev} :: 0 < i < |r| ==> r[i].prev == r[i - 1])
    && r[|r| - 1].next == r[0]
    && r[0].prev == r[|r| - 1]
  }

  ghost predicate Alone(x: ListHead)
    reads x
  {
    x.next == x && x.prev == x
  }

  ghost function Remove<T>(s: seq<T>, i: nat): (r: seq<T>)
    requires i < |s|
    ensures |r| == |s| - 1
  {
    s[..i] + s[i + 1..]
  }

  ghost function Insert<T>(s: seq<T>, i: nat, x: T): (r: seq<T>)
    requires i <= |s|
    ensures |r| == |s| + 1
  {
    s[..i] + [x] + s[i..]
  }

  /** Where the element that Moved puts at position k comes from. */
  ghost function Origin(i: nat, m: nat, k: nat): (o: nat) {
    if k == m then i
    else if i <= k < m then k + 1
    else if m < k <= i then k - 1
    else k
  }

  /** The element at i is taken out and put back so that it comes to position m. */
  ghost function Moved<T>(s: seq<T>, i: nat, m: nat): (r: seq<T>)
    requires i < |s| && m < |s|
    ensures |r| == |s|
  {
    seq(|s|, k requires 0 <= k < |s| => s[Origin(i, m, k)])
  }

  /** The node that position m of the ring names, where |r| is one past the end: the head. */
  ghost function At(r: seq<ListHead>, m: nat): (x: ListHead)
    requires 0 < |r| && m <= |r|
  {
    if m < |r| then r[m] else r[0]
  }

  method InitListHead(x: ListHead)
    modifies x
    ensures Alone(x) && IsRing([x])
  {
    x.next := x;
    x.prev := x;
  }

  /** __list_del of any node of a ring; one that is alone is left as it is. */
  method ListDel(x: ListHead, ghost r: seq<ListHead>, ghost i: nat)
    requires IsRing(r) && i < |r| && r[i] == x
    modifies r
    ensures |r| > 1 ==> IsRing(Remove(r, i))
  {
    var p, n := x.prev, x.next;
    n.prev := p;
    p.next := n;
    if |r| > 1 {
      RemovedDistinct(r, i);
    }
  }

  /** __list_del followed by INIT_LIST_HEAD. */
  method ListDelInit(x: ListHead, ghost r: seq<ListHead>, ghost i: nat)
    requires IsRing(r) && i < |r| && r[i] == x
    modifies r
    ensures Alone(x) && (|r| > 1 ==> IsRing(Remove(r, i)))
  {
    ListDel(x, r, i);
    if |r| > 1 {
      RemovedDistinct(r, i);
    }
    x.next := x;
    x.prev := x;
  }

  /** list_add_tail: link x in just before `at`, the node at position m of the ring. */
  method ListAddTail(x: ListHead, at: ListHead, ghost r: seq<ListHead>, ghost m: nat)
    requires IsRing(r) && x !in r && 0 < m <= |r| && at == At(r, m)
    modifies r, x
    ensures IsRing(Insert(r, m, x))
  {
    var p := at.prev;
    at.prev := x;
    x.next := at;
    x.prev := p;
    p.next := x;
    InsertedDistinct(r, m, x);
  }

  /** No node of r is one of q. */
  ghost predicate Apart(r: seq<ListHead>, q: seq<ListHead>) {
    forall k :: 0 <= k < |r| ==> r[k] !in q
  }

  /** list_move_tail: x, a node of the ring q, is unlinked and linked in just before `at`, in another ring r or in
      what is left of its own. */
  method ListMoveTail(x: ListHead, at: ListHead, ghost r: seq<ListHead>, ghost m: nat, ghost q: seq<ListHead>,
                      ghost i: nat)
    requires IsRing(q) && i < |q| && q[i] == x && 0 < m <= |r| && at == At(r, m)
    requires r == Remove(q, i) || (IsRing(r) && Apart(r, q))
    modifies r, q
    ensures IsRing(Insert(r, m, x))
    ensures r != Remove(q, i) && |q| > 1 ==> IsRing(Remove(q, i))
  {
    RemovedDistinct(q, i);
    ghost var rest := Remove(q, i);
    assert forall k :: 0 <= k < |rest| ==> rest[k] in q;
    ListDel(x, q, i);
    assert IsRing(r) && x !in r;
    assert r != rest ==> forall k :: 0 <= k < |rest| ==> rest[k] !in r && rest[k] != x;
    ListAddTail(x, at, r, m);
  }

  /** list_replace_init: the nodes of the ring headed by `o` move, in order, to the ring headed by `n`,
      and `o` becomes an empty ring, also when it was empty before. */
  method ListReplaceInit(o: ListHead, n: ListHead, ghost r: seq<ListHead>)
    requires IsRing(r) && r[0] == o && n !in r
    modifies r, n
    ensures IsRing([n] + r[1..]) && IsRing([o])
  {
    n.next := o.next;
    n.next.prev := n;
    n.prev := o.prev;
    n.prev.next := n;
    ghost var t := [n] + r[1..];
    assert forall k :: 0 < k < |t| ==> t[k] == r[k];
    assert IsRing(t);
    o.next := o;
    o.prev := o;
  }

  /** The elements at i and j change places. */
  ghost function Exchange<T>(s: seq<T>, i: nat, j: nat): (r: seq<T>)
    requires i < |s| && j < |s|
    ensures |r| == |s|
  {
    seq(|s|, k requires 0 <= k < |s| => if k == i then s[j] else if k == j then s[i] else s[k])
  }

  lemma RemovedDistinct<T>(s: seq<T>, i: nat)
    requires i < |s| && Distinct(s)
    ensures Distinct(Remove(s, i)) && s[i] !in Remove(s, i)
    ensures forall k {:trigger Remove(s, i)[k]} :: 0 <= k < |s| - 1 ==> Remove(s, i)[k] == if k < i then s[k] else s[k + 1]
  {
  }

  lemma InsertedDistinct<T>(s: seq<T>, i: nat, x: T)
    requires i <= |s| && Distinct(s) && x !in s
    ensures Distinct(Insert(s, i, x))
    ensures forall k {:trigger Insert(s, i, x)[k]} :: 0 <= k <= |s| ==>
      Insert(s, i, x)[k] == if k < i then s[k] else if k == i then x else s[k - 1]
  {
  }

  lemma RemoveInsert<T>(s: seq<T>, i: nat, m: nat)
    requires i < |s| && m < |s|
    ensures Insert(Remove(s, i), m, s[i]) == Moved(s, i, m)
  {
  }

  /** The two moves of list_swap exchange a at i and b at j. */
  lemma ExchangeByMoves<T>(r: seq<T>, i: nat, j: nat)
    requires i < |r| && j < |r| && i != j
    ensures var i1 := if i < j then i else i - 1;
            var r2 := Moved(r, j, i1 + 1);
            r2[i1] == r[i] && Moved(r2, i1, j) == Exchange(r, i, j)
  {
  }

  /** list_del_init followed by list_move_tail: the node at position i comes to position m, just before `at`. */
  method Relink(x: ListHead, at: ListHead, ghost r: seq<ListHead>, ghost i: nat, ghost m: nat)
    requires IsRing(r) && i < |r| && r[i] == x && m < |r|
    requires if |r| == 2 then i != m && at == r[m] else 0 < i && 0 < m && at == At(Moved(r, i, m), m + 1)
    modifies r
    ensures IsRing(Moved(r, i, m))
  {
    ghost var k := RelinkAt(r, i, m, x, at);
    ListDelInit(x, r, i);
    hide Moved;
    ListMoveTail(x, at, Remove(r, i), k, [x], 0);
    if |r| == 2 {
      RingOfTwo(Remove(r, i), x);
    }
  }

  lemma RelinkAt(r: seq<ListHead>, i: nat, m: nat, x: ListHead, at: ListHead) returns (k: nat)
    requires Distinct(r) && i < |r| && r[i] == x && m < |r|
    requires if |r| == 2 then i != m && at == r[m] else 0 < i && 0 < m && at == At(Moved(r, i, m), m + 1)
    ensures Distinct(Remove(r, i)) && x !in Remove(r, i) && 0 < k <= |r| - 1 == |Remove(r, i)|
    ensures forall j :: 0 <= j < |Remove(r, i)| ==> Remove(r, i)[j] in r
    ensures at == At(Remove(r, i), k)
    ensures if |r| == 2 then k == 1 && Moved(r, i, m) == (if i == 0 then [at, x] else [x, at])
            else Insert(Remove(r, i), k, x) == Moved(r, i, m)
  {
    RemovedDistinct(r, i);
    if |r| == 2 {
      k := 1;
    } else {
      k := m;
      RemoveInsert(r, i, m);
    }
  }

  /** A ring of two is a ring from either of them. */
  lemma RingOfTwo(one: seq<ListHead>, x: ListHead)
    requires |one| == 1 && IsRing(Insert(one, 1, x))
    ensures IsRing([one[0], x]) && IsRing([x, one[0]])
  {
    assert Insert(one, 1, x) == [one[0], x];
  }

  /** The nodes before which list_swap links b and then a. */
  lemma SwapTargets(r: seq<ListHead>, i: nat, j: nat)
    requires 0 < i < |r| && 0 < j < |r| && i != j && j + 1 != i && i + 1 != j
    ensures var i1 := if i < j then i else i - 1;
            var r2 := Moved(r, j, i1 + 1);
            At(r2, i1 + 2) == At(r, i + 1) && At(Moved(r2, i1, j), j + 1) == At(r, j + 1)
  {
  }

  /** An entry of a ring, or a node that is alone. */
  ghost predicate Entry(r: seq<ListHead>, i: nat, x: ListHead)
    reads r
  {
    IsRing(r) && i < |r| && r[i] == x && (i > 0 || |r| == 1)
  }

  /** What list_swap leaves: a at i of r and b at j of q have changed places. */
  ghost predicate Swapped(r: seq<ListHead>, i: nat, q: seq<ListHead>, j: nat, a: ListHead, b: ListHead)
    requires i < |r| && j < |q|
    reads r, q, a, b
  {
    if q == r then IsRing(Exchange(r, i, j)) else IsRing(r[i := b]) && IsRing(q[j := a])
  }

  /** Where a is when b has been taken out. */
  ghost function Shifted(r: seq<ListHead>, i: nat, q: seq<ListHead>, j: nat): (k: nat) {
    if q == r && 0 <= j < i then i - 1 else i
  }

  /** a's ring when b has been linked in after a. */
  ghost function Joined(r: seq<ListHead>, i: nat, q: seq<ListHead>, j: nat, b: ListHead): (r2: seq<ListHead>)
    requires i < |r| && j < |q| && (q == r ==> i != j)
  {
    Insert(if q == r then Remove(r, j) else r, Shifted(r, i, q, j) + 1, b)
  }

  ghost predicate Swappable(r: seq<ListHead>, i: nat, q: seq<ListHead>, j: nat, a: ListHead, b: ListHead)
    reads r, q
  {
    && Entry(r, i, a) && Entry(q, j, b) && a != b
    && if q == r then i != j && j + 1 != i && i + 1 != j else Apart(r, q) && Apart(q, r)
  }

  /** list_del_init followed by list_move_tail, to before `at`. */
  method MoveBefore(x: ListHead, at: ListHead, ghost r: seq<ListHead>, ghost m: nat, ghost q: seq<ListHead>,
                    ghost i: nat)
    requires IsRing(q) && i < |q| && q[i] == x && 0 < m <= |r| && at == At(r, m)
    requires r == Remove(q, i) || (IsRing(r) && Apart(r, q))
    modifies r, q
    ensures IsRing(Insert(r, m, x))
    ensures r != Remove(q, i) && |q| > 1 ==> IsRing(Remove(q, i))
  {
    RemovedDistinct(q, i);
    ghost var rest := Remove(q, i);
    assert forall k :: 0 <= k < |rest| ==> rest[k] in q;
    ListDelInit(x, q, i);
    assert IsRing(r) && x !in r;
    assert r != rest ==> forall k :: 0 <= k < |rest| ==> rest[k] !in r && rest[k] != x;
    ListMoveTail(x, at, r, m, [x], 0);
  }

  /** The same, to after a. */
  method MoveAfter(x: ListHead, a: ListHead, ghost r: seq<ListHead>, ghost k: nat, ghost q: seq<ListHead>, ghost i: nat)
    requires IsRing(q) && i < |q| && q[i] == x && k < |r| && r[k] == a
    requires r == Remove(q, i) || (IsRing(r) && Apart(r, q))
    modifies r, q
    ensures IsRing(Insert(r, k + 1, x))
    ensures r != Remove(q, i) && |q| > 1 ==> IsRing(Remove(q, i))
  {
    RemovedDistinct(q, i);
    ghost var rest := Remove(q, i);
    assert forall k :: 0 <= k < |rest| ==> rest[k] in q;
    ListDelInit(x, q, i);
    assert IsRing(r) && x !in r;
    assert r != rest ==> forall k :: 0 <= k < |rest| ==> rest[k] !in r && rest[k] != x;
    assert a.next == At(r, k + 1);
    ListMoveTail(x, a.next, r, k + 1, [x], 0);
  }

  lemma OwnSecond(r: seq<ListHead>, i: nat, j: nat)
    requires Distinct(r) && 0 < i < |r| && 0 < j < |r| && i != j && j + 1 != i && i + 1 != j
    ensures var r2, i1 := Joined(r, i, r, j, r[j]), Shifted(r, i, r, j);
            && |r2| == |r| && i1 < |r2| && r2[i1] == r[i] && Remove(r, j)[i1] == r[i]
            && At(Remove(r2, i1), j) == At(r, j + 1) && Insert(Remove(r2, i1), j, r[i]) == Exchange(r, i, j)
  {
    hide Exchange;
    var i1 := Shifted(r, i, r, j);
    RemoveInsert(r, j, i1 + 1);
    RemoveInsert(Moved(r, j, i1 + 1), i1, j);
    ExchangeByMoves(r, i, j);
    SwapTargets(r, i, j);
  }

  lemma OtherSecond(r: seq<ListHead>, i: nat, q: seq<ListHead>, j: nat, a: ListHead, b: ListHead)
    requires i < |r| && j < |q| && r[i] == a && q[j] == b && q != r && (j > 0 || |q| == 1)
    requires Apart(r, q) && Apart(q, r) && Distinct(q)
    ensures var r2 := Joined(r, i, q, j, b);
            && |r2| == |r| + 1 && r2[i] == a && Remove(r2, i) == r[i := b]
            && (|q| > 1 ==> At(Remove(q, j), j) == At(q, j + 1) && Insert(Remove(q, j), j, a) == q[j := a])
            && (|q| == 1 ==> q[j := a] == [a]) && Apart(Remove(q, j), r2) && Remove(q, j) != Remove(r2, i)
  {
    RemovedDistinct(q, j);
    var rest, r2 := Remove(q, j), Joined(r, i, q, j, b);
    assert r[i := b][i] == b;
    forall k | 0 <= k < |rest|
      ensures rest[k] !in r2
    {
      assert rest[k] in q && rest[k] !in r;
    }
  }

  ghost predicate Within(s: seq<ListHead>, r: seq<ListHead>, q: seq<ListHead>) {
    forall k :: 0 <= k < |s| ==> s[k] in r || s[k] in q
  }

  lemma RemoveLength<T>(s: seq<T>, i: nat)
    requires i < |s|
    ensures |Remove(s, i)| == |s| - 1
  {
  }

  /** The nodes that are relinked are those of the two rings. */
  lemma SameNodes(r: seq<ListHead>, i: nat, q: seq<ListHead>, j: nat)
    requires i < |r| && j < |q| && (q == r ==> i != j)
    ensures var r2 := Joined(r, i, q, j, q[j]);
            && Within(r, r, q) && Within(Remove(q, j), r, q) && Within(r2, r, q)
            && (q == r ==> Shifted(r, i, q, j) < |r2| && Within(Remove(r2, Shifted(r, i, q, j)), r, q))
  {
  }

  /** b goes after a into `base`, making r2, and then a before the node that followed b into `rest`. */
  lemma SwapFacts(r: seq<ListHead>, i: nat, q: seq<ListHead>, j: nat, a: ListHead, b: ListHead)
    returns (base: seq<ListHead>, k: nat, r2: seq<ListHead>, rest: seq<ListHead>)
    requires Swappable(r, i, q, j, a, b)
    ensures IsRing(q) && j < |q| && q[j] == b && k < |base| && base[k] == a && r2 == Insert(base, k + 1, b)
    ensures base == Remove(q, j) || (IsRing(base) && Apart(base, q))
    ensures k < |r2| && r2[k] == a && |r2| > 1
    ensures if q == r then base == Remove(q, j) && rest == Remove(r2, k) && |q| > 1 && 0 < j <= |rest|
            else base == r && rest == Remove(q, j) && Apart(rest, r2) && rest != Remove(r2, k) && base != Remove(q, j)
    ensures |q| > 1 ==> 0 < j <= |rest| && At(rest, j) == At(q, j + 1)
    ensures q == r ==> Insert(rest, j, a) == Exchange(r, i, j)
    ensures q != r ==> Remove(r2, k) == r[i := b] && q[j := a] == if |q| > 1 then Insert(rest, j, a) else [a]
    ensures Within(base, r, q) && Within(r2, r, q) && Within(rest, r, q)
  {
    hide Exchange, Insert, Remove, Within, At;
    k, r2 := Shifted(r, i, q, j), Joined(r, i, q, j, b);
    RemoveLength(q, j);
    SameNodes(r, i, q, j);
    if q == r {
      OwnSecond(r, i, j);
      base, rest := Remove(r, j), Remove(r2, k);
    } else {
      OtherSecond(r, i, q, j, a, b);
      base, rest := r, Remove(q, j);
    }
  }

  /** The last part of list_swap: a and b are not neighbours, and `pos` followed b. */
  method SwapApart(a: ListHead, b: ListHead, pos: ListHead?,
                   ghost r: seq<ListHead>, ghost i: nat, ghost q: seq<ListHead>, ghost j: nat)
    requires Swappable(r, i, q, j, a, b) && pos == if |q| == 1 then null else At(q, j + 1)
    modifies r, q
    ensures Swapped(r, i, q, j, a, b)
  {
    hide Insert, Remove, Exchange, At, IsRing, Apart;
    ghost var base, k, r2, rest := SwapFacts(r, i, q, j, a, b);
    MoveAfter(b, a, base, k, q, j);
    if pos != null {
      MoveBefore(a, pos, rest, j, r2, k);
    } else {
      ListDelInit(a, r2, k);
      AloneRing(a);
    }
  }

  lemma AloneRing(x: ListHead)
    requires Alone(x)
    ensures IsRing([x])
  {
  }

  /** The nodes a at i and b at j of a ring that has no others. */
  ghost predicate Pair(r: seq<ListHead>, i: nat, j: nat, a: ListHead, b: ListHead)
    reads r
  {
    IsRing(r) && |r| == 2 && i < 2 && j < 2 && r[i] == a && r[j] == b
  }

  /** list_swap: two nodes, of one ring or of two or alone, change places. A ring of three or more nodes is counted from
      one of the others. */
  method ListSwap(a: ListHead, b: ListHead, ghost r: seq<ListHead>, ghost i: nat, ghost q: seq<ListHead>, ghost j: nat)
    requires || (Entry(r, i, a) && Entry(q, j, b) && (q == r || (Apart(r, q) && Apart(q, r))))
             || (q == r && Pair(r, i, j, a, b))
    modifies r, q
    ensures Swapped(r, i, q, j, a, b)
  {
    var pos: ListHead? := null;
    if a != b {
      if b != b.next {
        pos := b.next;
      }
      if a == b.next {
        Relink(a, b, r, i, j);
        assert Moved(r, i, j) == Exchange(r, i, j);
        return;
      }
      if a == b.prev {
        Relink(a, b.next, r, i, j);
        assert Moved(r, i, j) == Exchange(r, i, j);
        return;
      }
      SwapApart(a, b, pos, r, i, q, j);
    } else {
      assert Exchange(r, i, j) == r;
    }
  }
}
