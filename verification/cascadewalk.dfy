/** The walk of cascade in TCP_C/timer.c over a list whose entries are linked into other lists as it goes: an entry is
    never unlinked, so what is left of the list is no ring, and only the saved next pointers lead through it. */
module CascadeWalk {
  import opened Ring

  /** Each node is in the ring that `place` says, and in no other. */
  ghost predicate Placed(rings: seq<seq<ListHead>>, place: map<ListHead, nat>) {
    && (forall k, j {:trigger rings[k][j]} :: 0 <= k < |rings| && 0 <= j < |rings[k]| ==>
          rings[k][j] in place && place[rings[k][j]] == k)
    && (forall x :: x in place ==> place[x] < |rings| && x in rings[place[x]])
  }

  /** The rings of the slots are well linked, each under its own head. */
  ghost predicate AllRings(rings: seq<seq<ListHead>>, heads: seq<ListHead>)
    reads set k, j | 0 <= k < |rings| && 0 <= j < |rings[k]| :: rings[k][j]
  {
    |heads| == |rings| &&
    forall k :: 0 <= k < |rings| ==> IsRing(rings[k]) && rings[k][0] == heads[k]
  }

  /** The nodes of `nodes` up to n added, in order, to the tails of the rings that `slot` chooses for them. */
  ghost function Dealt(rings: seq<seq<ListHead>>, nodes: seq<ListHead>, slot: ListHead -> nat, n: nat)
    : (r: seq<seq<ListHead>>)
    requires n <= |nodes| && forall j :: 0 <= j < |nodes| ==> slot(nodes[j]) < |rings|
    ensures |r| == |rings|
  {
    if n == 0 then rings
    else
      var m := Dealt(rings, nodes, slot, n - 1);
      var k := slot(nodes[n - 1]);
      m[k := m[k] + [nodes[n - 1]]]
  }

  /** list_add_tail to the ring of a slot leaves the others as they are. */
  method AddToSlot(x: ListHead, heads: seq<ListHead>, k: nat,
                   ghost rings: seq<seq<ListHead>>, ghost place: map<ListHead, nat>)
    requires AllRings(rings, heads) && k < |rings| && Placed(rings, place) && x !in place
    modifies rings[k], x
    ensures var rs := rings[k := rings[k] + [x]]; Placed(rs, place[x := k]) && AllRings(rs, heads)
  {
    ghost var r := rings[k];
    assert forall j :: 0 <= j < |r| ==> rings[k][j] in place;
    assert x !in r;
    forall i, j | 0 <= i < |rings| && i != k && 0 <= j < |rings[i]|
      ensures rings[i][j] !in r && rings[i][j] != x
    {
      assert rings[i][j] in place && place[rings[i][j]] == i;
    }
    ListAddTail(x, heads[k], r, |r|);
    assert Insert(r, |r|, x) == r + [x];
    PlacedMore(rings, place, x, k);
  }

  lemma PlacedMore(rings: seq<seq<ListHead>>, place: map<ListHead, nat>, x: ListHead, k: nat)
    requires k < |rings| && Placed(rings, place) && x !in place
    ensures Placed(rings[k := rings[k] + [x]], place[x := k])
  {
    var rs := rings[k := rings[k] + [x]];
    forall i, j | 0 <= i < |rs| && 0 <= j < |rs[i]|
      ensures rs[i][j] in place[x := k] && place[x := k][rs[i][j]] == i
    {
      assert rs[i][j] == if i == k && j == |rings[k]| then x else rings[i][j];
    }
  }

  /** The nodes from the i-th on are linked by next as they were, the last one to the head of the list. */
  ghost predicate Leads(nodes: seq<ListHead>, i: nat, list: ListHead)
    reads nodes
  {
    && (forall j {:trigger nodes[j].next} :: i <= j < |nodes| - 1 ==> nodes[j].next == nodes[j + 1])
    && (i < |nodes| ==> nodes[|nodes| - 1].next == list)
  }

  ghost function NodeAt(nodes: seq<ListHead>, i: nat, list: ListHead): (x: ListHead) {
    if i < |nodes| then nodes[i] else list
  }

  /** What the list of slot c holds, and the places without it. */
  lemma NodesOf(rings: seq<seq<ListHead>>, place: map<ListHead, nat>, c: nat)
    requires c < |rings| && Placed(rings, place) && rings[c] != [] && Distinct(rings[c])
    ensures var nodes := rings[c][1..];
            && (forall j :: 0 <= j < |nodes| ==> nodes[j] in place) && Distinct(nodes)
            && Placed(rings[c := [rings[c][0]]], place - (set x | x in nodes))
  {
    var nodes, head := rings[c][1..], rings[c][0];
    assert forall j :: 0 <= j < |nodes| ==> nodes[j] == rings[c][j + 1];
    assert head !in nodes;
    var rs, where := rings[c := [head]], place - (set x | x in nodes);
    forall k, j | 0 <= k < |rs| && 0 <= j < |rs[k]|
      ensures rs[k][j] in where && where[rs[k][j]] == k
    {
      assert rs[k][j] == rings[k][j] && rings[k][j] in place && place[rings[k][j]] == k;
    }
    forall x | x in where
      ensures where[x] < |rs| && x in rs[where[x]]
    {
      assert x in rings[place[x]];
      assert rings[c] == [head] + nodes;
      assert rs[c][0] == head;
    }
  }

  /** list_replace_init of one slot. */
  method TakeOver(head: ListHead, list: ListHead, ghost heads: seq<ListHead>,
                  ghost rings: seq<seq<ListHead>>, ghost place: map<ListHead, nat>, ghost c: nat)
    requires AllRings(rings, heads) && c < |rings| && heads[c] == head && Placed(rings, place) && list !in place
    modifies list, rings[c]
    ensures AllRings(rings[c := [head]], heads)
    ensures list.next == NodeAt(rings[c][1..], 0, list) && Leads(rings[c][1..], 0, list)
  {
    ghost var r := rings[c];
    forall j | 0 <= j < |r|
      ensures r[j] != list
    {
      assert rings[c][j] in place;
    }
    forall i, j | 0 <= i < |rings| && i != c && 0 <= j < |rings[i]|
      ensures rings[i][j] !in r && rings[i][j] != list
    {
      assert rings[i][j] in place && place[rings[i][j]] == i;
      assert forall k :: 0 <= k < |r| ==> rings[c][k] in place && place[rings[c][k]] == c;
    }
    ListReplaceInit(head, list, r);
    ghost var t := [list] + r[1..];
    assert forall j :: 0 <= j < |t| - 1 ==> t[j + 1] == r[1..][j];
  }

  /** The walk is at the i-th node: from there on the list leads to its head, and nothing of it is in a slot yet. */
  ghost predicate Walking(nodes: seq<ListHead>, i: nat, list: ListHead, pos: ListHead, n: ListHead?,
                          heads: seq<ListHead>, rings: seq<seq<ListHead>>, place: map<ListHead, nat>)
    reads nodes, set k, j | 0 <= k < |rings| && 0 <= j < |rings[k]| :: rings[k][j]
  {
    && i <= |nodes| && pos == NodeAt(nodes, i, list) && (i < |nodes| ==> n == NodeAt(nodes, i + 1, list))
    && Leads(nodes, i, list) && Distinct(nodes) && list !in nodes
    && Placed(rings, place) && AllRings(rings, heads)
    && (forall j :: i <= j < |nodes| ==> nodes[j] !in place)
  }

  /** One turn of the walk: the entry is linked into its slot, and the walk goes on at the node saved before. */
  method WalkStep(pos: ListHead, n: ListHead?, heads: seq<ListHead>, k: nat, ghost nodes: seq<ListHead>, ghost i: nat,
                  ghost list: ListHead, ghost rings: seq<seq<ListHead>>, ghost place: map<ListHead, nat>)
    returns (pos': ListHead, n': ListHead?)
    requires Walking(nodes, i, list, pos, n, heads, rings, place) && i < |nodes| && k < |rings|
    modifies rings[k], pos
    ensures Walking(nodes, i + 1, list, pos', n', heads, rings[k := rings[k] + [pos]], place[pos := k])
  {
    InWhere(rings, place, k);
    forall j | i < j < |nodes|
      ensures nodes[j] !in rings[k] && nodes[j] != pos
    {
    }
    AddToSlot(pos, heads, k, rings, place);
    pos' := n;
    n' := n.next;
  }

  /** list_for_each_entry_safe over `list`, with internal_add_timer's list_add_tail as its body. */
  method Walk(list: ListHead, heads: seq<ListHead>, slot: ListHead -> nat, ghost nodes: seq<ListHead>,
              ghost rings: seq<seq<ListHead>>, ghost place: map<ListHead, nat>)
    returns (visited: seq<ListHead>, ghost after: seq<seq<ListHead>>)
    requires AllRings(rings, heads) && Placed(rings, place) && Distinct(nodes) && list !in nodes
    requires list.next == NodeAt(nodes, 0, list) && Leads(nodes, 0, list)
    requires forall j :: 0 <= j < |nodes| ==> nodes[j] !in place && slot(nodes[j]) < |rings|
    modifies nodes, place.Keys
    ensures visited == nodes && after == Dealt(rings, nodes, slot, |nodes|) && AllRings(after, heads)
  {
    hide Walking, AllRings, Placed, Leads, Dealt, Distinct;
    ghost var where: map<ListHead, nat> := place;
    visited, after := [], rings;
    var pos: ListHead := list.next;
    var n := pos.next;
    WalkStart(nodes, list, pos, n, heads, rings, where);
    DealtNone(rings, nodes, slot);
    while pos != list
      invariant |visited| <= |nodes| && visited == nodes[..|visited|] && |after| == |rings|
      invariant after == Dealt(rings, nodes, slot, |visited|)
      invariant Walking(nodes, |visited|, list, pos, n, heads, after, where)
      invariant forall x :: x in where ==> x in place || x in nodes
      decreases |nodes| - |visited|
    {
      ghost var i := |visited|;
      WalkAt(nodes, i, list, pos, n, heads, after, where);
      var k := slot(pos);
      InWhere(after, where, k);
      DealtStep(rings, nodes, slot, i);
      ghost var was := pos;
      visited := visited + [pos];
      pos, n := WalkStep(pos, n, heads, k, nodes, i, list, after, where);
      after, where := after[k := after[k] + [was]], where[was := k];
    }
    WalkAt(nodes, |visited|, list, pos, n, heads, after, where);
  }

  /** cascade: the slot's list is taken over by `list`, and its entries, first to last, are added to the lists that
      are chosen for them. Every entry is visited once, in order, and all the lists are well linked afterwards. */
  method Cascade(head: ListHead, list: ListHead, heads: seq<ListHead>, slot: ListHead -> nat,
                 ghost rings: seq<seq<ListHead>>, ghost place: map<ListHead, nat>, ghost c: nat)
    returns (visited: seq<ListHead>, ghost after: seq<seq<ListHead>>)
    requires AllRings(rings, heads) && c < |rings| && heads[c] == head && Placed(rings, place) && list !in place
    requires forall x :: x in place ==> slot(x) < |rings|
    modifies list, place.Keys
    ensures rings[c] != [] && visited == rings[c][1..]
    ensures forall j :: 0 <= j < |visited| ==> slot(visited[j]) < |rings|
    ensures after == Dealt(rings[c := [head]], visited, slot, |visited|) && AllRings(after, heads)
  {
    hide AllRings, Placed, Leads, Dealt, IsRing, Distinct;
    Start(heads, rings, place, c);
    ghost var nodes := rings[c][1..];
    TakeOver(head, list, heads, rings, place, c);
    visited, after := Walk(list, heads, slot, nodes, rings[c := [head]], place - (set x | x in nodes));
  }

  lemma Start(heads: seq<ListHead>, rings: seq<seq<ListHead>>, place: map<ListHead, nat>, c: nat)
    requires AllRings(rings, heads) && c < |rings| && Placed(rings, place)
    ensures rings[c] != [] && rings[c][0] == heads[c] && forall j :: 0 <= j < |rings[c]| ==> rings[c][j] in place
    ensures var nodes := rings[c][1..];
            && (forall j :: 0 <= j < |nodes| ==> nodes[j] in place) && Distinct(nodes)
            && Placed(rings[c := [rings[c][0]]], place - (set x | x in nodes))
  {
    NodesOf(rings, place, c);
  }

  lemma WalkStart(nodes: seq<ListHead>, list: ListHead, pos: ListHead, n: ListHead?,
                  heads: seq<ListHead>, rings: seq<seq<ListHead>>, place: map<ListHead, nat>)
    requires pos == NodeAt(nodes, 0, list) && n == pos.next && Leads(nodes, 0, list) && Distinct(nodes)
    requires list !in nodes
    requires Placed(rings, place) && AllRings(rings, heads) && forall j :: 0 <= j < |nodes| ==> nodes[j] !in place
    ensures Walking(nodes, 0, list, pos, n, heads, rings, place)
  {
  }

  lemma WalkAt(nodes: seq<ListHead>, i: nat, list: ListHead, pos: ListHead, n: ListHead?,
               heads: seq<ListHead>, rings: seq<seq<ListHead>>, place: map<ListHead, nat>)
    requires Walking(nodes, i, list, pos, n, heads, rings, place)
    ensures AllRings(rings, heads) && Placed(rings, place) && (pos == list <==> i == |nodes|)
    ensures i < |nodes| ==> pos == nodes[i]
  {
  }

  lemma DealtNone(rings: seq<seq<ListHead>>, nodes: seq<ListHead>, slot: ListHead -> nat)
    requires forall j :: 0 <= j < |nodes| ==> slot(nodes[j]) < |rings|
    ensures Dealt(rings, nodes, slot, 0) == rings
  {
  }

  lemma DealtStep(rings: seq<seq<ListHead>>, nodes: seq<ListHead>, slot: ListHead -> nat, n: nat)
    requires n < |nodes| && forall j :: 0 <= j < |nodes| ==> slot(nodes[j]) < |rings|
    ensures var m, k := Dealt(rings, nodes, slot, n), slot(nodes[n]);
            Dealt(rings, nodes, slot, n + 1) == m[k := m[k] + [nodes[n]]]
  {
  }

  lemma InWhere(rings: seq<seq<ListHead>>, place: map<ListHead, nat>, k: nat)
    requires Placed(rings, place) && k < |rings|
    ensures forall j :: 0 <= j < |rings[k]| ==> rings[k][j] in place
  {
  }
}
