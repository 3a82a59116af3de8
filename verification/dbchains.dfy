/** The chains of the index file: the free list and the hash chains, linked through record offsets. */
module DbChains {
  import opened Basics
  import opened DbLayout

  /** chains[c] lists the records of chain c by number, in chain order; chain 0 is the free list. home[i] is the
      chain that record i is on, or LIMBO while it is being moved from one to another. */
  datatype Layout = Layout(heads: seq<nat>, recs: seq<Rec>, chains: seq<seq<nat>>, home: seq<nat>)

  const LIMBO: nat := NHEADS

  ghost predicate NoRepeats(s: seq<nat>) {
    forall i, j :: 0 <= i < j < |s| ==> s[i] != s[j]
  }

  ghost predicate Below(s: seq<nat>, n: nat) {
    forall k :: 0 <= k < |s| ==> s[k] < n
  }

  /** The offset that points at the k-th record of a chain; 0 ends the chain. */
  ghost function PtrTo(recs: seq<Rec>, chain: seq<nat>, k: nat): (p: nat)
    requires Below(chain, |recs|)
  {
    if k < |chain| then Off(recs, chain[k]) else 0
  }

  /** The k-th pointer cell of chain c: the head, or the pointer field of the record before. */
  ghost function Cell(heads: seq<nat>, recs: seq<Rec>, chain: seq<nat>, c: nat, k: nat): (p: nat)
    requires c < |heads| && Below(chain, |recs|) && k <= |chain|
  {
    if k == 0 then heads[c] else recs[chain[k - 1]].ptr
  }

  /** Where that cell is in the index file. */
  ghost function CellOff(recs: seq<Rec>, chain: seq<nat>, c: nat, k: nat): (o: nat)
    requires Below(chain, |recs|) && k <= |chain|
  {
    if k == 0 then 7 * c else Off(recs, chain[k - 1])
  }

  ghost predicate ChainOk(heads: seq<nat>, recs: seq<Rec>, chain: seq<nat>, c: nat) {
    && c < |heads| && Below(chain, |recs|) && NoRepeats(chain)
    && forall k :: 0 <= k <= |chain| ==> Cell(heads, recs, chain, c, k) == PtrTo(recs, chain, k)
  }

  /** Every record is on the chain that is its home, and on no other. */
  ghost predicate HomesOk(n: nat, chains: seq<seq<nat>>, home: seq<nat>) {
    && |home| == n && (forall i :: 0 <= i < n ==> home[i] <= LIMBO)
    && forall c, i {:trigger i in chains[c]} :: 0 <= c < |chains| ==> (i in chains[c] <==> 0 <= i < n && home[i] == c)
  }

  ghost predicate Linked(l: Layout) {
    && |l.heads| == |l.chains| == NHEADS && HomesOk(|l.recs|, l.chains, l.home)
    && forall c :: 0 <= c < NHEADS ==> ChainOk(l.heads, l.recs, l.chains[c], c)
  }

  ghost function SetCell(l: Layout, c: nat, k: nat, v: nat): (r: Layout)
    requires Linked(l) && c < NHEADS && k <= |l.chains[c]|
  {
    if k == 0 then l.(heads := l.heads[c := v])
    else var i := l.chains[c][k - 1]; l.(recs := l.recs[i := l.recs[i].(ptr := v)])
  }

  function RemoveAt(s: seq<nat>, k: nat): (r: seq<nat>)
    requires k < |s|
    ensures |r| == |s| - 1
  {
    seq(|s| - 1, j requires 0 <= j < |s| - 1 => if j < k then s[j] else s[j + 1])
  }

  function Prepend(s: seq<nat>, i: nat): (r: seq<nat>)
    ensures |r| == |s| + 1
  {
    seq(|s| + 1, j requires 0 <= j < |s| + 1 => if j == 0 then i else s[j - 1])
  }

  /** Take the k-th record of chain c off the chain: the cell that pointed at it gets its pointer. */
  ghost function Unlink(l: Layout, c: nat, k: nat): (r: Layout)
    requires Linked(l) && c < NHEADS && k < |l.chains[c]|
  {
    var i := l.chains[c][k];
    var m := SetCell(l, c, k, l.recs[i].ptr);
    m.(chains := l.chains[c := RemoveAt(l.chains[c], k)], home := l.home[i := LIMBO])
  }

  /** Put record i, now with this key, at the front of chain c. */
  ghost function Push(l: Layout, c: nat, i: nat, key: seq<byte>): (r: Layout)
    requires Linked(l) && c < NHEADS && i < |l.recs|
  {
    Layout(l.heads[c := Off(l.recs, i)],
           l.recs[i := l.recs[i].(ptr := l.heads[c], key := key)],
           l.chains[c := Prepend(l.chains[c], i)],
           l.home[i := c])
  }

  /** Put a new record at the front of chain c. */
  ghost function Append(l: Layout, c: nat, key: seq<byte>, datoff: nat, datlen: nat): (r: Layout)
    requires Linked(l) && c < NHEADS
  {
    Layout(l.heads[c := Off(l.recs, |l.recs|)],
           l.recs + [Rec(l.heads[c], key, datoff, datlen)],
           l.chains[c := Prepend(l.chains[c], |l.recs|)],
           l.home + [c])
  }

  ghost predicate SameOffsets(recs: seq<Rec>, recs': seq<Rec>) {
    |recs'| >= |recs| && forall i :: 0 <= i <= |recs| ==> Off(recs', i) == Off(recs, i)
  }

  lemma PtrUpdateOffsets(recs: seq<Rec>, i: nat, r: Rec)
    requires i < |recs| && EncLen(r) == EncLen(recs[i])
    ensures SameOffsets(recs, recs[i := r])
  {
    hide EncLen, Off;
    forall k | 0 <= k <= |recs|
      ensures Off(recs[i := r], k) == Off(recs, k)
    {
      OffUpdated(recs, i, r, k);
    }
  }

  /** A chain none of whose cells has changed is still in order. */
  lemma OtherChain(heads: seq<nat>, recs: seq<Rec>, heads': seq<nat>, recs': seq<Rec>, chain: seq<nat>, c: nat)
    requires ChainOk(heads, recs, chain, c) && SameOffsets(recs, recs') && |heads'| == |heads| && heads'[c] == heads[c]
    requires forall i :: 0 <= i < |recs| && i in chain ==> recs'[i].ptr == recs[i].ptr
    ensures ChainOk(heads', recs', chain, c)
  {
    hide Off;
    forall k | 0 <= k <= |chain|
      ensures Cell(heads', recs', chain, c, k) == PtrTo(recs', chain, k)
    {
      assert Cell(heads, recs, chain, c, k) == PtrTo(recs, chain, k);
    }
  }

  lemma RemoveAtElements(s: seq<nat>, k: nat)
    requires k < |s| && NoRepeats(s)
    ensures NoRepeats(RemoveAt(s, k))
    ensures forall x :: x in RemoveAt(s, k) <==> x in s && x != s[k]
  {
    forall x | x in s && x != s[k]
      ensures x in RemoveAt(s, k)
    {
      var j :| 0 <= j < |s| && s[j] == x;
      assert RemoveAt(s, k)[if j < k then j else j - 1] == x;
    }
  }

  lemma PrependElements(s: seq<nat>, i: nat)
    requires NoRepeats(s) && i !in s
    ensures NoRepeats(Prepend(s, i))
    ensures forall x :: x in Prepend(s, i) <==> x in s || x == i
  {
    assert Prepend(s, i)[0] == i;
    forall x | x in s
      ensures x in Prepend(s, i)
    {
      var j :| 0 <= j < |s| && s[j] == x;
      assert Prepend(s, i)[j + 1] == x;
    }
  }

  lemma PtrKeepsLength(r: Rec, v: nat)
    ensures EncLen(r.(ptr := v)) == EncLen(r)
  {
  }

  lemma SetCellOffsets(l: Layout, c: nat, k: nat, v: nat)
    requires Linked(l) && c < NHEADS && k <= |l.chains[c]|
    ensures SameOffsets(l.recs, SetCell(l, c, k, v).recs)
  {
    hide EncLen, Off;
    if k > 0 {
      var i := l.chains[c][k - 1];
      PtrKeepsLength(l.recs[i], v);
      PtrUpdateOffsets(l.recs, i, l.recs[i].(ptr := v));
    }
  }

  /** The chain that lost its k-th record. */
  lemma UnlinkedChain(l: Layout, c: nat, k: nat)
    requires Linked(l) && c < NHEADS && k < |l.chains[c]|
    ensures var m := Unlink(l, c, k); ChainOk(m.heads, m.recs, m.chains[c], c)
  {
    hide Off;
    var chain := l.chains[c];
    var m := Unlink(l, c, k);
    var chain' := m.chains[c];
    RemoveAtElements(chain, k);
    SetCellOffsets(l, c, k, l.recs[chain[k]].ptr);
    assert ChainOk(l.heads, l.recs, chain, c);
    forall j | 0 <= j <= |chain'|
      ensures Cell(m.heads, m.recs, chain', c, j) == PtrTo(m.recs, chain', j)
    {
      assert Cell(l.heads, l.recs, chain, c, j) == PtrTo(l.recs, chain, j);
      assert Cell(l.heads, l.recs, chain, c, j + 1) == PtrTo(l.recs, chain, j + 1);
    }
  }

  /** The other chains after one of chain c's cells was set. */
  lemma SetCellOthers(l: Layout, c: nat, k: nat, v: nat, d: nat)
    requires Linked(l) && c < NHEADS && k <= |l.chains[c]| && d < NHEADS && d != c
    ensures var m := SetCell(l, c, k, v); ChainOk(m.heads, m.recs, l.chains[d], d)
  {
    hide Off;
    var m := SetCell(l, c, k, v);
    SetCellOffsets(l, c, k, v);
    if k > 0 {
      assert l.chains[c][k - 1] in l.chains[c];
      assert l.chains[c][k - 1] !in l.chains[d];
    }
    OtherChain(l.heads, l.recs, m.heads, m.recs, l.chains[d], d);
  }

  /** Taking a record off its chain leaves every other record on exactly one chain. */
  lemma UnlinkKeeps(l: Layout, c: nat, k: nat)
    requires Linked(l) && c < NHEADS && k < |l.chains[c]|
    ensures Linked(Unlink(l, c, k)) && SameOffsets(l.recs, Unlink(l, c, k).recs)
  {
    hide ChainOk, Off;
    ChainNoRepeats(l, c);
    var m := Unlink(l, c, k);
    var i := l.chains[c][k];
    SetCellOffsets(l, c, k, l.recs[i].ptr);
    UnlinkedChain(l, c, k);
    RemoveAtElements(l.chains[c], k);
    assert i in l.chains[c];
    forall d | 0 <= d < NHEADS
      ensures ChainOk(m.heads, m.recs, m.chains[d], d)
    {
      if d != c {
        SetCellOthers(l, c, k, l.recs[i].ptr, d);
      }
    }
  }

  lemma ChainNoRepeats(l: Layout, c: nat)
    requires Linked(l) && c < NHEADS
    ensures NoRepeats(l.chains[c]) && Below(l.chains[c], |l.recs|)
  {
    assert ChainOk(l.heads, l.recs, l.chains[c], c);
  }

  /** The chain that got a record at its front: the record's own pointer is the old head. */
  lemma FrontChain(heads: seq<nat>, recs: seq<Rec>, chain: seq<nat>, c: nat, heads': seq<nat>, recs': seq<Rec>, i: nat)
    requires ChainOk(heads, recs, chain, c) && SameOffsets(recs, recs') && i < |recs'| && i !in chain
    requires |heads'| == |heads| && heads'[c] == Off(recs', i) && recs'[i].ptr == heads[c]
    requires forall j :: 0 <= j < |recs| && j != i ==> recs'[j].ptr == recs[j].ptr
    ensures ChainOk(heads', recs', Prepend(chain, i), c)
  {
    hide Off;
    var chain' := Prepend(chain, i);
    PrependElements(chain, i);
    forall k | 0 <= k <= |chain'|
      ensures Cell(heads', recs', chain', c, k) == PtrTo(recs', chain', k)
    {
      if k > 0 {
        assert Cell(heads, recs, chain, c, k - 1) == PtrTo(recs, chain, k - 1);
        if k > 1 {
          assert chain[k - 2] in chain;
        }
      }
    }
  }

  /** Putting a record that is on no chain at the front of one. */
  lemma PushKeeps(l: Layout, c: nat, i: nat, key: seq<byte>)
    requires Linked(l) && c < NHEADS && i < |l.recs| && l.home[i] == LIMBO && |key| == |l.recs[i].key|
    ensures Linked(Push(l, c, i, key)) && SameOffsets(l.recs, Push(l, c, i, key).recs)
  {
    hide ChainOk, Off;
    var m := Push(l, c, i, key);
    PtrUpdateOffsets(l.recs, i, m.recs[i]);
    ChainNoRepeats(l, c);
    PrependElements(l.chains[c], i);
    forall d | 0 <= d < NHEADS
      ensures ChainOk(m.heads, m.recs, m.chains[d], d)
    {
      assert i !in l.chains[d];
      if d == c {
        FrontChain(l.heads, l.recs, l.chains[c], c, m.heads, m.recs, i);
      } else {
        OtherChain(l.heads, l.recs, m.heads, m.recs, l.chains[d], d);
      }
    }
  }

  lemma AppendOffsets(recs: seq<Rec>, r: Rec)
    ensures SameOffsets(recs, recs + [r])
  {
    hide Off;
    forall k | 0 <= k <= |recs|
      ensures Off(recs + [r], k) == Off(recs, k)
    {
      OffAppended(recs, r, k);
    }
  }

  /** Putting a new record at the front of a chain. */
  lemma AppendKeeps(l: Layout, c: nat, key: seq<byte>, datoff: nat, datlen: nat)
    requires Linked(l) && c < NHEADS
    ensures Linked(Append(l, c, key, datoff, datlen))
    ensures SameOffsets(l.recs, Append(l, c, key, datoff, datlen).recs)
  {
    hide ChainOk, Off;
    var n := |l.recs|;
    var m := Append(l, c, key, datoff, datlen);
    AppendOffsets(l.recs, m.recs[n]);
    ChainNoRepeats(l, c);
    PrependElements(l.chains[c], n);
    forall d | 0 <= d < NHEADS
      ensures ChainOk(m.heads, m.recs, m.chains[d], d)
    {
      assert n !in l.chains[d];
      if d == c {
        FrontChain(l.heads, l.recs, l.chains[c], c, m.heads, m.recs, n);
      } else {
        OtherChain(l.heads, l.recs, m.heads, m.recs, l.chains[d], d);
      }
    }
  }
}
