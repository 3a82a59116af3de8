/** What the processes keep: every record is on one chain or in one process's hand, and the chains spell out the
    map. */
module DbLocksInv {
  import opened DbFormat
  import opened DbLayout
  import opened DbChains
  import opened DbLocks
  import Database

  // ---------- classes of places

  /** The process stands at a record of its chain, or at the end of the chain. */
  predicate OnChain(pc: Pc) {
    Walking(pc) || pc.Found? || pc.DelLock? || pc.DelDat?
  }

  predicate Walking(pc: Pc) {
    pc.Walk? || pc.WalkBody?
  }

  predicate OnFree(pc: Pc) {
    pc.FreeWalk? || pc.FreeBody? || pc.FreeTake?
  }

  /** The deleted record is off its chain but for the pointer that still has to be rewritten. */
  predicate Pending(pc: Pc) {
    pc.DelReadFree? || pc.DelIdx? || pc.DelFree? || pc.DelLink?
  }

  /** The process has a record in hand. */
  predicate InHand(a: Proc) {
    || a.pc.DelReadFree? || a.pc.DelIdx? || a.pc.DelFree? || a.pc.ReuseDat? || a.pc.ReuseIdx?
    || a.pc.IdxUnlock? || a.pc.Link? || (a.pc.FreeUnlock? && a.cur.To?)
  }

  /** ... which is still as it was on the free list. */
  predicate Reusing(a: Proc) {
    a.pc.ReuseDat? || a.pc.ReuseIdx? || (a.pc.FreeUnlock? && a.cur.To?)
  }

  /** ... which is complete but for the head of the chain. */
  predicate Publishing(a: Proc) {
    a.pc.IdxUnlock? || a.pc.Link?
  }

  /** The process has a data record in hand. */
  predicate DatInHand(pc: Pc) {
    pc.DatUnlock? || pc.IdxLock? || pc.IdxSeek? || pc.IdxAppend?
  }

  /** The key is on no chain, and the process is about to put it there or has just taken it off. */
  predicate KeyOff(pc: Pc) {
    HoldsChain(pc) && !(pc.ReadHead? || Walking(pc) || pc.Found? || pc.DelLock? || pc.DelDat? || pc.Unlock?)
  }

  predicate HasPtr(pc: Pc) {
    KeyOff(pc) && !Deleting(pc) && !pc.StoreHead?
  }

  /** db_store has taken the old record off and has not put the new one on. */
  predicate Midway(a: Proc) {
    KeyOff(a.pc) && a.op.StoreOp? && a.found
  }

  // ---------- the shape

  function PtrAt(list: seq<nat>, i: nat): (p: Ptr) {
    if i < |list| then To(list[i]) else Nil
  }

  function CellOf(list: seq<nat>, c: nat, i: nat): (cell: PtrCell) {
    if 0 < i <= |list| then Next(list[i - 1]) else Head(c)
  }

  ghost predicate LinkOk(f: Files, lists: seq<seq<nat>>, c: nat, i: nat)
    requires c < |lists|
  {
    CellAt(f, CellOf(lists[c], c, i)) == PtrAt(lists[c], i)
  }

  /** A process is about to rewrite this cell. */
  ghost predicate Held(procs: seq<Proc>, c: nat, i: nat) {
    exists p :: 0 <= p < |procs| && PendingAt(procs[p], c, i)
  }

  predicate PendingAt(a: Proc, c: nat, i: nat) {
    Pending(a.pc) && ChainOf(a.op.key) == c && a.pos == i
  }

  ghost predicate LinksOk(s: State)
    requires |s.g.lists| == NHEADS
  {
    forall c, i {:trigger LinkOk(s.f, s.g.lists, c, i)} ::
      0 <= c < NHEADS && 0 <= i <= |s.g.lists[c]| ==> LinkOk(s.f, s.g.lists, c, i) || Held(s.procs, c, i)
  }

  ghost predicate ListsOk(s: State) {
    && |s.f.heads| == |s.g.lists| == NHEADS
    && HomesOk(|s.f.recs|, s.g.lists, s.g.home)
    && (forall c :: 0 <= c < NHEADS ==> NoRepeats(s.g.lists[c]) && Below(s.g.lists[c], |s.f.recs|))
  }

  /** A record on no chain is in the hand of a process. */
  ghost predicate HandsOk(s: State) {
    && |s.g.holder| == |s.f.recs| == |s.g.home|
    && forall r :: 0 <= r < |s.f.recs| && s.g.home[r] == LIMBO ==>
         s.g.holder[r] < |s.procs| && InHand(s.procs[s.g.holder[r]]) && s.procs[s.g.holder[r]].cur == To(r)
  }

  /** Records are on the chains of their keys, and blank on the free list. */
  ghost predicate KeysOk(s: State) {
    && |s.f.recs| == |s.g.home|
    && (forall r :: 0 <= r < |s.f.recs| && 0 < s.g.home[r] < LIMBO ==>
          var k := s.f.recs[r].key; s.g.home[r] == ChainOf(k) && k in s.g.at && s.g.at[k] == r)
    && (forall r :: 0 <= r < |s.f.recs| && s.g.home[r] == FREE ==> Database.IsBlankKey(s.f.recs[r].key))
    && (forall k :: k in s.g.at ==>
          var r := s.g.at[k]; r < |s.f.recs| && s.f.recs[r].key == k && s.g.home[r] == ChainOf(k))
  }

  /** Every record has a data record of its own, of the length that it says. */
  ghost predicate DatsOk(s: State) {
    && |s.g.owner| == |s.f.dats|
    && forall r :: 0 <= r < |s.f.recs| ==>
         var d := s.f.recs[r].dat;
         d < |s.f.dats| && s.g.owner[d] == OfRec(r) && |s.f.dats[d]| + 1 == s.f.recs[r].len
  }

  /** The chains spell out the map, but for a key that db_store has midway. */
  ghost predicate MeaningOk(s: State) {
    && (forall k :: k in s.g.at ==>
          k in s.contents && s.contents[k] == DatAt(s.f, RecAt(s.f, To(s.g.at[k])).dat))
    && AllStored(s)
  }

  ghost predicate SomeMidway(procs: seq<Proc>, k: Key) {
    exists p :: 0 <= p < |procs| && MidwayAt(procs[p], k)
  }

  predicate MidwayAt(a: Proc, k: Key) {
    Midway(a) && a.op.key == k
  }

  // ---------- a process

  ghost predicate Stands(f: Files, list: seq<nat>, c: nat, a: Proc) {
    a.pos <= |list| && a.cell == CellOf(list, c, a.pos) && a.cur == PtrAt(list, a.pos)
  }

  /** The walk along the chain. */
  ghost predicate WalkOk(s: State, a: Proc)
    requires |s.g.lists| == NHEADS
  {
    var c := ChainOf(a.op.key);
    var list := s.g.lists[c];
    && (OnChain(a.pc) ==>
          && Stands(s.f, list, c, a)
          && forall j :: 0 <= j < a.pos ==> RecAt(s.f, To(list[j])).key != a.op.key)
    && (a.pc.WalkBody? ==> a.cur.To? && RecAt(s.f, a.cur).next == a.next)
    && (OnChain(a.pc) && !Walking(a.pc) ==>
          a.cur.To? && a.found && RecAt(s.f, a.cur) == IdxRec(a.next, a.op.key, a.dat, a.len))
    && (Pending(a.pc) ==> a.pos <= |list| && a.cell == CellOf(list, c, a.pos) && a.next == PtrAt(list, a.pos))
    && (KeyOff(a.pc) ==> a.op.key !in s.g.at)
    && (HasPtr(a.pc) ==> a.ptr == PtrAt(list, 0))
    && (Midway(a) ==> a.op.key in s.contents)
  }

  /** None of the first n records of the list has the lengths that the operation needs. */
  ghost predicate NoneFits(f: Files, list: seq<nat>, n: nat, op: Op) {
    forall j {:trigger list[j]} :: 0 <= j < n && j < |list| ==> !Fits(RecAt(f, To(list[j])), op)
  }

  lemma NoneFitsSame(s: State, s': State, n: nat, op: Op)
    requires |s.g.lists| == |s'.g.lists| == NHEADS && SameList(s, s', FREE) && NoneFits(s.f, s.g.lists[FREE], n, op)
    ensures NoneFits(s'.f, s'.g.lists[FREE], n, op)
  {
    var list := s.g.lists[FREE];
    forall j | 0 <= j < n && j < |list|
      ensures !Fits(RecAt(s'.f, To(list[j])), op)
    {
      assert list[j] in list;
    }
  }

  /** The walk along the free list. */
  ghost predicate FreeOk(s: State, a: Proc)
    requires |s.g.lists| == NHEADS
  {
    && (OnFree(a.pc) ==> Stands(s.f, s.g.lists[FREE], FREE, a) && NoneFits(s.f, s.g.lists[FREE], a.pos, a.op))
    && (a.pc.FreeUnlock? && a.cur.Nil? ==> NoneFits(s.f, s.g.lists[FREE], |s.g.lists[FREE]|, a.op))
    && (a.pc.FreeBody? ==> a.cur.To? && RecAt(s.f, a.cur).next == a.next)
    && (a.pc.FreeTake? ==>
          var r := RecAt(s.f, a.cur);
          a.cur.To? && r.next == a.next && r.dat == a.dat && r.len == a.len
          && |r.key| == |a.op.key| && r.len == |DataOf(a.op)| + 1)
    && (a.pc.DelIdx? || a.pc.DelFree? ==> a.ptr == PtrAt(s.g.lists[FREE], 0))
  }

  /** What the process has in hand. */
  ghost predicate HandOk(s: State, p: Pid, a: Proc) {
    && (InHand(a) ==>
          && a.cur.To? && a.cur.r < |s.f.recs| && a.cur.r < |s.g.home| && a.cur.r < |s.g.holder|
          && s.g.home[a.cur.r] == LIMBO && s.g.holder[a.cur.r] == p
          && s.f.recs[a.cur.r].dat == a.dat
          && (!Publishing(a) ==> s.f.recs[a.cur.r].len == a.len))
    && (a.pc.DelReadFree? || a.pc.DelIdx? ==> s.f.recs[a.cur.r].key == a.op.key)
    && (a.pc.DelFree? ==> s.f.recs[a.cur.r].next == a.ptr && s.f.recs[a.cur.r].key == Blanks(|a.op.key|))
    && (Reusing(a) ==>
          var r := s.f.recs[a.cur.r];
          Database.IsBlankKey(r.key) && |r.key| == |a.op.key| && r.len == |DataOf(a.op)| + 1)
    && (Publishing(a) ==> s.f.recs[a.cur.r] == NewRec(a))
    && (a.pc.ReuseIdx? || Publishing(a) ==> DatAt(s.f, a.dat) == DataOf(a.op))
    && (DatInHand(a.pc) ==>
          a.dat < |s.f.dats| && a.dat < |s.g.owner| && s.g.owner[a.dat] == OfProc(p) && s.f.dats[a.dat] == DataOf(a.op))
  }

  /** The process is where its operation takes it. */
  predicate OpOk(a: Proc) {
    && (a.op.StoreOp? ==> !a.op.flag.OtherFlag?)
    && (a.op.FetchOp? ==> !KeyOff(a.pc) && !a.pc.DelLock? && !a.pc.DelDat?)
    && (a.op.DeleteOp? ==> KeyOff(a.pc) ==> Deleting(a.pc))
    && (a.op.StoreOp? && (a.pc.DelLock? || Deleting(a.pc)) ==> a.found && !a.op.flag.Insert?)
    && (a.op.StoreOp? && KeyOff(a.pc) ==> if a.found then !a.op.flag.Insert? else !a.op.flag.Replace?)
  }

  /** A record that db_nextrec has read is not rewritten before its data is read. */
  ghost predicate ScanOk(s: State, a: Proc) {
    a.pc.ScanDat? ==>
      && a.pos < |s.f.recs| && s.f.recs[a.pos].key == a.seen && s.f.recs[a.pos].dat == a.dat
      && !Database.IsBlankKey(a.seen)
  }

  /** Where a process is about to append is still the end of the file. */
  ghost predicate SeekOk(s: State, a: Proc) {
    (a.pc.DatAppend? ==> a.dat == |s.f.dats|) && (a.pc.IdxAppend? ==> a.cur == To(|s.f.recs|))
  }

  ghost predicate ProcOk(s: State, p: Pid)
    requires p < |s.procs| && |s.g.lists| == NHEADS
  {
    var a := s.procs[p];
    OpOk(a) && WalkOk(s, a) && FreeOk(s, a) && HandOk(s, p, a) && ScanOk(s, a) && SeekOk(s, a)
  }

  ghost predicate Exclusive(procs: seq<Proc>) {
    forall p, q :: 0 <= p < |procs| && 0 <= q < |procs| && p != q ==> !Conflict(procs[p], procs[q])
  }

  ghost predicate Explained(s: State) {
    Database.MapRun(map[], s.ops) == (s.contents, s.replies)
  }

  ghost predicate Inv(s: State) {
    && ListsOk(s) && LinksOk(s) && HandsOk(s) && KeysOk(s) && DatsOk(s) && MeaningOk(s) && Exclusive(s.procs)
    && Explained(s)
    && forall p :: 0 <= p < |s.procs| ==> ProcOk(s, p)
  }

  // ---------- what one process leaves to the others

  /** A step of one process has left what another relies on. */
  ghost predicate View(s: State, s': State, q: Pid)
    requires q < |s.procs| == |s'.procs| && |s.g.lists| == |s'.g.lists| == NHEADS
  {
    var a := s.procs[q];
    var c := ChainOf(a.op.key);
    && s'.procs[q] == a
    && (HoldsChain(a.pc) ==>
          && SameList(s, s', c)
          && (a.op.key in s.g.at <==> a.op.key in s'.g.at) && (a.op.key in s.contents ==> a.op.key in s'.contents))
    && (WritesFree(a.pc) ==> SameList(s, s', FREE))
    && (AppendsDat(a.pc) ==> |s'.f.dats| == |s.f.dats|) && (AppendsIdx(a.pc) ==> |s'.f.recs| == |s.f.recs|)
    && (InHand(a) && a.cur.To? ==>
          RecAt(s'.f, a.cur) == RecAt(s.f, a.cur) && a.cur.r < |s'.f.recs| && a.cur.r < |s'.g.home| && a.cur.r < |s'.g.holder|
          && (a.cur.r < |s.g.home| ==> s'.g.home[a.cur.r] == s.g.home[a.cur.r])
          && (a.cur.r < |s.g.holder| ==> s'.g.holder[a.cur.r] == s.g.holder[a.cur.r]))
    && (a.pc.ReuseIdx? || Publishing(a) || DatInHand(a.pc) ==> DatAt(s'.f, a.dat) == DatAt(s.f, a.dat))
    && (DatInHand(a.pc) ==>
          && a.dat < |s'.f.dats| && a.dat < |s'.g.owner|
          && (a.dat < |s.g.owner| ==> s'.g.owner[a.dat] == s.g.owner[a.dat]))
    && (a.pc.ScanDat? && a.pos < |s.f.recs| && !Database.IsBlankKey(s.f.recs[a.pos].key) ==>
          a.pos < |s'.f.recs| && s'.f.recs[a.pos].key == s.f.recs[a.pos].key && s'.f.recs[a.pos].dat == s.f.recs[a.pos].dat)
  }

  ghost predicate SameList(s: State, s': State, c: nat)
    requires c < |s.g.lists| == |s'.g.lists|
  {
    && s'.g.lists[c] == s.g.lists[c]
    && forall r {:trigger RecAt(s'.f, To(r))} :: r in s.g.lists[c] ==> RecAt(s'.f, To(r)) == RecAt(s.f, To(r))
  }

  lemma ViewFree(s: State, s': State, q: Pid)
    requires q < |s.procs| == |s'.procs| && |s.g.lists| == |s'.g.lists| == NHEADS
    requires FreeOk(s, s.procs[q]) && View(s, s', q)
    ensures FreeOk(s', s'.procs[q])
  {
    hide NoneFits;
    var a := s.procs[q];
    if OnFree(a.pc) {
      NoneFitsSame(s, s', a.pos, a.op);
    }
    if a.pc.FreeUnlock? && a.cur.Nil? {
      NoneFitsSame(s, s', |s.g.lists[FREE]|, a.op);
    }
  }

  lemma ViewKeeps(s: State, s': State, q: Pid)
    requires q < |s.procs| == |s'.procs| && |s.g.lists| == |s'.g.lists| == NHEADS
    requires ProcOk(s, q) && View(s, s', q)
    ensures ProcOk(s', q)
  {
    hide FreeOk;
    var a := s.procs[q];
    var c := ChainOf(a.op.key);
    ViewFree(s, s', q);
    if OnChain(a.pc) {
      forall j | 0 <= j < a.pos
        ensures RecAt(s'.f, To(s'.g.lists[c][j])).key != a.op.key
      {
        assert s.g.lists[c][j] in s.g.lists[c];
      }
    }
  }

  /** The processes other than p are as they were. */
  ghost predicate OnlyMover(s: State, s': State, p: Pid) {
    |s.procs| == |s'.procs| && p < |s.procs| && forall q :: 0 <= q < |s.procs| && q != p ==> s'.procs[q] == s.procs[q]
  }

  lemma HeldKept(s: State, s': State, p: Pid, c: nat, i: nat)
    requires OnlyMover(s, s', p) && Held(s.procs, c, i)
    requires PendingAt(s.procs[p], c, i) ==> PendingAt(s'.procs[p], c, i)
    ensures Held(s'.procs, c, i)
  {
    var q :| 0 <= q < |s.procs| && PendingAt(s.procs[q], c, i);
    assert PendingAt(s'.procs[q], c, i);
  }

  lemma MidwayKept(s: State, s': State, p: Pid, k: Key)
    requires OnlyMover(s, s', p) && SomeMidway(s.procs, k)
    requires MidwayAt(s.procs[p], k) ==> MidwayAt(s'.procs[p], k)
    ensures SomeMidway(s'.procs, k)
  {
    var q :| 0 <= q < |s.procs| && MidwayAt(s.procs[q], k);
    assert MidwayAt(s'.procs[q], k);
  }

  /** Every key of the map is on a chain or midway. */
  ghost predicate AllStored(s: State) {
    forall k :: k in s.contents ==> k in s.g.at || SomeMidway(s.procs, k)
  }

  lemma AllStoredKept(s: State, s': State, p: Pid)
    requires OnlyMover(s, s', p) && AllStored(s) && s'.contents == s.contents && s'.g.at == s.g.at
    requires Midway(s.procs[p]) ==> Midway(s'.procs[p]) && s'.procs[p].op == s.procs[p].op
    ensures AllStored(s')
  {
    hide Midway;
    forall k | k in s'.contents
      ensures k in s'.g.at || SomeMidway(s'.procs, k)
    {
      if k !in s.g.at {
        MidwayKept(s, s', p, k);
      }
    }
  }

  /** Nobody else rewrites a pointer of a chain that the process has locked, nor one of the free list. */
  lemma NotHeld(s: State, p: Pid, c: nat, i: nat)
    requires Exclusive(s.procs) && p < |s.procs| && HoldsChain(s.procs[p].pc)
    requires forall q :: 0 <= q < |s.procs| ==> OpOk(s.procs[q])
    requires c == FREE || (c == ChainOf(s.procs[p].op.key) && !Pending(s.procs[p].pc))
    ensures !Held(s.procs, c, i)
  {
    forall q | 0 <= q < |s.procs|
      ensures !PendingAt(s.procs[q], c, i)
    {
      assert q != p ==> !Conflict(s.procs[p], s.procs[q]);
    }
  }

  /** ... nor has it a key of that chain midway. */
  lemma NotMidway(s: State, p: Pid)
    requires Exclusive(s.procs) && p < |s.procs| && HoldsChain(s.procs[p].pc) && !Midway(s.procs[p])
    ensures !SomeMidway(s.procs, s.procs[p].op.key)
  {
    forall q | 0 <= q < |s.procs|
      ensures !MidwayAt(s.procs[q], s.procs[p].op.key)
    {
      assert q != p ==> !Conflict(s.procs[p], s.procs[q]);
    }
  }

  /** The links of a chain whose cells have not been written. */
  lemma LinksFrame(s: State, s': State, c: nat, i: nat)
    requires |s.g.lists| == |s'.g.lists| == NHEADS && c < NHEADS && i <= |s.g.lists[c]|
    requires s'.g.lists[c] == s.g.lists[c] && HeadAt(s'.f, c) == HeadAt(s.f, c)
    requires forall r {:trigger RecAt(s'.f, To(r))} :: r in s.g.lists[c] ==> RecAt(s'.f, To(r)).next == RecAt(s.f, To(r)).next
    ensures LinkOk(s'.f, s'.g.lists, c, i) == LinkOk(s.f, s.g.lists, c, i)
  {
    if i > 0 {
      assert s.g.lists[c][i - 1] in s.g.lists[c];
    }
  }

  // ---------- steps that change no file

  /** The process has what it had in hand, under way and midway. */
  predicate SameStage(a: Proc, a': Proc) {
    && a'.op == a.op
    && (InHand(a) ==> InHand(a') && a'.cur == a.cur)
    && (Pending(a.pc) ==> Pending(a'.pc) && a'.pos == a.pos)
    && (Midway(a) ==> Midway(a'))
  }

  lemma LocalKeeps(s: State, s': State, p: Pid)
    requires Inv(s) && OnlyMover(s, s', p) && s'.f == s.f && s'.g == s.g && s'.contents == s.contents
    requires s.procs[p].pc.Idle? || SameStage(s.procs[p], s'.procs[p])
    requires Exclusive(s'.procs) && Explained(s') && ProcOk(s', p)
    ensures Inv(s')
  {
    hide OpOk, WalkOk, FreeOk, HandOk, ScanOk, Explained, Exclusive, LinkOk, HomesOk, AllStored;
    assert LinksOk(s') by {
      forall c, i | 0 <= c < NHEADS && 0 <= i <= |s'.g.lists[c]|
        ensures LinkOk(s'.f, s'.g.lists, c, i) || Held(s'.procs, c, i)
      {
        if Held(s.procs, c, i) {
          HeldKept(s, s', p, c, i);
        }
      }
    }
    AllStoredKept(s, s', p);
    forall q | 0 <= q < |s'.procs|
      ensures ProcOk(s', q)
    {
      if q != p {
        assert ProcOk(s, q);
        SameView(s, s', q);
        ViewKeeps(s, s', q);
      }
    }
  }

  lemma SameView(s: State, s': State, q: Pid)
    requires q < |s.procs| == |s'.procs| && |s.g.lists| == NHEADS
    requires s'.f == s.f && s'.g == s.g && s'.contents == s.contents && s'.procs[q] == s.procs[q]
    requires HandOk(s, q, s.procs[q])
    ensures View(s, s', q)
  {
  }
}
