/** What holds in every run of any number of processes on one database. */
module DbLocksRuns {
  import opened DbFormat
  import opened DbLayout
  import opened DbChains
  import opened DbLocks
  import opened DbLocksInv
  import opened DbLocksSteps
  import opened DbLocksMoves
  import Database

  lemma AdvanceKeeps(s: State, p: Pid)
    requires Inv(s) && Enabled(s, Advance(p))
    ensures Inv(Apply(s, Advance(p)))
  {
    hide Inv, Apply, Blocked;
    var a := s.procs[p];
    if Quiet(a) {
      QuietKeeps(s, p);
    } else {
      match a.pc
      case Found => ReplaceKeeps(s, p);
      case DelDat => DelDatKeeps(s, p);
      case DelIdx => DelIdxKeeps(s, p);
      case DelFree => DelFreeKeeps(s, p);
      case DelLink => DelLinkKeeps(s, p);
      case FreeTake => FreeTakeKeeps(s, p);
      case ReuseDat => ReuseDatKeeps(s, p);
      case ReuseIdx => ReuseIdxKeeps(s, p);
      case DatAppend => DatAppendKeeps(s, p);
      case IdxAppend => IdxAppendKeeps(s, p);
      case Link => LinkKeeps(s, p);
    }
  }

  lemma InitialInv(n: nat)
    ensures Inv(Initial(n))
  {
    hide ChainOf;
    var s := Initial(n);
    forall c, i | 0 <= c < NHEADS && 0 <= i <= |s.g.lists[c]|
      ensures LinkOk(s.f, s.g.lists, c, i)
    {
    }
  }

  lemma {:induction false} RunKeeps(s: State, steps: seq<Step>)
    requires Inv(s) && Legal(s, steps)
    ensures Inv(Run(s, steps))
    decreases |steps|
  {
    hide Inv, Apply, Enabled;
    if steps != [] {
      if steps[0].Advance? {
        AdvanceKeeps(s, steps[0].p);
      } else {
        StartKeeps(s, steps[0]);
      }
      RunKeeps(Apply(s, steps[0]), steps[1..]);
    }
  }

  ghost predicate Reachable(s: State) {
    exists n: nat, steps :: Legal(Initial(n), steps) && Run(Initial(n), steps) == s
  }

  lemma ReachableInv(s: State)
    requires Reachable(s)
    ensures Inv(s)
  {
    var n: nat, steps :| Legal(Initial(n), steps) && Run(Initial(n), steps) == s;
    InitialInv(n);
    RunKeeps(Initial(n), steps);
  }

  // ---------- one record, one chain

  /** Following the pointers from head c gives the records of the list, each one once, and then the end. */
  ghost predicate IsChain(f: Files, c: nat, list: seq<nat>) {
    && HeadAt(f, c) == PtrAt(list, 0) && NoRepeats(list)
    && forall i :: 0 <= i < |list| ==> list[i] < |f.recs| && f.recs[list[i]].next == PtrAt(list, i + 1)
  }

  /** The chains, but for one from which a process is just deleting, are well linked; each holds the records of its
      own keys, no key twice, and the free list blank records. */
  lemma ChainsAreLists(s: State, c: nat)
    requires Reachable(s) && c < NHEADS
    requires forall p :: 0 <= p < |s.procs| && Deleting(s.procs[p].pc) ==> ChainOf(s.procs[p].op.key) != c
    ensures |s.g.lists| == NHEADS && IsChain(s.f, c, s.g.lists[c])
    ensures c != FREE ==> forall r :: r in s.g.lists[c] ==> ChainOf(s.f.recs[r].key) == c
    ensures c != FREE ==> forall q, r :: q in s.g.lists[c] && r in s.g.lists[c] && q != r ==> s.f.recs[q].key != s.f.recs[r].key
    ensures c == FREE ==> forall r :: r in s.g.lists[c] ==> Database.IsBlankKey(s.f.recs[r].key)
  {
    hide Reachable, WalkOk, FreeOk, HandOk, ScanOk, OpOk, Explained, Exclusive, MeaningOk, DatsOk, HandsOk, ChainOf,
      Database.IsBlankKey;
    ReachableInv(s);
    var list := s.g.lists[c];
    forall i | 0 <= i <= |list|
      ensures LinkOk(s.f, s.g.lists, c, i)
    {
      forall p | 0 <= p < |s.procs|
        ensures !PendingAt(s.procs[p], c, i)
      {
      }
    }
    forall i | 0 <= i < |list|
      ensures list[i] < |s.f.recs| && s.f.recs[list[i]].next == PtrAt(list, i + 1)
    {
      assert LinkOk(s.f, s.g.lists, c, i + 1);
    }
    assert LinkOk(s.f, s.g.lists, c, 0);
  }

  ghost predicate OnList(s: State, r: nat, c: nat) {
    c < |s.g.lists| && r in s.g.lists[c]
  }

  predicate InHandOf(s: State, r: nat, p: Pid) {
    p < |s.procs| && InHand(s.procs[p]) && s.procs[p].cur == To(r)
  }

  /** Every record is on one chain or in the hand of one process, and never in two places. */
  lemma OnePlace(s: State, r: nat)
    requires Reachable(s) && r < |s.f.recs|
    ensures (exists c :: OnList(s, r, c)) || (exists p :: InHandOf(s, r, p))
    ensures forall c, d :: OnList(s, r, c) && OnList(s, r, d) ==> c == d
    ensures forall p, q :: InHandOf(s, r, p) && InHandOf(s, r, q) ==> p == q
    ensures forall c, p :: OnList(s, r, c) ==> !InHandOf(s, r, p)
  {
    hide Reachable, WalkOk, FreeOk, ScanOk, OpOk, Explained, Exclusive, MeaningOk, DatsOk, KeysOk, LinksOk, InHand,
      ChainOf;
    ReachableInv(s);
    if s.g.home[r] == LIMBO {
      assert InHandOf(s, r, s.g.holder[r]);
    } else {
      assert OnList(s, r, s.g.home[r]);
    }
    forall p | InHandOf(s, r, p)
      ensures s.g.home[r] == LIMBO && s.g.holder[r] == p
    {
      assert ProcOk(s, p);
    }
  }

  // ---------- operations

  /** The operations reply, in the order in which they are decided, what they would reply on a map, and the database
      means that map. */
  lemma RepliesAreTheMaps(s: State)
    requires Reachable(s)
    ensures Database.MapRun(map[], s.ops) == (s.contents, s.replies)
  {
    hide Reachable, ListsOk, LinksOk, HandsOk, KeysOk, DatsOk, MeaningOk, ProcOk, Exclusive;
    ReachableInv(s);
  }

  /** The operation has been decided and is on its way to its return. */
  predicate Decided(a: Proc) {
    a.pc.Unlock? || (a.op.DeleteOp? && (a.pc.DelReadFree? || a.pc.DelIdx? || a.pc.DelFree? || a.pc.DelLink? || a.pc.DelUnlock?))
  }

  /** An operation is decided by one call, between its start and its return: it returns only from Unlock, where it
      has been decided, and starts undecided. */
  lemma DecidedOnce(s: State, p: Pid)
    requires Reachable(s) && Enabled(s, Advance(p)) && HoldsChain(s.procs[p].pc)
    ensures var a, s' := s.procs[p], Apply(s, Advance(p));
            && (Decides(s.f, a).Some? ==> !Decided(a) && Decided(s'.procs[p]))
            && (!Decided(a) && Decided(s'.procs[p]) ==> Decides(s.f, a).Some?)
            && (Decided(a) ==> s'.procs[p].pc.Idle? || Decided(s'.procs[p]))
            && (s'.procs[p].pc.Idle? ==> Decided(a))
            && |s'.ops| == |s'.replies| == |s.ops| + (if Decides(s.f, a).Some? then 1 else 0)
  {
    hide Reachable, ListsOk, LinksOk, HandsOk, KeysOk, DatsOk, MeaningOk, WalkOk, FreeOk, HandOk, ScanOk, Exclusive,
      Reshape, Written,
      RecAt, Fits, Database.IsBlankKey, Local, Blocked, ChainOf, Explained, Inv;
    ReachableInv(s);
    OpOkAt(s, p);
    LogLengths(s);
    SameOp(s.f, s.procs[p]);
    AdvanceIs(s, p);
  }

  lemma OpOkAt(s: State, p: Pid)
    requires Inv(s) && p < |s.procs|
    ensures OpOk(s.procs[p]) && (s.procs[p].pc.Found? ==> s.procs[p].found)
  {
    assert ProcOk(s, p);
  }

  lemma LogLengths(s: State)
    requires Inv(s)
    ensures |s.ops| == |s.replies|
  {
    hide ListsOk, LinksOk, HandsOk, KeysOk, DatsOk, MeaningOk, ProcOk, Exclusive;
  }

  /** Where no process has the chain for writing, the records on it are what the map says. */
  lemma StoredIsContents(s: State, k: Key, d: Data)
    requires Reachable(s)
    requires forall p :: 0 <= p < |s.procs| && HoldsChain(s.procs[p].pc) && IsWriter(s.procs[p].op) ==> ChainOf(s.procs[p].op.key) != ChainOf(k)
    ensures (k in s.contents && s.contents[k] == d) <==>
            exists r :: OnList(s, r, ChainOf(k)) && RecAt(s.f, To(r)).key == k && DatAt(s.f, RecAt(s.f, To(r)).dat) == d
  {
    hide Reachable, LinksOk, HandsOk, DatsOk, WalkOk, FreeOk, HandOk, ScanOk, Exclusive, Explained, ChainOf;
    ReachableInv(s);
    ChainBound(k);
    forall p | 0 <= p < |s.procs|
      ensures !MidwayAt(s.procs[p], k)
    {
      assert ProcOk(s, p);
    }
    if k in s.contents && s.contents[k] == d {
      assert OnList(s, s.g.at[k], ChainOf(k));
    }
  }

  // ---------- db_nextrec

  /** A record that db_nextrec returns is stored with that data, or is being stored with it: it is never half
      deleted. */
  lemma ScanSees(s: State, p: Pid)
    requires Reachable(s) && Enabled(s, Advance(p)) && s.procs[p].pc.ScanDat?
    ensures var a' := Apply(s, Advance(p)).procs[p];
            || (a'.seen in s.contents && s.contents[a'.seen] == a'.got)
            || exists q :: Stores(s, q, a'.seen, a'.got)
  {
    hide Reachable, Blocked, LinksOk, Explained, WalkOk, FreeOk, OpOk, HandOk, ChainOf, Reshape, Written, Decides,
      Exclusive, DatsOk,
      Apply, InHand;
    ReachableInv(s);
    AdvanceIs(s, p);
    assert ProcOk(s, p);
    var r := s.procs[p].pos;
    if s.g.home[r] == LIMBO {
      HandSeen(s, p, s.g.holder[r], r);
    }
  }

  /** A record that db_nextrec reads in a process's hand is complete. */
  lemma HandSeen(s: State, p: Pid, q: Pid, r: nat)
    requires Inv(s) && p < |s.procs| && ReadsFree(s.procs[p].pc)
    requires q < |s.procs| && InHand(s.procs[q]) && s.procs[q].cur == To(r) && r < |s.f.recs|
    requires !Database.IsBlankKey(s.f.recs[r].key)
    ensures Stores(s, q, s.f.recs[r].key, DatAt(s.f, s.f.recs[r].dat))
  {
    hide LinksOk, Explained, WalkOk, FreeOk, OpOk, ChainOf, DatsOk, KeysOk, MeaningOk, HandsOk, ListsOk, ScanOk,
      Database.IsBlankKey;
    HandFacts(s, q);
    assert p != q ==> !Conflict(s.procs[p], s.procs[q]);
    if Publishing(s.procs[q]) {
      KeepsOp(s, q);
    }
  }

  lemma HandFacts(s: State, q: Pid)
    requires Inv(s) && q < |s.procs|
    ensures HandOk(s, q, s.procs[q])
  {
    hide LinksOk, Explained, WalkOk, FreeOk, OpOk, ChainOf, DatsOk, KeysOk, MeaningOk, HandsOk, ScanOk, HandOk,
      Exclusive;
    assert ProcOk(s, q);
  }

  /** Process q is about to put the record for key k with data d on its chain. */
  predicate Stores(s: State, q: Pid, k: Key, d: Data) {
    q < |s.procs| && Publishing(s.procs[q]) && s.procs[q].op.StoreOp? && s.procs[q].op.key == k && s.procs[q].op.data == d
  }

  lemma KeepsOp(s: State, q: Pid)
    requires Inv(s) && q < |s.procs| && Publishing(s.procs[q])
    ensures s.procs[q].op.StoreOp?
  {
    hide ListsOk, LinksOk, HandsOk, KeysOk, DatsOk, MeaningOk, WalkOk, FreeOk, HandOk, ScanOk, Exclusive;
    OpOkAt(s, q);
  }

  // ---------- lengths

  /** Every record keeps the length of its key and its place and length in the data file, whatever is written. */
  ghost predicate SameSizes(f: Files, f': Files) {
    && |f'.recs| >= |f.recs| && |f'.dats| >= |f.dats|
    && (forall r :: 0 <= r < |f.recs| ==>
          |f'.recs[r].key| == |f.recs[r].key| && f'.recs[r].dat == f.recs[r].dat && f'.recs[r].len == f.recs[r].len)
    && (forall d :: 0 <= d < |f.dats| ==> |f'.dats[d]| == |f.dats[d]|)
  }

  lemma RewritesKeepLengths(s: State, p: Pid)
    requires Reachable(s) && Enabled(s, Advance(p))
    ensures SameSizes(s.f, Apply(s, Advance(p)).f)
  {
    hide Reachable, Blocked, LinksOk, Explained, Exclusive, OpOk, ChainOf, Reshape, Decides, Database.IsBlankKey,
      KeysOk, MeaningOk,
      ListsOk, FreeOk, ScanOk, HandsOk, Moved, Apply, Written, HandOk, WalkOk;
    ReachableInv(s);
    AdvanceIs(s, p);
    var a := s.procs[p];
    if a.pc.DelIdx? || a.pc.ReuseIdx? {
      RecLengths(s, p);
    } else {
      DatLengths(s, p);
    }
  }

  lemma RecLengths(s: State, p: Pid)
    requires Inv(s) && p < |s.procs| && (s.procs[p].pc.DelIdx? || s.procs[p].pc.ReuseIdx?)
    ensures SameSizes(s.f, Written(s.f, s.procs[p]))
  {
    hide LinksOk, Explained, Exclusive, OpOk, ChainOf, Database.IsBlankKey, KeysOk, MeaningOk, HandsOk, WalkOk, DatsOk,
      HomesOk;
    assert ProcOk(s, p);
    BlanksLength(|s.procs[p].op.key|);
  }

  lemma DatLengths(s: State, p: Pid)
    requires Inv(s) && p < |s.procs| && !s.procs[p].pc.DelIdx? && !s.procs[p].pc.ReuseIdx?
    ensures SameSizes(s.f, Written(s.f, s.procs[p]))
  {
    hide LinksOk, Explained, Exclusive, OpOk, ChainOf, Database.IsBlankKey, KeysOk, MeaningOk, HandsOk, HomesOk;
    assert ProcOk(s, p);
    var a := s.procs[p];
    if a.pc.Found? || a.pc.DelDat? {
      FoundStored(s, p);
    }
  }

  // ---------- no deadlock

  predicate InTheWay(pc: Pc) {
    WritesFree(pc) || ReadsFree(pc) || AppendsDat(pc) || AppendsIdx(pc)
  }

  /** A process that has its chain waits for the free list and the append locks only, and whoever has those waits
      for nothing. */
  lemma OnlyInnerLocks(s: State, p: Pid)
    requires Exclusive(s.procs) && p < |s.procs| && Waiting(s.procs[p].pc) && !s.procs[p].pc.ChainLock?
    requires forall q :: 0 <= q < |s.procs| ==> !InTheWay(s.procs[q].pc)
    ensures !Blocked(s, p)
  {
    hide ChainOf;
    var b := s.procs[p].(pc := Granted(s.procs[p].pc));
    forall q | 0 <= q < |s.procs| && q != p
      ensures !Conflict(b, s.procs[q])
    {
      assert !Conflict(s.procs[p], s.procs[q]);
    }
  }

  /** p waits for a lock that q keeps from it. */
  predicate WaitsFor(s: State, p: Pid, q: Pid) {
    && p < |s.procs| && q < |s.procs| && p != q && Waiting(s.procs[p].pc)
    && Conflict(s.procs[p].(pc := Granted(s.procs[p].pc)), s.procs[q])
  }

  /** A process that has its chain waits for processes that have an inner lock only, and these do not wait. */
  lemma InnerWaits(s: State, p: Pid, q: Pid)
    requires Exclusive(s.procs) && WaitsFor(s, p, q)
    ensures HoldsChain(s.procs[q].pc) || InTheWay(s.procs[q].pc)
    ensures !s.procs[p].pc.ChainLock? ==> InTheWay(s.procs[q].pc) && !Waiting(s.procs[q].pc)
  {
    hide ChainOf;
    assert !Conflict(s.procs[p], s.procs[q]);
  }

  /** There is no cycle of waiting processes: of any processes that wait, one waits for none of them. */
  lemma NoCycle(s: State, waiting: set<Pid>) returns (p: Pid)
    requires Reachable(s) && waiting != {}
    requires forall q :: q in waiting ==> q < |s.procs| && Waiting(s.procs[q].pc)
    ensures p in waiting && forall q :: q in waiting ==> !WaitsFor(s, p, q)
  {
    hide Reachable, ListsOk, LinksOk, HandsOk, KeysOk, DatsOk, MeaningOk, ProcOk, Explained, Exclusive, Conflict;
    ReachableInv(s);
    p :| p in waiting;
    if v :| v in waiting && !s.procs[v].pc.ChainLock? {
      p := v;
    }
    forall q | q in waiting
      ensures !WaitsFor(s, p, q)
    {
      if WaitsFor(s, p, q) {
        InnerWaits(s, p, q);
      }
    }
  }

  /** While any process is inside an operation, some process can go on. */
  lemma NoDeadlock(s: State, p: Pid)
    requires Reachable(s) && p < |s.procs| && !s.procs[p].pc.Idle?
    ensures exists q :: Enabled(s, Advance(q))
  {
    hide Reachable, ListsOk, LinksOk, HandsOk, KeysOk, DatsOk, MeaningOk, ProcOk, Explained, Exclusive, ChainOf,
      Blocked;
    ReachableInv(s);
    if q :| 0 <= q < |s.procs| && InTheWay(s.procs[q].pc) {
      NotWaiting(s, q);
    } else if q :| 0 <= q < |s.procs| && Waiting(s.procs[q].pc) && !s.procs[q].pc.ChainLock? {
      OnlyInnerLocks(s, q);
      assert Enabled(s, Advance(q));
    } else if q :| 0 <= q < |s.procs| && HoldsChain(s.procs[q].pc) {
      NotWaiting(s, q);
    } else {
      FirstLock(s, p);
    }
  }

  lemma NotWaiting(s: State, q: Pid)
    requires q < |s.procs| && !Waiting(s.procs[q].pc) && !s.procs[q].pc.Idle?
    ensures Enabled(s, Advance(q))
  {
  }

  lemma FirstLock(s: State, p: Pid)
    requires p < |s.procs| && !s.procs[p].pc.Idle?
    requires forall q :: 0 <= q < |s.procs| ==> !InTheWay(s.procs[q].pc) && !HoldsChain(s.procs[q].pc)
    ensures Enabled(s, Advance(p))
  {
    hide ChainOf;
  }

  /** A record is appended only where no free record fits: as a process leaves the free list with none, there is none on
      it of just the lengths that it needs. */
  lemma AppendsWhenNoneFits(s: State, p: Pid)
    requires Reachable(s) && p < |s.procs| && s.procs[p].pc.FreeUnlock? && s.procs[p].cur.Nil?
    ensures |s.g.lists| == NHEADS && forall r :: r in s.g.lists[FREE] ==> !Fits(RecAt(s.f, To(r)), s.procs[p].op)
  {
    hide Reachable, LinksOk, HandsOk, KeysOk, DatsOk, MeaningOk, Exclusive, Explained, OpOk, WalkOk, HandOk, ScanOk, Fits;
    ReachableInv(s);
    assert ProcOk(s, p);
    var list := s.g.lists[FREE];
    forall r | r in list
      ensures !Fits(RecAt(s.f, To(r)), s.procs[p].op)
    {
      var j :| 0 <= j < |list| && list[j] == r;
    }
  }

  /** The lseek to the end of a file and the write there are one, as nobody else appends in between. */
  lemma AppendsAtEnd(s: State, p: Pid)
    requires Reachable(s) && p < |s.procs|
    ensures s.procs[p].pc.DatAppend? ==> s.procs[p].dat == |s.f.dats|
    ensures s.procs[p].pc.IdxAppend? ==> s.procs[p].cur == To(|s.f.recs|)
  {
    hide Reachable, LinksOk, HandsOk, KeysOk, DatsOk, MeaningOk, Exclusive, Explained, OpOk, WalkOk, FreeOk, HandOk,
      ScanOk;
    ReachableInv(s);
    assert ProcOk(s, p);
  }

  /** The first record that fits is taken. */
  lemma TakesFirstFit(s: State, p: Pid)
    requires Reachable(s) && p < |s.procs| && s.procs[p].pc.FreeTake?
    ensures var a := s.procs[p];
            && |s.g.lists| == NHEADS && a.pos < |s.g.lists[FREE]| && a.cur == To(s.g.lists[FREE][a.pos])
            && Fits(RecAt(s.f, a.cur), a.op) && NoneFits(s.f, s.g.lists[FREE], a.pos, a.op)
  {
    hide Reachable, LinksOk, HandsOk, KeysOk, DatsOk, MeaningOk, Exclusive, Explained, OpOk, WalkOk, HandOk, ScanOk,
      NoneFits;
    ReachableInv(s);
    assert ProcOk(s, p);
  }

  /** A deletion leaves blanks in place of the data and of the key. */
  lemma DeletionBlanks(s: State, p: Pid)
    requires Reachable(s) && p < |s.procs| && Enabled(s, Advance(p)) && (s.procs[p].pc.DelDat? || s.procs[p].pc.DelIdx?)
    ensures var a, f' := s.procs[p], Apply(s, Advance(p)).f;
            && (a.pc.DelDat? ==> |DatAt(s.f, a.dat)| + 1 == a.len && DatAt(f', a.dat) == Blanks(|DatAt(s.f, a.dat)|))
            && (a.pc.DelIdx? ==> RecAt(f', a.cur).key == Blanks(|RecAt(s.f, a.cur).key|))
  {
    hide Reachable, LinksOk, HandsOk, KeysOk, MeaningOk, Exclusive, Explained, OpOk, ScanOk, FreeOk, Database.MapStep,
      ChainOf;
    ReachableInv(s);
    AdvanceIs(s, p);
    assert ProcOk(s, p);
    var a := s.procs[p];
    if a.pc.DelDat? {
      assert a.cur.To?;
      FoundStored(s, p);
    }
  }

  /** db_nextrec passes over no record but blank ones, and reports the end of the file there only. */
  lemma ScanPassesBlanks(s: State, p: Pid)
    requires p < |s.procs| && Enabled(s, Advance(p))
    ensures var a, a' := s.procs[p], Apply(s, Advance(p)).procs[p];
            && (a.pc.ScanIdx? && a'.pc.ScanUnlock? ==> a.pos >= |s.f.recs|)
            && (a.pc.ScanBody? && a.pos < |s.f.recs| && !Database.IsBlankKey(s.f.recs[a.pos].key) ==>
                  a'.pc.ScanDat? && a'.seen == s.f.recs[a.pos].key && a'.pos == a.pos)
            && ((a.pc.ScanIdx? || a.pc.ScanBody?) && a'.pos != a.pos ==>
                  a'.pos == a.pos + 1 && (a.pos < |s.f.recs| ==> Database.IsBlankKey(s.f.recs[a.pos].key)))
  {
    hide Database.IsBlankKey, Database.MapStep, Blocked;
  }
}
