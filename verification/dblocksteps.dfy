/** Every step of every process keeps the invariant. */
module DbLocksSteps {
  import opened DbFormat
  import opened DbLayout
  import opened DbChains
  import opened DbLocks
  import opened DbLocksInv
  import Database

  /** The step changes neither the files nor the map. */
  predicate Quiet(a: Proc) {
    && !(a.pc.DelDat? || a.pc.DelIdx? || a.pc.DelFree? || a.pc.DelLink? || a.pc.FreeTake? || a.pc.ReuseDat? || a.pc.ReuseIdx?)
    && !(a.pc.DatAppend? || a.pc.IdxAppend? || a.pc.Link?)
    && (a.pc.Found? && a.op.StoreOp? && !a.op.flag.Insert? ==> Resizes(a))
  }

  lemma LinkAt(s: State, p: Pid, c: nat, i: nat)
    requires Inv(s) && p < |s.procs| && HoldsChain(s.procs[p].pc) && c < NHEADS && i <= |s.g.lists[c]|
    requires c == FREE || (c == ChainOf(s.procs[p].op.key) && !Pending(s.procs[p].pc))
    ensures LinkOk(s.f, s.g.lists, c, i)
    ensures i < |s.g.lists[c]| ==> s.g.lists[c][i] < |s.f.recs|
  {
    hide WalkOk, FreeOk, HandOk, ScanOk, LinkOk, Held, HomesOk, KeysOk, DatsOk, MeaningOk, HandsOk, Explained;
    forall q | 0 <= q < |s.procs|
      ensures OpOk(s.procs[q])
    {
      assert ProcOk(s, q);
    }
    NotHeld(s, p, c, i);
    assert LinkOk(s.f, s.g.lists, c, i) || Held(s.procs, c, i);
  }

  /** At the end of its chain a key is stored nowhere. */
  lemma NotStored(s: State, a: Proc)
    requires ListsOk(s) && KeysOk(s) && WalkOk(s, a) && a.pc.Walk? && a.cur.Nil?
    ensures a.op.key !in s.g.at
  {
    var list := s.g.lists[ChainOf(a.op.key)];
    forall r | r in list
      ensures RecAt(s.f, To(r)).key != a.op.key
    {
      var j :| 0 <= j < |list| && list[j] == r;
    }
    assert a.op.key in s.g.at ==> s.g.at[a.op.key] in list && RecAt(s.f, To(s.g.at[a.op.key])).key == a.op.key;
  }

  lemma ReadHeadOk(s: State, p: Pid)
    requires Inv(s) && p < |s.procs| && s.procs[p].pc.ReadHead?
    ensures WalkOk(s, Moved(s.f, s.procs[p]))
  {
    hide OpOk, FreeOk, HandOk, ScanOk, HomesOk, KeysOk, DatsOk, MeaningOk, HandsOk, Explained, Exclusive, LinksOk;
    LinkAt(s, p, ChainOf(s.procs[p].op.key), 0);
  }

  lemma WalkStepOk(s: State, p: Pid)
    requires Inv(s) && p < |s.procs| && s.procs[p].pc.Walk?
    ensures WalkOk(s, Moved(s.f, s.procs[p]))
  {
    hide OpOk, FreeOk, HandOk, ScanOk, HomesOk, DatsOk, MeaningOk, HandsOk, Explained, Exclusive, LinksOk, KeysOk;
    assert ProcOk(s, p);
    var a := s.procs[p];
    if a.cur.Nil? {
      NotStored(s, a);
    }
  }

  lemma WalkBodyOk(s: State, p: Pid)
    requires Inv(s) && p < |s.procs| && s.procs[p].pc.WalkBody?
    ensures WalkOk(s, Moved(s.f, s.procs[p]))
  {
    hide OpOk, FreeOk, HandOk, ScanOk, HomesOk, DatsOk, MeaningOk, HandsOk, Explained, Exclusive, LinksOk, KeysOk, Inv,
      Moved, LinkOk;
    MoverFacts(s, p);
    var a := s.procs[p];
    LinkAt(s, p, ChainOf(a.op.key), a.pos + 1);
    WalkBodyFrom(s, a);
  }

  lemma WalkBodyFrom(s: State, a: Proc)
    requires |s.g.lists| == NHEADS && WalkOk(s, a) && a.pc.WalkBody? && a.pos < |s.g.lists[ChainOf(a.op.key)]|
    requires LinkOk(s.f, s.g.lists, ChainOf(a.op.key), a.pos + 1)
    ensures WalkOk(s, Moved(s.f, a))
  {
    hide ChainOf;
  }

  lemma MoverFacts(s: State, p: Pid)
    requires Inv(s) && p < |s.procs|
    ensures ListsOk(s) && ProcOk(s, p)
  {
  }

  lemma FreeHeadOk(s: State, p: Pid)
    requires Inv(s) && p < |s.procs| && s.procs[p].pc.FreeHead?
    ensures FreeOk(s, Moved(s.f, s.procs[p]))
  {
    hide OpOk, HandOk, ScanOk, HomesOk, KeysOk, DatsOk, MeaningOk, HandsOk, Explained, Exclusive, LinksOk;
    LinkAt(s, p, FREE, 0);
  }

  lemma FreeStepOk(s: State, p: Pid)
    requires Inv(s) && p < |s.procs| && (s.procs[p].pc.FreeWalk? || s.procs[p].pc.FreeBody?)
    ensures FreeOk(s, Moved(s.f, s.procs[p]))
  {
    hide OpOk, HandOk, ScanOk, HomesOk, DatsOk, MeaningOk, HandsOk, Explained, Exclusive, LinksOk, KeysOk;
    assert ProcOk(s, p);
    var a := s.procs[p];
    if a.cur.To? {
      LinkAt(s, p, FREE, a.pos);
      LinkAt(s, p, FREE, a.pos + 1);
    }
  }

  lemma PointersRead(s: State, p: Pid)
    requires Inv(s) && p < |s.procs| && (s.procs[p].pc.DelReadFree? || s.procs[p].pc.StoreHead?)
    ensures var a := s.procs[p];
            HeadAt(s.f, if a.pc.StoreHead? then ChainOf(a.op.key) else FREE) ==
            PtrAt(s.g.lists[if a.pc.StoreHead? then ChainOf(a.op.key) else FREE], 0)
  {
    hide OpOk, HandOk, ScanOk, HomesOk, KeysOk, DatsOk, MeaningOk, HandsOk, Explained, Exclusive, LinksOk, WalkOk,
      FreeOk;
    var a := s.procs[p];
    LinkAt(s, p, if a.pc.StoreHead? then ChainOf(a.op.key) else FREE, 0);
  }

  /** The mover after a step that changes nothing but the mover. */
  ghost predicate MoverOk(s: State, p: Pid, a: Proc, a': Proc)
    requires |s.g.lists| == NHEADS
  {
    OpOk(a') && WalkOk(s, a') && FreeOk(s, a') && HandOk(s, p, a') && ScanOk(s, a') && SeekOk(s, a')
    && SameStage(a, a')
  }

  /** Nothing is asked of a process at pc' that was not asked at its place before. */
  predicate Weaker(a: Proc, pc': Pc) {
    var pc, a' := a.pc, a.(pc := pc');
    && OpOk(a')
    && (OnChain(pc') ==> OnChain(pc) && !Walking(pc) && !Walking(pc'))
    && (Pending(pc') ==> Pending(pc)) && (KeyOff(pc') ==> KeyOff(pc)) && (HasPtr(pc') ==> HasPtr(pc))
    && (pc'.FreeUnlock? && a.cur.Nil? ==> OnFree(pc))
    && !OnFree(pc') && !pc'.DelIdx? && !pc'.DelFree? && !pc'.DelReadFree?
    && !pc'.ScanDat? && !pc'.DatAppend? && !pc'.IdxAppend?
    && (InHand(a') <==> InHand(a)) && (Reusing(a') ==> Reusing(a)) && (Publishing(a') <==> Publishing(a))
    && (pc'.ReuseIdx? ==> pc.ReuseIdx?) && (DatInHand(pc') ==> DatInHand(pc))
    && (Pending(pc) ==> Pending(pc')) && (Midway(a) <==> Midway(a'))
  }

  lemma WeakerMover(s: State, p: Pid, a: Proc, pc': Pc)
    requires |s.g.lists| == NHEADS && OpOk(a) && WalkOk(s, a) && FreeOk(s, a) && HandOk(s, p, a) && Weaker(a, pc')
    ensures MoverOk(s, p, a, a.(pc := pc'))
  {
    hide ChainOf, Database.IsBlankKey, Blanks, OpOk;
  }

  /** The steps that only move the process on. */
  predicate MovesOn(a: Proc) {
    || a.pc.ChainLock? || (a.pc.Found? && Quiet(a)) || a.pc.DelLock? || a.pc.DelUnlock? || a.pc.FreeLock?
    || (a.pc.FreeWalk? && a.cur.Nil?) || a.pc.FreeUnlock? || a.pc.DatLock? || a.pc.DatUnlock? || a.pc.IdxLock?
    || a.pc.IdxUnlock? || a.pc.Unlock? || a.pc.ScanLock? || a.pc.ScanUnlock?
  }

  lemma MovesOnWeaker(f: Files, a: Proc)
    requires OpOk(a) && MovesOn(a) && (a.pc.Found? ==> a.found)
    ensures var a' := Moved(f, a); a' == a.(pc := a'.pc) && Weaker(a, a'.pc)
  {
    hide ChainOf, Database.IsBlankKey, Blanks;
  }

  /** A process with nothing in hand. */
  lemma EmptyMover(s: State, p: Pid, a: Proc, a': Proc)
    requires |s.g.lists| == NHEADS && a'.op == a.op && OpOk(a') && WalkOk(s, a') && FreeOk(s, a') && ScanOk(s, a')
    requires SeekOk(s, a')
    requires !InHand(a) && !InHand(a') && !Reusing(a') && !Publishing(a') && !DatInHand(a'.pc) && !a'.pc.DelFree?
    requires !Pending(a.pc) && !Pending(a'.pc) && !a'.pc.ReuseIdx? && (Midway(a) ==> Midway(a'))
    ensures MoverOk(s, p, a, a')
  {
    hide OpOk, WalkOk, FreeOk, ScanOk;
  }

  lemma FindMover(s: State, p: Pid)
    requires Inv(s) && p < |s.procs| && (s.procs[p].pc.ReadHead? || Walking(s.procs[p].pc))
    ensures MoverOk(s, p, s.procs[p], Moved(s.f, s.procs[p]))
  {
    hide WalkOk, HandOk, HomesOk, DatsOk, MeaningOk, HandsOk, Explained, Exclusive, LinksOk, KeysOk, ChainOf, MoverOk;
    assert ProcOk(s, p);
    if s.procs[p].pc.ReadHead? {
      ReadHeadOk(s, p);
    } else if s.procs[p].pc.Walk? {
      WalkStepOk(s, p);
    } else {
      WalkBodyOk(s, p);
    }
    EmptyMover(s, p, s.procs[p], Moved(s.f, s.procs[p]));
  }

  lemma FreeMover(s: State, p: Pid)
    requires Inv(s) && p < |s.procs|
    requires (s.procs[p].pc.FreeHead? || s.procs[p].pc.FreeBody? || (s.procs[p].pc.FreeWalk? && s.procs[p].cur.To?))
    ensures MoverOk(s, p, s.procs[p], Moved(s.f, s.procs[p]))
  {
    hide FreeOk, HandOk, HomesOk, DatsOk, MeaningOk, HandsOk, Explained, Exclusive, LinksOk, KeysOk, ChainOf, MoverOk;
    assert ProcOk(s, p);
    if s.procs[p].pc.FreeHead? {
      FreeHeadOk(s, p);
    } else {
      FreeStepOk(s, p);
    }
    EmptyMover(s, p, s.procs[p], Moved(s.f, s.procs[p]));
  }

  lemma ScanMover(s: State, p: Pid)
    requires Inv(s) && p < |s.procs| && (s.procs[p].pc.ScanIdx? || s.procs[p].pc.ScanBody? || s.procs[p].pc.ScanDat?)
    ensures MoverOk(s, p, s.procs[p], Moved(s.f, s.procs[p]))
  {
    hide HandOk, HomesOk, DatsOk, MeaningOk, HandsOk, Explained, Exclusive, LinksOk, KeysOk, ChainOf, MoverOk;
    assert ProcOk(s, p);
    EmptyMover(s, p, s.procs[p], Moved(s.f, s.procs[p]));
  }

  lemma DatSeekMover(s: State, p: Pid)
    requires Inv(s) && p < |s.procs| && s.procs[p].pc.DatSeek?
    ensures MoverOk(s, p, s.procs[p], Moved(s.f, s.procs[p]))
  {
    hide HandOk, HomesOk, DatsOk, MeaningOk, HandsOk, Explained, Exclusive, LinksOk, KeysOk, ChainOf, MoverOk;
    assert ProcOk(s, p);
    EmptyMover(s, p, s.procs[p], Moved(s.f, s.procs[p]));
  }

  lemma IdxSeekMover(s: State, p: Pid)
    requires Inv(s) && p < |s.procs| && s.procs[p].pc.IdxSeek?
    ensures MoverOk(s, p, s.procs[p], Moved(s.f, s.procs[p]))
  {
    hide HomesOk, DatsOk, MeaningOk, HandsOk, Explained, Exclusive, LinksOk, KeysOk, ChainOf, Database.IsBlankKey,
      Blanks;
    assert ProcOk(s, p);
  }

  lemma StoreHeadMover(s: State, p: Pid)
    requires Inv(s) && p < |s.procs| && s.procs[p].pc.StoreHead?
    ensures MoverOk(s, p, s.procs[p], Moved(s.f, s.procs[p]))
  {
    hide HandOk, HomesOk, DatsOk, MeaningOk, HandsOk, Explained, Exclusive, LinksOk, KeysOk, ChainOf, MoverOk;
    assert ProcOk(s, p);
    PointersRead(s, p);
    EmptyMover(s, p, s.procs[p], Moved(s.f, s.procs[p]));
  }

  lemma DelReadFreeMover(s: State, p: Pid)
    requires Inv(s) && p < |s.procs| && s.procs[p].pc.DelReadFree?
    ensures MoverOk(s, p, s.procs[p], Moved(s.f, s.procs[p]))
  {
    hide HomesOk, DatsOk, MeaningOk, HandsOk, Explained, Exclusive, LinksOk, KeysOk, ChainOf, Database.IsBlankKey,
      Blanks;
    assert ProcOk(s, p);
    PointersRead(s, p);
  }

  // ---------- locks and replies

  /** The locks at pc' are among those at pc. */
  predicate FewerLocks(pc: Pc, pc': Pc) {
    && (HoldsChain(pc') ==> HoldsChain(pc)) && (WritesFree(pc') ==> WritesFree(pc)) && (ReadsFree(pc') ==> ReadsFree(pc))
    && (AppendsDat(pc') ==> AppendsDat(pc)) && (AppendsIdx(pc') ==> AppendsIdx(pc))
  }

  /** A call other than a lock call takes no lock. */
  lemma NoNewLock(f: Files, a: Proc)
    requires !a.pc.Idle?
    ensures Moved(f, a).op == a.op && FewerLocks(Granted(a.pc), Moved(f, a).pc)
  {
    SameOp(f, a);
    NextLocks(f, a);
  }

  lemma SameOp(f: Files, a: Proc)
    ensures Moved(f, a).op == a.op && Moved(f, a).pc == NextPc(f, a)
  {
    hide NextPc, RecAt, HeadAt, DatAt, Fits, Database.IsBlankKey;
  }

  lemma NextLocks(f: Files, a: Proc)
    requires !a.pc.Idle?
    ensures FewerLocks(Granted(a.pc), NextPc(f, a))
  {
    hide RecAt, Fits, Database.IsBlankKey, Resizes;
  }

  lemma ExclusiveKept(s: State, s': State, p: Pid)
    requires Exclusive(s.procs) && Enabled(s, Advance(p)) && OnlyMover(s, s', p)
    requires s'.procs[p] == Moved(s.f, s.procs[p])
    ensures Exclusive(s'.procs)
  {
    hide Moved, ChainOf;
    var a, a' := s.procs[p], s'.procs[p];
    NoNewLock(s.f, a);
    forall q | 0 <= q < |s.procs| && q != p
      ensures !Conflict(a', s.procs[q]) && !Conflict(s.procs[q], a')
    {
      assert !Conflict(a, s.procs[q]);
      if Waiting(a.pc) {
        assert !Conflict(a.(pc := Granted(a.pc)), s.procs[q]);
      }
    }
  }

  /** The record that a process has found is the one that its key is stored at. */
  lemma FoundStored(s: State, p: Pid)
    requires Inv(s) && p < |s.procs| && OnChain(s.procs[p].pc) && !Walking(s.procs[p].pc)
    ensures var a := s.procs[p];
            && a.op.key in s.g.at && a.cur == To(s.g.at[a.op.key]) && s.g.at[a.op.key] < |s.f.recs|
            && a.pos < |s.g.lists[ChainOf(a.op.key)]| && s.g.lists[ChainOf(a.op.key)][a.pos] == s.g.at[a.op.key]
            && a.op.key in s.contents && s.contents[a.op.key] == DatAt(s.f, a.dat)
  {
    hide LinksOk, HandsOk, DatsOk, Exclusive, Explained, FreeOk, HandOk, ScanOk, OpOk, ChainOf;
    assert ProcOk(s, p);
    var a := s.procs[p];
    var list := s.g.lists[ChainOf(a.op.key)];
    assert list[a.pos] in list;
  }

  /** A key that is on no chain is in the map just when db_store has it midway. */
  lemma OffMeans(s: State, p: Pid)
    requires Inv(s) && p < |s.procs| && HoldsChain(s.procs[p].pc) && s.procs[p].op.key !in s.g.at
    ensures s.procs[p].op.key in s.contents <==> Midway(s.procs[p])
  {
    hide LinksOk, HandsOk, DatsOk, Explained, FreeOk, HandOk, ScanOk, OpOk, KeysOk;
    assert ProcOk(s, p);
    if !Midway(s.procs[p]) {
      NotMidway(s, p);
    }
  }

  /** Every operation replies what it would on the map. */
  lemma ReplyRight(s: State, p: Pid)
    requires Inv(s) && p < |s.procs| && Decides(s.f, s.procs[p]).Some?
    ensures Database.MapStep(s.contents, s.procs[p].op).1 == Decides(s.f, s.procs[p]).value
  {
    hide LinksOk, HandsOk, DatsOk, Explained, FreeOk, HandOk, ScanOk, KeysOk, MeaningOk, WalkOk, Exclusive;
    var a := s.procs[p];
    assert ProcOk(s, p);
    if a.pc.Walk? {
      NotStored(s, a);
      OffMeans(s, p);
    } else if a.pc.Link? {
      LinkOff(s, p);
      OffMeans(s, p);
    } else {
      FoundStored(s, p);
    }
  }

  lemma LinkOff(s: State, p: Pid)
    requires Inv(s) && p < |s.procs| && s.procs[p].pc.Link?
    ensures s.procs[p].op.key !in s.g.at && s.procs[p].op.StoreOp?
  {
    hide LinksOk, HandsOk, DatsOk, Explained, FreeOk, HandOk, ScanOk, KeysOk, MeaningOk, Exclusive;
    assert ProcOk(s, p);
  }

  lemma ExplainedKept(s: State, p: Pid)
    requires Inv(s) && Enabled(s, Advance(p))
    ensures Explained(Apply(s, Advance(p)))
  {
    hide LinksOk, HandsOk, DatsOk, HandsOk, KeysOk, MeaningOk, Exclusive, ListsOk, ProcOk, Reshape, Moved, Written,
      Decides;
    var s', a := Apply(s, Advance(p)), s.procs[p];
    if Decides(s.f, a).Some? {
      ReplyRight(s, p);
      var ops := s'.ops;
      assert ops[..|ops| - 1] == s.ops && ops[|ops| - 1] == a.op;
    }
  }

  // ---------- quiet steps

  lemma QuietMover(s: State, p: Pid)
    requires Inv(s) && p < |s.procs| && Quiet(s.procs[p]) && !s.procs[p].pc.Idle?
    ensures MoverOk(s, p, s.procs[p], Moved(s.f, s.procs[p]))
  {
    hide OpOk, HandOk, FreeOk, ScanOk, HomesOk, DatsOk, MeaningOk, HandsOk, Explained, Exclusive, LinksOk, KeysOk,
      MoverOk, Moved, Weaker;
    assert ProcOk(s, p);
    var a := s.procs[p];
    if a.pc.ReadHead? || Walking(a.pc) {
      FindMover(s, p);
    } else if a.pc.FreeHead? || a.pc.FreeBody? || (a.pc.FreeWalk? && a.cur.To?) {
      FreeMover(s, p);
    } else if a.pc.ScanIdx? || a.pc.ScanBody? || a.pc.ScanDat? {
      ScanMover(s, p);
    } else if a.pc.DatSeek? {
      DatSeekMover(s, p);
    } else if a.pc.IdxSeek? {
      IdxSeekMover(s, p);
    } else if a.pc.StoreHead? {
      StoreHeadMover(s, p);
    } else if a.pc.DelReadFree? {
      DelReadFreeMover(s, p);
    } else {
      MovesOnWeaker(s.f, a);
      WeakerMover(s, p, a, Moved(s.f, a).pc);
    }
  }

  lemma QuietContents(s: State, p: Pid)
    requires Inv(s) && p < |s.procs| && Quiet(s.procs[p]) && Decides(s.f, s.procs[p]).Some?
    ensures Database.MapStep(s.contents, s.procs[p].op).0 == s.contents
  {
    hide LinksOk, HandsOk, DatsOk, Explained, FreeOk, HandOk, ScanOk, KeysOk, MeaningOk, WalkOk, Exclusive;
    var a := s.procs[p];
    assert ProcOk(s, p);
    if a.pc.Walk? {
      NotStored(s, a);
      OffMeans(s, p);
      assert a.op.DeleteOp? ==> s.contents - {a.op.key} == s.contents;
    } else {
      FoundStored(s, p);
    }
  }

  /** What a step does to the state as a whole. */
  lemma AdvanceIs(s: State, p: Pid)
    requires Enabled(s, Advance(p))
    ensures var s' := Apply(s, Advance(p));
            var a := s.procs[p];
            && s'.f == Written(s.f, a) && s'.g == Reshape(s.g, s.f, a, p) && s'.procs == s.procs[p := Moved(s.f, a)]
            && s'.contents == (if Decides(s.f, a).Some? then Database.MapStep(s.contents, a.op).0 else s.contents)
            && OnlyMover(s, s', p)
  {
    hide Written, Reshape, Moved, Decides, Database.MapStep, Blocked;
  }

  lemma QuietFiles(s: State, p: Pid)
    requires p < |s.procs| && Quiet(s.procs[p])
    ensures var a := s.procs[p]; Written(s.f, a) == s.f && Reshape(s.g, s.f, a, p) == s.g
  {
  }

  lemma MoverProc(s: State, s': State, p: Pid)
    requires |s.g.lists| == NHEADS && OnlyMover(s, s', p) && s'.f == s.f && s'.g == s.g && s'.contents == s.contents
    requires MoverOk(s, p, s.procs[p], s'.procs[p])
    ensures ProcOk(s', p) && SameStage(s.procs[p], s'.procs[p])
  {
    hide OpOk, SameStage, Stands, InHand, Reusing, Publishing;
  }

  lemma QuietKeeps(s: State, p: Pid)
    requires Inv(s) && Enabled(s, Advance(p)) && Quiet(s.procs[p])
    ensures Inv(Apply(s, Advance(p)))
  {
    hide HomesOk, DatsOk, MeaningOk, HandsOk, Explained, LinksOk, KeysOk, MoverOk, Moved, Written, Reshape, Apply,
      ProcOk, Decides, Exclusive;
    var s' := Apply(s, Advance(p));
    AdvanceIs(s, p);
    QuietFiles(s, p);
    if Decides(s.f, s.procs[p]).Some? {
      QuietContents(s, p);
    }
    QuietMover(s, p);
    MoverProc(s, s', p);
    ExclusiveKept(s, s', p);
    ExplainedKept(s, p);
    LocalKeeps(s, s', p);
  }

  /** The start of an operation or of a read in file order. */
  lemma StartKeeps(s: State, step: Step)
    requires Inv(s) && Enabled(s, step) && !step.Advance?
    ensures Inv(Apply(s, step))
  {
    hide HomesOk, DatsOk, MeaningOk, HandsOk, Explained, LinksOk, KeysOk, ChainOf;
    var s', p := Apply(s, step), step.p;
    assert ProcOk(s, p);
    assert ProcOk(s', p);
    assert Exclusive(s'.procs) by {
      forall q | 0 <= q < |s.procs| && q != p
        ensures !Conflict(s'.procs[p], s'.procs[q]) && !Conflict(s'.procs[q], s'.procs[p])
      {
      }
    }
    assert Explained(s') by {
      ExplainedSame(s, s');
    }
    LocalKeeps(s, s', p);
  }

  lemma ExplainedSame(s: State, s': State)
    requires Explained(s) && s'.ops == s.ops && s'.replies == s.replies && s'.contents == s.contents
    ensures Explained(s')
  {
  }
}
