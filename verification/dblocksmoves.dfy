/** The steps that write to the files. */
module DbLocksMoves {
  import opened DbFormat
  import opened DbLayout
  import opened DbChains
  import opened DbLocks
  import opened DbLocksInv
  import opened DbLocksSteps
  import Database

  /** What the files and the map have to satisfy as a whole. */
  ghost predicate WholeOk(s: State) {
    ListsOk(s) && LinksOk(s) && HandsOk(s) && KeysOk(s) && DatsOk(s) && MeaningOk(s)
  }

  lemma MoveKeeps(s: State, p: Pid)
    requires Inv(s) && Enabled(s, Advance(p))
    requires var s' := Apply(s, Advance(p)); WholeOk(s') && ProcOk(s', p)
    requires var s' := Apply(s, Advance(p)); forall q :: 0 <= q < |s.procs| && q != p ==> View(s, s', q)
    ensures Inv(Apply(s, Advance(p)))
  {
    hide HomesOk, DatsOk, MeaningOk, HandsOk, Explained, LinksOk, KeysOk, Moved, Written, Reshape, Apply, ProcOk,
      Decides, Exclusive, View;
    var s' := Apply(s, Advance(p));
    AdvanceIs(s, p);
    ExclusiveKept(s, s', p);
    ExplainedKept(s, p);
    forall q | 0 <= q < |s'.procs|
      ensures ProcOk(s', q)
    {
      if q != p {
        assert View(s, s', q);
        ViewKeeps(s, s', q);
      }
    }
  }

  // ---------- who has what

  /** A record in the hand of p is on no list and in no other hand. */
  lemma HandAlone(s: State, p: Pid, r: nat)
    requires Inv(s) && p < |s.procs| && InHand(s.procs[p]) && s.procs[p].cur == To(r)
    ensures r < |s.f.recs| && s.g.home[r] == LIMBO && s.g.holder[r] == p
    ensures forall c :: 0 <= c < NHEADS ==> r !in s.g.lists[c]
    ensures forall q :: 0 <= q < |s.procs| && q != p && InHand(s.procs[q]) ==> s.procs[q].cur != To(r)
  {
    hide InHand, LinksOk, KeysOk, DatsOk, MeaningOk, Exclusive, Explained, OpOk, WalkOk, FreeOk, ScanOk, ChainOf;
    assert ProcOk(s, p);
    forall q | 0 <= q < |s.procs| && q != p && InHand(s.procs[q])
      ensures s.procs[q].cur != To(r)
    {
      assert ProcOk(s, q);
    }
  }

  /** The data record of a record that q has not in hand is not q's. */
  lemma DatAlone(s: State, q: Pid, r: nat)
    requires Inv(s) && q < |s.procs| && r < |s.f.recs| && (InHand(s.procs[q]) ==> s.procs[q].cur != To(r))
    ensures InHand(s.procs[q]) || DatInHand(s.procs[q].pc) ==> s.procs[q].dat != s.f.recs[r].dat
  {
    hide InHand, Reusing, Publishing, DatInHand, LinksOk, KeysOk, MeaningOk, HandsOk, HomesOk, Exclusive, Explained,
      OpOk,
      WalkOk, FreeOk, ScanOk, ChainOf;
    assert ProcOk(s, q);
  }

  // ---------- data written in place

  /** s' is s with data record d rewritten, and perhaps another value for one key in the map. */
  ghost predicate DatChange(s: State, s': State, p: Pid, r: nat, x: Data) {
    && p < |s.procs| && r < |s.f.recs| && s.f.recs[r].dat < |s.f.dats|
    && s'.f == s.f.(dats := s.f.dats[s.f.recs[r].dat := x]) && |x| == |s.f.dats[s.f.recs[r].dat]|
    && s'.g == s.g && OnlyMover(s, s', p)
    && (forall k :: k in s.contents ==> k in s'.contents)
  }

  lemma DatView(s: State, s': State, p: Pid, r: nat, x: Data, q: Pid)
    requires Inv(s) && DatChange(s, s', p, r, x) && q < |s.procs| && q != p
    requires InHand(s.procs[q]) ==> s.procs[q].cur != To(r)
    ensures View(s, s', q)
  {
    hide LinksOk, KeysOk, MeaningOk, HandsOk, HomesOk, Exclusive, Explained, OpOk, WalkOk, FreeOk, ScanOk, ChainOf,
      Database.IsBlankKey, Blanks, DatsOk;
    assert ProcOk(s, q);
    DatAlone(s, q, r);
  }

  lemma DatLinks(s: State, s': State, p: Pid, r: nat, x: Data)
    requires Inv(s) && DatChange(s, s', p, r, x) && SameStage(s.procs[p], s'.procs[p])
    ensures ListsOk(s') && LinksOk(s') && HandsOk(s') && KeysOk(s') && DatsOk(s')
  {
    hide OpOk, WalkOk, FreeOk, HandOk, ScanOk, MeaningOk, Exclusive, Explained, ChainOf, Database.IsBlankKey, HomesOk,
      InHand, Midway;
    forall c, i | 0 <= c < NHEADS && 0 <= i <= |s'.g.lists[c]|
      ensures LinkOk(s'.f, s'.g.lists, c, i) || Held(s'.procs, c, i)
    {
      LinksFrame(s, s', c, i);
      if Held(s.procs, c, i) {
        HeldKept(s, s', p, c, i);
      }
    }
  }

  /** Rewriting the data of a record in hand changes nothing that is stored. */
  lemma ReuseDatMeaning(s: State, s': State, p: Pid, r: nat, x: Data)
    requires Inv(s) && DatChange(s, s', p, r, x) && s'.contents == s.contents && s.g.home[r] == LIMBO
    requires Midway(s.procs[p]) ==> Midway(s'.procs[p]) && s'.procs[p].op == s.procs[p].op
    ensures MeaningOk(s')
  {
    hide AllStored, OpOk, WalkOk, FreeOk, HandOk, ScanOk, LinksOk, Exclusive, Explained, ChainOf, Database.IsBlankKey,
      HomesOk, HandsOk, Midway;
    AllStoredKept(s, s', p);
    forall k | k in s'.g.at
      ensures s'.contents[k] == DatAt(s'.f, RecAt(s'.f, To(s'.g.at[k])).dat)
    {
      assert s.g.at[k] != r;
    }
  }

  lemma ReuseDatKeeps(s: State, p: Pid)
    requires Inv(s) && Enabled(s, Advance(p)) && s.procs[p].pc.ReuseDat?
    ensures Inv(Apply(s, Advance(p)))
  {
    hide LinksOk, KeysOk, MeaningOk, HandsOk, HomesOk, Exclusive, Explained, Apply, ChainOf, Database.IsBlankKey,
      Blanks, View;
    var s', a := Apply(s, Advance(p)), s.procs[p];
    AdvanceIs(s, p);
    assert ProcOk(s, p);
    var r := a.cur.r;
    HandAlone(s, p, r);
    assert DatChange(s, s', p, r, DataOf(a.op));
    DatLinks(s, s', p, r, DataOf(a.op));
    ReuseDatMeaning(s, s', p, r, DataOf(a.op));
    forall q | 0 <= q < |s.procs| && q != p
      ensures View(s, s', q)
    {
      DatView(s, s', p, r, DataOf(a.op), q);
    }
    assert ProcOk(s', p);
    MoveKeeps(s, p);
  }

  lemma ReplaceMeaning(s: State, s': State, p: Pid, r: nat, x: Data)
    requires Inv(s) && DatChange(s, s', p, r, x) && 0 < s.g.home[r] < LIMBO && !Midway(s.procs[p])
    requires s'.contents == s.contents[s.f.recs[r].key := x]
    ensures MeaningOk(s')
  {
    hide OpOk, WalkOk, FreeOk, HandOk, ScanOk, LinksOk, Exclusive, Explained, ChainOf, Database.IsBlankKey, HomesOk,
      HandsOk, Midway;
    forall k | k in s'.contents
      ensures k in s'.g.at || SomeMidway(s'.procs, k)
    {
      if k !in s.g.at {
        MidwayKept(s, s', p, k);
      }
    }
    forall k | k in s'.g.at
      ensures s'.contents[k] == DatAt(s'.f, RecAt(s'.f, To(s'.g.at[k])).dat)
    {
      assert k != s.f.recs[r].key ==> s.g.at[k] != r;
    }
  }

  lemma ReplaceKeeps(s: State, p: Pid)
    requires Inv(s) && Enabled(s, Advance(p)) && s.procs[p].pc.Found? && !Quiet(s.procs[p])
    ensures Inv(Apply(s, Advance(p)))
  {
    hide LinksOk, MeaningOk, HandsOk, HomesOk, Exclusive, Explained, Apply, ChainOf, Database.IsBlankKey, Blanks, View;
    var s', a := Apply(s, Advance(p)), s.procs[p];
    AdvanceIs(s, p);
    assert ProcOk(s, p);
    var r := a.cur.r;
    FoundStored(s, p);
    assert DatChange(s, s', p, r, DataOf(a.op));
    DatLinks(s, s', p, r, DataOf(a.op));
    ReplaceMeaning(s, s', p, r, DataOf(a.op));
    forall q | 0 <= q < |s.procs| && q != p
      ensures View(s, s', q)
    {
      NotInHand(s, q, r);
      DatView(s, s', p, r, DataOf(a.op), q);
    }
    UnlockOk(s', p);
    MoveKeeps(s, p);
  }

  lemma NotInHand(s: State, q: Pid, r: nat)
    requires Inv(s) && q < |s.procs| && r < |s.f.recs| && s.g.home[r] != LIMBO
    ensures InHand(s.procs[q]) ==> s.procs[q].cur != To(r)
  {
    hide InHand, LinksOk, KeysOk, DatsOk, MeaningOk, Exclusive, Explained, OpOk, WalkOk, FreeOk, ScanOk, ChainOf;
    assert ProcOk(s, q);
  }

  // ---------- a record in hand rewritten

  ghost predicate RecChange(s: State, s': State, p: Pid, r: nat, x: IdxRec) {
    && p < |s.procs| && r < |s.f.recs| && InHand(s.procs[p]) && s.procs[p].cur == To(r)
    && s'.f == s.f.(recs := s.f.recs[r := x]) && x.dat == s.f.recs[r].dat && x.len == s.f.recs[r].len
    && s'.g == s.g && OnlyMover(s, s', p) && s'.contents == s.contents
  }

  lemma RecWhole(s: State, s': State, p: Pid, r: nat, x: IdxRec)
    requires Inv(s) && RecChange(s, s', p, r, x) && SameStage(s.procs[p], s'.procs[p])
    ensures WholeOk(s')
  {
    hide OpOk, WalkOk, FreeOk, HandOk, ScanOk, Exclusive, Explained, ChainOf, Database.IsBlankKey, HomesOk, InHand,
      Midway,
      Pending, LinksOk, MeaningOk;
    HandAlone(s, p, r);
    RecLinks(s, s', p, r, x);
    RecMeaning(s, s', p, r, x);
  }

  lemma RecLinks(s: State, s': State, p: Pid, r: nat, x: IdxRec)
    requires Inv(s) && RecChange(s, s', p, r, x) && SameStage(s.procs[p], s'.procs[p])
    ensures LinksOk(s')
  {
    hide OpOk, WalkOk, FreeOk, HandOk, ScanOk, Exclusive, Explained, ChainOf, Database.IsBlankKey, HomesOk, InHand,
      Midway,
      Pending, MeaningOk, KeysOk, DatsOk, HandsOk;
    HandAlone(s, p, r);
    forall c, i | 0 <= c < NHEADS && 0 <= i <= |s'.g.lists[c]|
      ensures LinkOk(s'.f, s'.g.lists, c, i) || Held(s'.procs, c, i)
    {
      LinksFrame(s, s', c, i);
      if Held(s.procs, c, i) {
        HeldKept(s, s', p, c, i);
      }
    }
  }

  lemma RecMeaning(s: State, s': State, p: Pid, r: nat, x: IdxRec)
    requires Inv(s) && RecChange(s, s', p, r, x) && SameStage(s.procs[p], s'.procs[p])
    ensures MeaningOk(s')
  {
    hide AllStored, OpOk, WalkOk, FreeOk, HandOk, ScanOk, Exclusive, Explained, ChainOf, Database.IsBlankKey, HomesOk,
      InHand, Midway,
      Pending, LinksOk, DatsOk, HandsOk;
    HandAlone(s, p, r);
    AllStoredKept(s, s', p);
  }

  lemma RecView(s: State, s': State, p: Pid, r: nat, x: IdxRec, q: Pid)
    requires Inv(s) && RecChange(s, s', p, r, x) && q < |s.procs| && q != p
    requires Database.IsBlankKey(s.f.recs[r].key) || WritesFree(s.procs[p].pc)
    ensures View(s, s', q)
  {
    hide LinksOk, KeysOk, MeaningOk, HandsOk, HomesOk, Explained, OpOk, WalkOk, FreeOk, ScanOk, ChainOf,
      Database.IsBlankKey, Blanks, DatsOk, InHand, Reusing, Publishing, DatInHand;
    assert ProcOk(s, q);
    HandAlone(s, p, r);
    assert !Conflict(s.procs[p], s.procs[q]);
  }

  lemma ReuseIdxKeeps(s: State, p: Pid)
    requires Inv(s) && Enabled(s, Advance(p)) && s.procs[p].pc.ReuseIdx?
    ensures Inv(Apply(s, Advance(p)))
  {
    hide LinksOk, KeysOk, MeaningOk, HandsOk, HomesOk, Exclusive, Explained, Apply, ChainOf, Database.IsBlankKey,
      Blanks, View, WholeOk;
    var s', a := Apply(s, Advance(p)), s.procs[p];
    AdvanceIs(s, p);
    assert ProcOk(s, p);
    var r := a.cur.r;
    assert RecChange(s, s', p, r, NewRec(a));
    RecWhole(s, s', p, r, NewRec(a));
    forall q | 0 <= q < |s.procs| && q != p
      ensures View(s, s', q)
    {
      RecView(s, s', p, r, NewRec(a), q);
    }
    assert ProcOk(s', p);
    MoveKeeps(s, p);
  }

  lemma DelIdxKeeps(s: State, p: Pid)
    requires Inv(s) && Enabled(s, Advance(p)) && s.procs[p].pc.DelIdx?
    ensures Inv(Apply(s, Advance(p)))
  {
    hide LinksOk, KeysOk, MeaningOk, HandsOk, HomesOk, Exclusive, Explained, Apply, ChainOf, Database.IsBlankKey,
      Blanks, View, WholeOk;
    var s', a := Apply(s, Advance(p)), s.procs[p];
    AdvanceIs(s, p);
    assert ProcOk(s, p);
    var r := a.cur.r;
    HandAlone(s, p, r);
    var x := IdxRec(a.ptr, Blanks(|a.op.key|), a.dat, a.len);
    assert RecChange(s, s', p, r, x);
    RecWhole(s, s', p, r, x);
    forall q | 0 <= q < |s.procs| && q != p
      ensures View(s, s', q)
    {
      RecView(s, s', p, r, x, q);
    }
    assert ProcOk(s', p);
    MoveKeeps(s, p);
  }

  // ---------- appends

  lemma DatAppendKeeps(s: State, p: Pid)
    requires Inv(s) && Enabled(s, Advance(p)) && s.procs[p].pc.DatAppend?
    ensures Inv(Apply(s, Advance(p)))
  {
    hide LinksOk, KeysOk, MeaningOk, HandsOk, HomesOk, Exclusive, Explained, Apply, ChainOf, Database.IsBlankKey,
      Blanks, View, WholeOk;
    var s', a := Apply(s, Advance(p)), s.procs[p];
    AdvanceIs(s, p);
    assert ProcOk(s, p);
    assert DatAdded(s, s', p, DataOf(a.op));
    DatAddedWhole(s, s', p, DataOf(a.op));
    forall q | 0 <= q < |s.procs| && q != p
      ensures View(s, s', q)
    {
      DatAddedView(s, s', p, DataOf(a.op), q);
    }
    assert ProcOk(s', p);
    MoveKeeps(s, p);
  }

  ghost predicate DatAdded(s: State, s': State, p: Pid, x: Data) {
    && OnlyMover(s, s', p) && !InHand(s.procs[p]) && !Pending(s.procs[p].pc)
    && (Midway(s.procs[p]) ==> Midway(s'.procs[p]) && s'.procs[p].op == s.procs[p].op)
    && AppendsDat(s.procs[p].pc) && s'.f == s.f.(dats := s.f.dats + [x]) && s'.g == s.g.(owner := s.g.owner + [OfProc(p)])
    && s'.contents == s.contents
  }

  lemma DatAddedWhole(s: State, s': State, p: Pid, x: Data)
    requires Inv(s) && DatAdded(s, s', p, x)
    ensures WholeOk(s')
  {
    hide AllStored, OpOk, WalkOk, FreeOk, HandOk, ScanOk, Exclusive, Explained, ChainOf, Database.IsBlankKey, HomesOk,
      InHand, Midway, Pending;
    forall c, i | 0 <= c < NHEADS && 0 <= i <= |s'.g.lists[c]|
      ensures LinkOk(s'.f, s'.g.lists, c, i) || Held(s'.procs, c, i)
    {
      LinksFrame(s, s', c, i);
      if Held(s.procs, c, i) {
        HeldKept(s, s', p, c, i);
      }
    }
    AllStoredKept(s, s', p);
  }

  lemma DatAddedView(s: State, s': State, p: Pid, x: Data, q: Pid)
    requires Inv(s) && DatAdded(s, s', p, x) && q < |s.procs| && q != p
    ensures View(s, s', q)
  {
    hide LinksOk, KeysOk, MeaningOk, HandsOk, HomesOk, Explained, OpOk, WalkOk, FreeOk, ScanOk, ChainOf,
      Database.IsBlankKey, Blanks;
    assert ProcOk(s, q);
    assert !Conflict(s.procs[p], s.procs[q]);
    assert InHand(s.procs[q]) || DatInHand(s.procs[q].pc) ==> s.procs[q].dat < |s.f.dats|;
  }

  ghost predicate RecAdded(s: State, s': State, p: Pid, x: IdxRec) {
    && OnlyMover(s, s', p) && !InHand(s.procs[p]) && !Pending(s.procs[p].pc)
    && (Midway(s.procs[p]) ==> Midway(s'.procs[p]) && s'.procs[p].op == s.procs[p].op)
    && AppendsIdx(s.procs[p].pc) && InHand(s'.procs[p]) && s'.procs[p].cur == To(|s.f.recs|)
    && x.dat < |s.f.dats| == |s.g.owner| && s.g.owner[x.dat] == OfProc(p) && x.len == |s.f.dats[x.dat]| + 1
    && s'.f == s.f.(recs := s.f.recs + [x])
    && s'.g == s.g.(home := s.g.home + [LIMBO], holder := s.g.holder + [p], owner := s.g.owner[x.dat := OfRec(|s.f.recs|)])
    && s'.contents == s.contents
  }

  lemma RecAddedLists(s: State, s': State, p: Pid, x: IdxRec)
    requires Inv(s) && RecAdded(s, s', p, x)
    ensures ListsOk(s') && LinksOk(s')
  {
    hide OpOk, WalkOk, FreeOk, HandOk, ScanOk, Exclusive, Explained, ChainOf, Database.IsBlankKey, InHand, Midway,
      Pending,
      MeaningOk, KeysOk, DatsOk, HandsOk, LinkOk;
    forall c, i | 0 <= c < NHEADS && 0 <= i <= |s'.g.lists[c]|
      ensures LinkOk(s'.f, s'.g.lists, c, i) || Held(s'.procs, c, i)
    {
      assert Below(s.g.lists[c], |s.f.recs|);
      LinksFrame(s, s', c, i);
      if Held(s.procs, c, i) {
        HeldKept(s, s', p, c, i);
      }
    }
  }

  lemma RecAddedRest(s: State, s': State, p: Pid, x: IdxRec)
    requires Inv(s) && RecAdded(s, s', p, x)
    ensures HandsOk(s') && KeysOk(s') && DatsOk(s') && MeaningOk(s')
  {
    hide AllStored, OpOk, WalkOk, FreeOk, HandOk, ScanOk, Exclusive, Explained, ChainOf, Database.IsBlankKey, InHand,
      Midway, Pending,
      LinksOk, HomesOk;
    AllStoredKept(s, s', p);
  }

  lemma RecAddedView(s: State, s': State, p: Pid, x: IdxRec, q: Pid)
    requires Inv(s) && RecAdded(s, s', p, x) && q < |s.procs| && q != p
    ensures View(s, s', q)
  {
    hide LinksOk, KeysOk, MeaningOk, HandsOk, HomesOk, Explained, OpOk, WalkOk, FreeOk, ScanOk, ChainOf,
      DatsOk,
      Database.IsBlankKey, Blanks, Reusing, Publishing, DatInHand, InHand;
    assert ProcOk(s, q);
    assert !Conflict(s.procs[p], s.procs[q]);
  }

  lemma IdxAppendKeeps(s: State, p: Pid)
    requires Inv(s) && Enabled(s, Advance(p)) && s.procs[p].pc.IdxAppend?
    ensures Inv(Apply(s, Advance(p)))
  {
    hide LinksOk, KeysOk, MeaningOk, HomesOk, Exclusive, Explained, Apply, ChainOf, Database.IsBlankKey, Blanks, View;
    var s', a := Apply(s, Advance(p)), s.procs[p];
    AdvanceIs(s, p);
    assert ProcOk(s, p);
    var x := NewRec(a);
    assert RecAdded(s, s', p, x);
    RecAddedLists(s, s', p, x);
    RecAddedRest(s, s', p, x);
    forall q | 0 <= q < |s.procs| && q != p
      ensures View(s, s', q)
    {
      RecAddedView(s, s', p, x, q);
    }
    assert ProcOk(s', p);
    MoveKeeps(s, p);
  }

  // ---------- a record in hand put at the front of a list

  ghost predicate Pushed(s: State, s': State, p: Pid, c: nat, r: nat) {
    && OnlyMover(s, s', p) && c < NHEADS && |s.f.heads| == |s.g.lists| == NHEADS && r < |s.f.recs| == |s.g.home|
    && InHand(s.procs[p]) && s.procs[p].cur == To(r)
    && s.f.recs[r].next == PtrAt(s.g.lists[c], 0)
    && s'.f == s.f.(heads := s.f.heads[c := To(r)])
    && s'.g.lists == s.g.lists[c := Prepend(s.g.lists[c], r)] && s'.g.home == s.g.home[r := c]
    && s'.g.holder == s.g.holder && s'.g.owner == s.g.owner
  }

  lemma PushedLists(s: State, s': State, p: Pid, c: nat, r: nat)
    requires Inv(s) && Pushed(s, s', p, c, r)
    ensures ListsOk(s')
  {
    hide OpOk, WalkOk, FreeOk, HandOk, ScanOk, Exclusive, Explained, ChainOf, Database.IsBlankKey, InHand, Midway,
      Pending,
      MeaningOk, KeysOk, DatsOk, HandsOk, LinksOk, Prepend;
    HandAlone(s, p, r);
    PrependElements(s.g.lists[c], r);
    assert Below(s'.g.lists[c], |s.f.recs|) by {
      forall k | 0 <= k < |s'.g.lists[c]|
        ensures s'.g.lists[c][k] < |s.f.recs|
      {
        assert s'.g.lists[c][k] in s'.g.lists[c];
      }
    }
  }

  /** The links of the list that got the record. */
  lemma PushedFront(s: State, s': State, p: Pid, c: nat, r: nat, i: nat)
    requires Inv(s) && Pushed(s, s', p, c, r) && i <= |s'.g.lists[c]|
    requires i > 0 ==> LinkOk(s.f, s.g.lists, c, i - 1)
    ensures LinkOk(s'.f, s'.g.lists, c, i)
  {
    hide OpOk, WalkOk, FreeOk, HandOk, ScanOk, Exclusive, Explained, ChainOf, Database.IsBlankKey, InHand, Midway,
      Pending,
      MeaningOk, KeysOk, DatsOk, HandsOk, LinksOk, HomesOk;
  }

  lemma PushedLinks(s: State, s': State, p: Pid, c: nat, r: nat)
    requires Inv(s) && Pushed(s, s', p, c, r)
    requires Pending(s.procs[p].pc) ==> Pending(s'.procs[p].pc) && s'.procs[p].pos == s.procs[p].pos && s'.procs[p].op == s.procs[p].op
    requires c == FREE || (c == ChainOf(s.procs[p].op.key) && !Pending(s.procs[p].pc))
    ensures LinksOk(s')
  {
    hide OpOk, WalkOk, FreeOk, HandOk, ScanOk, Exclusive, Explained, ChainOf, Database.IsBlankKey, Midway, Pending,
      MeaningOk, KeysOk, DatsOk, HandsOk, HomesOk, LinkOk, Prepend;
    forall d, i | 0 <= d < NHEADS && 0 <= i <= |s'.g.lists[d]|
      ensures LinkOk(s'.f, s'.g.lists, d, i) || Held(s'.procs, d, i)
    {
      if d == c {
        if i > 0 {
          LinkAt(s, p, c, i - 1);
        }
        PushedFront(s, s', p, c, r, i);
      } else {
        LinksFrame(s, s', d, i);
        if Held(s.procs, d, i) {
          HeldKept(s, s', p, d, i);
        }
      }
    }
  }

  lemma PushedView(s: State, s': State, p: Pid, c: nat, r: nat, q: Pid)
    requires Inv(s) && Pushed(s, s', p, c, r) && q < |s.procs| && q != p
    requires if c == FREE then WritesFree(s.procs[p].pc)
             else HoldsChain(s.procs[p].pc) && IsWriter(s.procs[p].op) && c == ChainOf(s.procs[p].op.key)
    requires forall k :: ChainOf(k) != c || c == FREE ==> (k in s.g.at <==> k in s'.g.at) && (k in s.contents <==> k in s'.contents)
    ensures View(s, s', q)
  {
    hide LinksOk, KeysOk, MeaningOk, HandsOk, HomesOk, Explained, OpOk, WalkOk, FreeOk, ScanOk, ChainOf, DatsOk,
      Database.IsBlankKey, Blanks, Reusing, Publishing, DatInHand, InHand;
    assert ProcOk(s, q);
    HandAlone(s, p, r);
    assert !Conflict(s.procs[p], s.procs[q]);
  }

  lemma PushedHands(s: State, s': State, p: Pid, c: nat, r: nat)
    requires Inv(s) && Pushed(s, s', p, c, r)
    ensures HandsOk(s') && DatsOk(s')
  {
    hide OpOk, WalkOk, FreeOk, HandOk, ScanOk, Exclusive, Explained, ChainOf, Database.IsBlankKey, InHand, Midway,
      Pending,
      MeaningOk, KeysOk, LinksOk, HomesOk, Prepend;
  }

  /** The new record is stored. */
  ghost predicate Stored(s: State, s': State, p: Pid, r: nat, x: Data) {
    && p < |s.procs| && Pushed(s, s', p, ChainOf(s.procs[p].op.key), r)
    && var a := s.procs[p];
       && s.f.recs[r].key == a.op.key && DatAt(s.f, s.f.recs[r].dat) == x && a.op.key !in s.g.at
       && s'.g.at == s.g.at[a.op.key := r] && s'.contents == s.contents[a.op.key := x]
  }

  lemma LinkMeaning(s: State, s': State, p: Pid, r: nat, x: Data)
    requires Inv(s) && Stored(s, s', p, r, x)
    ensures MeaningOk(s')
  {
    hide OpOk, WalkOk, FreeOk, HandOk, ScanOk, Exclusive, Explained, ChainOf, Database.IsBlankKey, InHand, Midway,
      Pending,
      HandsOk, LinksOk, HomesOk, Prepend, DatsOk, KeysOk;
    forall k | k in s'.contents
      ensures k in s'.g.at || SomeMidway(s'.procs, k)
    {
      if k !in s'.g.at {
        MidwayKept(s, s', p, k);
      }
    }
  }

  lemma LinkKeys(s: State, s': State, p: Pid, r: nat, x: Data)
    requires Inv(s) && Stored(s, s', p, r, x)
    ensures KeysOk(s')
  {
    hide OpOk, WalkOk, FreeOk, HandOk, ScanOk, Exclusive, Explained, ChainOf, Database.IsBlankKey, InHand, Midway,
      Pending,
      HandsOk, LinksOk, HomesOk, Prepend, DatsOk, MeaningOk;
    ChainBound(s.procs[p].op.key);
    HandAlone(s, p, r);
  }

  lemma ChainBound(k: Key)
    ensures 0 < ChainOf(k) < NHEADS
  {
  }

  lemma LinkKeeps(s: State, p: Pid)
    requires Inv(s) && Enabled(s, Advance(p)) && s.procs[p].pc.Link?
    ensures Inv(Apply(s, Advance(p)))
  {
    hide LinksOk, KeysOk, MeaningOk, HomesOk, Exclusive, Explained, Apply, ChainOf, Database.IsBlankKey, Blanks, View,
      HandsOk,
      DatsOk, Prepend, ScanOk, FreeOk;
    var s', a := Apply(s, Advance(p)), s.procs[p];
    AdvanceIs(s, p);
    assert ProcOk(s, p);
    var c, r := ChainOf(a.op.key), a.cur.r;
    ChainBound(a.op.key);
    HandAlone(s, p, r);
    ReplyRight(s, p);
    assert Pushed(s, s', p, c, r) by {
      ShapeSizes(s);
    }
    PushedLists(s, s', p, c, r);
    PushedLinks(s, s', p, c, r);
    PushedHands(s, s', p, c, r);
    assert Stored(s, s', p, r, DataOf(a.op));
    LinkMeaning(s, s', p, r, DataOf(a.op));
    LinkKeys(s, s', p, r, DataOf(a.op));
    forall q | 0 <= q < |s.procs| && q != p
      ensures View(s, s', q)
    {
      PushedView(s, s', p, c, r, q);
    }
    UnlockOk(s', p);
    MoveKeeps(s, p);
  }

  lemma ShapeSizes(s: State)
    requires Inv(s)
    ensures |s.f.heads| == |s.g.lists| == NHEADS && |s.g.home| == |s.g.holder| == |s.f.recs|
  {
  }

  lemma UnlockOk(s: State, p: Pid)
    requires p < |s.procs| && |s.g.lists| == NHEADS && s.procs[p].pc.Unlock?
    requires s.procs[p].op.StoreOp? ==> !s.procs[p].op.flag.OtherFlag?
    ensures ProcOk(s, p)
  {
  }

  /** A deleted record is on the free list. */
  lemma DelFreeMeaning(s: State, s': State, p: Pid, r: nat)
    requires Inv(s) && Pushed(s, s', p, FREE, r) && Database.IsBlankKey(s.f.recs[r].key)
    requires s'.g.at == s.g.at && s'.contents == s.contents
    requires Midway(s.procs[p]) ==> Midway(s'.procs[p]) && s'.procs[p].op == s.procs[p].op
    ensures KeysOk(s') && MeaningOk(s')
  {
    hide AllStored, OpOk, WalkOk, FreeOk, HandOk, ScanOk, Exclusive, Explained, ChainOf, Database.IsBlankKey, InHand,
      Midway, Pending,
      HandsOk, LinksOk, HomesOk, Prepend, DatsOk;
    HandAlone(s, p, r);
    forall k | k in s'.g.at
      ensures s'.g.at[k] != r
    {
      ChainBound(k);
    }
    AllStoredKept(s, s', p);
  }

  lemma DelFreeKeeps(s: State, p: Pid)
    requires Inv(s) && Enabled(s, Advance(p)) && s.procs[p].pc.DelFree?
    ensures Inv(Apply(s, Advance(p)))
  {
    hide LinksOk, KeysOk, MeaningOk, HomesOk, Exclusive, Explained, Apply, ChainOf, View, HandsOk, DatsOk, Prepend,
      ScanOk;
    var s', a := Apply(s, Advance(p)), s.procs[p];
    AdvanceIs(s, p);
    assert ProcOk(s, p);
    var r := a.cur.r;
    HandAlone(s, p, r);
    assert Pushed(s, s', p, FREE, r) by {
      ShapeSizes(s);
    }
    PushedLists(s, s', p, FREE, r);
    PushedLinks(s, s', p, FREE, r);
    PushedHands(s, s', p, FREE, r);
    DelFreeMeaning(s, s', p, r);
    assert s'.g.at == s.g.at && s'.contents == s.contents && WritesFree(s.procs[p].pc);
    forall q | 0 <= q < |s.procs| && q != p
      ensures View(s, s', q)
    {
      PushedView(s, s', p, FREE, r, q);
    }
    DelLinkOk(s, s', p, r);
    MoveKeeps(s, p);
  }

  lemma DelLinkOk(s: State, s': State, p: Pid, r: nat)
    requires Inv(s) && Pushed(s, s', p, FREE, r) && s.procs[p].pc.DelFree? && s'.procs[p] == s.procs[p].(pc := DelLink)
    requires s'.g.at == s.g.at && s'.contents == s.contents
    ensures ProcOk(s', p)
  {
    hide LinksOk, KeysOk, MeaningOk, HomesOk, Exclusive, Explained, HandsOk, DatsOk, Prepend, ChainOf;
    assert ProcOk(s, p);
    ChainBound(s.procs[p].op.key);
  }

  // ---------- the pointer before a deleted record rewritten

  ghost predicate CellChange(s: State, s': State, p: Pid, c: nat, k: nat, v: Ptr) {
    && OnlyMover(s, s', p) && c < NHEADS && |s.f.heads| == |s.g.lists| == NHEADS && k <= |s.g.lists[c]|
    && s'.f == PutCell(s.f, CellOf(s.g.lists[c], c, k), v)
    && s'.contents == s.contents && s'.g.at == s.g.at && s'.g.owner == s.g.owner
  }

  /** A cell of one list is written: the records keep their other fields, the other cells keep their pointers. */
  lemma CellFrame(s: State, s': State, p: Pid, c: nat, k: nat, v: Ptr)
    requires ListsOk(s) && CellChange(s, s', p, c, k, v)
    ensures |s'.f.recs| == |s.f.recs| && |s'.f.heads| == |s.f.heads| && s'.f.dats == s.f.dats
    ensures forall r {:trigger RecAt(s'.f, To(r))} :: RecAt(s'.f, To(r)).key == RecAt(s.f, To(r)).key
              && RecAt(s'.f, To(r)).dat == RecAt(s.f, To(r)).dat && RecAt(s'.f, To(r)).len == RecAt(s.f, To(r)).len
    ensures forall r {:trigger RecAt(s'.f, To(r))} :: 0 <= r < |s.f.recs| && s.g.home[r] != c ==> RecAt(s'.f, To(r)) == RecAt(s.f, To(r))
    ensures forall d :: d != c ==> HeadAt(s'.f, d) == HeadAt(s.f, d)
    ensures CellAt(s'.f, CellOf(s.g.lists[c], c, k)) == v
    ensures forall i :: 0 <= i <= |s.g.lists[c]| && i != k ==>
              CellAt(s'.f, CellOf(s.g.lists[c], c, i)) == CellAt(s.f, CellOf(s.g.lists[c], c, i))
  {
    var list := s.g.lists[c];
    if k > 0 {
      assert list[k - 1] in list;
    }
  }

  lemma DelLinkLinks(s: State, s': State, p: Pid)
    requires Inv(s) && p < |s.procs| && s.procs[p].pc.DelLink? && s'.g == s.g
    requires var a := s.procs[p];
             CellChange(s, s', p, ChainOf(a.op.key), a.pos, PtrAt(s.g.lists[ChainOf(a.op.key)], a.pos))
    ensures LinksOk(s')
  {
    hide OpOk, WalkOk, FreeOk, HandOk, ScanOk, Exclusive, Explained, ChainOf, Database.IsBlankKey, Midway, InHand,
      MeaningOk, KeysOk, DatsOk, HandsOk, PutCell, CellOf, CellAt, PtrAt;
    var a := s.procs[p];
    var c := ChainOf(a.op.key);
    CellFrame(s, s', p, c, a.pos, PtrAt(s.g.lists[c], a.pos));
    forall d, i | 0 <= d < NHEADS && 0 <= i <= |s'.g.lists[d]|
      ensures LinkOk(s'.f, s'.g.lists, d, i) || Held(s'.procs, d, i)
    {
      assert LinkOk(s.f, s.g.lists, d, i) || Held(s.procs, d, i);
      if d != c {
        LinksFrame(s, s', d, i);
      }
      if Held(s.procs, d, i) && !(d == c && i == a.pos) {
        HeldKept(s, s', p, d, i);
      }
    }
  }

  lemma CellWhole(s: State, s': State, p: Pid, c: nat, k: nat, v: Ptr)
    requires Inv(s) && CellChange(s, s', p, c, k, v) && s'.g == s.g && !InHand(s.procs[p])
    requires Midway(s.procs[p]) ==> Midway(s'.procs[p]) && s'.procs[p].op == s.procs[p].op
    ensures ListsOk(s') && HandsOk(s') && KeysOk(s') && DatsOk(s') && MeaningOk(s')
  {
    hide AllStored, OpOk, WalkOk, FreeOk, HandOk, ScanOk, Exclusive, Explained, ChainOf, Database.IsBlankKey, InHand,
      Midway, Pending,
      LinksOk, HomesOk, PutCell;
    CellFrame(s, s', p, c, k, v);
    forall r | 0 <= r < |s.f.recs|
      ensures s'.f.recs[r].key == s.f.recs[r].key && s'.f.recs[r].dat == s.f.recs[r].dat
      ensures s'.f.recs[r].len == s.f.recs[r].len
    {
      assert RecAt(s'.f, To(r)) == s'.f.recs[r];
    }
    AllStoredKept(s, s', p);
  }

  lemma CellView(s: State, s': State, p: Pid, k: nat, v: Ptr, q: Pid)
    requires Inv(s) && p < |s.procs| && CellChange(s, s', p, ChainOf(s.procs[p].op.key), k, v) && s'.g == s.g
    requires q < |s.procs| && q != p
    requires HoldsChain(s.procs[p].pc) && IsWriter(s.procs[p].op)
    ensures View(s, s', q)
  {
    hide LinksOk, KeysOk, MeaningOk, HandsOk, Explained, OpOk, WalkOk, FreeOk, ScanOk, ChainOf, DatsOk,
      Database.IsBlankKey, Blanks, Reusing, Publishing, DatInHand, InHand, PutCell;
    assert ProcOk(s, q);
    var c := ChainOf(s.procs[p].op.key);
    ChainBound(s.procs[p].op.key);
    CellFrame(s, s', p, c, k, v);
    assert !Conflict(s.procs[p], s.procs[q]);
    var b := s.procs[q];
    if b.pc.ScanDat? && b.pos < |s.f.recs| {
      assert RecAt(s'.f, To(b.pos)) == s'.f.recs[b.pos];
    }
  }

  lemma DelLinkKeeps(s: State, p: Pid)
    requires Inv(s) && Enabled(s, Advance(p)) && s.procs[p].pc.DelLink?
    ensures Inv(Apply(s, Advance(p)))
  {
    hide LinksOk, KeysOk, MeaningOk, HomesOk, Exclusive, Explained, Apply, ChainOf, View, HandsOk, DatsOk, PutCell,
      CellOf;
    var s', a := Apply(s, Advance(p)), s.procs[p];
    AdvanceIs(s, p);
    assert ProcOk(s, p);
    var c := ChainOf(a.op.key);
    ChainBound(a.op.key);
    assert CellChange(s, s', p, c, a.pos, a.next);
    DelLinkLinks(s, s', p);
    CellWhole(s, s', p, c, a.pos, a.next);
    forall q | 0 <= q < |s.procs| && q != p
      ensures View(s, s', q)
    {
      CellView(s, s', p, a.pos, a.next, q);
    }
    assert ProcOk(s', p);
    MoveKeeps(s, p);
  }

  // ---------- a record taken off a list

  ghost predicate Taken(s: State, s': State, p: Pid, c: nat, k: nat, r: nat) {
    && OnlyMover(s, s', p) && c < NHEADS && |s.f.heads| == |s.g.lists| == NHEADS
    && |s.f.recs| == |s.g.home| == |s.g.holder| && k < |s.g.lists[c]| && s.g.lists[c][k] == r < |s.f.recs|
    && |s'.f.recs| == |s.f.recs| && |s'.f.heads| == |s.f.heads|
    && s'.g.lists == s.g.lists[c := RemoveAt(s.g.lists[c], k)]
    && s'.g.home == s.g.home[r := LIMBO] && s'.g.holder == s.g.holder[r := p] && s'.g.owner == s.g.owner
    && !InHand(s.procs[p]) && InHand(s'.procs[p]) && s'.procs[p].cur == To(r)
  }

  lemma TakenLists(s: State, s': State, p: Pid, c: nat, k: nat, r: nat)
    requires Inv(s) && Taken(s, s', p, c, k, r)
    ensures ListsOk(s') && HandsOk(s')
  {
    hide OpOk, WalkOk, FreeOk, HandOk, ScanOk, Exclusive, Explained, ChainOf, Database.IsBlankKey, InHand, Midway,
      Pending,
      MeaningOk, KeysOk, DatsOk, LinksOk, RemoveAt;
    var list := s.g.lists[c];
    RemoveAtElements(list, k);
    assert list[k] in list;
    assert Below(s'.g.lists[c], |s.f.recs|) by {
      forall j | 0 <= j < |s'.g.lists[c]|
        ensures s'.g.lists[c][j] < |s.f.recs|
      {
        assert s'.g.lists[c][j] in s'.g.lists[c];
      }
    }
  }

  /** The links of the list that lost the record, but for the cell that pointed at it. */
  lemma TakenLink(s: State, s': State, p: Pid, c: nat, k: nat, r: nat, i: nat)
    requires ListsOk(s) && Taken(s, s', p, c, k, r) && i <= |s'.g.lists[c]| && i != k
    requires LinkOk(s.f, s.g.lists, c, if i < k then i else i + 1)
    requires forall j :: 0 <= j <= |s.g.lists[c]| && j != k ==>
               CellAt(s'.f, CellOf(s.g.lists[c], c, j)) == CellAt(s.f, CellOf(s.g.lists[c], c, j))
    ensures LinkOk(s'.f, s'.g.lists, c, i)
  {
    hide CellAt, HomesOk, InHand;
  }

  /** What is left of a list without its k-th record points on from the cell before it. */
  lemma TakenCell(s: State, s': State, p: Pid, c: nat, k: nat, r: nat)
    requires ListsOk(s) && Taken(s, s', p, c, k, r)
    ensures CellOf(s'.g.lists[c], c, k) == CellOf(s.g.lists[c], c, k)
    ensures PtrAt(s'.g.lists[c], k) == PtrAt(s.g.lists[c], k + 1)
  {
    hide HomesOk, InHand;
  }

  lemma FreeTakeLinks(s: State, s': State, p: Pid, k: nat, r: nat)
    requires Inv(s) && Taken(s, s', p, FREE, k, r) && HoldsChain(s.procs[p].pc) && !Pending(s.procs[p].pc)
    requires CellChange(s, s', p, FREE, k, s.f.recs[r].next)
    ensures LinksOk(s')
  {
    hide OpOk, WalkOk, FreeOk, HandOk, ScanOk, Exclusive, Explained, ChainOf, Database.IsBlankKey, Midway, InHand,
      MeaningOk, KeysOk, DatsOk, HandsOk, PutCell, CellOf, CellAt, PtrAt, RemoveAt, HomesOk, LinkOk;
    CellFrame(s, s', p, FREE, k, s.f.recs[r].next);
    forall d, i | 0 <= d < NHEADS && 0 <= i <= |s'.g.lists[d]|
      ensures LinkOk(s'.f, s'.g.lists, d, i) || Held(s'.procs, d, i)
    {
      if d == FREE {
        FreeTakeLink(s, s', p, k, r, i);
      } else {
        OtherList(s, FREE, d);
        LinksFrame(s, s', d, i);
        if Held(s.procs, d, i) {
          HeldKept(s, s', p, d, i);
        }
      }
    }
  }

  lemma OtherList(s: State, c: nat, d: nat)
    requires ListsOk(s) && c < NHEADS && d < NHEADS && c != d
    ensures forall r :: r in s.g.lists[d] ==> 0 <= r < |s.f.recs| && s.g.home[r] != c
  {
  }

  lemma FreeTakeLink(s: State, s': State, p: Pid, k: nat, r: nat, i: nat)
    requires Inv(s) && Taken(s, s', p, FREE, k, r) && HoldsChain(s.procs[p].pc) && i <= |s'.g.lists[FREE]|
    requires CellChange(s, s', p, FREE, k, s.f.recs[r].next)
    ensures LinkOk(s'.f, s'.g.lists, FREE, i)
  {
    hide OpOk, WalkOk, FreeOk, HandOk, ScanOk, Exclusive, Explained, ChainOf, Database.IsBlankKey, Midway, InHand,
      MeaningOk, KeysOk, DatsOk, HandsOk, PutCell, HomesOk, LinksOk, RemoveAt;
    CellFrame(s, s', p, FREE, k, s.f.recs[r].next);
    if i == k {
      TakenCell(s, s', p, FREE, k, r);
      LinkAt(s, p, FREE, k + 1);
    } else {
      LinkAt(s, p, FREE, if i < k then i else i + 1);
      TakenLink(s, s', p, FREE, k, r, i);
    }
  }

  lemma FreeTakeWhole(s: State, s': State, p: Pid, k: nat, r: nat)
    requires Inv(s) && Taken(s, s', p, FREE, k, r) && CellChange(s, s', p, FREE, k, s.f.recs[r].next)
    requires Midway(s.procs[p]) ==> Midway(s'.procs[p]) && s'.procs[p].op == s.procs[p].op
    ensures KeysOk(s') && DatsOk(s') && MeaningOk(s')
  {
    hide AllStored, OpOk, WalkOk, FreeOk, HandOk, ScanOk, Exclusive, Explained, ChainOf, Database.IsBlankKey, InHand,
      Midway, Pending,
      LinksOk, HomesOk, PutCell, HandsOk, RemoveAt;
    CellFrame(s, s', p, FREE, k, s.f.recs[r].next);
    assert r in s.g.lists[FREE];
    OnFreeList(s, r);
    forall j | 0 <= j < |s.f.recs|
      ensures s'.f.recs[j].key == s.f.recs[j].key && s'.f.recs[j].dat == s.f.recs[j].dat
      ensures s'.f.recs[j].len == s.f.recs[j].len
    {
      assert RecAt(s'.f, To(j)) == s'.f.recs[j];
    }
    AllStoredKept(s, s', p);
  }

  lemma OnFreeList(s: State, r: nat)
    requires Inv(s) && r in s.g.lists[FREE]
    ensures r < |s.f.recs| && s.g.home[r] == FREE && Database.IsBlankKey(s.f.recs[r].key)
    ensures forall k :: k in s.g.at ==> s.g.at[k] != r
  {
    hide OpOk, WalkOk, FreeOk, HandOk, ScanOk, Exclusive, Explained, LinksOk, HandsOk, DatsOk, MeaningOk;
    forall k | k in s.g.at
      ensures s.g.at[k] != r
    {
      ChainBound(k);
    }
  }

  lemma FreeTakeView(s: State, s': State, p: Pid, k: nat, r: nat, q: Pid)
    requires Inv(s) && Taken(s, s', p, FREE, k, r) && CellChange(s, s', p, FREE, k, s.f.recs[r].next) && q < |s.procs|
    requires q != p
    requires WritesFree(s.procs[p].pc)
    ensures View(s, s', q)
  {
    hide LinksOk, KeysOk, MeaningOk, HandsOk, Explained, OpOk, WalkOk, FreeOk, ScanOk, ChainOf, DatsOk,
      Database.IsBlankKey, Blanks, Reusing, Publishing, DatInHand, InHand, PutCell, RemoveAt;
    assert ProcOk(s, q);
    CellFrame(s, s', p, FREE, k, s.f.recs[r].next);
    assert !Conflict(s.procs[p], s.procs[q]);
    assert r in s.g.lists[FREE];
    ChainBound(s.procs[q].op.key);
  }

  lemma FreeTakeMover(s: State, s': State, p: Pid, k: nat, r: nat)
    requires Inv(s) && Taken(s, s', p, FREE, k, r) && CellChange(s, s', p, FREE, k, s.f.recs[r].next)
    requires s.procs[p].pc.FreeTake? && s'.procs[p] == s.procs[p].(pc := FreeUnlock) && s.procs[p].cur == To(r)
    ensures ProcOk(s', p)
  {
    hide LinksOk, KeysOk, MeaningOk, HomesOk, Exclusive, Explained, HandsOk, DatsOk, ChainOf, Database.IsBlankKey,
      PutCell, RemoveAt;
    assert ProcOk(s, p);
    CellFrame(s, s', p, FREE, k, s.f.recs[r].next);
    assert r in s.g.lists[FREE];
    OnFreeList(s, r);
    ChainBound(s.procs[p].op.key);
    assert RecAt(s'.f, To(r)) == s'.f.recs[r];
  }

  lemma FreeTakeKeeps(s: State, p: Pid)
    requires Inv(s) && Enabled(s, Advance(p)) && s.procs[p].pc.FreeTake?
    ensures Inv(Apply(s, Advance(p)))
  {
    hide LinksOk, KeysOk, MeaningOk, HomesOk, Exclusive, Explained, Apply, ChainOf, View, HandsOk, DatsOk, PutCell,
      CellOf, RemoveAt, ScanOk, WalkOk, HandOk;
    var s', a := Apply(s, Advance(p)), s.procs[p];
    AdvanceIs(s, p);
    assert ProcOk(s, p);
    ShapeSizes(s);
    var k, r := a.pos, a.cur.r;
    assert Below(s.g.lists[FREE], |s.f.recs|);
    assert CellChange(s, s', p, FREE, k, s.f.recs[r].next);
    CellFrame(s, s', p, FREE, k, s.f.recs[r].next);
    assert Taken(s, s', p, FREE, k, r);
    TakenLists(s, s', p, FREE, k, r);
    FreeTakeLinks(s, s', p, k, r);
    FreeTakeWhole(s, s', p, k, r);
    forall q | 0 <= q < |s.procs| && q != p
      ensures View(s, s', q)
    {
      FreeTakeView(s, s', p, k, r, q);
    }
    FreeTakeMover(s, s', p, k, r);
    MoveKeeps(s, p);
  }

  // ---------- the first write of a deletion

  /** Data record and list at once: from here on the record is off its chain for everybody but the deleter. */
  ghost predicate Detached(s: State, s': State, p: Pid, r: nat) {
    && p < |s.procs| && Taken(s, s', p, ChainOf(s.procs[p].op.key), s.procs[p].pos, r)
    && s.procs[p].pc.DelDat? && s'.procs[p] == s.procs[p].(pc := DelReadFree)
    && s.f.recs[r].dat < |s.f.dats|
    && s'.f == s.f.(dats := s.f.dats[s.f.recs[r].dat := Blanks(|s.f.dats[s.f.recs[r].dat]|)])
    && s'.g.at == s.g.at - {s.procs[p].op.key}
    && s'.contents == (if s.procs[p].op.DeleteOp? then s.contents - {s.procs[p].op.key} else s.contents)
  }

  lemma DetachedLinks(s: State, s': State, p: Pid, r: nat)
    requires Inv(s) && Detached(s, s', p, r)
    ensures LinksOk(s')
  {
    hide OpOk, WalkOk, FreeOk, HandOk, ScanOk, Exclusive, Explained, ChainOf, Database.IsBlankKey, Midway, InHand,
      MeaningOk, KeysOk, DatsOk, HandsOk, CellOf, PtrAt, RemoveAt, HomesOk, LinkOk;
    var a := s.procs[p];
    var c := ChainOf(a.op.key);
    forall d, i | 0 <= d < NHEADS && 0 <= i <= |s'.g.lists[d]|
      ensures LinkOk(s'.f, s'.g.lists, d, i) || Held(s'.procs, d, i)
    {
      if d == c && i == a.pos {
        assert PendingAt(s'.procs[p], d, i);
      } else if d == c {
        LinkAt(s, p, c, if i < a.pos then i else i + 1);
        TakenLink(s, s', p, c, a.pos, r, i);
      } else {
        LinksFrame(s, s', d, i);
        if Held(s.procs, d, i) {
          HeldKept(s, s', p, d, i);
        }
      }
    }
  }

  lemma DetachedKeys(s: State, s': State, p: Pid, r: nat)
    requires Inv(s) && Detached(s, s', p, r) && s.procs[p].op.key in s.g.at && s.g.at[s.procs[p].op.key] == r
    ensures KeysOk(s')
  {
    hide OpOk, WalkOk, FreeOk, HandOk, ScanOk, Exclusive, Explained, ChainOf, Database.IsBlankKey, Midway, InHand,
      Pending,
      MeaningOk, HandsOk, CellOf, PtrAt, RemoveAt, HomesOk, LinksOk, Blanks, DatsOk;
  }

  lemma DetachedDats(s: State, s': State, p: Pid, r: nat)
    requires Inv(s) && Detached(s, s', p, r)
    ensures DatsOk(s')
  {
    hide OpOk, WalkOk, FreeOk, HandOk, ScanOk, Exclusive, Explained, ChainOf, Database.IsBlankKey, Midway, InHand,
      Pending,
      MeaningOk, HandsOk, CellOf, PtrAt, RemoveAt, HomesOk, LinksOk, Blanks, KeysOk;
    BlanksLength(|s.f.dats[s.f.recs[r].dat]|);
  }

  lemma BlanksLength(n: nat)
    ensures |Blanks(n)| == n && Database.IsBlankKey(Blanks(n))
  {
  }

  lemma DetachedData(s: State, s': State, p: Pid, r: nat, k: Key)
    requires Inv(s) && Detached(s, s', p, r) && s.procs[p].op.key in s.g.at && s.g.at[s.procs[p].op.key] == r
    requires k in s'.g.at
    ensures k in s'.contents && s'.contents[k] == DatAt(s'.f, RecAt(s'.f, To(s'.g.at[k])).dat)
  {
    hide OpOk, WalkOk, FreeOk, HandOk, ScanOk, Exclusive, Explained, ChainOf, Database.IsBlankKey, Midway, InHand,
      Pending,
      HandsOk, CellOf, PtrAt, RemoveAt, HomesOk, LinksOk, Blanks, Taken;
    assert s.g.at[k] != r;
  }

  lemma DetachedMeaning(s: State, s': State, p: Pid, r: nat)
    requires Inv(s) && Detached(s, s', p, r) && s.procs[p].op.key in s.g.at && s.g.at[s.procs[p].op.key] == r
    requires s.procs[p].op.DeleteOp? || Midway(s'.procs[p])
    ensures MeaningOk(s')
  {
    hide OpOk, WalkOk, FreeOk, HandOk, ScanOk, Exclusive, Explained, ChainOf, Database.IsBlankKey, Midway, InHand,
      Pending,
      HandsOk, CellOf, PtrAt, RemoveAt, HomesOk, LinksOk, Blanks, KeysOk, DatsOk;
    var key := s.procs[p].op.key;
    forall k | k in s'.contents
      ensures k in s'.g.at || SomeMidway(s'.procs, k)
    {
      if k == key {
        assert MidwayAt(s'.procs[p], k);
      } else if k !in s.g.at {
        MidwayKept(s, s', p, k);
      }
    }
    forall k | k in s'.g.at
      ensures k in s'.contents && s'.contents[k] == DatAt(s'.f, RecAt(s'.f, To(s'.g.at[k])).dat)
    {
      DetachedData(s, s', p, r, k);
    }
  }

  lemma DetachedView(s: State, s': State, p: Pid, r: nat, q: Pid)
    requires Inv(s) && Detached(s, s', p, r) && q < |s.procs| && q != p && IsWriter(s.procs[p].op)
    ensures View(s, s', q)
  {
    hide LinksOk, KeysOk, MeaningOk, HandsOk, Explained, OpOk, WalkOk, FreeOk, ScanOk, ChainOf, DatsOk,
      Database.IsBlankKey, Blanks, RemoveAt;
    assert ProcOk(s, q);
    assert !Conflict(s.procs[p], s.procs[q]);
    var c := ChainOf(s.procs[p].op.key);
    ChainBound(s.procs[p].op.key);
    assert r in s.g.lists[c];
    NotInHand(s, q, r);
    DatAlone(s, q, r);
  }

  lemma DetachedMover(s: State, s': State, p: Pid, r: nat)
    requires Inv(s) && Detached(s, s', p, r) && s.procs[p].cur == To(r)
    ensures ProcOk(s', p)
  {
    hide LinksOk, KeysOk, HomesOk, Exclusive, Explained, HandsOk, DatsOk, ChainOf, Database.IsBlankKey, RemoveAt,
      Blanks,
      MeaningOk, CellOf, PtrAt;
    assert ProcOk(s, p);
    var a := s.procs[p];
    var c := ChainOf(a.op.key);
    FoundStored(s, p);
    LinkAt(s, p, c, a.pos + 1);
    TakenCell(s, s', p, c, a.pos, r);
    NextOf(s, c, a.pos);
  }

  lemma NextOf(s: State, c: nat, k: nat)
    requires ListsOk(s) && c < NHEADS && k < |s.g.lists[c]| && LinkOk(s.f, s.g.lists, c, k + 1)
    ensures RecAt(s.f, PtrAt(s.g.lists[c], k)).next == PtrAt(s.g.lists[c], k + 1)
  {
  }

  lemma DelDatKeeps(s: State, p: Pid)
    requires Inv(s) && Enabled(s, Advance(p)) && s.procs[p].pc.DelDat?
    ensures Inv(Apply(s, Advance(p)))
  {
    hide LinksOk, KeysOk, MeaningOk, HomesOk, Exclusive, Explained, Apply, ChainOf, View, HandsOk, CellOf, RemoveAt,
      ScanOk, HandOk, FreeOk, Blanks;
    var s', a := Apply(s, Advance(p)), s.procs[p];
    AdvanceIs(s, p);
    assert ProcOk(s, p);
    ShapeSizes(s);
    FoundStored(s, p);
    ChainBound(a.op.key);
    var r := a.cur.r;
    assert Detached(s, s', p, r);
    TakenLists(s, s', p, ChainOf(a.op.key), a.pos, r);
    DetachedLinks(s, s', p, r);
    DetachedKeys(s, s', p, r);
    DetachedDats(s, s', p, r);
    DetachedMeaning(s, s', p, r);
    forall q | 0 <= q < |s.procs| && q != p
      ensures View(s, s', q)
    {
      DetachedView(s, s', p, r, q);
    }
    DetachedMover(s, s', p, r);
    MoveKeeps(s, p);
  }
}
