/** What the callers of apue.3e/threads/mutex2.c get: the object that they ask for, or the knowledge that there is none. */
module FooIds {
  import opened Basics
  import opened FooTable

  /** The call is one with an id, up to where it returns. */
  predicate Asks(a: At) {
    || a.AllocWant? || a.AllocLinked? || a.AllocBoth? || a.AllocInit?
    || a.FindWant? || a.FindHas? || a.FindGot? || a.FindBoth? || a.FindCounted? || a.FindDone? || a.FindMiss?
  }

  /** The call has its object. */
  predicate HasObject(a: At) {
    Asks(a) && Touches(a).Some?
  }

  /** No object on the lists has the id. */
  ghost predicate NoneLinked(s: State, id: int) {
    forall b, o {:trigger o in s.fh[b]} :: 0 <= b < |s.fh| && o in s.fh[b] && o in s.objs ==> s.objs[o].id != id
  }

  ghost predicate IdOk(s: State, t: Tid) {
    var a := AtOf(s, t);
    && (HasObject(a) && ObjOf(a) in s.objs ==> s.objs[ObjOf(a)].id == a.id)
    && (a.FindMiss? ==> NoneLinked(s, a.id))
  }

  /** Every object has a reference: the last one to go takes it along. */
  ghost predicate Positive(s: State) {
    forall o :: o in s.objs ==> s.objs[o].count >= 1
  }

  /** The id of the last call of t that has one. */
  function Asked(steps: seq<Step>, t: Tid): (id: Option<int>)
    decreases |steps|
  {
    if steps == [] then None
    else
      var step := steps[|steps| - 1];
      if (step.StartAlloc? || step.StartFind?) && step.t == t then Some(step.id) else Asked(steps[..|steps| - 1], t)
  }

  // ---------- a step

  /** The id of an object never changes, and only linking and unlinking change a list. */
  lemma DoKeepsIds(s: State, t: Tid, e: Effect, o: Obj, r: Ref, x: Obj)
    requires |s.fh| == NHASH && (e != LockHash && e != UnlockHash && e != Look ==> o in s.objs)
    ensures var s' := Do(s, t, e, o, r);
            && (x in s'.objs ==> x in s.objs && s'.objs[x].id == s.objs[x].id)
            && (e != LockAndLink && e != Unlink ==> s'.fh == s.fh)
  {
  }

  /** The lists after a step of a thread that does not link: nothing new is on them. */
  lemma NothingNew(s: State, t: Tid, e: Effect, o: Obj, r: Ref, b: nat, x: Obj)
    requires ListsOk(s) && (e != LockHash && e != UnlockHash && e != Look ==> o in s.objs) && e != LockAndLink
    requires b < NHASH && x in Do(s, t, e, o, r).fh[b]
    ensures x in s.fh[b]
  {
    if e == Unlink {
      WithoutElements(s.fh[Bucket(s.objs[o].id)], o);
    }
  }

  lemma NoneLinkedKept(s: State, t: Tid, e: Effect, o: Obj, r: Ref, id: int)
    requires ListsOk(s) && (e != LockHash && e != UnlockHash && e != Look ==> o in s.objs) && e != LockAndLink
    requires NoneLinked(s, id)
    ensures NoneLinked(Do(s, t, e, o, r), id)
  {
    hide Do;
    var s' := Do(s, t, e, o, r);
    SameLength(s, t, e, o, r);
    forall b, x | 0 <= b < |s'.fh| && x in s'.fh[b] && x in s'.objs
      ensures s'.objs[x].id != id
    {
      NothingNew(s, t, e, o, r, b, x);
      DoKeepsIds(s, t, e, o, r, x);
      assert x in s.fh[b];
    }
  }

  lemma SameLength(s: State, t: Tid, e: Effect, o: Obj, r: Ref)
    requires |s.fh| == NHASH && (e != LockHash && e != UnlockHash && e != Look ==> o in s.objs)
    ensures |Do(s, t, e, o, r).fh| == NHASH
  {
  }

  /** How a call with an id goes on: it keeps its id and, once it has one, its object. */
  lemma AskTable(s: State, a: At)
    requires |s.fh| == NHASH && (a.ReleHas? || a.ReleBoth? ==> ObjOf(a) in s.objs)
    ensures var a' := NextAt(s, a);
            && (Asks(a') ==> Asks(a) && a'.id == a.id)
            && (HasObject(a') ==> a.FindHas? || (HasObject(a) && ObjOf(a') == ObjOf(a)))
            && (a'.FindMiss? ==> a.FindHas?)
            && (a.FindHas? ==> EffectOf(s, a) == Look && (a'.FindGot? || a'.FindMiss?))
  {
  }

  /** foo_find looks through the one list that the object can be on. */
  lemma LookRight(s: State, a: At)
    requires ListsOk(s) && a.FindHas?
    ensures NextAt(s, a).FindGot? ==> var o := ObjOf(NextAt(s, a)); o in s.objs && s.objs[o].id == a.id && Linked(s, o)
    ensures NextAt(s, a).FindMiss? ==> NoneLinked(s, a.id)
  {
    FindInElements(s.fh[Bucket(a.id)], s.objs, a.id);
  }

  lemma MoverIds(s: State, t: Tid)
    requires Inv(s) && Enabled(s, Advance(t)) && IdOk(s, t)
    ensures Safe(s, t) && IdOk(Next(s, t), t)
  {
    hide Do, EffectOf, NextAt, NoneLinked, ObjectOk, ThreadOk, Carries;
    InvSafe(s, t);
    var e, o, r := EffectOf(s, AtOf(s, t)), ObjOf(AtOf(s, t)), RefOf(AtOf(s, t));
    var a, a' := AtOf(s, t), NextAt(s, AtOf(s, t));
    assert ThreadOk(s, t);
    assert Moves(s, t, e, o, r);
    MovesLists(s, t, e, o, r);
    AskTable(s, a);
    DoKeepsIds(s, t, e, o, r, ObjOf(a'));
    if a.FindHas? {
      LookRight(s, a);
      if a'.FindMiss? {
        NoneLinkedKept(s, t, e, o, r, a.id);
      }
    }
    MovedSame(Do(s, t, e, o, r), t, a');
  }

  lemma MovedSame(s: State, t: Tid, a: At)
    ensures forall id :: NoneLinked(Go(s, t, a), id) == NoneLinked(s, id)
    ensures Go(s, t, a).objs == s.objs && AtOf(Go(s, t, a), t) == a
    ensures forall u :: u != t ==> AtOf(Go(s, t, a), u) == AtOf(s, u)
  {
  }

  lemma OtherIds(s: State, t: Tid, u: Tid)
    requires Inv(s) && Enabled(s, Advance(t)) && IdOk(s, u) && u != t
    ensures Safe(s, t) && IdOk(Next(s, t), u)
  {
    hide Do, EffectOf, NextAt, NoneLinked, ObjectOk, Carries;
    InvSafe(s, t);
    var e, o, r := EffectOf(s, AtOf(s, t)), ObjOf(AtOf(s, t)), RefOf(AtOf(s, t));
    assert ThreadOk(s, t) && ThreadOk(s, u);
    assert Moves(s, t, e, o, r);
    MovesLists(s, t, e, o, r);
    Table(s, t);
    DoMovesNobody(s, t, e, o, r);
    DoKeepsIds(s, t, e, o, r, ObjOf(AtOf(s, u)));
    MovedSame(Do(s, t, e, o, r), t, NextAt(s, AtOf(s, t)));
    if AtOf(s, u).FindMiss? {
      assert s.hashlock == Some(u);
      NoneLinkedKept(s, t, e, o, r, AtOf(s, u).id);
    }
  }

  lemma PositiveKept(s: State, t: Tid)
    requires Inv(s) && Enabled(s, Advance(t)) && Positive(s)
    ensures Safe(s, t) && Positive(Next(s, t))
  {
    hide ObjectOk, NextAt, RefsTo;
    InvSafe(s, t);
    assert ThreadOk(s, t);
    Table(s, t);
    CountsAfter(s, t);
  }

  lemma CountsAfter(s: State, t: Tid)
    requires Safe(s, t) && Positive(s) && !AtOf(s, t).Outside?
    requires ThreadRefs(s, t)
    ensures Positive(Next(s, t))
  {
    var s', a := Next(s, t), AtOf(s, t);
    forall x | x in s'.objs
      ensures s'.objs[x].count >= 1
    {
    }
  }

  /** A call that begins. */
  lemma StartIds(s: State, step: Step, u: Tid)
    requires Inv(s) && Enabled(s, step) && !step.Advance? && IdOk(s, u) && Positive(s)
    ensures IdOk(Apply(s, step), u) && Positive(Apply(s, step))
  {
    hide ObjectOk;
    var s' := Apply(s, step);
    NextIsNew(s);
    assert ThreadOk(s, u);
    if AtOf(s', u).FindMiss? {
      assert AtOf(s, u) == AtOf(s', u);
      forall b, o | 0 <= b < |s'.fh| && o in s'.fh[b] && o in s'.objs
        ensures s'.objs[o].id != AtOf(s, u).id
      {
        assert o in s.fh[b];
      }
    }
  }

  lemma NextIsNew(s: State)
    requires Inv(s)
    ensures s.nextObj !in s.objs
  {
    assert s.nextObj in s.objs ==> ObjectOk(s, s.nextObj);
  }

  // ---------- runs

  ghost predicate Knows(s: State, steps: seq<Step>) {
    && Positive(s)
    && forall t :: IdOk(s, t) && (Asks(AtOf(s, t)) ==> Asked(steps, t) == Some(AtOf(s, t).id))
  }

  lemma StepKnows(s: State, steps: seq<Step>, step: Step)
    requires Inv(s) && Enabled(s, step) && Knows(s, steps)
    ensures Knows(Take(s, step), steps + [step])
  {
    hide Inv, IdOk, Positive, Next;
    var s', more := Take(s, step), steps + [step];
    assert more[..|more| - 1] == steps;
    forall t
      ensures IdOk(s', t) && (Asks(AtOf(s', t)) ==> Asked(more, t) == Some(AtOf(s', t).id)) && Positive(s')
    {
      assert IdOk(s, t) && IdOk(s, step.t);
      if step.Advance? {
        PositiveKept(s, step.t);
        AskedKept(s, step.t, t);
        if t == step.t {
          MoverIds(s, t);
        } else {
          OtherIds(s, step.t, t);
        }
      } else {
        StartIds(s, step, t);
        StartAsks(s, step, t);
      }
    }
    assert Positive(s') by {
      assert IdOk(s, 0);
      if step.Advance? {
        PositiveKept(s, step.t);
      } else {
        StartIds(s, step, 0);
      }
    }
  }

  lemma AskedKept(s: State, u: Tid, t: Tid)
    requires Safe(s, u)
    ensures var a, a' := AtOf(s, t), AtOf(Next(s, u), t); Asks(a') ==> Asks(a) && a'.id == a.id
  {
    hide Do, EffectOf, NextAt;
    AskTable(s, AtOf(s, u));
    NextAtOf(s, u, t);
  }

  lemma NextAtOf(s: State, u: Tid, t: Tid)
    requires Safe(s, u)
    ensures AtOf(Next(s, u), t) == if t == u then NextAt(s, AtOf(s, u)) else AtOf(s, t)
  {
    hide EffectOf, NextAt;
  }

  lemma StartAsks(s: State, step: Step, t: Tid)
    requires Enabled(s, step) && !step.Advance?
    ensures var a, a' := AtOf(s, t), AtOf(Apply(s, step), t);
            if (step.StartAlloc? || step.StartFind?) && step.t == t then Asks(a') && a'.id == step.id
            else Asks(a') ==> a' == a
  {
  }

  lemma {:induction false} RunKnows(steps: seq<Step>)
    requires LegalRun(steps)
    ensures Knows(After(steps), steps)
    decreases |steps|
  {
    hide Inv, Knows, Take;
    if steps == [] {
      InitialKnows();
    } else {
      var front, step := steps[..|steps| - 1], steps[|steps| - 1];
      RunKnows(front);
      RunsAreSafe(front);
      StepKnows(After(front), front, step);
      assert front + [step] == steps;
    }
  }

  lemma InitialKnows()
    ensures Knows(Initial(), [])
  {
    forall t
      ensures AtOf(Initial(), t) == Outside
    {
    }
  }

  /** In every run: foo_alloc makes and foo_find returns an object with the id that it was called with; where foo_find
      returns none, no object on the lists has that id for as long as it holds the hash lock; and an object is there for
      as long as it has a reference, and no longer. */
  lemma CallersGetWhatTheyAsk(steps: seq<Step>, t: Tid)
    requires LegalRun(steps)
    ensures var s := After(steps);
            var a := AtOf(s, t);
            && (a.FindDone? || a.AllocInit? ==>
                  a.o in s.objs && Asked(steps, t).Some? && s.objs[a.o].id == Asked(steps, t).value)
            && (a.FindMiss? ==> Asked(steps, t).Some? && s.hashlock == Some(t) && NoneLinked(s, Asked(steps, t).value))
            && (forall o :: o in s.objs ==> s.objs[o].count == |RefsTo(s, o)| >= 1)
            && (forall r :: r in s.refs ==> s.refs[r].obj in s.objs)
  {
    hide LegalRun, After, RefsTo, NoneLinked, Asked;
    RunsAreSafe(steps);
    RunKnows(steps);
    var s := After(steps);
    assert ThreadOk(s, t) && IdOk(s, t);
    forall o | o in s.objs
      ensures s.objs[o].count == |RefsTo(s, o)|
    {
      assert ObjectOk(s, o);
    }
  }

  /** An object that no thread is making or unmaking is on its list, so that foo_find can find it. */
  lemma Findable(steps: seq<Step>, o: Obj)
    requires LegalRun(steps) && o in After(steps).objs
    requires forall t :: !(OffList(AtOf(After(steps), t)) && ObjOf(AtOf(After(steps), t)) == o)
    ensures |After(steps).fh| == NHASH && Linked(After(steps), o)
  {
    hide LegalRun, After;
    RunsAreSafe(steps);
    assert ObjectOk(After(steps), o);
  }

  /** foo_hold adds a reference of its caller's to the object, and nothing else. */
  lemma HoldAdds(s: State, t: Tid)
    requires Inv(s) && AtOf(s, t).HoldHas?
    ensures Safe(s, t) && Next(s, t).refs == s.refs[s.nextRef := Held(t, AtOf(s, t).o)] && s.nextRef !in s.refs
  {
    InvSafe(s, t);
  }
}
