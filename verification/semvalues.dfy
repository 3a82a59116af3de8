/** The values of the members of the semaphore set of apue.3e/lib/semaph.c, told by the calls made. */
module SemValues {
  import opened Basics
  import opened Semaphore

  // ---------- what sem_create was asked for

  /** The initial value of the last sem_create of p. */
  function Asked(steps: seq<Step>, p: Pid): (i: nat)
    decreases |steps|
  {
    if steps == [] then 0
    else
      var step := steps[|steps| - 1];
      if step.SemGet? && step.p == p then step.initval else Asked(steps[..|steps| - 1], p)
  }

  /** The process is inside sem_create. */
  predicate Creating(a: At) {
    a.GotId? || a.Locked? || a.Read? || a.Set0? || a.Ready?
  }

  ghost predicate Remembers(s: State, steps: seq<Step>) {
    forall p :: Creating(AtOf(s, p)) ==> AtOf(s, p).initval == Asked(steps, p)
  }

  lemma CreatorRemembers(s: State, step: Step, p: Pid)
    requires Enabled(s, step)
    ensures var a, a' := AtOf(s, p), AtOf(Apply(s, step), p);
            Creating(a') ==>
              if step.SemGet? && step.p == p then a'.initval == step.initval else Creating(a) && a'.initval == a.initval
  {
  }

  lemma {:induction false} RunRemembers(steps: seq<Step>)
    requires LegalRun(steps)
    ensures Remembers(After(steps), steps)
    decreases |steps|
  {
    hide Enabled, Apply;
    if steps == [] {
      InitialOutside();
    } else {
      var front, step := steps[..|steps| - 1], steps[|steps| - 1];
      RunRemembers(front);
      forall p
        ensures var a := AtOf(After(steps), p); Creating(a) ==> a.initval == Asked(steps, p)
      {
        CreatorRemembers(After(front), step, p);
      }
    }
  }

  lemma InitialOutside()
    ensures forall p :: !Creating(AtOf(INITIAL, p))
  {
  }

  // ---------- member [0]

  /** The initial value, what each process has added since and would take back at its exit, and what exits could not take
      back, as a member is never below 0. */
  datatype Ledger = Ledger(initial: int, owed: map<Pid, int>, lost: int)

  function OwedBy(b: Ledger, p: Pid): (n: int) {
    if p in b.owed then b.owed[p] else 0
  }

  ghost function Balance(b: Ledger): (n: int) {
    b.initial + SumOf(b.owed) + b.lost
  }

  /** The ledger of a run, by its steps alone. */
  ghost function Book(steps: seq<Step>): (b: Ledger)
    decreases |steps|
  {
    if steps == [] then Ledger(0, map[], 0)
    else
      var front := steps[..|steps| - 1];
      Entered(Book(front), steps[|steps| - 1], Asked(front, steps[|steps| - 1].p))
  }

  ghost function Entered(b: Ledger, step: Step, asked: nat): (b': Ledger) {
    match step
    case SetFirst(_) => Ledger(asked, map[], 0)
    case Operate(p, amount) => b.(owed := b.owed[p := OwedBy(b, p) + amount])
    case Exit(p) =>
      var more := OwedBy(b, p) - Balance(b);
      b.(owed := b.owed - {p}, lost := b.lost + if more > 0 then more else 0)
    case Remove(_) => Ledger(0, map[], 0)
    case _ => b
  }

  lemma OwedSum(b: Ledger, p: Pid)
    ensures SumOf(b.owed) == OwedBy(b, p) + SumOf(b.owed - {p})
  {
    if p in b.owed {
      SumOfTake(b.owed, p);
    } else {
      assert b.owed - {p} == b.owed;
    }
  }

  lemma BalanceOperated(b: Ledger, p: Pid, amount: int)
    ensures Balance(b.(owed := b.owed[p := OwedBy(b, p) + amount])) == Balance(b) + amount
  {
    hide SumOf;
    var m := b.owed[p := OwedBy(b, p) + amount];
    OwedSum(b, p);
    SumOfTake(m, p);
    assert m - {p} == b.owed - {p};
  }

  lemma BalanceExited(b: Ledger, step: Step, asked: nat)
    requires step.Exit?
    ensures Balance(Entered(b, step, asked)) == Floor(Balance(b) - OwedBy(b, step.p))
  {
    hide SumOf;
    OwedSum(b, step.p);
  }

  ghost predicate BookOk(s: State, b: Ledger) {
    && Balance(b) >= 0
    && (s.set_.NoSet? ==> b.owed == map[] && Balance(b) == 0)
    && (s.set_.TheSet? ==> s.set_.s.v0 == Balance(b) && forall p :: AdjustOf(s.set_.s, p).a0 == 0 - OwedBy(b, p))
  }

  /** Member [0] after a step. */
  lemma ValueAfter(s: State, step: Step)
    requires Enabled(s, step) && Apply(s, step).set_.TheSet?
    ensures Apply(s, step).set_.s.v0 ==
      if s.set_.NoSet? then 0
      else if step.SetFirst? then AtOf(s, step.p).initval
      else if step.Operate? then s.set_.s.v0 + step.amount
      else if step.Exit? then Floor(s.set_.s.v0 + AdjustOf(s.set_.s, step.p).a0)
      else s.set_.s.v0
  {
  }

  /** What p would have taken back after a step. */
  lemma AdjustAfter(s: State, step: Step, p: Pid)
    requires Enabled(s, step) && Apply(s, step).set_.TheSet?
    ensures AdjustOf(Apply(s, step).set_.s, p).a0 ==
      if s.set_.NoSet? || step.SetFirst? || (step.Exit? && step.p == p) then 0
      else if step.Operate? && step.p == p then AdjustOf(s.set_.s, p).a0 - step.amount
      else AdjustOf(s.set_.s, p).a0
  {
  }

  lemma SetAfter(s: State, step: Step)
    requires Enabled(s, step)
    ensures Apply(s, step).set_.NoSet? <==> step.Remove? || (s.set_.NoSet? && !step.SemGet?)
    ensures s.set_.NoSet? ==> step.SemGet? || step.Retry? || step.Exit?
  {
  }

  lemma OwedAfter(b: Ledger, step: Step, asked: nat, p: Pid)
    ensures OwedBy(Entered(b, step, asked), p) ==
      if step.SetFirst? || step.Remove? || (step.Exit? && step.p == p) then 0
      else if step.Operate? && step.p == p then OwedBy(b, p) + step.amount
      else OwedBy(b, p)
  {
    hide Balance;
  }

  lemma BalanceAfter(b: Ledger, step: Step, asked: nat)
    ensures Balance(Entered(b, step, asked)) ==
      if step.SetFirst? then asked
      else if step.Remove? then 0
      else if step.Operate? then Balance(b) + step.amount
      else if step.Exit? then Floor(Balance(b) - OwedBy(b, step.p))
      else Balance(b)
  {
    hide SumOf;
    NoSum();
    if step.Operate? {
      BalanceOperated(b, step.p, step.amount);
    } else if step.Exit? {
      BalanceExited(b, step, asked);
    }
  }

  lemma NoSum()
    ensures SumOf(map[]) == 0
  {
  }

  lemma NothingLeft(b: Ledger, step: Step, asked: nat)
    requires b.owed == map[] && !step.Operate?
    ensures Entered(b, step, asked).owed == map[]
  {
    hide Balance;
  }

  lemma EntryKeeps(s: State, step: Step, b: Ledger, asked: nat)
    requires Enabled(s, step) && BookOk(s, b) && (step.SetFirst? ==> asked == AtOf(s, step.p).initval)
    ensures BookOk(Apply(s, step), Entered(b, step, asked))
  {
    hide SumOf, Balance, Entered, Apply, AdjustOf, OwedBy;
    var s', b' := Apply(s, step), Entered(b, step, asked);
    SetAfter(s, step);
    BalanceAfter(b, step, asked);
    if s'.set_.TheSet? {
      ValueAfter(s, step);
      forall p
        ensures AdjustOf(s'.set_.s, p).a0 == 0 - OwedBy(b', p)
      {
        AdjustAfter(s, step, p);
        OwedAfter(b, step, asked, p);
        NoneOwed(b, p);
      }
      NoneOwed(b, step.p);
    } else if step.Remove? {
      RemovedBook(b, step, asked);
    } else {
      NothingLeft(b, step, asked);
      NoneOwed(b, step.p);
    }
  }

  lemma NoneOwed(b: Ledger, p: Pid)
    ensures b.owed == map[] ==> OwedBy(b, p) == 0
  {
  }

  lemma RemovedBook(b: Ledger, step: Step, asked: nat)
    requires step.Remove?
    ensures Entered(b, step, asked).owed == map[]
  {
  }

  /** In every run member [0] is the initial value that was asked for, plus what each process that has not exited has
      added to it, plus what exits could not take back because it would have made the member negative. */
  lemma {:induction false} ValueIsBook(steps: seq<Step>)
    requires LegalRun(steps)
    ensures BookOk(After(steps), Book(steps))
    decreases |steps|
  {
    hide Enabled, Apply, BookOk;
    if steps == [] {
      InitialBook();
    } else {
      var front, step := steps[..|steps| - 1], steps[|steps| - 1];
      ValueIsBook(front);
      RunRemembers(front);
      if step.SetFirst? {
        SetterAsked(After(front), step);
      }
      EntryKeeps(After(front), step, Book(front), Asked(front, step.p));
    }
  }

  lemma InitialBook()
    ensures BookOk(INITIAL, Ledger(0, map[], 0))
  {
    NoSum();
  }

  lemma SetterAsked(s: State, step: Step)
    requires Enabled(s, step) && step.SetFirst?
    ensures Creating(AtOf(s, step.p))
  {
  }

  // ---------- what sem_create leaves

  ghost predicate NothingOwed(x: SemSet) {
    forall p :: AdjustOf(x, p).a0 == 0
  }

  /** Between setting member [0] and giving back the lock nobody else has the set. */
  ghost predicate FreshOk(s: State, p: Pid) {
    var a := AtOf(s, p);
    a.Set0? || (a.Ready? && a.first) ==>
      && s.set_.TheSet? && s.set_.s.v0 == a.initval && s.set_.s.openers == multiset{} && NothingOwed(s.set_.s)
      && (a.Ready? ==> s.set_.s.v1 == BIGCOUNT)
  }

  lemma FreshMover(s: State, step: Step)
    requires Inv(s) && Enabled(s, step) && FreshOk(s, step.p)
    ensures FreshOk(Apply(s, step), step.p)
  {
    var s', a' := Apply(s, step), AtOf(Apply(s, step), step.p);
    assert ProcessOk(s, step.p);
    if a'.Set0? || (a'.Ready? && a'.first) {
      forall q
        ensures AdjustOf(s'.set_.s, q).a0 == 0
      {
        AdjustAfter(s, step, q);
      }
    }
  }

  lemma FreshOther(s: State, step: Step, q: Pid)
    requires Inv(s) && Enabled(s, step) && FreshOk(s, q) && q != step.p
    ensures FreshOk(Apply(s, step), q)
  {
    OthersStay(s, step, q);
    var s', a := Apply(s, step), AtOf(s, q);
    if a.Set0? || (a.Ready? && a.first) {
      assert ProcessOk(s, step.p) && ProcessOk(s, q);
      assert HoldsLock(a) && s.set_.s.v2 == 1;
      forall u
        ensures AdjustOf(s'.set_.s, u).a0 == 0
      {
        AdjustAfter(s, step, u);
      }
    }
  }

  lemma {:induction false} RunFresh(steps: seq<Step>)
    requires LegalRun(steps) && AlwaysBounded(steps)
    ensures forall p :: FreshOk(After(steps), p)
    decreases |steps|
  {
    hide Enabled, Apply, FreshOk, Inv, Bounded;
    if steps == [] {
      InitialFresh();
    } else {
      var front, step := steps[..|steps| - 1], steps[|steps| - 1];
      RunFresh(front);
      RunsAreSafe(front);
      forall p
        ensures FreshOk(After(steps), p)
      {
        if p == step.p {
          FreshMover(After(front), step);
        } else {
          FreshOther(After(front), step, p);
        }
      }
    }
  }

  lemma InitialFresh()
    ensures forall p :: FreshOk(INITIAL, p)
  {
  }

  /** sem_create that finds the counter at 0 returns with the three members at the value asked for, BIGCOUNT - 1 and 0,
      and its caller as the one that has the set open; one that finds it counting adds its caller, and leaves member [0]
      as it is. */
  lemma CreateSets(steps: seq<Step>, p: Pid)
    requires LegalRun(steps) && AlwaysBounded(steps) && Enabled(After(steps), EndCreate(p))
    ensures var x, x' := After(steps).set_.s, Apply(After(steps), EndCreate(p)).set_.s;
            && x'.v2 == 0 && x'.v1 == x.v1 - 1 && x'.openers == x.openers + multiset{p} && x'.v0 == x.v0
            && (AtOf(After(steps), p).first ==>
                  x'.v0 == Asked(steps, p) && x'.v1 == BIGCOUNT - 1 && x'.openers == multiset{p})
  {
    hide LegalRun, After, AlwaysBounded, Asked;
    RunsAreSafe(steps);
    RunFresh(steps);
    RunRemembers(steps);
    var s := After(steps);
    assert FreshOk(s, p) && ProcessOk(s, p);
    assert HoldsLock(AtOf(s, p));
  }

  /** Which of the two it is depends on whether anybody has the set open or had: the counter is 0 only where nobody has. */
  lemma SetWhenNew(steps: seq<Step>, p: Pid)
    requires LegalRun(steps) && AlwaysBounded(steps)
    ensures var s := After(steps);
            && (Enabled(s, SetFirst(p)) ==> s.set_.s.openers == multiset{} && s.set_.s.v1 == 0)
            && (Enabled(s, SkipSet(p)) ==> s.set_.s.set0 && s.set_.s.v1 > 0)
            && (AtOf(s, p).Read? ==> Enabled(s, SetFirst(p)) || Enabled(s, SkipSet(p)))
  {
    hide LegalRun, After, AlwaysBounded;
    RunsAreSafe(steps);
    assert ProcessOk(After(steps), p);
  }

  // ---------- what sem_close leaves

  /** sem_close by the last one that has the set open removes it, and by any other gives back the lock. */
  lemma LastCloseRemoves(steps: seq<Step>, p: Pid)
    requires LegalRun(steps) && AlwaysBounded(steps) && Enabled(After(steps), GetClose(p))
    ensures var s := After(steps);
            var s' := Apply(s, GetClose(p));
            && (s.set_.s.openers == multiset{} <==> Enabled(s', Remove(p)))
            && (s.set_.s.openers != multiset{} <==> Enabled(s', Unlock(p)))
            && (Enabled(s', Remove(p)) ==> Apply(s', Remove(p)).set_.NoSet?)
  {
    hide LegalRun, After, AlwaysBounded;
    RunsAreSafe(steps);
    var s := After(steps);
    assert ProcessOk(s, p);
    assert HoldsLock(AtOf(s, p));
    assert |s.set_.s.openers| == 0 <==> s.set_.s.openers == multiset{};
  }

  /** sem_wait goes on exactly when member [0] is not 0, and sem_signal always. */
  lemma WaitsForValue(s: State, p: Pid)
    requires AtOf(s, p).Outside? && s.set_.TheSet? && s.set_.s.openers[p] > 0 && s.set_.s.v0 >= 0
    ensures Enabled(s, Operate(p, -1)) <==> s.set_.s.v0 != 0
    ensures Enabled(s, Operate(p, 1))
  {
  }

  /** A process in the critical section can always go on: nobody in it waits. */
  lemma SectionGoesOn(steps: seq<Step>, p: Pid)
    requires LegalRun(steps) && AlwaysBounded(steps) && HoldsLock(AtOf(After(steps), p))
    ensures exists step: Step :: step.p == p && !step.Exit? && Enabled(After(steps), step)
  {
    hide LegalRun, After, AlwaysBounded;
    RunsAreSafe(steps);
    var s, a := After(steps), AtOf(After(steps), p);
    assert ProcessOk(s, p);
    var step :=
      if a.Locked? then GetCreate(p)
      else if a.Read? then if a.semval == 0 then SetFirst(p) else SkipSet(p)
      else if a.Set0? then SetSecond(p)
      else if a.Ready? then EndCreate(p)
      else if a.Closing? then GetClose(p)
      else if a.semval == BIGCOUNT then Remove(p)
      else Unlock(p);
    assert step.p == p && !step.Exit? && Enabled(s, step);
  }
}
