/** The three-member System V semaphore protocol of apue.3e/lib/semaph.c as a state machine. A step is one system
    call of one process, or the exit of a process, at which the kernel applies the adjustments that SEM_UNDO
    has collected. */
module Semaphore {

  type Pid = nat

  const BIGCOUNT: int := 10000

  /** What SEM_UNDO will add to the three members when the process exits. */
  datatype Adjust = Adjust(a0: int, a1: int, a2: int)

  const NONE: Adjust := Adjust(0, 0, 0)

  /** A semaphore set: its identifier, its three members, the adjustments, whether member [0] was ever set, and
      the processes that have it open, each as often as it has. */
  datatype SemSet = SemSet(id: nat, v0: int, v1: int, v2: int, adjust: map<Pid, Adjust>, set0: bool, openers: multiset<Pid>)

  /** Where a process is: in sem_create after semget, after the lock, after GETVAL, after the first SETVAL and
      before the last semop, which says whether this process set the members; in sem_close after the first semop and after GETVAL. */
  datatype At =
    | Outside
    | GotId(id: nat, initval: nat)
    | Locked(id: nat, initval: nat)
    | Read(id: nat, initval: nat, semval: int)
    | Set0(id: nat, initval: nat)
    | Ready(id: nat, initval: nat, first: bool)
    | Closing(id: nat)
    | Closed(id: nat, semval: int)

  datatype State = State(set_: SetOrNone, nextId: nat, at: map<Pid, At>)
  datatype SetOrNone = NoSet | TheSet(s: SemSet)

  datatype Step =
    | SemGet(p: Pid, initval: nat)
    | LockCreate(p: Pid)
    | Retry(p: Pid)
    | GetCreate(p: Pid)
    | SetFirst(p: Pid)
    | SetSecond(p: Pid)
    | SkipSet(p: Pid)
    | EndCreate(p: Pid)
    | LockClose(p: Pid)
    | GetClose(p: Pid)
    | Remove(p: Pid)
    | Unlock(p: Pid)
    | Operate(p: Pid, amount: int)
    | Exit(p: Pid)

  function AtOf(s: State, p: Pid): (a: At) {
    if p in s.at then s.at[p] else Outside
  }

  function AdjustOf(x: SemSet, p: Pid): (a: Adjust) {
    if p in x.adjust then x.adjust[p] else NONE
  }

  /** The process is about to make a call on the set that exists, having got this identifier for it. */
  predicate On(s: State, id: nat) {
    s.set_.TheSet? && s.set_.s.id == id
  }

  predicate Enabled(s: State, step: Step) {
    var a := AtOf(s, step.p);
    match step
    case SemGet(_, _) => a.Outside?
    case LockCreate(_) => a.GotId? && On(s, a.id) && s.set_.s.v2 == 0
    case Retry(_) => a.GotId? && !On(s, a.id)
    case GetCreate(_) => a.Locked? && On(s, a.id)
    case SetFirst(_) => a.Read? && On(s, a.id) && a.semval == 0
    case SetSecond(_) => a.Set0? && On(s, a.id)
    case SkipSet(_) => a.Read? && On(s, a.id) && a.semval != 0
    case EndCreate(_) => a.Ready? && On(s, a.id) && s.set_.s.v1 >= 1 && s.set_.s.v2 >= 1
    case LockClose(p) => a.Outside? && s.set_.TheSet? && s.set_.s.v2 == 0 && s.set_.s.openers[p] > 0
    case GetClose(_) => a.Closing? && On(s, a.id)
    case Remove(_) => a.Closed? && On(s, a.id) && a.semval == BIGCOUNT
    case Unlock(_) => a.Closed? && On(s, a.id) && a.semval < BIGCOUNT && s.set_.s.v2 >= 1
    case Operate(p, amount) =>
      a.Outside? && s.set_.TheSet? && s.set_.s.openers[p] > 0 && amount != 0 && s.set_.s.v0 + amount >= 0
    case Exit(_) => true
  }

  function Move(s: State, p: Pid, a: At): (r: State) {
    s.(at := s.at[p := a])
  }

  function Update(s: State, x: SemSet): (r: State) {
    s.(set_ := TheSet(x))
  }

  /** semop with SEM_UNDO: the members change by d, the adjustments of p by -d. */
  function SemOp(x: SemSet, p: Pid, d: Adjust): (r: SemSet) {
    var a := AdjustOf(x, p);
    x.(v0 := x.v0 + d.a0, v1 := x.v1 + d.a1, v2 := x.v2 + d.a2,
       adjust := x.adjust[p := Adjust(a.a0 - d.a0, a.a1 - d.a1, a.a2 - d.a2)])
  }

  function Floor(v: int): (r: int) {
    if v < 0 then 0 else v
  }

  /** SETVAL clears the adjustments of the member in every process. */
  function Clear0(adjust: map<Pid, Adjust>): (r: map<Pid, Adjust>) {
    map p | p in adjust :: adjust[p].(a0 := 0)
  }

  function Clear1(adjust: map<Pid, Adjust>): (r: map<Pid, Adjust>) {
    map p | p in adjust :: adjust[p].(a1 := 0)
  }

  function Apply(s: State, step: Step): (r: State)
    requires Enabled(s, step)
  {
    var p := step.p;
    var a := AtOf(s, p);
    match step
    case SemGet(_, initval) =>
      if s.set_.TheSet? then Move(s, p, GotId(s.set_.s.id, initval))
      else State(TheSet(SemSet(s.nextId, 0, 0, 0, map[], false, multiset{})), s.nextId + 1, s.at[p := GotId(s.nextId, initval)])
    case LockCreate(_) => Move(Update(s, SemOp(s.set_.s, p, Adjust(0, 0, 1))), p, Locked(a.id, a.initval))
    case Retry(_) => Move(s, p, Outside)
    case GetCreate(_) => Move(s, p, Read(a.id, a.initval, s.set_.s.v1))
    case SetFirst(_) =>
      Move(Update(s, s.set_.s.(v0 := a.initval, set0 := true, adjust := Clear0(s.set_.s.adjust))), p, Set0(a.id, a.initval))
    case SetSecond(_) => Move(Update(s, s.set_.s.(v1 := BIGCOUNT, adjust := Clear1(s.set_.s.adjust))), p,
           Ready(a.id, a.initval, true))
    case SkipSet(_) => Move(s, p, Ready(a.id, a.initval, false))
    case EndCreate(_) =>
      var x := SemOp(s.set_.s, p, Adjust(0, -1, -1));
      Move(Update(s, x.(openers := x.openers + multiset{p})), p, Outside)
    case LockClose(_) =>
      var x := SemOp(s.set_.s, p, Adjust(0, 1, 1));
      Move(Update(s, x.(openers := x.openers - multiset{p})), p, Closing(x.id))
    case GetClose(_) => Move(s, p, Closed(a.id, s.set_.s.v1))
    case Remove(_) => Move(s.(set_ := NoSet), p, Outside)
    case Unlock(_) => Move(Update(s, SemOp(s.set_.s, p, Adjust(0, 0, -1))), p, Outside)
    case Operate(_, amount) => Update(s, SemOp(s.set_.s, p, Adjust(amount, 0, 0)))
    case Exit(_) =>
      if s.set_.NoSet? then Move(s, p, Outside)
      else
        var x := s.set_.s;
        var d := AdjustOf(x, p);
        Move(Update(s, x.(v0 := Floor(x.v0 + d.a0), v1 := Floor(x.v1 + d.a1), v2 := Floor(x.v2 + d.a2),
                          adjust := x.adjust - {p}, openers := x.openers[p := 0])), p, Outside)
  }

  const INITIAL: State := State(NoSet, 0, map[])

  /** The process is between taking the lock and giving it back. */
  predicate HoldsLock(a: At) {
    a.Locked? || a.Read? || a.Set0? || a.Ready? || a.Closing? || a.Closed?
  }

  /** Member [2] is 1 exactly when one process is in the critical section of sem_create or sem_close, and never
      are there two. */
  ghost predicate MutualExclusion(s: State) {
    && (forall p, q :: HoldsLock(AtOf(s, p)) && HoldsLock(AtOf(s, q)) ==> p == q)
    && (s.set_.TheSet? ==> s.set_.s.v2 == if exists p :: HoldsLock(AtOf(s, p)) then 1 else 0)
    && (s.set_.NoSet? ==> forall p :: !HoldsLock(AtOf(s, p)))
  }

  /** Until member [1] is set nobody has the set open; afterwards member [0] is set too, and member [1] plus the
      number of openers is BIGCOUNT. */
  ghost predicate Counted(x: SemSet) {
    if x.v1 == 0 then x.openers == multiset{}
    else x.v1 > 0 && x.set0 && x.v1 + |x.openers| == BIGCOUNT
  }

  /** What a process knows of the existing set. */
  ghost predicate Knows(x: SemSet, a: At) {
    match a
    case Read(_, _, semval) => if semval == 0 then x.v1 == 0 else x.v1 > 0
    case Set0(_, _) => x.v1 == 0 && x.set0
    case Ready(_, _, _) => x.v1 > 0
    case Closing(_) => x.v1 > 0
    case Closed(_, semval) => 0 < semval <= x.v1
    case _ => true
  }

  ghost predicate ProcessOk(s: State, p: Pid) {
    var a := AtOf(s, p);
    && (a.GotId? ==> a.id < s.nextId)
    && (HoldsLock(a) ==> On(s, a.id))
    && (s.set_.TheSet? ==>
         && Knows(s.set_.s, a)
         && AdjustOf(s.set_.s, p).a1 == s.set_.s.openers[p]
         && AdjustOf(s.set_.s, p).a2 == if HoldsLock(a) then -1 else 0)
  }

  ghost predicate Inv(s: State) {
    && MutualExclusion(s) && (forall p :: ProcessOk(s, p))
    && (s.set_.TheSet? ==> s.set_.s.id < s.nextId && Counted(s.set_.s))
  }

  /** Fewer than BIGCOUNT opens are outstanding. */
  ghost predicate Bounded(s: State) {
    s.set_.TheSet? ==> |s.set_.s.openers| < BIGCOUNT
  }

  /** Processes other than the one that moves. */
  lemma OthersStay(s: State, step: Step, q: Pid)
    requires Enabled(s, step) && q != step.p
    ensures AtOf(Apply(s, step), q) == AtOf(s, q)
  {
  }

  lemma SectionKept(s: State, step: Step)
    requires Inv(s) && Enabled(s, step)
    ensures MutualExclusion(Apply(s, step))
  {
    var s' := Apply(s, step);
    var p := step.p;
    assert ProcessOk(s, p);
    forall q | q != p
      ensures AtOf(s', q) == AtOf(s, q)
    {
      OthersStay(s, step, q);
    }
    if s.set_.TheSet? && s.set_.s.v2 == 0 {
      assert forall q :: !HoldsLock(AtOf(s, q));
    }
    if HoldsLock(AtOf(s', p)) {
      assert exists q :: HoldsLock(AtOf(s', q));
    }
  }

  lemma CountKept(s: State, step: Step)
    requires Inv(s) && Enabled(s, step) && Bounded(s) && Bounded(Apply(s, step))
    ensures Apply(s, step).set_.TheSet? ==> Counted(Apply(s, step).set_.s)
  {
    assert ProcessOk(s, step.p);
  }

  /** What the steps of one process leave true of another. */
  lemma OtherProcessKept(s: State, step: Step, q: Pid)
    requires Enabled(s, step) && q != step.p && ProcessOk(s, step.p) && ProcessOk(s, q)
    requires s.set_.TheSet? ==> Counted(s.set_.s) && s.set_.s.id < s.nextId
    requires !(HoldsLock(AtOf(s, step.p)) && HoldsLock(AtOf(s, q)))
    requires s.set_.TheSet? && s.set_.s.v2 == 0 ==> !HoldsLock(AtOf(s, q))
    ensures ProcessOk(Apply(s, step), q)
  {
    OthersStay(s, step, q);
  }

  /** What the steps leave true of the process that makes them: those of sem_create up to its last ... */
  lemma CreatorKept(s: State, step: Step)
    requires step.SemGet? || step.LockCreate? || step.Retry? || step.GetCreate? || step.SetFirst? || step.SetSecond?
    requires Enabled(s, step) && ProcessOk(s, step.p)
    requires s.set_.TheSet? ==> Counted(s.set_.s) && s.set_.s.id < s.nextId
    ensures ProcessOk(Apply(s, step), step.p)
  {
  }

  /** ... and the others. */
  lemma CloserKept(s: State, step: Step)
    requires !(step.SemGet? || step.LockCreate? || step.Retry? || step.GetCreate? || step.SetFirst? || step.SetSecond?)
    requires Enabled(s, step) && ProcessOk(s, step.p)
    requires s.set_.TheSet? ==> Counted(s.set_.s) && s.set_.s.id < s.nextId
    ensures ProcessOk(Apply(s, step), step.p)
  {
  }

  lemma StepKeeps(s: State, step: Step)
    requires Inv(s) && Enabled(s, step) && Bounded(s) && Bounded(Apply(s, step))
    ensures Inv(Apply(s, step))
  {
    hide ProcessOk, Counted;
    var s' := Apply(s, step);
    SectionKept(s, step);
    CountKept(s, step);
    forall q
      ensures ProcessOk(s', q)
    {
      assert ProcessOk(s, step.p) && ProcessOk(s, q);
      if q != step.p {
        OtherProcessKept(s, step, q);
      } else if step.SemGet? || step.LockCreate? || step.Retry? || step.GetCreate? || step.SetFirst? || step.SetSecond? {
        CreatorKept(s, step);
      } else {
        CloserKept(s, step);
      }
    }
  }

  /** A run is a sequence of steps, each enabled when it is taken. */
  ghost predicate LegalRun(steps: seq<Step>)
    decreases |steps|, 0
  {
    steps == [] ||
    var front := steps[..|steps| - 1];
    LegalRun(front) && Enabled(After(front), steps[|steps| - 1])
  }

  ghost function After(steps: seq<Step>): (s: State)
    requires LegalRun(steps)
    decreases |steps|, 1
  {
    if steps == [] then INITIAL else Apply(After(steps[..|steps| - 1]), steps[|steps| - 1])
  }

  ghost predicate AlwaysBounded(steps: seq<Step>)
    requires LegalRun(steps)
    decreases |steps|
  {
    Bounded(After(steps)) && (steps == [] || AlwaysBounded(steps[..|steps| - 1]))
  }

  /** In every run of sem_create, sem_close and exits, with fewer than BIGCOUNT opens outstanding at any time, the
      lock excludes, and the process counter counts. */
  lemma {:induction false} RunsAreSafe(steps: seq<Step>)
    requires LegalRun(steps) && AlwaysBounded(steps)
    ensures Inv(After(steps))
    decreases |steps|
  {
    if steps != [] {
      var front := steps[..|steps| - 1];
      RunsAreSafe(front);
      StepKeeps(After(front), steps[|steps| - 1]);
    }
  }

  /** What that means for the callers: the set is removed only when nobody has it open, sem_create returns only
      with the set initialised, and sem_close never finds the counter above BIGCOUNT. */
  lemma CallersAreSafe(steps: seq<Step>, p: Pid)
    requires LegalRun(steps) && AlwaysBounded(steps)
    ensures var s := After(steps);
            && (Enabled(s, Remove(p)) ==> s.set_.s.openers == multiset{})
            && (Enabled(s, EndCreate(p)) ==> s.set_.s.set0 && s.set_.s.v1 + |s.set_.s.openers| == BIGCOUNT)
            && (AtOf(s, p).Closed? ==> AtOf(s, p).semval <= BIGCOUNT)
  {
    RunsAreSafe(steps);
    assert ProcessOk(After(steps), p);
  }

  lemma Extend(steps: seq<Step>, step: Step)
    requires LegalRun(steps) && Enabled(After(steps), step)
    ensures LegalRun(steps + [step]) && After(steps + [step]) == Apply(After(steps), step)
  {
    assert (steps + [step])[..|steps|] == steps;
  }

  /** Process 0 is outside the library and has the set open k times. */
  ghost predicate OpenTimes(s: State, k: nat, counter: int) {
    && s.set_.TheSet? && AtOf(s, 0) == Outside && s.set_.s.v2 == 0
    && s.set_.s.openers == multiset{}[0 := k] && s.set_.s.v1 == counter
  }

  lemma OpenOnceMore(steps: seq<Step>, k: nat, counter: int) returns (more: seq<Step>)
    requires LegalRun(steps) && OpenTimes(After(steps), k, counter) && counter > 0
    ensures LegalRun(more) && OpenTimes(After(more), k + 1, counter - 1)
  {
    hide LegalRun, After;
    more := steps;
    more := Taken(more, SemGet(0, 1));
    more := Taken(more, LockCreate(0));
    more := Taken(more, GetCreate(0));
    more := Taken(more, SkipSet(0));
    more := Taken(more, EndCreate(0));
  }

  /** sem_create up to GETVAL, which finds 0. */
  lemma TakenForNew(steps: seq<Step>, k: nat) returns (more: seq<Step>)
    requires LegalRun(steps) && AtOf(After(steps), 0) == Outside
    requires (After(steps).set_.NoSet? && k == 0) || OpenTimes(After(steps), k, 0)
    ensures LegalRun(more) && After(more).set_.TheSet?
    ensures var x := After(more).set_.s;
            AtOf(After(more), 0) == Read(x.id, 1, 0) && x.v1 == 0 && x.v2 == 1 && x.openers == multiset{}[0 := k]
  {
    hide LegalRun, After;
    more := steps;
    more := Taken(more, SemGet(0, 1));
    more := Taken(more, LockCreate(0));
    more := Taken(more, GetCreate(0));
  }

  lemma OpenFirst(steps: seq<Step>, k: nat) returns (more: seq<Step>)
    requires LegalRun(steps) && AtOf(After(steps), 0) == Outside
    requires (After(steps).set_.NoSet? && k == 0) || OpenTimes(After(steps), k, 0)
    ensures LegalRun(more) && OpenTimes(After(more), k + 1, BIGCOUNT - 1)
  {
    hide LegalRun, After;
    more := TakenForNew(steps, k);
    more := Taken(more, SetFirst(0));
    more := Taken(more, SetSecond(0));
    more := Taken(more, EndCreate(0));
  }

  lemma Taken(steps: seq<Step>, step: Step) returns (more: seq<Step>)
    requires LegalRun(steps) && Enabled(After(steps), step)
    ensures LegalRun(more) && After(more) == Apply(After(steps), step)
  {
    Extend(steps, step);
    more := steps + [step];
  }

  lemma {:induction false} OpenMany(k: nat) returns (steps: seq<Step>)
    requires 1 <= k <= BIGCOUNT
    ensures LegalRun(steps) && OpenTimes(After(steps), k, BIGCOUNT - k)
  {
    if k == 1 {
      steps := OpenFirst([], 0);
    } else {
      steps := OpenMany(k - 1);
      steps := OpenOnceMore(steps, k - 1, BIGCOUNT - k + 1);
    }
  }

  /** The bound is exact: with BIGCOUNT opens the counter is back at 0, the next sem_create takes the set for new,
      and the close after it removes the set while it is open. */
  lemma BoundIsNeeded() returns (steps: seq<Step>)
    ensures LegalRun(steps) && Enabled(After(steps), Remove(0)) && |After(steps).set_.s.openers| == BIGCOUNT
  {
    hide LegalRun, After;
    steps := OpenMany(BIGCOUNT);
    steps := OpenFirst(steps, BIGCOUNT);
    steps := Taken(steps, LockClose(0));
    steps := Taken(steps, GetClose(0));
  }
}
