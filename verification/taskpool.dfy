/** The task queue of the thread pool of TCP_C/thread.c: the linked list, and the protocol of producers and workers
    under the pool's lock. */
module TaskPool {
  import opened Basics

  class Task {
    var next: Task?
  }

  /** From h by next one reaches tasks ts in order and then null. */
  ghost predicate IsList(h: Task?, ts: seq<Task>)
    reads ts
  {
    && (forall i, j :: 0 <= i < j < |ts| ==> ts[i] != ts[j])
    && h == (if ts == [] then null else ts[0])
    && (forall i {:trigger ts[i].next} :: 0 <= i < |ts| - 1 ==> ts[i].next == ts[i + 1])
    && (ts != [] ==> ts[|ts| - 1].next == null)
  }

  class Pool {
    var head: Task?
    var size: int
    ghost var tasks: seq<Task>

    ghost predicate Valid()
      reads this, tasks
    {
      IsList(head, tasks) && size == |tasks|
    }

    /** The critical section of pool_add_task: the walk to the tail. */
    method AddTask(newtask: Task)
      requires Valid() && newtask !in tasks
      modifies this, tasks, newtask
      ensures Valid() && tasks == old(tasks) + [newtask]
    {
      newtask.next := null;
      var queue := head;
      if queue != null {
        ghost var i := 0;
        while queue.next != null
          invariant 0 <= i < |tasks| && queue == tasks[i]
          decreases |tasks| - i
        {
          queue := queue.next;
          i := i + 1;
        }
        assert i == |tasks| - 1;
        queue.next := newtask;
      } else {
        head := newtask;
      }
      size := size + 1;
      tasks := tasks + [newtask];
    }

    /** The critical section of thread_routine, with its two assertions. */
    method TakeTask() returns (task: Task)
      requires Valid() && size != 0
      modifies this
      ensures Valid() && old(tasks) == [task] + tasks
    {
      assert size != 0 && head != null;
      size := size - 1;
      task := head;
      head := task.next;
      tasks := tasks[1..];
    }
  }

  // ---------- producers and workers

  type Tid = nat

  /** Where a thread is. Between taking the lock and giving it back a producer links and then counts its task, a
      worker counts and then unlinks one. */
  datatype At =
    | Outside
    | AddWant(task: nat) | AddHas(task: nat) | AddLinked | AddDone
    | WorkWant | WorkHas | WorkWaits | WorkCounted | WorkGot(task: nat, i: nat) | WorkRuns(task: nat, i: nat)
    | WorkExits | Gone

  /** `added` and `taken` list tasks in the order in which they were linked and unlinked; runs[i] counts how often
      the i-th one taken was run, and holder[i] is the worker that took it. */
  datatype State = State(lock: Option<Tid>, queue: seq<nat>, size: int, shutdown: bool, at: map<Tid, At>,
                         added: seq<nat>, taken: seq<nat>, runs: seq<nat>, holder: seq<Tid>)

  datatype Step = StartAdd(t: Tid, task: nat) | StartWork(t: Tid) | Shutdown | Advance(t: Tid)

  function AtOf(s: State, t: Tid): (a: At) {
    if t in s.at then s.at[t] else Outside
  }

  predicate HasLock(a: At) {
    a.AddHas? || a.AddLinked? || a.AddDone? || a.WorkHas? || a.WorkCounted? || a.WorkGot? || a.WorkExits?
  }

  predicate Enabled(s: State, step: Step) {
    match step
    case StartAdd(t, _) => AtOf(s, t).Outside?
    case StartWork(t) => AtOf(s, t).Outside?
    case Shutdown => true
    case Advance(t) =>
      var a := AtOf(s, t);
      && !a.Outside? && !a.Gone? && (a.AddWant? || a.WorkWant? || a.WorkWaits? ==> s.lock.None?)
  }

  function Go(s: State, t: Tid, a: At): (s': State) {
    s.(at := s.at[t := a])
  }

  function Next(s: State, t: Tid): (s': State) {
    match AtOf(s, t)
    case AddWant(x) => Go(s.(lock := Some(t)), t, AddHas(x))
    case AddHas(x) => Go(s.(queue := s.queue + [x], added := s.added + [x]), t, AddLinked)
    case AddLinked => Go(s.(size := s.size + 1), t, AddDone)
    case AddDone => Go(s.(lock := None), t, Outside)
    case WorkWant => Go(s.(lock := Some(t)), t, WorkHas)
    case WorkHas =>
      if s.shutdown then Go(s, t, WorkExits)
      else if s.size == 0 then Go(s.(lock := None), t, WorkWaits)
      else Go(s.(size := s.size - 1), t, WorkCounted)
    case WorkWaits => Go(s.(lock := Some(t)), t, WorkHas)
    case WorkCounted =>
      if s.queue == [] then s
      else
        Go(s.(queue := s.queue[1..], taken := s.taken + [s.queue[0]], runs := s.runs + [0], holder := s.holder + [t]),
           t, WorkGot(s.queue[0], |s.taken|))
    case WorkGot(x, i) => Go(s.(lock := None), t, WorkRuns(x, i))
    case WorkRuns(_, i) => Go(s.(runs := if i < |s.runs| then s.runs[i := s.runs[i] + 1] else s.runs), t, WorkWant)
    case WorkExits => Go(s.(lock := None), t, Gone)
    case _ => s
  }

  function Apply(s: State, step: Step): (s': State)
    requires Enabled(s, step)
  {
    match step
    case StartAdd(t, task) => Go(s, t, AddWant(task))
    case StartWork(t) => Go(s, t, WorkWant)
    case Shutdown => s.(shutdown := true)
    case Advance(t) => Next(s, t)
  }

  /** The size is that of the list but between the two writes of a critical section. */
  ghost predicate SizeOk(s: State) {
    && (s.lock.None? ==> s.size == |s.queue|)
    && (s.lock.Some? ==>
          var a := AtOf(s, s.lock.value);
          s.size == |s.queue| - (if a.AddLinked? || a.WorkCounted? then 1 else 0))
    && s.size >= 0
  }

  ghost predicate LockOk(s: State) {
    forall t: Tid :: HasLock(AtOf(s, t)) <==> s.lock == Some(t)
  }

  predicate Working(a: At) {
    a.WorkGot? || a.WorkRuns?
  }

  /** A worker has a task of its own, which it took and which has not been run. */
  ghost predicate WorkerOk(s: State, t: Tid) {
    Working(AtOf(s, t)) ==>
      var a := AtOf(s, t);
      a.i < |s.taken| && a.i < |s.runs| && a.i < |s.holder|
      && s.taken[a.i] == a.task && s.runs[a.i] == 0 && s.holder[a.i] == t
  }

  /** A task that was taken has been run once, or its worker has it. */
  ghost predicate TakenOk(s: State, i: nat)
    requires i < |s.runs| && i < |s.holder|
  {
    s.runs[i] == 1 || (s.runs[i] == 0 && Working(AtOf(s, s.holder[i])) && AtOf(s, s.holder[i]).i == i)
  }

  ghost predicate RunsOk(s: State) {
    && |s.runs| == |s.holder| == |s.taken|
    && (forall t: Tid :: WorkerOk(s, t))
    && (forall i :: 0 <= i < |s.taken| ==> TakenOk(s, i))
  }

  ghost predicate Inv(s: State) {
    LockOk(s) && SizeOk(s) && RunsOk(s) && s.added == s.taken + s.queue
  }

  /** The steps that take, start and end a task; the others have nothing to do with tasks taken. */
  datatype Deed = Takes(t: Tid) | Starts(t: Tid) | Ends(t: Tid) | Other

  function DeedOf(s: State, step: Step): (d: Deed) {
    if !step.Advance? then Other
    else if AtOf(s, step.t).WorkCounted? && s.queue != [] then Takes(step.t)
    else if AtOf(s, step.t).WorkGot? then Starts(step.t)
    else if AtOf(s, step.t).WorkRuns? then Ends(step.t)
    else Other
  }

  /** What a step does to the tasks taken, and to where thread u is. */
  ghost predicate Does(s: State, s': State, d: Deed, u: Tid) {
    match d
    case Takes(t) =>
      && s.queue != [] && s'.taken == s.taken + [s.queue[0]] && s'.runs == s.runs + [0] && s'.holder == s.holder + [t]
      && AtOf(s', u) == (if u == t then WorkGot(s.queue[0], |s.taken|) else AtOf(s, u)) && !Working(AtOf(s, t))
    case Starts(t) =>
      && AtOf(s, t).WorkGot? && s'.taken == s.taken && s'.runs == s.runs && s'.holder == s.holder
      && AtOf(s', u) == if u == t then WorkRuns(AtOf(s, t).task, AtOf(s, t).i) else AtOf(s, u)
    case Ends(t) =>
      && AtOf(s, t).WorkRuns? && AtOf(s, t).i < |s.runs|
      && s'.taken == s.taken && s'.runs == s.runs[AtOf(s, t).i := s.runs[AtOf(s, t).i] + 1] && s'.holder == s.holder
      && AtOf(s', u) == if u == t then WorkWant else AtOf(s, u)
    case Other =>
      && s'.taken == s.taken && s'.runs == s.runs && s'.holder == s.holder
      && (AtOf(s', u) == AtOf(s, u) || (!Working(AtOf(s', u)) && !Working(AtOf(s, u))))
  }

  lemma StepDoes(s: State, step: Step, u: Tid)
    requires Enabled(s, step) && |s.runs| == |s.holder| == |s.taken| && (step.Advance? ==> WorkerOk(s, step.t))
    ensures Does(s, Apply(s, step), DeedOf(s, step), u)
  {
  }

  lemma WorkerKept(s: State, s': State, d: Deed, u: Tid)
    requires Does(s, s', d, u) && |s.runs| == |s.holder| == |s.taken| && WorkerOk(s, u)
    requires !d.Other? ==> WorkerOk(s, d.t)
    ensures WorkerOk(s', u)
  {
    hide AtOf;
  }

  lemma TakenKept(s: State, s': State, d: Deed, i: nat)
    requires |s.runs| == |s.holder| == |s.taken| && i < |s'.taken|
    requires i < |s.taken| ==> TakenOk(s, i) && Does(s, s', d, s.holder[i])
    requires !d.Other? ==> WorkerOk(s, d.t) && Does(s, s', d, d.t)
    requires i >= |s.taken| ==> d.Takes?
    ensures i < |s'.runs| && i < |s'.holder| && TakenOk(s', i)
  {
    hide AtOf;
  }

  lemma RunsKept(s: State, step: Step)
    requires RunsOk(s) && Enabled(s, step)
    ensures RunsOk(Apply(s, step))
  {
    hide WorkerOk, TakenOk, Does, DeedOf, Apply;
    var s', d := Apply(s, step), DeedOf(s, step);
    DeedIs(s, step);
    forall u: Tid
      ensures WorkerOk(s', u)
    {
      StepDoes(s, step, u);
      WorkerKept(s, s', d, u);
    }
    forall i | 0 <= i < |s'.taken|
      ensures TakenOk(s', i)
    {
      if i < |s.taken| {
        StepDoes(s, step, s.holder[i]);
      }
      if !d.Other? {
        StepDoes(s, step, d.t);
      }
      TakenKept(s, s', d, i);
    }
  }

  lemma DeedIs(s: State, step: Step)
    requires RunsOk(s) && Enabled(s, step)
    ensures var s', d := Apply(s, step), DeedOf(s, step);
            && |s'.runs| == |s'.holder| == |s'.taken| && (!d.Other? ==> step.Advance? && d.t == step.t)
            && (|s'.taken| > |s.taken| ==> d.Takes?) && (d.Takes? ==> |s'.taken| == |s.taken| + 1)
            && (step.Advance? ==> WorkerOk(s, step.t))
  {
    hide WorkerOk, TakenOk;
  }

  lemma LockKept(s: State, step: Step)
    requires LockOk(s) && Enabled(s, step)
    ensures LockOk(Apply(s, step))
  {
    var s' := Apply(s, step);
    forall t: Tid
      ensures HasLock(AtOf(s', t)) <==> s'.lock == Some(t)
    {
      assert HasLock(AtOf(s, t)) <==> s.lock == Some(t);
      if step.Advance? {
        assert HasLock(AtOf(s, step.t)) <==> s.lock == Some(step.t);
      }
    }
  }

  lemma SizeKept(s: State, step: Step)
    requires LockOk(s) && SizeOk(s) && Enabled(s, step)
    ensures SizeOk(Apply(s, step))
  {
    if !step.Shutdown? {
      assert HasLock(AtOf(s, step.t)) <==> s.lock == Some(step.t);
    }
  }

  lemma OrderKept(s: State, step: Step)
    requires s.added == s.taken + s.queue && Enabled(s, step)
    ensures var s' := Apply(s, step); s'.added == s'.taken + s'.queue
  {
    var s' := Apply(s, step);
    if step.Advance? {
      var a := AtOf(s, step.t);
      if a.AddHas? {
        assert s'.added == s.taken + s.queue + [a.task];
      } else if a.WorkCounted? && s.queue != [] {
        assert s.queue == [s.queue[0]] + s.queue[1..];
        assert s.taken + s.queue == s'.taken + s'.queue;
      }
    }
  }

  lemma StepKeeps(s: State, step: Step)
    requires Inv(s) && Enabled(s, step)
    ensures Inv(Apply(s, step))
  {
    hide LockOk, SizeOk, RunsOk, Apply, Enabled;
    RunsKept(s, step);
    LockKept(s, step);
    SizeKept(s, step);
    OrderKept(s, step);
  }

  predicate Legal(s: State, steps: seq<Step>)
    decreases |steps|
  {
    steps == [] || (Enabled(s, steps[0]) && Legal(Apply(s, steps[0]), steps[1..]))
  }

  function Run(s: State, steps: seq<Step>): (s': State)
    requires Legal(s, steps)
    decreases |steps|
  {
    if steps == [] then s else Run(Apply(s, steps[0]), steps[1..])
  }

  function Initial(): (s: State) {
    State(None, [], 0, false, map[], [], [], [], [])
  }

  lemma {:induction false} RunKeeps(s: State, steps: seq<Step>)
    requires Inv(s) && Legal(s, steps)
    ensures Inv(Run(s, steps))
    decreases |steps|
  {
    hide Inv, Enabled, Apply;
    if steps != [] {
      StepKeeps(s, steps[0]);
      RunKeeps(Apply(s, steps[0]), steps[1..]);
    }
  }

  /** In every run tasks are taken in the order in which they were added, the size is the length of the list
      whenever the lock is free, a worker that has counted a task finds one in the list, no task taken is run
      twice, and one that a worker has in hand has not been run. */
  lemma PoolIsFifo(steps: seq<Step>, t: Tid)
    requires Legal(Initial(), steps)
    ensures var s := Run(Initial(), steps);
            && s.taken + s.queue == s.added
            && (s.lock.None? ==> s.size == |s.queue|)
            && (AtOf(s, t).WorkHas? && s.size != 0 ==> s.queue != [])
            && (AtOf(s, t).WorkCounted? ==> s.queue != [])
            && |s.runs| == |s.taken| == |s.holder| && (forall i :: 0 <= i < |s.runs| ==> s.runs[i] <= 1)
            && (forall i :: 0 <= i < |s.runs| && s.runs[i] == 0 ==>
                  Working(AtOf(s, s.holder[i])) && AtOf(s, s.holder[i]).i == i)
            && (Working(AtOf(s, t)) ==>
                  var a := AtOf(s, t); a.i < |s.taken| && s.taken[a.i] == a.task && s.runs[a.i] == 0)
  {
    RunKeeps(Initial(), steps);
    var s := Run(Initial(), steps);
    assert WorkerOk(s, t);
    forall i | 0 <= i < |s.runs|
      ensures s.runs[i] <= 1
      ensures s.runs[i] == 0 ==> Working(AtOf(s, s.holder[i])) && AtOf(s, s.holder[i]).i == i
    {
      assert TakenOk(s, i);
    }
  }

  /** Some steps of one thread. */
  function Steps(s: State, t: Tid, n: nat): (s': State)
    decreases n
  {
    if n == 0 then s else Steps(Next(s, t), t, n - 1)
  }

  lemma Unfold(s: State, t: Tid, n: nat)
    requires n > 0
    ensures Steps(s, t, n) == Steps(Next(s, t), t, n - 1) && Steps(s, t, 0) == s
  {
  }

  /** The first two steps of a worker that finds a task: it counts and unlinks it. */
  lemma TakesFirst(s: State, t: Tid)
    requires Inv(s) && AtOf(s, t).WorkHas? && !s.shutdown && s.queue != []
    ensures var s' := Next(Next(s, t), t);
            && AtOf(s', t) == WorkGot(s.queue[0], |s.taken|) && s'.queue == s.queue[1..] && s'.size == |s'.queue|
            && s'.taken == s.taken + [s.queue[0]] && s'.runs == s.runs + [0]
  {
    hide RunsOk;
    assert s.lock == Some(t);
  }

  /** The next two: it gives back the lock and runs what it has taken. */
  lemma RunsTaken(s: State, t: Tid)
    requires AtOf(s, t).WorkGot? && AtOf(s, t).i < |s.runs|
    ensures var m, s', i := Next(s, t), Next(Next(s, t), t), AtOf(s, t).i;
            && m.lock == None && AtOf(m, t) == WorkRuns(AtOf(s, t).task, i) && AtOf(s', t) == WorkWant
            && s'.queue == s.queue && s'.size == s.size && s'.taken == s.taken && s'.runs == s.runs[i := s.runs[i] + 1]
  {
  }

  lemma StopsOrWaits(s: State, t: Tid)
    requires Inv(s) && AtOf(s, t).WorkHas?
    ensures s.shutdown ==> Next(Next(s, t), t) == s.(lock := None, at := s.at[t := Gone])
    ensures !s.shutdown && s.queue == [] ==> Next(s, t) == s.(lock := None, at := s.at[t := WorkWaits])
  {
    hide RunsOk;
    assert s.lock == Some(t);
    assert s.at[t := WorkExits][t := Gone] == s.at[t := Gone];
  }

  lemma RunsLength(s: State)
    requires Inv(s)
    ensures |s.runs| == |s.taken|
  {
  }

  /** A worker with the lock, in a pool that is not shut down, goes on to take the first task, gives back the lock and
      runs that task; where there is none it waits, without the lock; and in a pool that is shut down it exits. */
  lemma WorkerGoesOn(steps: seq<Step>, t: Tid)
    requires Legal(Initial(), steps) && AtOf(Run(Initial(), steps), t).WorkHas?
    ensures var s := Run(Initial(), steps);
            && (s.shutdown ==> Steps(s, t, 2) == s.(lock := None, at := s.at[t := Gone]))
            && (!s.shutdown && s.queue == [] ==> Steps(s, t, 1) == s.(lock := None, at := s.at[t := WorkWaits]))
            && (!s.shutdown && s.queue != [] ==>
                  var m, s' := Steps(s, t, 3), Steps(s, t, 4);
                  && AtOf(m, t) == WorkRuns(s.queue[0], |s.taken|) && m.lock == None && AtOf(s', t) == WorkWant
                  && s'.queue == s.queue[1..] && s'.size == |s'.queue| && s'.taken == s.taken + [s.queue[0]]
                  && s'.runs == s.runs + [1])
  {
    hide Steps, Next, Inv, Legal, Run, AtOf;
    RunKeepsInitial(steps);
    var s := Run(Initial(), steps);
    RunsLength(s);
    StopsOrWaits(s, t);
    Unfolded(s, t);
    if !s.shutdown && s.queue != [] {
      TakesFirst(s, t);
      RunsTaken(Next(Next(s, t), t), t);
    }
  }

  lemma RunKeepsInitial(steps: seq<Step>)
    requires Legal(Initial(), steps)
    ensures Inv(Run(Initial(), steps))
  {
    RunKeeps(Initial(), steps);
  }

  lemma Unfolded(s: State, t: Tid)
    ensures Steps(s, t, 1) == Next(s, t) && Steps(s, t, 2) == Next(Next(s, t), t)
    ensures Steps(s, t, 3) == Next(Next(Next(s, t), t), t) && Steps(s, t, 4) == Next(Next(Next(Next(s, t), t), t), t)
  {
    hide Steps, Next;
    var a, b, c := Next(s, t), Next(Next(s, t), t), Next(Next(Next(s, t), t), t);
    Unfold(s, t, 1);
    Unfold(a, t, 1);
    Unfold(b, t, 1);
    Unfold(c, t, 1);
    Unfold(Next(c, t), t, 1);
    Unfold(s, t, 2);
    Unfold(a, t, 2);
    Unfold(b, t, 2);
    Unfold(s, t, 3);
    Unfold(a, t, 3);
    Unfold(s, t, 4);
  }

  /** pool_add_task with the lock puts its task last, counts it and gives back the lock. */
  lemma ProducerAdds(steps: seq<Step>, t: Tid)
    requires Legal(Initial(), steps) && AtOf(Run(Initial(), steps), t).AddHas?
    ensures var s := Run(Initial(), steps);
            var s', x := Steps(s, t, 3), AtOf(s, t).task;
            && s'.queue == s.queue + [x] && s'.added == s.added + [x] && s'.size == |s'.queue|
            && s'.lock == None && AtOf(s', t) == Outside && s'.taken == s.taken
  {
    RunKeeps(Initial(), steps);
    var s := Run(Initial(), steps);
    assert s.lock == Some(t);
    Unfolded(s, t);
    hide Steps;
  }

  /** Who has the lock can go on, so that nobody waits for it because of a thread that waits itself. */
  lemma HolderGoesOn(steps: seq<Step>)
    requires Legal(Initial(), steps) && Run(Initial(), steps).lock.Some?
    ensures Enabled(Run(Initial(), steps), Advance(Run(Initial(), steps).lock.value))
  {
    RunKeeps(Initial(), steps);
    var s := Run(Initial(), steps);
    assert HasLock(AtOf(s, s.lock.value)) <==> s.lock == Some(s.lock.value);
  }
}
