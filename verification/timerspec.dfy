/** What a set of timers does, with no wheel: every pending timer has a tick at which it is due, and the pass of
    a tick runs the timers due at that tick. Ticks are counted without wrapping; expiry times are the unsigned
    64-bit values that TCP_C/timer.c stores. */
module TimerSpec {

  const WORD: nat := 0x1_0000_0000_0000_0000
  const HALF: nat := 0x8000_0000_0000_0000

  type Timer = nat
  type Word = w: nat | w < WORD

  /** The tick at which a timer armed at tick `now` with expiry time e is due: the difference is read as a
      signed number, and a time that has passed means the next pass. */
  function Due(now: nat, e: Word): (d: nat)
    ensures now <= d < now + HALF
    ensures d == now || d % WORD == e
  {
    var idx := (e - now) % WORD;
    if idx < HALF then now + idx else now
  }

  /** What a client or a running handler can ask for. */
  datatype Action =
    | Add(timer: Timer, expires: Word)
    | Mod(timer: Timer, expires: Word)
    | Del(timer: Timer)

  datatype State = State(now: nat, pending: map<Timer, nat>, expires: map<Timer, Word>)

  function Arm(s: State, t: Timer, e: Word): (r: State) {
    s.(pending := s.pending[t := Due(s.now, e)], expires := s.expires[t := e])
  }

  /** mod_timer leaves a pending timer alone when it already has the expiry time asked for. */
  function Apply(s: State, a: Action): (r: State)
    ensures r.now == s.now
  {
    match a
    case Add(t, e) => Arm(s, t, e)
    case Mod(t, e) => if t in s.pending && t in s.expires && s.expires[t] == e then s else Arm(s, t, e)
    case Del(t) => s.(pending := s.pending - {t})
  }

  function ApplyAll(s: State, actions: seq<Action>): (r: State)
    ensures r.now == s.now
    decreases |actions|
  {
    if actions == [] then s else ApplyAll(Apply(s, actions[0]), actions[1..])
  }

  /** The calls that the k-th handler to run makes. */
  function Script(handlers: seq<seq<Action>>, k: nat): (r: seq<Action>) {
    if k < |handlers| then handlers[k] else []
  }

  /** The state after the handlers of `fired` have run, in this order, each timer detached before its handler. */
  function AfterFiring(s: State, fired: seq<Timer>, handlers: seq<seq<Action>>): (r: State)
    ensures r.now == s.now
    decreases |fired|
  {
    if fired == [] then s
    else
      var k := |fired| - 1;
      var m := AfterFiring(s, fired[..k], handlers);
      ApplyAll(m.(pending := m.pending - {fired[k]}), Script(handlers, k))
  }

  ghost predicate DueAt(s: State, t: Timer, n: nat) {
    t in s.pending && s.pending[t] == n
  }

  /** Each timer of `fired` was due at tick n when its turn came. */
  ghost predicate AllDue(s: State, n: nat, fired: seq<Timer>, handlers: seq<seq<Action>>)
    decreases |fired|
  {
    fired == [] ||
    var k := |fired| - 1;
    AllDue(s, n, fired[..k], handlers) && DueAt(AfterFiring(s, fired[..k], handlers), fired[k], n)
  }

  /** Timers run one after the other, each one due at tick n when its turn comes, until none due at n is left. */
  ghost predicate RunsAs(s: State, n: nat, fired: seq<Timer>, handlers: seq<seq<Action>>) {
    AllDue(s, n, fired, handlers) && forall t :: !DueAt(AfterFiring(s, fired, handlers), t, n)
  }

  datatype Event =
    | Call(action: Action)
    | Pass(fired: seq<Timer>, handlers: seq<seq<Action>>)

  function After(s: State, e: Event): (r: State) {
    match e
    case Call(a) => Apply(s, a)
    case Pass(fired, handlers) => AfterFiring(s.(now := s.now + 1), fired, handlers)
  }

  /** A pass runs the timers due at the tick it is the pass of. */
  ghost predicate Legal(s: State, e: Event) {
    e.Pass? ==> RunsAs(s.(now := s.now + 1), s.now, e.fired, e.handlers)
  }

  function AfterAll(s: State, events: seq<Event>): (r: State)
    decreases |events|
  {
    if events == [] then s
    else After(AfterAll(s, events[..|events| - 1]), events[|events| - 1])
  }

  ghost predicate LegalRun(s: State, events: seq<Event>)
    decreases |events|
  {
    events == [] ||
    var front := events[..|events| - 1];
    LegalRun(s, front) && Legal(AfterAll(s, front), events[|events| - 1])
  }

  function Count(s: seq<Timer>, t: Timer): (n: nat) {
    multiset(s)[t]
  }

  ghost predicate UntouchedBy(actions: seq<Action>, t: Timer) {
    forall i :: 0 <= i < |actions| ==> actions[i].timer != t
  }

  /** Neither a client nor a handler adds, modifies or deletes t. */
  ghost predicate Untouched(e: Event, t: Timer) {
    match e
    case Call(a) => a.timer != t
    case Pass(fired, handlers) => forall k :: 0 <= k < |fired| ==> UntouchedBy(Script(handlers, k), t)
  }

  function Passes(events: seq<Event>): (n: nat)
    decreases |events|
  {
    if events == [] then 0
    else Passes(events[..|events| - 1]) + if events[|events| - 1].Pass? then 1 else 0
  }

  /** The ticks in whose passes t runs, in a run that starts at tick `now`. */
  function RunsOf(now: nat, events: seq<Event>, t: Timer): (r: seq<nat>)
    decreases |events|
  {
    if events == [] then []
    else
      var front, e := events[..|events| - 1], events[|events| - 1];
      RunsOf(now, front, t) +
      if e.Pass? then seq(Count(e.fired, t), _ => now + Passes(front)) else []
  }

  /** Whether t is pending, and for when. */
  ghost predicate SameFor(s: State, s': State, t: Timer) {
    (t in s'.pending <==> t in s.pending) && (t in s.pending ==> s'.pending[t] == s.pending[t])
  }

  lemma {:induction false} ApplyAllUntouched(s: State, actions: seq<Action>, t: Timer)
    requires UntouchedBy(actions, t)
    ensures SameFor(s, ApplyAll(s, actions), t)
    decreases |actions|
  {
    if actions != [] {
      assert actions[0].timer != t;
      ApplyAllUntouched(Apply(s, actions[0]), actions[1..], t);
    }
  }

  /** What a pass at tick n does to a timer that its handlers do not touch: it runs once if it was due at n, and
      is left as it was otherwise. */
  lemma {:induction false} PassUntouched(s: State, n: nat, fired: seq<Timer>, handlers: seq<seq<Action>>, t: Timer)
    requires AllDue(s, n, fired, handlers) && forall k :: 0 <= k < |fired| ==> UntouchedBy(Script(handlers, k), t)
    ensures var s' := AfterFiring(s, fired, handlers);
            if Count(fired, t) == 0 then SameFor(s, s', t)
            else Count(fired, t) == 1 && DueAt(s, t, n) && t !in s'.pending
    decreases |fired|
  {
    if fired != [] {
      var k := |fired| - 1;
      assert fired == fired[..k] + [fired[k]];
      PassUntouched(s, n, fired[..k], handlers, t);
      var m := AfterFiring(s, fired[..k], handlers);
      ApplyAllUntouched(m.(pending := m.pending - {fired[k]}), Script(handlers, k), t);
    }
  }

  /** Nobody touches t before t itself runs: a handler that runs after t in the pass, or as t's own, may. */
  ghost predicate Undisturbed(e: Event, t: Timer) {
    match e
    case Call(a) => a.timer != t
    case Pass(fired, handlers) =>
      forall k :: 0 <= k < |fired| && t !in fired[..k + 1] ==> UntouchedBy(Script(handlers, k), t)
  }

  /** Nobody touches t up to the pass of tick d, and in it not before t runs. */
  ghost predicate UndisturbedUntil(now: nat, events: seq<Event>, t: Timer, d: nat) {
    forall i :: 0 <= i < |events| && now + Passes(events[..i]) <= d ==> Undisturbed(events[i], t)
  }

  lemma UndisturbedFront(now: nat, events: seq<Event>, t: Timer, d: nat)
    requires events != [] && UndisturbedUntil(now, events, t, d)
    ensures var k := |events| - 1;
            UndisturbedUntil(now, events[..k], t, d) && (now + Passes(events[..k]) <= d ==> Undisturbed(events[k], t))
  {
    hide Passes, Undisturbed;
    var k := |events| - 1;
    forall i | 0 <= i < k
      ensures events[..k][..i] == events[..i]
    {
    }
  }

  /** A pass that leaves t alone until t runs: t runs in it, once, if it is due, and is as it was otherwise. */
  lemma PassUndisturbed(s: State, fired: seq<Timer>, handlers: seq<seq<Action>>, t: Timer)
    requires Legal(s, Pass(fired, handlers)) && Undisturbed(Pass(fired, handlers), t) && t in s.pending
    ensures s.pending[t] == s.now ==> Count(fired, t) == 1
    ensures s.pending[t] != s.now ==> Count(fired, t) == 0 && SameFor(s, After(s, Pass(fired, handlers)), t)
  {
    hide AllDue, AfterFiring, UntouchedBy;
    var m := s.(now := s.now + 1);
    PassRunsEachOnce(m, s.now, fired, handlers, t);
    assert t in fired <==> t in multiset(fired);
    if t !in fired {
      forall k | 0 <= k < |fired|
        ensures UntouchedBy(Script(handlers, k), t)
      {
        assert t !in fired[..k + 1];
      }
      PassUntouched(m, s.now, fired, handlers, t);
      assert !DueAt(AfterFiring(m, fired, handlers), t, s.now);
    }
  }

  ghost predicate Increasing(r: seq<nat>, bound: nat) {
    (forall i, j :: 0 <= i < j < |r| ==> r[i] < r[j]) && (forall i :: 0 <= i < |r| ==> r[i] < bound)
  }

  /** The ticks at which a timer runs come in order, no tick twice, whatever clients and handlers do. */
  lemma {:induction false} RunsInOrder(s: State, events: seq<Event>, t: Timer)
    requires LegalRun(s, events)
    ensures AfterAll(s, events).now == s.now + Passes(events)
    ensures Increasing(RunsOf(s.now, events, t), s.now + Passes(events))
    decreases |events|
  {
    if events != [] {
      var front, e := events[..|events| - 1], events[|events| - 1];
      RunsInOrder(s, front, t);
      var m, r, n := AfterAll(s, front), RunsOf(s.now, front, t), s.now + Passes(front);
      if e.Pass? {
        PassRunsEachOnce(m.(now := m.now + 1), m.now, e.fired, e.handlers, t);
        assert RunsOf(s.now, events, t) == if Count(e.fired, t) == 1 then r + [n] else r;
      } else {
        assert RunsOf(s.now, events, t) == r;
      }
    }
  }

  /** A pending timer runs for the first time in the pass of the tick it is due at, unless it is touched before it
      runs; what its own handler, or anybody after it, does to it makes no difference. */
  lemma {:induction false} RunsWhenDue(s: State, events: seq<Event>, t: Timer)
    requires LegalRun(s, events) && t in s.pending && s.now <= s.pending[t]
    requires UndisturbedUntil(s.now, events, t, s.pending[t])
    ensures var s', r := AfterAll(s, events), RunsOf(s.now, events, t);
            s'.now == s.now + Passes(events) &&
            if s'.now <= s.pending[t] then r == [] && DueAt(s', t, s.pending[t])
            else r != [] && r[0] == s.pending[t]
    decreases |events|
  {
    hide Undisturbed, UndisturbedUntil, RunsAs;
    if events != [] {
      var front, e := events[..|events| - 1], events[|events| - 1];
      UndisturbedFront(s.now, events, t, s.pending[t]);
      RunsWhenDue(s, front, t);
      var m := AfterAll(s, front);
      if m.now <= s.pending[t] {
        if e.Pass? {
          PassUndisturbed(m, e.fired, e.handlers, t);
        } else {
          CallUndisturbed(m, e, t);
        }
      }
    }
  }

  lemma CallUndisturbed(s: State, e: Event, t: Timer)
    requires e.Call? && Undisturbed(e, t)
    ensures SameFor(s, After(s, e), t)
  {
  }

  /** The law of the wheel: a timer armed with expiry time e at tick T runs for the first time in the pass of tick
      T + max(0, e - T), the difference taken as a signed 64-bit number, unless it is touched before it runs, and
      it runs in that pass once. */
  lemma ArmedRunsOnTime(s: State, t: Timer, e: Word, events: seq<Event>)
    requires LegalRun(Apply(s, Add(t, e)), events)
    requires UndisturbedUntil(s.now, events, t, s.now + if (e - s.now) % WORD < HALF then (e - s.now) % WORD else 0)
    ensures var diff := (e - s.now) % WORD;
            var d := s.now + if diff < HALF then diff else 0;
            var r := RunsOf(s.now, events, t);
            && (s.now + Passes(events) <= d ==> r == [])
            && (s.now + Passes(events) > d ==> r != [] && r[0] == d && forall i :: 0 < i < |r| ==> r[i] > d)
  {
    hide LegalRun, AfterAll, RunsOf, Passes, UndisturbedUntil;
    RunsWhenDue(Apply(s, Add(t, e)), events, t);
    RunsInOrder(Apply(s, Add(t, e)), events, t);
  }

  /** A pass whose handlers do not touch t. */
  lemma PassAlone(s: State, e: Event, t: Timer)
    requires e.Pass? && Legal(s, e) && Untouched(e, t)
    ensures After(s, e).now == s.now + 1
    ensures if DueAt(s, t, s.now) then Count(e.fired, t) == 1 && t !in After(s, e).pending
            else Count(e.fired, t) == 0 && SameFor(s, After(s, e), t)
  {
    hide AllDue, AfterFiring, UntouchedBy;
    PassUntouched(s.(now := s.now + 1), s.now, e.fired, e.handlers, t);
    assert !DueAt(After(s, e), t, s.now);
  }

  /** A pending timer that nobody touches at all runs once. */
  lemma {:induction false} UntouchedRunsOnce(s: State, events: seq<Event>, t: Timer)
    requires LegalRun(s, events) && t in s.pending && s.now <= s.pending[t]
    requires forall i :: 0 <= i < |events| ==> Untouched(events[i], t)
    ensures var s' := AfterAll(s, events);
            s'.now == s.now + Passes(events) &&
            if s'.now <= s.pending[t] then RunsOf(s.now, events, t) == [] && DueAt(s', t, s.pending[t])
            else RunsOf(s.now, events, t) == [s.pending[t]] && t !in s'.pending
    decreases |events|
  {
    if events != [] {
      var front, e := events[..|events| - 1], events[|events| - 1];
      UntouchedRunsOnce(s, front, t);
      assert Untouched(e, t);
      hide Legal, Untouched, After, Count;
      if e.Pass? {
        PassAlone(AfterAll(s, front), e, t);
      } else {
        CallAlone(AfterAll(s, front), e, t);
      }
    }
  }

  lemma CallAlone(s: State, e: Event, t: Timer)
    requires e.Call? && Untouched(e, t)
    ensures After(s, e).now == s.now && SameFor(s, After(s, e), t)
  {
  }

  /** A timer that is not pending, because it has run or was deleted, does not run. */
  lemma {:induction false} NotPendingDoesNotRun(s: State, events: seq<Event>, t: Timer)
    requires LegalRun(s, events) && t !in s.pending
    requires forall i :: 0 <= i < |events| ==> Untouched(events[i], t)
    ensures RunsOf(s.now, events, t) == [] && t !in AfterAll(s, events).pending
    decreases |events|
  {
    if events != [] {
      var front, e := events[..|events| - 1], events[|events| - 1];
      NotPendingDoesNotRun(s, front, t);
      var m := AfterAll(s, front);
      if e.Pass? {
        PassUntouched(m.(now := m.now + 1), m.now, e.fired, e.handlers, t);
      }
    }
  }

  /** An action on one timer leaves every other as it was. */
  lemma OthersAsBefore(s: State, a: Action, u: Timer)
    requires u != a.timer
    ensures SameFor(s, Apply(s, a), u) && (u in s.expires <==> u in Apply(s, a).expires)
    ensures u in s.expires ==> Apply(s, a).expires[u] == s.expires[u]
  {
  }

  /** A timer that is deleted does not run, until somebody touches it again. */
  lemma DeletedDoesNotRun(s: State, t: Timer, events: seq<Event>)
    requires LegalRun(Apply(s, Del(t)), events)
    requires forall i :: 0 <= i < |events| ==> Untouched(events[i], t)
    ensures RunsOf(s.now, events, t) == [] && t !in AfterAll(Apply(s, Del(t)), events).pending
  {
    NotPendingDoesNotRun(Apply(s, Del(t)), events, t);
  }

  /** A timer re-armed with expiry time e runs as if it had been added with it; but one that is pending with that very
      expiry time runs when it would have run. */
  lemma ModifiedRunsOnTime(s: State, t: Timer, e: Word, events: seq<Event>, d: nat)
    requires t in s.pending ==> s.now <= s.pending[t]
    requires d == if t in s.pending && t in s.expires && s.expires[t] == e then s.pending[t]
                  else s.now + if (e - s.now) % WORD < HALF then (e - s.now) % WORD else 0
    requires LegalRun(Apply(s, Mod(t, e)), events) && UndisturbedUntil(s.now, events, t, d)
    ensures var r := RunsOf(s.now, events, t);
            && (s.now + Passes(events) <= d ==> r == [])
            && (s.now + Passes(events) > d ==> r != [] && r[0] == d && forall i :: 0 < i < |r| ==> r[i] > d)
  {
    hide LegalRun, AfterAll, RunsOf, Passes, UndisturbedUntil;
    RunsWhenDue(Apply(s, Mod(t, e)), events, t);
    RunsInOrder(Apply(s, Mod(t, e)), events, t);
  }

  lemma {:induction false} ApplyAllConcat(s: State, a: seq<Action>, b: seq<Action>)
    ensures ApplyAll(s, a + b) == ApplyAll(ApplyAll(s, a), b)
    decreases |a|
  {
    if a == [] {
      assert a + b == b;
    } else {
      assert (a + b)[1..] == a[1..] + b;
      ApplyAllConcat(Apply(s, a[0]), a[1..], b);
    }
  }

  /** A timer that is not due at the tick of the pass, and that nobody touches from the k-th handler on, is left as it
      was. */
  lemma {:induction false} LaterHandlersKeep(s: State, n: nat, fired: seq<Timer>, handlers: seq<seq<Action>>, k: nat,
                                             t: Timer)
    requires k <= |fired| && AllDue(s, n, fired, handlers) && !DueAt(AfterFiring(s, fired[..k], handlers), t, n)
    requires forall j :: k <= j < |fired| ==> UntouchedBy(Script(handlers, j), t)
    ensures SameFor(AfterFiring(s, fired[..k], handlers), AfterFiring(s, fired, handlers), t)
    decreases |fired|
  {
    if k == |fired| {
      assert fired[..k] == fired;
    } else {
      var j := |fired| - 1;
      assert fired[..j][..k] == fired[..k];
      LaterHandlersKeep(s, n, fired[..j], handlers, k, t);
      var m := AfterFiring(s, fired[..j], handlers);
      ApplyAllUntouched(m.(pending := m.pending - {fired[j]}), Script(handlers, j), t);
    }
  }

  /** The state in which the k-th handler of a pass makes its i-th call. */
  function AtCall(s: State, fired: seq<Timer>, handlers: seq<seq<Action>>, k: nat, i: nat): (m: State)
    requires k < |fired| && i <= |Script(handlers, k)|
  {
    var m := AfterFiring(s, fired[..k], handlers);
    ApplyAll(m.(pending := m.pending - {fired[k]}), Script(handlers, k)[..i])
  }

  lemma CallTaken(s: State, fired: seq<Timer>, handlers: seq<seq<Action>>, k: nat, i: nat, t: Timer)
    requires k < |fired| && i < |Script(handlers, k)| && UntouchedBy(Script(handlers, k)[i + 1..], t)
    ensures SameFor(Apply(AtCall(s, fired, handlers, k, i), Script(handlers, k)[i]),
                    AfterFiring(s, fired[..k + 1], handlers), t)
  {
    hide Apply;
    var script := Script(handlers, k);
    var m := AfterFiring(s, fired[..k], handlers);
    var start := m.(pending := m.pending - {fired[k]});
    assert fired[..k + 1][..k] == fired[..k];
    assert script == script[..i] + ([script[i]] + script[i + 1..]);
    ApplyAllConcat(start, script[..i], [script[i]] + script[i + 1..]);
    assert ([script[i]] + script[i + 1..])[1..] == script[i + 1..];
    ApplyAllUntouched(Apply(AtCall(s, fired, handlers, k, i), script[i]), script[i + 1..], t);
  }

  /** The last call that the handlers of a pass make on a timer decides how the pass leaves it: a handler that re-arms
      its own timer has it pending for the time it asks for, one that deletes a timer has it off. */
  lemma LastCallDecides(s: State, fired: seq<Timer>, handlers: seq<seq<Action>>, k: nat, i: nat)
    requires Legal(s, Pass(fired, handlers)) && k < |fired| && i < |Script(handlers, k)|
    requires var t := Script(handlers, k)[i].timer;
             && UntouchedBy(Script(handlers, k)[i + 1..], t)
             && (forall j :: k < j < |fired| ==> UntouchedBy(Script(handlers, j), t))
    ensures var a, s' := Script(handlers, k)[i], After(s, Pass(fired, handlers));
            var now := s.now + 1;
            && (a.Del? ==> a.timer !in s'.pending)
            && (a.Add? || (a.Mod? && fired[k] == a.timer && UntouchedBy(Script(handlers, k)[..i], a.timer)) ==>
                  var diff := (a.expires - now) % WORD;
                  DueAt(s', a.timer, now + if diff < HALF then diff else 0))
  {
    hide AllDue, AfterFiring, ApplyAll, UntouchedBy;
    var a, t, m := Script(handlers, k)[i], Script(handlers, k)[i].timer, s.(now := s.now + 1);
    CallTaken(m, fired, handlers, k, i, t);
    var at := AtCall(m, fired, handlers, k, i);
    if a.Mod? && fired[k] == t && UntouchedBy(Script(handlers, k)[..i], t) {
      var before := AfterFiring(m, fired[..k], handlers);
      ApplyAllUntouched(before.(pending := before.pending - {t}), Script(handlers, k)[..i], t);
    }
    if a.Del? || a.Add? || (a.Mod? && t !in at.pending) {
      LaterHandlersKeep(m, s.now, fired, handlers, k + 1, t);
    }
  }

  /** A timer due at the tick of a pass runs in it, unless a handler that the pass runs touches it. */
  lemma DueRunsUnlessTouched(s: State, fired: seq<Timer>, handlers: seq<seq<Action>>, t: Timer)
    requires Legal(s, Pass(fired, handlers)) && DueAt(s, t, s.now)
    ensures t in fired || exists k :: 0 <= k < |fired| && !UntouchedBy(Script(handlers, k), t)
  {
    if forall k :: 0 <= k < |fired| ==> UntouchedBy(Script(handlers, k), t) {
      PassUntouched(s.(now := s.now + 1), s.now, fired, handlers, t);
      assert !DueAt(AfterFiring(s.(now := s.now + 1), fired, handlers), t, s.now);
    }
  }

  lemma {:induction false} ApplyAllNothingDue(s: State, actions: seq<Action>, t: Timer, n: nat)
    requires n < s.now && !DueAt(s, t, n)
    ensures !DueAt(ApplyAll(s, actions), t, n)
    decreases |actions|
  {
    if actions != [] {
      ApplyAllNothingDue(Apply(s, actions[0]), actions[1..], t, n);
    }
  }

  /** Whatever the handlers do, a pass runs only timers that were due at its tick when it began, none of them
      twice: what a handler arms waits for a later pass. */
  lemma {:induction false} PassRunsEachOnce(s: State, n: nat, fired: seq<Timer>, handlers: seq<seq<Action>>, t: Timer)
    requires n < s.now && AllDue(s, n, fired, handlers)
    ensures Count(fired, t) <= 1
    ensures t in fired ==> DueAt(s, t, n) && !DueAt(AfterFiring(s, fired, handlers), t, n)
    ensures !DueAt(s, t, n) ==> !DueAt(AfterFiring(s, fired, handlers), t, n)
    decreases |fired|
  {
    if fired != [] {
      var k := |fired| - 1;
      assert fired == fired[..k] + [fired[k]];
      PassRunsEachOnce(s, n, fired[..k], handlers, t);
      var m := AfterFiring(s, fired[..k], handlers);
      var m' := m.(pending := m.pending - {fired[k]});
      if !DueAt(m', t, n) {
        ApplyAllNothingDue(m', Script(handlers, k), t, n);
      }
      assert t in fired[..k] ==> Count(fired[..k], t) >= 1;
    }
  }
}
