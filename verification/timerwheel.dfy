/** The timer base of TCP_C/timer.c: the lists of the wheel and the operations on them. */
module TimerWheel {
  import opened TimerSpec
  import opened WheelSlots
  import opened WheelOrder

  predicate IsList(loc: Loc) {
    IsSlot(loc) || loc.Work?
  }

  ghost predicate NoRepeats(s: seq<Timer>) {
    forall i, j :: 0 <= i < j < |s| ==> s[i] != s[j]
  }

  function Without(s: seq<Timer>, t: Timer): (r: seq<Timer>)
    requires t in s
    ensures |r| == |s| - 1
  {
    if s[0] == t then s[1..] else [s[0]] + Without(s[1..], t)
  }

  lemma {:induction false} WithoutElements(s: seq<Timer>, t: Timer)
    requires t in s && NoRepeats(s)
    ensures NoRepeats(Without(s, t))
    ensures forall x :: x in Without(s, t) <==> x in s && x != t
  {
    assert s == [s[0]] + s[1..];
    if s[0] == t {
      assert forall x :: x in s[1..] ==> x in s && x != t;
    } else {
      WithoutElements(s[1..], t);
      var r := Without(s[1..], t);
      assert s[0] !in r;
    }
  }

  lemma {:induction false} WithoutOrder(s: seq<Timer>, x: Timer, t: Timer, u: Timer)
    requires x in s && t != x && u != x && InOrder(s, t, u)
    ensures InOrder(Without(s, x), t, u)
    decreases |s|
  {
    var i, j :| 0 <= i < j < |s| && s[i] == t && s[j] == u;
    var rest := s[1..];
    if s[0] == x {
      assert rest[i - 1] == t && rest[j - 1] == u;
    } else {
      var r := Without(rest, x);
      if i == 0 {
        WithoutHas(rest, x, j - 1);
        var k :| 0 <= k < |r| && r[k] == u;
        assert ([s[0]] + r)[0] == t && ([s[0]] + r)[k + 1] == u;
      } else {
        assert rest[i - 1] == t && rest[j - 1] == u;
        WithoutOrder(rest, x, t, u);
        var k, l :| 0 <= k < l < |r| && r[k] == t && r[l] == u;
        assert ([s[0]] + r)[k + 1] == t && ([s[0]] + r)[l + 1] == u;
      }
    }
  }

  lemma {:induction false} WithoutHas(s: seq<Timer>, x: Timer, i: nat)
    requires x in s && i < |s| && s[i] != x
    ensures s[i] in Without(s, x)
    decreases |s|
  {
    if s[0] != x && i > 0 {
      WithoutHas(s[1..], x, i - 1);
    }
    assert s[0] == x ==> s[1..][i - 1] == s[i];
  }

  lemma WithoutSame(s: seq<Timer>, x: Timer)
    requires x in s
    ensures SameBut(s, Without(s, x), x)
  {
    hide InOrder;
    forall t, u | t != x && u != x && InOrder(s, t, u)
      ensures InOrder(Without(s, x), t, u)
    {
      WithoutOrder(s, x, t, u);
    }
  }

  function Elements(s: seq<Timer>): (r: set<Timer>) {
    set t | t in s
  }

  /** Every pending timer is linked into exactly one list, once; entry tells which. */
  ghost predicate Linked(lists: Lists, entry: map<Timer, Loc>) {
    && (forall loc :: loc in lists <==> IsList(loc))
    && (forall loc :: loc in lists ==> NoRepeats(lists[loc]))
    && (forall loc, t :: loc in lists ==> (t in lists[loc] <==> t in entry && entry[t] == loc))
    && (forall t :: t in entry ==> entry[t] in lists)
  }

  lemma LinkKeeps(lists: Lists, entry: map<Timer, Loc>, t: Timer, loc: Loc)
    requires Linked(lists, entry) && t !in entry && IsList(loc)
    ensures loc in lists && Linked(lists[loc := lists[loc] + [t]], entry[t := loc])
  {
    assert t !in lists[loc];
  }

  lemma UnlinkKeeps(lists: Lists, entry: map<Timer, Loc>, t: Timer)
    requires Linked(lists, entry) && t in entry
    ensures entry[t] in lists && t in lists[entry[t]]
    ensures Linked(lists[entry[t] := Without(lists[entry[t]], t)], entry - {t})
  {
    WithoutElements(lists[entry[t]], t);
  }

  /** The timer at loc, due at d, is where it has to be when the next pass is that of tick `now`. Up to the level
      `done` the cascades of that pass have been made. A timer on the work list belongs to the pass before. */
  ghost predicate TimerOk(loc: Loc, d: nat, e: Word, now: nat, done: nat)
    requires IsList(loc)
  {
    if loc.Work? then d + 1 == now
    else if loc.level == 0 then Placed(loc, d, now)
    else Placed(loc, d, if loc.level <= done then now + 1 else now) && d % WORD == e && d < now + HALF
  }

  ghost predicate TimersOk(entry: map<Timer, Loc>, due: map<Timer, nat>, expires: map<Timer, Word>, now: nat, done: nat)
  {
    && entry.Keys == due.Keys <= expires.Keys
    && (forall t :: t in entry ==> IsList(entry[t]) && TimerOk(entry[t], due[t], expires[t], now, done))
  }

  /** A timer that internal_add_timer places is in order whatever cascades of this pass are still to come. */
  lemma AddedOk(entry: map<Timer, Loc>, due: map<Timer, nat>, expires: map<Timer, Word>, now: nat, done: nat, t: Timer)
    requires TimersOk(entry, due, expires, now, done) && t in expires
    ensures TimersOk(entry[t := SlotFor(expires[t], now % WORD)], due[t := Due(now, expires[t])], expires, now, done)
  {
    hide Visits, SlotFor;
    SlotForPlaces(now, expires[t]);
  }

  lemma DetachedOk(entry: map<Timer, Loc>, due: map<Timer, nat>, expires: map<Timer, Word>, now: nat, done: nat,
                   t: Timer)
    requires TimersOk(entry, due, expires, now, done)
    ensures TimersOk(entry - {t}, due - {t}, expires, now, done)
  {
    hide TimerOk;
  }

  lemma ExpiresSet(entry: map<Timer, Loc>, due: map<Timer, nat>, expires: map<Timer, Word>, now: nat, t: Timer, e: Word)
    requires TimersOk(entry, due, expires, now, 0) && t !in entry
    ensures TimersOk(entry, due, expires[t := e], now, 0)
  {
    hide TimerOk;
  }

  lemma DueAgain(now: nat, d: nat)
    requires now <= d < now + HALF
    ensures Due(now, d % WORD) == d
  {
  }

  /** list_replace_init of a slot to a list outside the base. */
  lemma EmptiedKeeps(lists: Lists, entry: map<Timer, Loc>, loc: Loc)
    requires Linked(lists, entry) && IsList(loc)
    ensures loc in lists && Linked(lists[loc := []], entry - Elements(lists[loc]))
  {
    var lists', entry' := lists[loc := []], entry - Elements(lists[loc]);
    forall l, t | l in lists'
      ensures t in lists'[l] <==> t in entry' && entry'[t] == l
    {
      assert t in lists[l] <==> t in entry && entry[t] == l;
      assert t in lists[loc] <==> t in entry && entry[t] == loc;
    }
  }

  /** With the visited slot of a level emptied, that level's cascade for this tick is done: no other slot of
      the level is visited by this tick. */
  lemma EmptiedOk(entry: map<Timer, Loc>, due: map<Timer, nat>, expires: map<Timer, Word>, now: nat, level: nat,
                  gone: set<Timer>)
    requires 1 <= level <= 4 && TimersOk(entry, due, expires, now, level - 1)
    requires forall t :: t in entry && entry[t] == Slot(level, (now / Span(level)) % 64) ==> t in gone
    ensures TimersOk(entry - gone, due - gone, expires, now, level)
  {
    forall t | t in entry && t !in gone
      ensures TimerOk(entry[t], due[t], expires[t], now, level)
    {
      if entry[t].Slot? && entry[t].level == level {
        NotVisited(entry[t], due[t], now);
      }
    }
  }

  lemma NotVisited(loc: Loc, d: nat, now: nat)
    requires IsSlot(loc) && loc.level >= 1 && Placed(loc, d, now) && loc.index != (now / Span(loc.level)) % 64
    ensures Placed(loc, d, now + 1)
  {
    var c :| now <= c <= d && Visits(c, loc);
    assert c != now;
  }

  /** A level whose cascade this pass does not reach, and all above it, are not visited by this tick. */
  lemma NoCascadeOk(entry: map<Timer, Loc>, due: map<Timer, nat>, expires: map<Timer, Word>, now: nat, level: nat)
    requires 1 <= level <= 4 && !Cascades(now, level) && TimersOk(entry, due, expires, now, level - 1)
    ensures TimersOk(entry, due, expires, now, 4)
  {
    forall t | t in entry
      ensures TimerOk(entry[t], due[t], expires[t], now, 4)
    {
      var loc := entry[t];
      if loc.Slot? && loc.level >= level {
        var c :| now <= c <= due[t] && Visits(c, loc);
        CascadesAreVisits(now, loc);
        assert c != now;
      }
    }
  }

  /** The timers of a slot that is being cascaded are due at or after this tick, and will be so again. */
  lemma CascadedDue(entry: map<Timer, Loc>, due: map<Timer, nat>, expires: map<Timer, Word>, now: nat, done: nat,
                    t: Timer)
    requires TimersOk(entry, due, expires, now, done) && t in entry && entry[t].Slot? && entry[t].level >= 1
    ensures t in due && t in expires && Due(now, expires[t]) == due[t]
  {
    DueAgain(now, due[t]);
  }

  class TimerBase {
    var timer_jiffies: Word
    var lists: Lists
    var entry: map<Timer, Loc>
    var expires: map<Timer, Word>
    ghost var now: nat
    ghost var due: map<Timer, nat>

    ghost predicate Inv(done: nat)
      reads this
    {
      && timer_jiffies == now % WORD && entry.Keys == due.Keys && Work in lists
      && Linked(lists, entry) && TimersOk(entry, due, expires, now, done)
    }

    /** Between calls from the main loop the work list is empty. */
    ghost predicate Valid()
      reads this
    {
      Inv(0) && lists[Work] == []
    }

    ghost function Timers(): (s: State)
      reads this
    {
      State(now, due, expires)
    }

    ghost function Order(): (w: Wheel)
      reads this
    {
      Wheel(lists, entry, expires)
    }

    /** init_timers_cpu at clock reading j. */
    constructor (j: Word)
      ensures Valid() && Timers() == State(j, map[], map[])
    {
      timer_jiffies, now := j, j;
      var locs := (set l: nat, i: nat | l <= 4 && i < Size(l) :: Slot(l, i)) + {Work};
      lists := map loc | loc in locs :: [];
      entry, due, expires := map[], map[], map[];
    }

    /** detach_timer */
    method DetachTimer(t: Timer, ghost done: nat)
      requires Inv(done) && t in entry
      modifies this
      ensures Inv(done) && Timers() == old(Timers()).(pending := old(due) - {t})
      ensures entry == old(entry) - {t}
      ensures lists[Work] == if old(entry)[t] == Work then Without(old(lists)[Work], t) else old(lists)[Work]
      ensures OrderKept(old(Order()), Order(), {t})
    {
      hide Linked, TimersOk, OrderKept;
      UnlinkKeeps(lists, entry, t);
      WithoutSame(lists[entry[t]], t);
      OrderRemove(Order(), t, Without(lists[entry[t]], t));
      DetachedOk(entry, due, expires, now, done, t);
      lists := lists[entry[t] := Without(lists[entry[t]], t)];
      entry := entry - {t};
      due := due - {t};
    }

    /** internal_add_timer */
    method InternalAddTimer(t: Timer, ghost done: nat)
      requires Inv(done) && t !in entry && t in expires
      modifies this
      ensures Inv(done) && expires == old(expires)
      ensures Timers() == old(Timers()).(pending := old(due)[t := Due(old(now), expires[t])])
      ensures entry == old(entry)[t := SlotFor(expires[t], timer_jiffies)]
      ensures lists[Work] == old(lists)[Work]
      ensures var loc := SlotFor(expires[t], timer_jiffies);
              loc in old(lists) && lists == old(lists)[loc := old(lists)[loc] + [t]]
      ensures OrderKept(old(Order()), Order(), {t})
    {
      hide Linked, TimersOk, OrderKept;
      var loc := SlotFor(expires[t], timer_jiffies);
      LinkKeeps(lists, entry, t, loc);
      OrderAppend(Order(), loc, t);
      AddedOk(entry, due, expires, now, done, t);
      lists := lists[loc := lists[loc] + [t]];
      entry := entry[t := loc];
      due := due[t := Due(now, expires[t])];
    }

    method DelTimer(t: Timer) returns (ret: int)
      requires Inv(0)
      modifies this
      ensures Inv(0) && Timers() == Apply(old(Timers()), Del(t))
      ensures t !in due && t !in entry && due == old(due) - {t}
      ensures ret == if t in old(due) then 1 else 0
      ensures |lists[Work]| <= |old(lists)[Work]| && OrderKept(old(Order()), Order(), {t})
    {
      hide OrderKept;
      OrderSame(Order(), {t});
      ret := 0;
      if t in entry {
        DetachTimer(t, 0);
        ret := 1;
      } else {
        assert due - {t} == due;
      }
    }

    /** __mod_timer, which is what add_timer calls with the expiry time that its caller stored. */
    method AddTimer(t: Timer, e: Word) returns (ret: int)
      requires Inv(0)
      modifies this
      ensures Inv(0) && Timers() == Apply(old(Timers()), Add(t, e))
      ensures ret == if t in old(due) then 1 else 0
      ensures |lists[Work]| <= |old(lists)[Work]| && OrderKept(old(Order()), Order(), {t})
      ensures entry == old(entry)[t := SlotFor(e, timer_jiffies)] && timer_jiffies == old(timer_jiffies)
      ensures entry[t] in lists && lists[entry[t]] != [] && lists[entry[t]][|lists[entry[t]]| - 1] == t
    {
      hide Linked, TimersOk, OrderKept, SlotFor;
      ghost var start := Order();
      OrderSame(start, {t});
      ret := 0;
      if t in entry {
        DetachTimer(t, 0);
        ret := 1;
      }
      ExpiresSet(entry, due, expires, now, t, e);
      OrderExpires(Order(), t, e);
      OrderThrice(start, Order(), Order().(expires := expires[t := e]), t);
      expires := expires[t := e];
      ghost var armed := Order();
      InternalAddTimer(t, 0);
      OrderThrice(start, armed, Order(), t);
      assert due == old(due)[t := Due(now, e)];
    }

    /** Timers armed for the same time in one tick stand, and so run, in the order in which they were armed. */
    method ArmBoth(t: Timer, u: Timer, e: Word)
      requires Inv(0) && t != u
      modifies this
      ensures Inv(0) && Timers() == Apply(Apply(old(Timers()), Add(t, e)), Add(u, e))
      ensures Alike(Order(), t, u) && Before(Order(), t, u)
    {
      hide SlotFor, Linked, TimersOk, OrderKept, InOrder, Due;
      var ret := AddTimer(t, e);
      ret := AddTimer(u, e);
      StandsLast(lists, entry, t, u);
    }

    method ModTimer(t: Timer, e: Word) returns (ret: int)
      requires Inv(0)
      modifies this
      ensures Inv(0) && Timers() == Apply(old(Timers()), Mod(t, e))
      ensures ret == if t in old(due) then 1 else 0
      ensures |lists[Work]| <= |old(lists)[Work]| && OrderKept(old(Order()), Order(), {t})
    {
      hide OrderKept;
      OrderSame(Order(), {t});
      if t in expires && expires[t] == e && t in entry {
        return 1;
      }
      ret := AddTimer(t, e);
    }

    method Do(a: Action)
      requires Inv(0)
      modifies this
      ensures Inv(0) && Timers() == Apply(old(Timers()), a)
      ensures |lists[Work]| <= |old(lists)[Work]| && OrderKept(old(Order()), Order(), {a.timer})
    {
      var ret: int;
      match a {
        case Add(t, e) => ret := AddTimer(t, e);
        case Mod(t, e) => ret := ModTimer(t, e);
        case Del(t) => ret := DelTimer(t);
      }
    }
  
    /** The loop of cascade: timers taken off the base, with their due ticks in `all`, are placed anew. */
    method AddAgain(list: seq<Timer>, ghost all: map<Timer, nat>, ghost level: nat)
      requires Inv(level) && NoRepeats(list) && due == all - Elements(list)
      requires forall t :: t in list ==> t in all && t in expires && Due(now, expires[t]) == all[t]
      modifies this
      ensures Inv(level) && Timers() == State(old(now), all, old(expires)) && timer_jiffies == old(timer_jiffies)
      ensures lists[Work] == old(lists)[Work] && DealtInOrder(old(Order()), Order(), list)
    {
      hide Linked, TimersOk, Due, DealtInOrder, SlotFor, OrderKept;
      ghost var start := Order();
      DealtNone(start, timer_jiffies);
      for i := 0 to |list|
        invariant Inv(level) && now == old(now) && expires == old(expires) && timer_jiffies == old(timer_jiffies)
        invariant lists[Work] == old(lists)[Work]
        invariant due == all - Elements(list[i..])
        invariant DealtInOrder(start, Order(), list[..i]) && DealtTo(Order(), list[..i], timer_jiffies)
      {
        var t := list[i];
        assert list[i..] == [t] + list[i + 1..];
        assert t !in list[i + 1..];
        assert list[..i + 1] == list[..i] + [t];
        ghost var before := Order();
        InternalAddTimer(t, level);
        DealtNext(start, before, Order(), list[..i], t, timer_jiffies);
      }
      assert list[|list|..] == [] && list[..|list|] == list;
    }

    /** cascade: the timers of one slot are placed anew. */
    method Cascade(level: nat, index: nat) returns (r: nat)
      requires 1 <= level <= 4 && Inv(level - 1) && index == (timer_jiffies / Span(level)) % 64
      modifies this
      ensures Inv(level) && Timers() == old(Timers()) && timer_jiffies == old(timer_jiffies)
      ensures lists[Work] == old(lists)[Work] && r == index && OrderKept(old(Order()), Order(), {})
    {
      hide Linked, TimersOk, Due, Elements, OrderKept, DealtInOrder;
      ghost var start := Order();
      var loc := Slot(level, index);
      LowBits(now, level);
      EmptiedKeeps(lists, entry, loc);
      MembersAt(lists, entry, loc);
      var list := lists[loc];
      EmptiedOk(entry, due, expires, now, level, Elements(list));
      forall t | t in list
        ensures t in due && t in expires && Due(now, expires[t]) == due[t]
      {
        CascadedDue(entry, due, expires, now, level - 1, t);
      }
      lists := lists[loc := []];
      entry := entry - Elements(list);
      due := due - Elements(list);
      ghost var emptied := Order();
      AddAgain(list, old(due), level);
      CascadeOrder(start, emptied, Order(), loc, list);
      r := index;
    }
  
    /** The cascades of a pass, before timer_jiffies is advanced. */
    method CascadeAll()
      requires Inv(0)
      modifies this
      ensures Inv(4) && Timers() == old(Timers()) && timer_jiffies == old(timer_jiffies)
      ensures lists[Work] == old(lists)[Work] && OrderKept(old(Order()), Order(), {})
    {
      hide Linked, TimersOk, OrderKept, Span, Cascades;
      ghost var start := Order();
      OrderSame(start, {});
      Indices(now, timer_jiffies);
      var index := timer_jiffies % 256;
      ghost var reached := 1;
      if index == 0 {
        var r := Cascade(1, (timer_jiffies / 0x100) % 64);
        reached := 2;
        if r == 0 {
          ghost var first := Order();
          r := Cascade(2, (timer_jiffies / 0x4000) % 64);
          OrderBoth(start, first, Order());
          reached := 3;
          if r == 0 {
            ghost var second := Order();
            r := Cascade(3, (timer_jiffies / 0x10_0000) % 64);
            OrderBoth(start, second, Order());
            reached := 4;
            if r == 0 {
              ghost var third := Order();
              r := Cascade(4, (timer_jiffies / 0x400_0000) % 64);
              OrderBoth(start, third, Order());
              return;
            }
          }
        }
      }
      NoCascadeOk(entry, due, expires, now, reached);
    }

    /** One handler: the calls that it makes, in order. */
    method RunHandler(actions: seq<Action>)
      requires Inv(0)
      modifies this
      ensures Inv(0) && Timers() == ApplyAll(old(Timers()), actions)
      ensures |lists[Work]| <= |old(lists)[Work]| && OrderKept(old(Order()), Order(), TouchedBy(actions))
      decreases |actions|
    {
      hide OrderKept, TouchedBy;
      if actions == [] {
        OrderSame(Order(), TouchedBy(actions));
      } else {
        ghost var start := Order();
        Do(actions[0]);
        ghost var first := Order();
        RunHandler(actions[1..]);
        TouchedFirst(actions);
        OrderTwice(start, first, Order(), {actions[0].timer}, TouchedBy(actions[1..]));
      }
    }
  
    /** The tick advances and the slot of the tick becomes the work list. */
    method TakeWork()
      requires Inv(4) && lists[Work] == []
      modifies this
      ensures Inv(0) && Timers() == old(Timers()).(now := old(now) + 1) && OrderKept(old(Order()), Order(), {})
    {
      hide Linked, TimersOk, OrderKept;
      var loc := Slot(0, timer_jiffies % 256);
      LowBits(now, 0);
      AddModulo(now, 1);
      MembersAt(lists, entry, Work);
      TakeKeeps(lists, entry, loc);
      TakeOk(entry, due, expires, now);
      OrderMoved(Order(), loc, Work, Taken(entry, loc));
      timer_jiffies := (1 + timer_jiffies) % WORD;
      now := now + 1;
      lists := lists[Work := lists[loc]][loc := []];
      entry := Taken(entry, loc);
    }

    /** One turn of the outer loop of __run_timers: exactly the timers due at this tick run, in the order in which
        they stand on the work list, unless an earlier handler of the pass has deleted or re-armed them. */
    method RunPass(handlers: seq<seq<Action>>) returns (fired: seq<Timer>)
      requires Valid()
      modifies this
      ensures Valid() && Timers() == After(old(Timers()), Pass(fired, handlers))
      ensures Legal(old(Timers()), Pass(fired, handlers))
      ensures now == old(now) + 1
      ensures RunInOrder(old(Order()), fired, Touched(handlers, |fired|))
      ensures OrderKept(old(Order()), Order(), Touched(handlers, |fired|) + Elements(fired))
    {
      hide Linked, TimersOk, AfterFiring, AllDue, ApplyAll, OrderKept, RunInOrder, Touched, TouchedBy, Elements;
      ghost var first := Order();
      CascadeAll();
      ghost var cascaded := Order();
      TakeWork();
      OrderBoth(first, cascaded, Order());
      PassStarts(first, Order(), handlers);
      ghost var start := Timers();
      fired := [];
      FiredNone(start, old(now), handlers);
      while lists[Work] != []
        invariant Inv(0) && Timers() == AfterFiring(start, fired, handlers)
        invariant AllDue(start, old(now), fired, handlers)
        invariant RunInOrder(first, fired, Touched(handlers, |fired|))
        invariant OrderKept(first, Order(), Touched(handlers, |fired|) + Elements(fired))
        decreases |lists[Work]|
      {
        var t := lists[Work][0];
        WorkIsDue(lists, entry, due, expires, now, t);
        FirstOnce(lists, entry);
        ghost var before := Order();
        DetachTimer(t, 0);
        ghost var detached := Order();
        RunHandler(Script(handlers, |fired|));
        PassGoesOn(first, before, detached, Order(), fired, t, handlers);
        FiredOne(start, old(now), fired, handlers, t);
        fired := fired + [t];
      }
      NoneLeft(lists, entry, due, expires, now);
    }
  
    /** __run_timers: passes for as long as the clock has not fallen behind timer_jiffies. The clock is read anew
        before every pass; `clock` is the readings and handlers[i] what the handlers of the i-th pass do. */
    method RunTimers(clock: seq<Word>, handlers: seq<seq<seq<Action>>>) returns (events: seq<Event>)
      requires Valid() && |handlers| == |clock|
      modifies this
      ensures Valid() && Timers() == AfterAll(old(Timers()), events) && LegalRun(old(Timers()), events)
      ensures |events| <= |clock| && now == old(now) + |events|
      ensures forall i :: 0 <= i < |events| ==> events[i].Pass? && events[i].handlers == handlers[i]
      ensures forall i :: 0 <= i < |events| ==> TimeAfterEq(clock[i], (old(now) + i) % WORD)
      ensures |events| < |clock| ==> !TimeAfterEq(clock[|events|], now % WORD)
      ensures forall k :: StandsAhead(clock, old(now), k) ==> |events| == k + 1
      ensures forall k :: StandsBehind(clock, old(now), k) ==> events == []
    {
      hide AfterAll, LegalRun, Linked, TimersOk;
      events := [];
      NoEvents(Timers());
      while |events| < |clock| && TimeAfterEq(clock[|events|], timer_jiffies)
        invariant Valid() && Timers() == AfterAll(old(Timers()), events) && LegalRun(old(Timers()), events)
        invariant |events| <= |clock| && now == old(now) + |events|
        invariant forall i :: 0 <= i < |events| ==> events[i].Pass? && events[i].handlers == handlers[i]
        invariant forall i :: 0 <= i < |events| ==> TimeAfterEq(clock[i], (old(now) + i) % WORD)
        decreases |clock| - |events|
      {
        var fired := RunPass(handlers[|events|]);
        OneMore(old(Timers()), events, Pass(fired, handlers[|events|]));
        events := events + [Pass(fired, handlers[|events|])];
      }
      PassesUpTo(clock, old(now), |events|);
    }
  }

  /** The indices of the slots to cascade, by the stored word, and how far the chain of cascades goes. */
  lemma Indices(now: nat, tj: Word)
    requires tj == now % WORD
    ensures Span(1) == 0x100 && Span(2) == 0x4000 && Span(3) == 0x10_0000 && Span(4) == 0x400_0000
    ensures Cascades(now, 1) <==> tj % 256 == 0
    ensures Cascades(now, 2) <==> Cascades(now, 1) && (tj / 0x100) % 64 == 0
    ensures Cascades(now, 3) <==> Cascades(now, 2) && (tj / 0x4000) % 64 == 0
    ensures Cascades(now, 4) <==> Cascades(now, 3) && (tj / 0x10_0000) % 64 == 0
  {
    LowBits(now, 0);
    LowBits(now, 1);
    LowBits(now, 2);
    LowBits(now, 3);
  }

  lemma StandsLast(lists: Lists, entry: map<Timer, Loc>, t: Timer, u: Timer)
    requires Linked(lists, entry) && t in entry && u in entry && t != u && entry[t] == entry[u]
    requires entry[u] in lists && lists[entry[u]] != [] && lists[entry[u]][|lists[entry[u]]| - 1] == u
    ensures InOrder(lists[entry[u]], t, u)
  {
    var s := lists[entry[u]];
    assert t in s;
    var i :| 0 <= i < |s| && s[i] == t;
    assert i < |s| - 1;
  }

  lemma OrderThrice(w: Wheel, w': Wheel, w'': Wheel, t: Timer)
    requires OrderKept(w, w', {t}) && OrderKept(w', w'', {t})
    ensures OrderKept(w, w'', {t})
  {
    OrderTwice(w, w', w'', {t}, {t});
    assert {t} + {t} == {t};
  }

  lemma OrderBoth(w: Wheel, w': Wheel, w'': Wheel)
    requires OrderKept(w, w', {}) && OrderKept(w', w'', {})
    ensures OrderKept(w, w'', {})
  {
    OrderTwice(w, w', w'', {}, {});
    var none: set<Timer> := {};
    assert none + none == none;
  }

  /** The timers of a list have been dealt to their slots in order, behind what stood there. */
  ghost predicate DealtInOrder(w: Wheel, w': Wheel, list: seq<Timer>) {
    && w'.expires == w.expires && OrderKept(w, w', Elements(list))
    && forall t, u :: InOrder(list, t, u) && Alike(w, t, u) ==> Before(w', t, u)
  }

  /** Each of them is in the slot of its expiry time. */
  ghost predicate DealtTo(w: Wheel, list: seq<Timer>, tj: Word) {
    forall t :: t in list ==>
      t in w.entry && t in w.expires && w.entry[t] == SlotFor(w.expires[t], tj) && w.entry[t] in w.lists
      && t in w.lists[w.entry[t]]
  }

  lemma DealtNone(w: Wheel, tj: Word)
    ensures DealtInOrder(w, w, []) && DealtTo(w, [], tj)
  {
  }

  lemma DealtNext(w: Wheel, w': Wheel, w'': Wheel, list: seq<Timer>, x: Timer, tj: Word)
    requires DealtInOrder(w, w', list) && DealtTo(w', list, tj) && x !in w'.entry && x in w'.expires
    requires var loc := SlotFor(w'.expires[x], tj);
             loc in w'.lists && w'' == Wheel(w'.lists[loc := w'.lists[loc] + [x]], w'.entry[x := loc], w'.expires)
    ensures DealtInOrder(w, w'', list + [x]) && DealtTo(w'', list + [x], tj)
  {
    hide OrderKept, SlotFor;
    var loc := SlotFor(w'.expires[x], tj);
    OrderAppend(w', loc, x);
    OrderTwice(w, w', w'', Elements(list), {x});
    assert Elements(list) + {x} == Elements(list + [x]);
    assert x !in list;
    forall t, u | InOrder(list + [x], t, u) && Alike(w, t, u)
      ensures Before(w'', t, u)
    {
      DealtPair(w, w', w'', list, x, t, u, tj);
    }
  }

  lemma DealtPair(w: Wheel, w': Wheel, w'': Wheel, list: seq<Timer>, x: Timer, t: Timer, u: Timer, tj: Word)
    requires DealtInOrder(w, w', list) && DealtTo(w', list, tj) && x !in w'.entry && x in w'.expires
    requires var loc := SlotFor(w'.expires[x], tj);
             loc in w'.lists && w'' == Wheel(w'.lists[loc := w'.lists[loc] + [x]], w'.entry[x := loc], w'.expires)
    requires InOrder(list + [x], t, u) && Alike(w, t, u) && OrderKept(w', w'', {x}) && x !in list
    ensures Before(w'', t, u)
  {
    hide SlotFor;
    var i, j :| 0 <= i < j < |list + [x]| && (list + [x])[i] == t && (list + [x])[j] == u;
    assert t == list[i];
    if j < |list| {
      assert list[j] == u && InOrder(list, t, u);
      assert Before(w', t, u) && Alike(w', t, u);
    } else {
      assert t in list;
      LastInOrder(w'.lists[w'.entry[t]], t, x);
    }
  }

  /** What cascade does to the order: nothing, for timers with the same expiry time. */
  lemma CascadeOrder(w: Wheel, w': Wheel, w'': Wheel, loc: Loc, list: seq<Timer>)
    requires loc in w.lists && list == w.lists[loc] && (forall t :: t in list <==> t in w.entry && w.entry[t] == loc)
    requires w' == Wheel(w.lists[loc := []], w.entry - Elements(list), w.expires) && DealtInOrder(w', w'', list)
    ensures OrderKept(w, w'', {})
  {
    forall t, u | Alike(w, t, u) && Before(w, t, u)
      ensures Before(w'', t, u)
    {
      if w.entry[t] == loc {
        assert Alike(w', t, u);
      } else {
        assert Before(w', t, u) && Alike(w', t, u) && t !in Elements(list) && u !in Elements(list);
      }
    }
  }

  /** Timers armed for the same time at different ticks need not run in order. Armed for 300 at tick 0, t is in a slot of
      the second level; armed for 300 at tick 100, u is in the slot of the first level that t comes to, behind u, in the
      cascade at tick 256. */
  lemma LaterRunsFirst(t: Timer, u: Timer)
    requires t != u
    ensures SlotFor(300, 0) == Slot(1, 1) && SlotFor(300, 100) == Slot(0, 44)
    ensures Cascades(256, 1) && (256 / Span(1)) % 64 == 1 && SlotFor(300, 256) == Slot(0, 44)
    ensures var loc := Slot(0, 44);
            var w := Wheel(map[loc := [u], Slot(1, 1) := [t]], map[u := loc, t := Slot(1, 1)], map[t := 300, u := 300]);
            var w' := Wheel(w.lists[Slot(1, 1) := []][loc := w.lists[loc] + [t]], w.entry[t := loc], w.expires);
            Alike(w', u, t) && Before(w', u, t)
  {
    var s := [u] + [t];
    assert s[0] == u && s[1] == t;
    assert InOrder(s, u, t);
  }

  lemma PassStarts(w: Wheel, w': Wheel, handlers: seq<seq<Action>>)
    requires OrderKept(w, w', {})
    ensures RunInOrder(w, [], Touched(handlers, 0)) && OrderKept(w, w', Touched(handlers, 0) + Elements([]))
  {
    hide Before;
  }

  lemma FirstOnce(lists: Lists, entry: map<Timer, Loc>)
    requires Linked(lists, entry) && Work in lists && lists[Work] != []
    ensures forall i :: 0 < i < |lists[Work]| ==> lists[Work][i] != lists[Work][0]
  {
  }

  lemma PassGoesOn(w: Wheel, w': Wheel, detached: Wheel, w'': Wheel, fired: seq<Timer>, t: Timer,
                   handlers: seq<seq<Action>>)
    requires RunInOrder(w, fired, Touched(handlers, |fired|))
    requires OrderKept(w, w', Touched(handlers, |fired|) + Elements(fired))
    requires t in w'.entry && w'.entry[t] == Work && Work in w'.lists && w'.lists[Work] != []
    requires w'.lists[Work][0] == t && forall i :: 0 < i < |w'.lists[Work]| ==> w'.lists[Work][i] != t
    requires OrderKept(w', detached, {t}) && OrderKept(detached, w'', TouchedBy(Script(handlers, |fired|)))
    ensures var more := fired + [t];
            && RunInOrder(w, more, Touched(handlers, |more|))
            && OrderKept(w, w'', Touched(handlers, |more|) + Elements(more))
  {
    hide OrderKept, RunInOrder, Touched, TouchedBy;
    var n, more := |fired|, fired + [t];
    TouchedNext(handlers, n);
    RunNext(w, w', fired, t, Touched(handlers, n), Work);
    RunMore(w, more, Touched(handlers, n), Touched(handlers, n + 1));
    OrderTwice(w', detached, w'', {t}, TouchedBy(Script(handlers, n)));
    OrderTwice(w, w', w'', Touched(handlers, n) + Elements(fired), {t} + TouchedBy(Script(handlers, n)));
    var x := Touched(handlers, n) + Elements(fired) + ({t} + TouchedBy(Script(handlers, n)));
    assert Elements(more) == Elements(fired) + {t};
    assert x == Touched(handlers, n + 1) + Elements(more);
  }

  /** The clock stands k ticks ahead of the wheel. */
  ghost predicate StandsAhead(clock: seq<Word>, now: nat, k: int) {
    0 <= k < HALF && k + 1 < |clock| && forall i :: 0 <= i < |clock| ==> clock[i] == (now + k) % WORD
  }

  /** The clock stands k ticks behind the tick that the wheel waits for. */
  ghost predicate StandsBehind(clock: seq<Word>, now: nat, k: int) {
    0 < k <= HALF && clock != [] && clock[0] == (now - k) % WORD
  }

  /** time_after_eq tells which of two ticks is the later one, as long as they are less than half a round apart. */
  lemma LaterTick(a: int, b: int)
    requires 0 - HALF <= a - b < HALF
    ensures TimeAfterEq(a % WORD, b % WORD) <==> a >= b
  {
  }

  lemma PassesUpTo(clock: seq<Word>, now: nat, n: nat)
    requires n <= |clock| && forall i :: 0 <= i < n ==> TimeAfterEq(clock[i], (now + i) % WORD)
    requires n < |clock| ==> !TimeAfterEq(clock[n], (now + n) % WORD)
    ensures forall k :: StandsAhead(clock, now, k) ==> n == k + 1
    ensures forall k :: StandsBehind(clock, now, k) ==> n == 0
  {
    hide TimeAfterEq;
    forall k | StandsAhead(clock, now, k)
      ensures n == k + 1
    {
      if n <= k {
        LaterTick(now + k, now + n);
      } else if n > k + 1 {
        assert TimeAfterEq(clock[k + 1], (now + (k + 1)) % WORD);
        LaterTick(now + k, now + (k + 1));
      }
    }
    forall k | StandsBehind(clock, now, k)
      ensures n == 0
    {
      LaterTick(now - k, now);
    }
  }

  /** time_after_eq: the difference of two readings, as a signed number, is not negative. */
  predicate TimeAfterEq(a: Word, b: Word) {
    (a - b) % WORD < HALF
  }

  lemma NoEvents(s: State)
    ensures AfterAll(s, []) == s && LegalRun(s, [])
  {
  }

  lemma OneMore(s: State, events: seq<Event>, e: Event)
    requires LegalRun(s, events) && Legal(AfterAll(s, events), e)
    ensures LegalRun(s, events + [e]) && AfterAll(s, events + [e]) == After(AfterAll(s, events), e)
  {
    assert (events + [e])[..|events|] == events;
  }

  function Taken(entry: map<Timer, Loc>, loc: Loc): (r: map<Timer, Loc>) {
    map t | t in entry :: if entry[t] == loc then Work else entry[t]
  }

  lemma TakeKeeps(lists: Lists, entry: map<Timer, Loc>, loc: Loc)
    requires Linked(lists, entry) && IsSlot(loc) && Work in lists && lists[Work] == []
    ensures loc in lists && Linked(lists[Work := lists[loc]][loc := []], Taken(entry, loc))
  {
    var lists', entry' := lists[Work := lists[loc]][loc := []], Taken(entry, loc);
    forall l, t | l in lists'
      ensures t in lists'[l] <==> t in entry' && entry'[t] == l
    {
      assert t in lists[l] <==> t in entry && entry[t] == l;
      assert t in lists[loc] <==> t in entry && entry[t] == loc;
      assert t in lists[Work] <==> t in entry && entry[t] == Work;
    }
  }

  lemma TakeOne(loc: Loc, d: nat, e: Word, now: nat)
    requires IsSlot(loc) && TimerOk(loc, d, e, now, 4)
    ensures loc == Slot(0, now % 256) ==> d == now
    ensures loc != Slot(0, now % 256) ==> TimerOk(loc, d, e, now + 1, 0)
  {
  }

  /** In the slot of the tick are the timers due at it, and no others. */
  lemma TakeOk(entry: map<Timer, Loc>, due: map<Timer, nat>, expires: map<Timer, Word>, now: nat)
    requires TimersOk(entry, due, expires, now, 4)
    requires forall t :: t in entry ==> entry[t] != Work
    ensures TimersOk(Taken(entry, Slot(0, now % 256)), due, expires, now + 1, 0)
  {
    hide Placed;
    forall t | t in entry
      ensures TimerOk(Taken(entry, Slot(0, now % 256))[t], due[t], expires[t], now + 1, 0)
    {
      TakeOne(entry[t], due[t], expires[t], now);
    }
  }

  lemma WorkIsDue(lists: Lists, entry: map<Timer, Loc>, due: map<Timer, nat>, expires: map<Timer, Word>, now: nat,
                  t: Timer)
    requires Linked(lists, entry) && TimersOk(entry, due, expires, now, 0) && Work in lists && t in lists[Work]
    ensures t in entry && entry[t] == Work && t in due && due[t] + 1 == now
  {
  }

  lemma NoneLeft(lists: Lists, entry: map<Timer, Loc>, due: map<Timer, nat>, expires: map<Timer, Word>, now: nat)
    requires Linked(lists, entry) && TimersOk(entry, due, expires, now, 0) && Work in lists && lists[Work] == []
    ensures forall t :: t in due ==> now <= due[t]
  {
    forall t | t in due
      ensures now <= due[t]
    {
      assert t in entry && entry[t] in lists;
      assert t !in lists[Work];
    }
  }

  lemma FiredNone(s: State, n: nat, handlers: seq<seq<Action>>)
    ensures AfterFiring(s, [], handlers) == s && AllDue(s, n, [], handlers)
  {
  }

  lemma FiredOne(s: State, n: nat, fired: seq<Timer>, handlers: seq<seq<Action>>, t: Timer)
    requires AllDue(s, n, fired, handlers) && DueAt(AfterFiring(s, fired, handlers), t, n)
    ensures AllDue(s, n, fired + [t], handlers)
    ensures var m := AfterFiring(s, fired, handlers);
            AfterFiring(s, fired + [t], handlers) == ApplyAll(m.(pending := m.pending - {t}), Script(handlers, |fired|))
  {
    assert (fired + [t])[..|fired|] == fired;
  }

  lemma MembersAt(lists: Lists, entry: map<Timer, Loc>, loc: Loc)
    requires Linked(lists, entry) && IsList(loc)
    ensures loc in lists && NoRepeats(lists[loc])
    ensures forall t :: t in lists[loc] <==> t in entry && entry[t] == loc
    ensures forall t :: t in Elements(lists[loc]) <==> t in lists[loc]
  {
  }
}
