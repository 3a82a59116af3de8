/** The order in which the timers of TCP_C/timer.c stand on the lists of the wheel. */
module WheelOrder {
  import opened TimerSpec
  import opened WheelSlots

  type Lists = map<Loc, seq<Timer>>

  /** The lists, the list that each pending timer is on, and the expiry times. */
  datatype Wheel = Wheel(lists: Lists, entry: map<Timer, Loc>, expires: map<Timer, Word>)

  ghost predicate InOrder(s: seq<Timer>, t: Timer, u: Timer) {
    exists i, j :: 0 <= i < j < |s| && s[i] == t && s[j] == u
  }

  /** t stands before u on one list. */
  ghost predicate Before(w: Wheel, t: Timer, u: Timer) {
    && t in w.entry && u in w.entry && w.entry[t] == w.entry[u] && w.entry[t] in w.lists
    && InOrder(w.lists[w.entry[t]], t, u)
  }

  /** The two have the same expiry time. */
  ghost predicate Alike(w: Wheel, t: Timer, u: Timer) {
    t in w.expires && u in w.expires && w.expires[t] == w.expires[u]
  }

  /** But for the timers in x, timers with the same expiry time stand as they stood. */
  ghost predicate OrderKept(w: Wheel, w': Wheel, x: set<Timer>) {
    && (forall t :: t in w.expires && t !in x ==> t in w'.expires && w'.expires[t] == w.expires[t])
    && (forall t, u :: t !in x && u !in x && Alike(w, t, u) && Before(w, t, u) ==> Before(w', t, u))
  }

  lemma OrderTwice(w: Wheel, w': Wheel, w'': Wheel, x: set<Timer>, y: set<Timer>)
    requires OrderKept(w, w', x) && OrderKept(w', w'', y)
    ensures OrderKept(w, w'', x + y)
  {
    hide Before;
  }

  lemma OrderSame(w: Wheel, x: set<Timer>)
    ensures OrderKept(w, w, x)
  {
  }

  lemma InOrderAppended(s: seq<Timer>, r: seq<Timer>, t: Timer, u: Timer)
    requires InOrder(s, t, u)
    ensures InOrder(s + r, t, u)
  {
    var i, j :| 0 <= i < j < |s| && s[i] == t && s[j] == u;
    assert (s + r)[i] == t && (s + r)[j] == u;
  }

  /** A timer put at the end of a list. */
  lemma OrderAppend(w: Wheel, loc: Loc, x: Timer)
    requires loc in w.lists && x !in w.entry
    ensures OrderKept(w, Wheel(w.lists[loc := w.lists[loc] + [x]], w.entry[x := loc], w.expires), {x})
  {
    var w' := Wheel(w.lists[loc := w.lists[loc] + [x]], w.entry[x := loc], w.expires);
    forall t, u | t != x && u != x && Alike(w, t, u) && Before(w, t, u)
      ensures Before(w', t, u)
    {
      InOrderAppended(w.lists[w.entry[t]], if w.entry[t] == loc then [x] else [], t, u);
      assert w.lists[w.entry[t]] + [] == w.lists[w.entry[t]];
    }
  }

  lemma LastInOrder(s: seq<Timer>, t: Timer, x: Timer)
    requires t in s
    ensures InOrder(s + [x], t, x)
  {
    var i :| 0 <= i < |s| && s[i] == t;
    assert (s + [x])[i] == t && (s + [x])[|s|] == x;
  }

  /** A list whose other timers stand as they stood. */
  ghost predicate SameBut(s: seq<Timer>, s': seq<Timer>, x: Timer) {
    forall t, u :: t != x && u != x && InOrder(s, t, u) ==> InOrder(s', t, u)
  }

  /** A timer taken off its list. */
  lemma OrderRemove(w: Wheel, x: Timer, s': seq<Timer>)
    requires x in w.entry && w.entry[x] in w.lists && SameBut(w.lists[w.entry[x]], s', x)
    ensures OrderKept(w, Wheel(w.lists[w.entry[x] := s'], w.entry - {x}, w.expires), {x})
  {
    hide InOrder;
  }

  lemma OrderExpires(w: Wheel, x: Timer, e: Word)
    ensures OrderKept(w, w.(expires := w.expires[x := e]), {x})
  {
  }

  /** A list that is made another one, as the slot of a tick is made the work list. */
  lemma OrderMoved(w: Wheel, loc: Loc, to: Loc, entry': map<Timer, Loc>)
    requires loc in w.lists && to in w.lists && loc != to && w.lists[to] == []
    requires entry'.Keys == w.entry.Keys
    requires forall t :: t in w.entry ==> entry'[t] == if w.entry[t] == loc then to else w.entry[t]
    ensures OrderKept(w, Wheel(w.lists[to := w.lists[loc]][loc := []], entry', w.expires), {})
  {
  }

  /** The timers that the first n handlers of a pass touch. */
  function Touched(handlers: seq<seq<Action>>, n: nat): (x: set<Timer>) {
    set k, i | 0 <= k < n && 0 <= i < |Script(handlers, k)| :: Script(handlers, k)[i].timer
  }

  function TouchedBy(actions: seq<Action>): (x: set<Timer>) {
    set i | 0 <= i < |actions| :: actions[i].timer
  }

  lemma TouchedNext(handlers: seq<seq<Action>>, n: nat)
    ensures Touched(handlers, n + 1) == Touched(handlers, n) + TouchedBy(Script(handlers, n))
  {
    var x, y := Touched(handlers, n + 1), Touched(handlers, n) + TouchedBy(Script(handlers, n));
    forall t | t in x
      ensures t in y
    {
      var k, i :| 0 <= k < n + 1 && 0 <= i < |Script(handlers, k)| && Script(handlers, k)[i].timer == t;
      if k == n {
        assert Script(handlers, n)[i].timer in TouchedBy(Script(handlers, n));
      } else {
        assert Script(handlers, k)[i].timer in Touched(handlers, n);
      }
    }
    forall t | t in y
      ensures t in x
    {
      if t in Touched(handlers, n) {
        var k, i :| 0 <= k < n && 0 <= i < |Script(handlers, k)| && Script(handlers, k)[i].timer == t;
        assert Script(handlers, k)[i].timer in x;
      } else {
        var i :| 0 <= i < |Script(handlers, n)| && Script(handlers, n)[i].timer == t;
        assert Script(handlers, n)[i].timer in x;
      }
    }
  }

  lemma TouchedFirst(actions: seq<Action>)
    requires actions != []
    ensures TouchedBy(actions) == {actions[0].timer} + TouchedBy(actions[1..])
  {
    forall t | t in TouchedBy(actions)
      ensures t in {actions[0].timer} + TouchedBy(actions[1..])
    {
      var i :| 0 <= i < |actions| && actions[i].timer == t;
      if i > 0 {
        assert actions[1..][i - 1].timer == t;
      }
    }
    forall t | t in TouchedBy(actions[1..])
      ensures t in TouchedBy(actions)
    {
      var i :| 0 <= i < |actions[1..]| && actions[1..][i].timer == t;
      assert actions[i + 1].timer == t;
    }
  }

  /** Timers with the same expiry time that stood on one list have run in the order in which they stood, but for those in
      x: if the later one has run the earlier one has run before it. */
  ghost predicate RunInOrder(w: Wheel, fired: seq<Timer>, x: set<Timer>) {
    forall t, u {:trigger Before(w, t, u)} :: t !in x && u !in x && Alike(w, t, u) && Before(w, t, u) && u in fired ==>
      InOrder(fired, t, u)
  }

  /** One more timer has run: the first on the work list. */
  lemma RunNext(w: Wheel, w': Wheel, fired: seq<Timer>, next: Timer, x: set<Timer>, work: Loc)
    requires RunInOrder(w, fired, x) && OrderKept(w, w', x + (set t | t in fired))
    requires next in w'.entry && w'.entry[next] == work && work in w'.lists && w'.lists[work] != []
    requires w'.lists[work][0] == next && forall i :: 0 < i < |w'.lists[work]| ==> w'.lists[work][i] != next
    ensures RunInOrder(w, fired + [next], x)
  {
    var ran := set t | t in fired;
    forall t, u | t !in x && u !in x && Alike(w, t, u) && Before(w, t, u) && u in fired + [next]
      ensures InOrder(fired + [next], t, u)
    {
      if u in fired {
        InOrderAppended(fired, [next], t, u);
      } else if t in fired {
        LastInOrder(fired, t, next);
      }
      assert t !in fired && u !in fired ==> t !in x + ran && u !in x + ran;
    }
  }

  lemma RunMore(w: Wheel, fired: seq<Timer>, x: set<Timer>, y: set<Timer>)
    requires RunInOrder(w, fired, x) && x <= y
    ensures RunInOrder(w, fired, y)
  {
    hide Before;
  }
}
