/** The reference-counted hash table of apue.3e/threads/mutex2.c with its two kinds of lock, as a state machine: a
    step is what one thread does between two points at which another may run. */
module FooTable {
  import opened Basics

  type Tid = nat
  type Obj = nat
  type Ref = nat

  const NHASH: int := 29

  function Bucket(id: int): (b: nat)
    ensures b < NHASH
  {
    (id % 0x1_0000_0000_0000_0000) % NHASH
  }

  datatype Foo = Foo(count: int, id: int, lock: Option<Tid>)

  /** An outstanding reference: the thread that may use it, and the object. */
  datatype Held = Held(owner: Tid, obj: Obj)

  /** Where a thread is. The reference that a call works with is r, the object o, the id asked for id. */
  datatype At =
    | Outside
    // foo_alloc: before the hash lock, after linking, with both locks, with the object's lock only
    | AllocWant(o: Obj, r: Ref, id: int)
    | AllocLinked(o: Obj, r: Ref, id: int)
    | AllocBoth(o: Obj, r: Ref, id: int)
    | AllocInit(o: Obj, r: Ref, id: int)
    // foo_hold: before the lock, with it, after counting
    | HoldWant(o: Obj, r: Ref)
    | HoldHas(o: Obj, r: Ref)
    | HoldCounted(o: Obj, r: Ref)
    // foo_find: before the hash lock, with it, having found o, with o's lock, after counting, after unlocking o
    | FindWant(id: int)
    | FindHas(id: int)
    | FindGot(o: Obj, id: int)
    | FindBoth(o: Obj, id: int)
    | FindCounted(o: Obj, r: Ref, id: int)
    | FindDone(o: Obj, r: Ref, id: int)
    | FindMiss(id: int)
    // foo_rele: before the lock, with it, having found a count of 1, with the hash lock, with both
    | ReleWant(o: Obj, r: Ref)
    | ReleHas(o: Obj, r: Ref)
    | ReleDropped(o: Obj)
    | ReleWindow(o: Obj, r: Ref)
    | ReleHash(o: Obj, r: Ref)
    | ReleBoth(o: Obj, r: Ref)
    // ... the recheck failed: the count is decremented; still both locks, then the hash lock
    | ReleLess(o: Obj)
    | ReleOut
    // ... the recheck held: unlinked with both locks, with the object's lock, with none
    | ReleUnlinked(o: Obj, r: Ref)
    | ReleLast(o: Obj, r: Ref)
    | ReleFree(o: Obj, r: Ref)

  datatype State = State(
    hashlock: Option<Tid>, objs: map<Obj, Foo>, fh: seq<seq<Obj>>, refs: map<Ref, Held>,
    nextObj: Obj, nextRef: Ref, at: map<Tid, At>)

  datatype Step =
    | StartAlloc(t: Tid, id: int)
    | StartHold(t: Tid, r: Ref)
    | StartFind(t: Tid, id: int)
    | StartRele(t: Tid, r: Ref)
    | Give(t: Tid, r: Ref, to: Tid)
    | Advance(t: Tid)

  function AtOf(s: State, t: Tid): (a: At) {
    if t in s.at then s.at[t] else Outside
  }

  /** The object whose fields or lock the next step of the thread touches. */
  function Touches(a: At): (o: Option<Obj>) {
    match a
    case AllocWant(o, _, _) => Some(o) case AllocLinked(o, _, _) => Some(o) case AllocBoth(o, _, _) => Some(o)
    case AllocInit(o, _, _) => Some(o)
    case HoldWant(o, _) => Some(o) case HoldHas(o, _) => Some(o) case HoldCounted(o, _) => Some(o)
    case FindGot(o, _) => Some(o) case FindBoth(o, _) => Some(o) case FindCounted(o, _, _) => Some(o)
    case FindDone(o, _, _) => Some(o)
    case ReleWant(o, _) => Some(o) case ReleHas(o, _) => Some(o) case ReleDropped(o) => Some(o)
    case ReleWindow(o, _) => Some(o) case ReleHash(o, _) => Some(o) case ReleBoth(o, _) => Some(o)
    case ReleLess(o) => Some(o) case ReleUnlinked(o, _) => Some(o) case ReleLast(o, _) => Some(o)
    case ReleFree(o, _) => Some(o)
    case _ => None
  }

  /** The reference that the thread's call works with. */
  function Carries(a: At): (r: Option<Ref>) {
    match a
    case AllocWant(_, r, _) => Some(r) case AllocLinked(_, r, _) => Some(r) case AllocBoth(_, r, _) => Some(r)
    case AllocInit(_, r, _) => Some(r)
    case HoldWant(_, r) => Some(r) case HoldHas(_, r) => Some(r) case HoldCounted(_, r) => Some(r)
    case FindCounted(_, r, _) => Some(r) case FindDone(_, r, _) => Some(r)
    case ReleWant(_, r) => Some(r) case ReleHas(_, r) => Some(r) case ReleWindow(_, r) => Some(r)
    case ReleHash(_, r) => Some(r) case ReleBoth(_, r) => Some(r) case ReleUnlinked(_, r) => Some(r)
    case ReleLast(_, r) => Some(r) case ReleFree(_, r) => Some(r)
    case _ => None
  }

  function ObjOf(a: At): (o: Obj) {
    if Touches(a).Some? then Touches(a).value else 0
  }

  function RefOf(a: At): (r: Ref) {
    if Carries(a).Some? then Carries(a).value else 0
  }

  predicate HasHash(a: At) {
    || a.AllocLinked? || a.AllocBoth? || a.FindHas? || a.FindGot? || a.FindBoth? || a.FindCounted? || a.FindDone?
    || a.FindMiss? || a.ReleHash? || a.ReleBoth? || a.ReleLess? || a.ReleOut? || a.ReleUnlinked?
  }

  predicate HasLock(a: At) {
    || a.AllocBoth? || a.AllocInit? || a.HoldHas? || a.HoldCounted? || a.FindBoth? || a.FindCounted?
    || a.ReleHas? || a.ReleDropped? || a.ReleBoth? || a.ReleLess? || a.ReleUnlinked? || a.ReleLast?
  }

  predicate WantsHash(a: At) {
    a.AllocWant? || a.FindWant? || a.ReleWindow?
  }

  predicate WantsLock(a: At) {
    a.AllocLinked? || a.HoldWant? || a.FindGot? || a.ReleWant? || a.ReleHash?
  }

  /** The object is not yet linked, or no longer. */
  predicate OffList(a: At) {
    a.AllocWant? || a.ReleUnlinked? || a.ReleLast? || a.ReleFree?
  }

  /** A client may pass on or use a reference that it owns and that none of its calls is working with. */
  predicate Owns(s: State, t: Tid, r: Ref) {
    r in s.refs && s.refs[r].owner == t && Carries(AtOf(s, t)) != Some(r)
  }

  predicate Blocked(s: State, t: Tid) {
    var a := AtOf(s, t);
    || (WantsHash(a) && s.hashlock != None)
    || (WantsLock(a) && ObjOf(a) in s.objs && s.objs[ObjOf(a)].lock != None)
  }

  predicate Enabled(s: State, step: Step) {
    match step
    case StartAlloc(t, _) => AtOf(s, t).Outside?
    case StartHold(t, r) => AtOf(s, t).Outside? && Owns(s, t, r)
    case StartFind(t, _) => AtOf(s, t).Outside?
    case StartRele(t, r) => AtOf(s, t).Outside? && Owns(s, t, r)
    case Give(t, r, _) => Owns(s, t, r)
    case Advance(t) => !AtOf(s, t).Outside? && !Blocked(s, t)
  }

  function Go(s: State, t: Tid, a: At): (r: State) {
    s.(at := s.at[t := a])
  }

  function SetLock(s: State, o: Obj, lock: Option<Tid>): (r: State)
    requires o in s.objs
  {
    s.(objs := s.objs[o := s.objs[o].(lock := lock)])
  }

  /** f_count++ for a new reference of t. */
  function Count(s: State, o: Obj, t: Tid): (r: State)
    requires o in s.objs
  {
    s.(objs := s.objs[o := s.objs[o].(count := s.objs[o].count + 1)],
       refs := s.refs[s.nextRef := Held(t, o)], nextRef := s.nextRef + 1)
  }

  /** f_count-- for the reference that is given up. */
  function Discount(s: State, o: Obj, r: Ref): (s': State)
    requires o in s.objs
  {
    s.(objs := s.objs[o := s.objs[o].(count := s.objs[o].count - 1)], refs := s.refs - {r})
  }

  function FindIn(chain: seq<Obj>, objs: map<Obj, Foo>, id: int): (r: Option<Obj>) {
    if chain == [] then None
    else if chain[0] in objs && objs[chain[0]].id == id then Some(chain[0])
    else FindIn(chain[1..], objs, id)
  }

  function Without(chain: seq<Obj>, o: Obj): (r: seq<Obj>) {
    if chain == [] then []
    else if chain[0] == o then chain[1..]
    else [chain[0]] + Without(chain[1..], o)
  }

  /** No thread is about to touch a freed object, and the unlinking of foo_rele finds its object on the list. */
  predicate Safe(s: State, t: Tid) {
    var a := AtOf(s, t);
    && (Touches(a).Some? ==> Touches(a).value in s.objs)
    && |s.fh| == NHASH
    && (a.ReleBoth? ==> s.objs[ObjOf(a)].count != 1 || ObjOf(a) in s.fh[Bucket(s.objs[ObjOf(a)].id)])
  }

  /** What a step of a call does to what the threads share. */
  datatype Effect = LockHash | LockAndLink | UnlockHash | LockObject | UnlockObject | AddRef | DropRef | Unlink | Free | Look

  function EffectOf(s: State, a: At): (e: Effect)
    requires a.ReleHas? || a.ReleBoth? ==> ObjOf(a) in s.objs
  {
    match a
    case AllocWant(_, _, _) => LockAndLink
    case AllocLinked(_, _, _) => LockObject
    case AllocBoth(_, _, _) => UnlockHash
    case AllocInit(_, _, _) => UnlockObject
    case HoldWant(_, _) => LockObject
    case HoldHas(_, _) => AddRef
    case HoldCounted(_, _) => UnlockObject
    case FindWant(_) => LockHash
    case FindGot(_, _) => LockObject
    case FindBoth(_, _) => AddRef
    case FindCounted(_, _, _) => UnlockObject
    case FindDone(_, _, _) => UnlockHash
    case FindMiss(_) => UnlockHash
    case ReleWant(_, _) => LockObject
    case ReleHas(o, _) => if s.objs[o].count == 1 then UnlockObject else DropRef
    case ReleDropped(_) => UnlockObject
    case ReleWindow(_, _) => LockHash
    case ReleHash(_, _) => LockObject
    case ReleBoth(o, _) => if s.objs[o].count != 1 then DropRef else Unlink
    case ReleLess(_) => UnlockObject
    case ReleOut => UnlockHash
    case ReleUnlinked(_, _) => UnlockHash
    case ReleLast(_, _) => UnlockObject
    case ReleFree(_, _) => Free
    case _ => Look
  }

  /** Where the thread is afterwards. */
  function NextAt(s: State, a: At): (a': At)
    requires a.ReleHas? || a.ReleBoth? ==> ObjOf(a) in s.objs
    requires |s.fh| == NHASH
  {
    match a
    case AllocWant(o, r, id) => AllocLinked(o, r, id)
    case AllocLinked(o, r, id) => AllocBoth(o, r, id)
    case AllocBoth(o, r, id) => AllocInit(o, r, id)
    case HoldWant(o, r) => HoldHas(o, r)
    case HoldHas(o, r) => HoldCounted(o, r)
    case FindWant(id) => FindHas(id)
    case FindHas(id) =>
      var found := FindIn(s.fh[Bucket(id)], s.objs, id);
      if found.Some? then FindGot(found.value, id) else FindMiss(id)
    case FindGot(o, id) => FindBoth(o, id)
    case FindBoth(o, id) => FindCounted(o, s.nextRef, id)
    case FindCounted(o, r, id) => FindDone(o, r, id)
    case ReleWant(o, r) => ReleHas(o, r)
    case ReleHas(o, r) => if s.objs[o].count == 1 then ReleWindow(o, r) else ReleDropped(o)
    case ReleWindow(o, r) => ReleHash(o, r)
    case ReleHash(o, r) => ReleBoth(o, r)
    case ReleBoth(o, r) => if s.objs[o].count != 1 then ReleLess(o) else ReleUnlinked(o, r)
    case ReleLess(_) => ReleOut
    case ReleUnlinked(o, r) => ReleLast(o, r)
    case ReleLast(o, r) => ReleFree(o, r)
    case _ => Outside
  }

  /** The effect on the shared state of thread t working on object o with reference r. */
  function Do(s: State, t: Tid, e: Effect, o: Obj, r: Ref): (s': State)
    requires |s.fh| == NHASH && (e != LockHash && e != UnlockHash && e != Look ==> o in s.objs)
  {
    match e
    case LockHash => s.(hashlock := Some(t))
    case LockAndLink =>
      var b := Bucket(s.objs[o].id);
      s.(hashlock := Some(t), fh := s.fh[b := [o] + s.fh[b]])
    case UnlockHash => s.(hashlock := None)
    case LockObject => SetLock(s, o, Some(t))
    case UnlockObject => SetLock(s, o, None)
    case AddRef => Count(s, o, t)
    case DropRef => Discount(s, o, r)
    case Unlink =>
      var b := Bucket(s.objs[o].id);
      s.(fh := s.fh[b := Without(s.fh[b], o)])
    case Free => s.(objs := s.objs - {o}, refs := s.refs - {r})
    case Look => s
  }

  /** What the thread does next. */
  function Next(s: State, t: Tid): (s': State)
    requires Safe(s, t)
  {
    var a := AtOf(s, t);
    Go(Do(s, t, EffectOf(s, a), ObjOf(a), RefOf(a)), t, NextAt(s, a))
  }

  function Apply(s: State, step: Step): (s': State)
    requires Enabled(s, step) && (step.Advance? ==> Safe(s, step.t))
  {
    match step
    case StartAlloc(t, id) =>
      var o, r := s.nextObj, s.nextRef;
      Go(s.(objs := s.objs[o := Foo(1, id, None)], refs := s.refs[r := Held(t, o)],
            nextObj := o + 1, nextRef := r + 1), t, AllocWant(o, r, id))
    case StartHold(t, r) => Go(s, t, HoldWant(s.refs[r].obj, r))
    case StartFind(t, id) => Go(s, t, FindWant(id))
    case StartRele(t, r) => Go(s, t, ReleWant(s.refs[r].obj, r))
    case Give(t, r, to) => s.(refs := s.refs[r := s.refs[r].(owner := to)])
    case Advance(t) => Next(s, t)
  }

  function EmptyLists(): (fh: seq<seq<Obj>>)
    ensures |fh| == NHASH && forall b :: 0 <= b < |fh| ==> fh[b] == []
  {
    seq(29, _ => [])
  }

  function Initial(): (s: State) {
    State(None, map[], EmptyLists(), map[], 0, 0, map[])
  }

  ghost function RefsTo(s: State, o: Obj): (r: set<Ref>) {
    set r | r in s.refs && s.refs[r].obj == o
  }

  ghost predicate NoRepeats(s: seq<Obj>) {
    forall i, j :: 0 <= i < j < |s| ==> s[i] != s[j]
  }

  ghost predicate Linked(s: State, o: Obj)
    requires o in s.objs && |s.fh| == NHASH
  {
    o in s.fh[Bucket(s.objs[o].id)]
  }

  /** The lists hold living objects, each one once, in its own bucket. */
  ghost predicate ListsOk(s: State) {
    && |s.fh| == NHASH
    && (forall b :: 0 <= b < NHASH ==> NoRepeats(s.fh[b]))
    && (forall b, o {:trigger o in s.fh[b]} :: 0 <= b < NHASH && o in s.fh[b] ==> o in s.objs && Bucket(s.objs[o].id) == b)
  }

  /** f_count is the number of outstanding references. */
  ghost predicate CountOk(s: State, o: Obj)
    requires o in s.objs
  {
    o < s.nextObj && s.objs[o].count == |RefsTo(s, o)|
  }

  /** A lock that is held is held by a thread that is where it holds it. */
  ghost predicate LockOk(s: State, o: Obj)
    requires o in s.objs
  {
    s.objs[o].lock.Some? ==> var a := AtOf(s, s.objs[o].lock.value); HasLock(a) && ObjOf(a) == o
  }

  /** An object can be found, or is just being made or unmade. */
  ghost predicate ReachOk(s: State, o: Obj)
    requires o in s.objs && |s.fh| == NHASH
  {
    Linked(s, o) || exists t :: OffList(AtOf(s, t)) && ObjOf(AtOf(s, t)) == o
  }

  ghost predicate ObjectOk(s: State, o: Obj)
    requires o in s.objs && |s.fh| == NHASH
  {
    CountOk(s, o) && LockOk(s, o) && ReachOk(s, o)
  }

  ghost predicate RefsOk(s: State) {
    forall r :: r in s.refs ==> r < s.nextRef && s.refs[r].obj in s.objs
  }

  /** A thread touches living objects, and owns the reference that it works with. */
  ghost predicate ThreadRefs(s: State, t: Tid) {
    var a := AtOf(s, t);
    && (Touches(a).Some? ==> ObjOf(a) in s.objs)
    && (Carries(a).Some? ==> RefOf(a) in s.refs && s.refs[RefOf(a)] == Held(t, ObjOf(a)))
  }

  /** A thread has the locks that it should have where it is. */
  ghost predicate ThreadLocks(s: State, t: Tid) {
    var a := AtOf(s, t);
    && (HasHash(a) <==> s.hashlock == Some(t))
    && (HasLock(a) ==> ObjOf(a) in s.objs && s.objs[ObjOf(a)].lock == Some(t))
    && (a.ReleFree? || a.AllocWant? ==> ObjOf(a) in s.objs && s.objs[ObjOf(a)].lock == None)
  }

  /** What foo_find has found is on a list; what is off the lists has one reference. */
  ghost predicate ThreadLists(s: State, t: Tid)
    requires |s.fh| == NHASH
  {
    var a := AtOf(s, t);
    && (a.FindGot? || a.FindBoth? ==> ObjOf(a) in s.objs && Linked(s, ObjOf(a)))
    && (OffList(a) ==> ObjOf(a) in s.objs && !Linked(s, ObjOf(a)) && RefsTo(s, ObjOf(a)) == {RefOf(a)})
  }

  ghost predicate ThreadOk(s: State, t: Tid)
    requires |s.fh| == NHASH
  {
    ThreadRefs(s, t) && ThreadLocks(s, t) && ThreadLists(s, t)
  }

  ghost predicate Inv(s: State) {
    && ListsOk(s) && RefsOk(s)
    && (forall o :: o in s.objs ==> ObjectOk(s, o))
    && (forall t :: ThreadOk(s, t))
  }

  /** While a thread has an object off the lists, the thread's reference is the only one. */
  lemma OnlyOwner(s: State, u: Tid, r: Ref)
    requires |s.fh| == NHASH && ThreadOk(s, u) && OffList(AtOf(s, u)) && r in RefsTo(s, ObjOf(AtOf(s, u)))
    ensures s.refs[r].owner == u
  {
  }

  lemma InvSafe(s: State, t: Tid)
    requires Inv(s)
    ensures Safe(s, t)
  {
    assert ThreadOk(s, t);
    var a := AtOf(s, t);
    if a.ReleBoth? {
      assert ObjectOk(s, ObjOf(a));
      assert RefOf(a) in RefsTo(s, ObjOf(a));
      forall u | OffList(AtOf(s, u)) && ObjOf(AtOf(s, u)) == ObjOf(a)
        ensures u == t
      {
        assert ThreadOk(s, u);
        OnlyOwner(s, u, RefOf(a));
      }
    }
  }

  lemma WithoutElements(chain: seq<Obj>, o: Obj)
    requires NoRepeats(chain)
    ensures NoRepeats(Without(chain, o))
    ensures forall x :: x in Without(chain, o) <==> x in chain && x != o
  {
    if chain != [] {
      assert chain == [chain[0]] + chain[1..];
      if chain[0] != o {
        WithoutElements(chain[1..], o);
        assert chain[0] !in Without(chain[1..], o);
      } else {
        assert forall x :: x in chain[1..] ==> x != o;
      }
    }
  }

  lemma FindInElements(chain: seq<Obj>, objs: map<Obj, Foo>, id: int)
    ensures FindIn(chain, objs, id).Some? ==>
      var o := FindIn(chain, objs, id).value; o in chain && o in objs && objs[o].id == id
    ensures FindIn(chain, objs, id).None? ==> forall o :: o in chain && o in objs ==> objs[o].id != id
  {
    if chain != [] {
      FindInElements(chain[1..], objs, id);
      assert forall o :: o in chain ==> o == chain[0] || o in chain[1..];
    }
  }

  /** How the place of a thread and the effect of its step go together. */
  lemma Table(s: State, t: Tid)
    requires Safe(s, t) && !AtOf(s, t).Outside?
    ensures var a := AtOf(s, t);
            var e, a' := EffectOf(s, a), NextAt(s, a);
            && HasHash(a') == (e == LockHash || e == LockAndLink || (HasHash(a) && e != UnlockHash))
            && HasLock(a') == (e == LockObject || (HasLock(a) && e != UnlockObject))
            && (HasHash(a) ==> e != LockHash && e != LockAndLink)
            && (e == UnlockHash ==> HasHash(a)) && (e == UnlockObject ==> HasLock(a))
            && (e == LockObject <==> WantsLock(a)) && (e == LockHash || e == LockAndLink <==> WantsHash(a))
            && (e == AddRef || e == DropRef || e == Unlink ==> HasLock(a)) && (e == Unlink ==> HasHash(a))
            && (e == LockAndLink || e == Unlink || e == Free || e == DropRef ==> Carries(a).Some?)
            && (e != Look && e != LockHash && e != UnlockHash ==> Touches(a).Some?)
            && (Touches(a').Some? && e != Look ==> Touches(a') == Touches(a))
            && (Carries(a').Some? ==> Carries(a') == Carries(a) || (e == AddRef && Carries(a') == Some(s.nextRef)))
            && (Carries(a').Some? ==> e != DropRef && e != Free)
            && (OffList(a') <==> e == Unlink || (OffList(a) && e != LockAndLink && e != Free))
            && (e == Free ==> a'.Outside? && a.ReleFree?) && (e == LockAndLink ==> a.AllocWant?)
            && (a'.ReleFree? ==> e == UnlockObject) && !a'.AllocWant?
            && (Carries(a).Some? ==> Touches(a).Some?)
            && (OffList(a) ==> Carries(a).Some? && e != AddRef && e != DropRef && e != Unlink && e != LockObject)
            && (e == Look ==> a.FindHas?) && (a'.FindBoth? ==> a.FindGot?) && (a'.FindGot? ==> a.FindHas?)
  {
  }

  lemma ListsKept(s: State, t: Tid, e: Effect, o: Obj, r: Ref)
    requires ListsOk(s) && RefsOk(s)
    requires e != LockHash && e != UnlockHash && e != Look ==> o in s.objs
    requires e == LockAndLink || e == Free ==> !Linked(s, o)
    requires e == Free ==> RefsTo(s, o) == {r}
    ensures ListsOk(Do(s, t, e, o, r)) && RefsOk(Do(s, t, e, o, r))
  {
    if e == Unlink {
      WithoutElements(s.fh[Bucket(s.objs[o].id)], o);
    } else if e == Free {
      forall k | k in s.refs && k != r
        ensures s.refs[k].obj != o
      {
        assert k !in RefsTo(s, o);
      }
    }
  }

  lemma RefsAfter(s: State, t: Tid, e: Effect, o: Obj, r: Ref, x: Obj)
    requires ListsOk(s) && RefsOk(s)
    requires e != LockHash && e != UnlockHash && e != Look ==> o in s.objs
    requires e == DropRef || e == Free ==> r in RefsTo(s, o)
    ensures RefsTo(Do(s, t, e, o, r), x) ==
      if e == AddRef && x == o then RefsTo(s, x) + {s.nextRef}
      else if (e == DropRef || e == Free) && x == o then RefsTo(s, x) - {r}
      else RefsTo(s, x)
  {
    var s' := Do(s, t, e, o, r);
    assert s.nextRef !in s.refs;
  }

  lemma TouchesHow(a: At)
    ensures Touches(a).Some? && Carries(a).None? ==> HasLock(a) || a.FindGot?
    ensures Carries(a).Some? ==> Touches(a).Some?
    ensures OffList(a) ==> Carries(a).Some? && (HasLock(a) || a.ReleFree? || a.AllocWant?)
    ensures HasLock(a) ==> Touches(a).Some?
  {
  }

  /** Nobody else is near an object that one thread has off the lists. */
  lemma Exclusive(s: State, t: Tid, u: Tid)
    requires |s.fh| == NHASH && ThreadOk(s, t) && ThreadOk(s, u) && t != u && OffList(AtOf(s, u))
    ensures Touches(AtOf(s, t)) != Some(ObjOf(AtOf(s, u)))
  {
    var a, b := AtOf(s, t), AtOf(s, u);
    TouchesHow(a);
    TouchesHow(b);
    assert Touches(a) == Some(ObjOf(b)) && Carries(a).Some? ==> RefOf(a) in RefsTo(s, ObjOf(b));
  }

  /** What is needed of a thread that advances, taken from the invariant and the table. */
  ghost predicate Moves(s: State, t: Tid, e: Effect, o: Obj, r: Ref) {
    && Safe(s, t) && ListsOk(s) && RefsOk(s) && ThreadOk(s, t) && !AtOf(s, t).Outside? && !Blocked(s, t)
    && e == EffectOf(s, AtOf(s, t))
    && o == ObjOf(AtOf(s, t)) && r == RefOf(AtOf(s, t))
  }

  lemma MovesLists(s: State, t: Tid, e: Effect, o: Obj, r: Ref)
    requires Moves(s, t, e, o, r)
    ensures e != LockHash && e != UnlockHash && e != Look ==> o in s.objs
    ensures e == DropRef || e == Free ==> r in RefsTo(s, o)
    ensures ListsOk(Do(s, t, e, o, r)) && RefsOk(Do(s, t, e, o, r))
    ensures |s.fh| == NHASH && Next(s, t) == Go(Do(s, t, e, o, r), t, NextAt(s, AtOf(s, t)))
  {
    hide EffectOf, NextAt, Do;
    Table(s, t);
    ListsKept(s, t, e, o, r);
  }

  /** The objects after a step of t. */
  lemma CountKept(s: State, t: Tid, e: Effect, o: Obj, r: Ref, x: Obj)
    requires Moves(s, t, e, o, r) && x in s.objs && CountOk(s, x) && x in Next(s, t).objs
    ensures CountOk(Next(s, t), x)
  {
    hide EffectOf, NextAt, ThreadOk, ListsOk;
    MovesLists(s, t, e, o, r);
    RefsAfter(s, t, e, o, r, x);
    assert RefsTo(Next(s, t), x) == RefsTo(Do(s, t, e, o, r), x);
    assert s.nextRef !in s.refs;
  }

  lemma LockKept(s: State, t: Tid, e: Effect, o: Obj, r: Ref, x: Obj)
    requires Moves(s, t, e, o, r) && x in s.objs && LockOk(s, x) && x in Next(s, t).objs
    ensures LockOk(Next(s, t), x)
  {
    hide EffectOf, NextAt, ListsOk, RefsOk;
    MovesLists(s, t, e, o, r);
    Table(s, t);
    TouchesHow(AtOf(s, t));
    TouchesHow(NextAt(s, AtOf(s, t)));
  }

  lemma ReachKept(s: State, t: Tid, e: Effect, o: Obj, r: Ref, x: Obj)
    requires Moves(s, t, e, o, r) && x in s.objs && ReachOk(s, x) && x in Next(s, t).objs
    ensures |Next(s, t).fh| == NHASH && ReachOk(Next(s, t), x)
  {
    hide EffectOf, NextAt, RefsOk, Do, RefsTo, NoRepeats;
    MovesLists(s, t, e, o, r);
    FreeIsGone(s, t, e, o, r);
    Table(s, t);
    DoMovesNobody(s, t, e, o, r);
    LinkedAfter(s, t, e, o, r, x);
    var s' := Next(s, t);
    if Linked(s, x) {
      assert Linked(s', x) || (OffList(AtOf(s', t)) && ObjOf(AtOf(s', t)) == x);
    } else {
      var u :| OffList(AtOf(s, u)) && ObjOf(AtOf(s, u)) == x;
      assert Linked(s', x) || (OffList(AtOf(s', u)) && ObjOf(AtOf(s', u)) == x);
    }
  }

  lemma FreeIsGone(s: State, t: Tid, e: Effect, o: Obj, r: Ref)
    requires |s.fh| == NHASH && (e != LockHash && e != UnlockHash && e != Look ==> o in s.objs)
    ensures e == Free ==> o !in Do(s, t, e, o, r).objs
  {
  }

  /** The thread that moves. */
  lemma MoverRefsKept(s: State, t: Tid, e: Effect, o: Obj, r: Ref)
    requires Moves(s, t, e, o, r)
    ensures ThreadRefs(Next(s, t), t)
  {
    hide EffectOf, NextAt, NoRepeats, RefsTo;
    MovesLists(s, t, e, o, r);
    Table(s, t);
    TouchesHow(AtOf(s, t));
    TouchesHow(NextAt(s, AtOf(s, t)));
    if e == Look {
      LookFinds(s, t);
    }
  }

  lemma MoverLocksKept(s: State, t: Tid, e: Effect, o: Obj, r: Ref)
    requires Moves(s, t, e, o, r)
    ensures ThreadLocks(Next(s, t), t)
  {
    hide EffectOf, NextAt, ListsOk, RefsTo;
    MovesLists(s, t, e, o, r);
    Table(s, t);
    TouchesHow(AtOf(s, t));
    TouchesHow(NextAt(s, AtOf(s, t)));
  }

  lemma MoverListsKept(s: State, t: Tid, e: Effect, o: Obj, r: Ref)
    requires Moves(s, t, e, o, r) && (e == Unlink ==> o in s.objs && CountOk(s, o))
    ensures |Next(s, t).fh| == NHASH && ThreadLists(Next(s, t), t)
  {
    hide EffectOf, NextAt, NoRepeats, Do, RefsTo;
    MovesLists(s, t, e, o, r);
    Table(s, t);
    var a, a' := AtOf(s, t), NextAt(s, AtOf(s, t));
    TouchesHow(a);
    TouchesHow(a');
    DoMovesNobody(s, t, e, o, r);
    RefsAfter(s, t, e, o, r, o);
    MovedRefs(Do(s, t, e, o, r), t, a', o);
    if e == Look {
      LookFinds(s, t);
      if a'.FindGot? {
        LinkedAfter(s, t, e, o, r, ObjOf(a'));
      }
    } else if Touches(a').Some? {
      LinkedAfter(s, t, e, o, r, o);
      if e == Unlink {
        LastRef(s, t, o, r);
      }
    }
  }

  lemma LookFinds(s: State, t: Tid)
    requires Safe(s, t) && ListsOk(s) && AtOf(s, t).FindHas?
    ensures NextAt(s, AtOf(s, t)).FindGot? ==> ObjOf(NextAt(s, AtOf(s, t))) in s.objs && Linked(s, ObjOf(NextAt(s, AtOf(s, t))))
    ensures NextAt(s, AtOf(s, t)).FindGot? || NextAt(s, AtOf(s, t)).FindMiss?
  {
    FindInElements(s.fh[Bucket(AtOf(s, t).id)], s.objs, AtOf(s, t).id);
  }

  /** A thread that has found a count of 1 holds the last reference. */
  lemma LastRef(s: State, t: Tid, o: Obj, r: Ref)
    requires Moves(s, t, Unlink, o, r) && o in s.objs && CountOk(s, o)
    ensures RefsTo(s, o) == {r}
  {
    var a := AtOf(s, t);
    assert a.ReleBoth? && s.objs[o].count == 1;
    assert r in RefsTo(s, o);
    assert |RefsTo(s, o) - {r}| == 0;
  }

  /** The threads that do not move. */
  lemma OtherRefsKept(s: State, t: Tid, e: Effect, o: Obj, r: Ref, u: Tid)
    requires Moves(s, t, e, o, r) && ThreadOk(s, u) && u != t
    ensures ThreadRefs(Next(s, t), u)
  {
    hide EffectOf, NextAt, ListsOk;
    MovesLists(s, t, e, o, r);
    Table(s, t);
    TouchesHow(AtOf(s, u));
    if OffList(AtOf(s, t)) {
      Exclusive(s, u, t);
    }
  }

  lemma OtherLocksKept(s: State, t: Tid, e: Effect, o: Obj, r: Ref, u: Tid)
    requires Moves(s, t, e, o, r) && ThreadOk(s, u) && u != t
    ensures ThreadLocks(Next(s, t), u)
  {
    hide EffectOf, NextAt, ListsOk, RefsTo;
    MovesLists(s, t, e, o, r);
    Table(s, t);
    TouchesHow(AtOf(s, t));
    TouchesHow(AtOf(s, u));
    if OffList(AtOf(s, u)) {
      Exclusive(s, t, u);
    }
    if OffList(AtOf(s, t)) {
      Exclusive(s, u, t);
    }
  }

  /** Whether an object is on its list is changed by linking, unlinking and freeing it only. */
  lemma LinkedAfter(s: State, t: Tid, e: Effect, o: Obj, r: Ref, x: Obj)
    requires ListsOk(s) && x in s.objs && (e != LockHash && e != UnlockHash && e != Look ==> o in s.objs)
    requires e == Free ==> x != o
    ensures x in Do(s, t, e, o, r).objs && |Do(s, t, e, o, r).fh| == NHASH
    ensures Linked(Do(s, t, e, o, r), x) ==
      if x == o && e == LockAndLink then true else if x == o && e == Unlink then false else Linked(s, x)
  {
    if e == Unlink {
      WithoutElements(s.fh[Bucket(s.objs[o].id)], o);
    }
  }

  lemma OtherListsKept(s: State, t: Tid, e: Effect, o: Obj, r: Ref, u: Tid)
    requires Moves(s, t, e, o, r) && ThreadOk(s, u) && u != t
    ensures |Next(s, t).fh| == NHASH && ThreadLists(Next(s, t), u)
  {
    hide EffectOf, NextAt, NoRepeats, Do, RefsTo;
    MovesLists(s, t, e, o, r);
    Table(s, t);
    var b, s' := AtOf(s, u), Next(s, t);
    TouchesHow(AtOf(s, t));
    TouchesHow(b);
    if OffList(b) {
      Exclusive(s, t, u);
    }
    if OffList(AtOf(s, t)) {
      Exclusive(s, u, t);
    }
    DoMovesNobody(s, t, e, o, r);
    RefsAfter(s, t, e, o, r, ObjOf(b));
    MovedRefs(Do(s, t, e, o, r), t, NextAt(s, AtOf(s, t)), ObjOf(b));
    if Touches(b).Some? {
      LinkedAfter(s, t, e, o, r, ObjOf(b));
    }
  }

  lemma DoMovesNobody(s: State, t: Tid, e: Effect, o: Obj, r: Ref)
    requires |s.fh| == NHASH && (e != LockHash && e != UnlockHash && e != Look ==> o in s.objs)
    ensures Do(s, t, e, o, r).at == s.at
  {
  }

  lemma MovedRefs(s: State, t: Tid, a: At, o: Obj)
    ensures RefsTo(Go(s, t, a), o) == RefsTo(s, o)
  {
  }

  lemma AdvanceKeeps(s: State, t: Tid)
    requires Inv(s) && Enabled(s, Advance(t))
    ensures Safe(s, t) && Inv(Next(s, t))
  {
    hide ObjectOk, EffectOf, NextAt, ThreadRefs, ThreadLocks, ThreadLists, Do;
    InvSafe(s, t);
    assert ThreadOk(s, t);
    var e, o, r := EffectOf(s, AtOf(s, t)), ObjOf(AtOf(s, t)), RefOf(AtOf(s, t));
    assert Moves(s, t, e, o, r);
    MovesLists(s, t, e, o, r);
    var s' := Next(s, t);
    OldObjects(s, t, e, o, r);
    forall x | x in s'.objs
      ensures ObjectOk(s', x)
    {
      ObjectKept(s, t, e, o, r, x);
    }
    forall u
      ensures ThreadOk(s', u)
    {
      assert ThreadOk(s, u);
      if u == t {
        if e == Unlink {
          ObjectCount(s, o);
        }
        MoverRefsKept(s, t, e, o, r);
        MoverLocksKept(s, t, e, o, r);
        MoverListsKept(s, t, e, o, r);
      } else {
        OtherRefsKept(s, t, e, o, r, u);
        OtherLocksKept(s, t, e, o, r, u);
        OtherListsKept(s, t, e, o, r, u);
      }
    }
  }

  lemma ObjectCount(s: State, o: Obj)
    requires o in s.objs && |s.fh| == NHASH && ObjectOk(s, o)
    ensures CountOk(s, o)
  {
  }

  lemma OldObjects(s: State, t: Tid, e: Effect, o: Obj, r: Ref)
    requires Moves(s, t, e, o, r)
    ensures Next(s, t).objs.Keys <= s.objs.Keys && (e == Unlink ==> o in s.objs)
  {
    hide EffectOf, NextAt;
    MovesLists(s, t, e, o, r);
  }

  lemma ObjectKept(s: State, t: Tid, e: Effect, o: Obj, r: Ref, x: Obj)
    requires Moves(s, t, e, o, r) && x in s.objs && ObjectOk(s, x) && x in Next(s, t).objs
    ensures |Next(s, t).fh| == NHASH && ObjectOk(Next(s, t), x)
  {
    hide Moves, CountOk, LockOk, ReachOk, Next;
    CountKept(s, t, e, o, r, x);
    LockKept(s, t, e, o, r, x);
    ReachKept(s, t, e, o, r, x);
  }

  lemma SameRefs(s: State, s': State)
    requires s'.refs.Keys == s.refs.Keys && forall r :: r in s.refs ==> s'.refs[r].obj == s.refs[r].obj
    ensures forall o :: RefsTo(s', o) == RefsTo(s, o)
  {
  }

  /** A step of a client that changes no object and no list keeps the objects in order. */
  lemma ClientObject(s: State, s': State, o: Obj, t: Tid)
    requires |s.fh| == NHASH && s'.fh == s.fh && s'.objs == s.objs && s'.nextObj == s.nextObj
    requires RefsTo(s', o) == RefsTo(s, o)
    requires (forall u :: u != t ==> AtOf(s', u) == AtOf(s, u)) && (AtOf(s, t).Outside? || AtOf(s', t) == AtOf(s, t))
    requires o in s.objs && ObjectOk(s, o)
    ensures ObjectOk(s', o)
  {
    hide RefsTo;
    if !Linked(s, o) {
      var u :| OffList(AtOf(s, u)) && ObjOf(AtOf(s, u)) == o;
      assert OffList(AtOf(s', u)) && ObjOf(AtOf(s', u)) == o;
    }
  }

  /** A thread sees no difference between two states that differ in where another thread is. */
  lemma BystanderOk(s: State, s': State, u: Tid)
    requires |s.fh| == NHASH && s' == s.(at := s'.at) && AtOf(s', u) == AtOf(s, u) && ThreadOk(s, u)
    ensures ThreadOk(s', u)
  {
    hide RefsTo, Linked;
    SameRefs(s, s');
    SameLists(s, s');
  }

  lemma CallerOk(s: State, step: Step)
    requires Enabled(s, step) && (step.StartHold? || step.StartFind? || step.StartRele?)
    requires |s.fh| == NHASH && RefsOk(s) && ThreadOk(s, step.t)
    ensures ThreadOk(Apply(s, step), step.t)
  {
    hide RefsTo, Linked;
  }

  lemma SameLists(s: State, s': State)
    requires |s.fh| == NHASH && s'.fh == s.fh && s'.objs == s.objs
    ensures forall o :: o in s.objs ==> Linked(s', o) == Linked(s, o)
  {
  }

  /** A call begins with a reference of the caller or none; nothing shared changes. */
  lemma CallKeeps(s: State, step: Step)
    requires Inv(s) && Enabled(s, step) && (step.StartHold? || step.StartFind? || step.StartRele?)
    ensures Inv(Apply(s, step))
  {
    hide ObjectOk, ThreadOk, RefsTo, NoRepeats;
    var s' := Apply(s, step);
    SameRefs(s, s');
    forall o | o in s'.objs
      ensures ObjectOk(s', o)
    {
      ClientObject(s, s', o, step.t);
    }
    forall u
      ensures ThreadOk(s', u)
    {
      if u == step.t {
        CallerOk(s, step);
      } else {
        BystanderOk(s, s', u);
      }
    }
  }

  lemma GiveThread(s: State, step: Step, u: Tid)
    requires Enabled(s, step) && step.Give? && |s.fh| == NHASH && ThreadOk(s, u)
    ensures ThreadOk(Apply(s, step), u)
  {
    var s' := Apply(s, step);
    SameRefs(s, s');
    TouchesHow(AtOf(s, u));
    assert AtOf(s', u) == AtOf(s, u);
  }

  lemma GiveKeeps(s: State, step: Step)
    requires Inv(s) && Enabled(s, step) && step.Give?
    ensures Inv(Apply(s, step))
  {
    hide ObjectOk, ThreadOk, RefsTo, NoRepeats;
    var s' := Apply(s, step);
    SameRefs(s, s');
    forall o | o in s'.objs
      ensures ObjectOk(s', o)
    {
      ClientObject(s, s', o, step.t);
    }
    forall u
      ensures ThreadOk(s', u)
    {
      GiveThread(s, step, u);
    }
  }

  lemma AllocRefs(s: State, step: Step, x: Obj)
    requires RefsOk(s) && Enabled(s, step) && step.StartAlloc? && s.nextObj !in s.objs
    ensures RefsTo(Apply(s, step), x) == if x == s.nextObj then {s.nextRef} else RefsTo(s, x)
  {
    assert s.nextRef !in s.refs;
  }

  lemma AllocThread(s: State, step: Step, u: Tid)
    requires ListsOk(s) && RefsOk(s) && Enabled(s, step) && step.StartAlloc? && s.nextObj !in s.objs
    requires ThreadOk(s, u) && ThreadOk(s, step.t)
    ensures ThreadOk(Apply(s, step), u)
  {
    var s' := Apply(s, step);
    AllocRefs(s, step, ObjOf(AtOf(s', u)));
    TouchesHow(AtOf(s, u));
    assert u != step.t ==> AtOf(s', u) == AtOf(s, u);
  }

  lemma AllocNewObject(s: State, step: Step)
    requires ListsOk(s) && RefsOk(s) && Enabled(s, step) && step.StartAlloc? && s.nextObj !in s.objs
    ensures ObjectOk(Apply(s, step), s.nextObj)
  {
    var s' := Apply(s, step);
    AllocRefs(s, step, s.nextObj);
    assert OffList(AtOf(s', step.t)) && ObjOf(AtOf(s', step.t)) == s.nextObj;
  }

  lemma AllocKeeps(s: State, step: Step)
    requires Inv(s) && Enabled(s, step) && step.StartAlloc?
    ensures Inv(Apply(s, step))
  {
    hide ThreadOk, ReachOk, LockOk, RefsTo, NoRepeats;
    var s' := Apply(s, step);
    assert s.nextObj !in s.objs by {
      assert s.nextObj in s.objs ==> ObjectOk(s, s.nextObj);
    }
    forall o | o in s'.objs
      ensures ObjectOk(s', o)
    {
      if o == s.nextObj {
        AllocNewObject(s, step);
      } else {
        AllocOldObject(s, step, o);
      }
    }
    forall u
      ensures ThreadOk(s', u)
    {
      AllocThread(s, step, u);
    }
  }

  lemma AllocOldObject(s: State, step: Step, o: Obj)
    requires Inv(s) && Enabled(s, step) && step.StartAlloc? && o in s.objs && s.nextObj !in s.objs
    ensures |Apply(s, step).fh| == NHASH && ObjectOk(Apply(s, step), o)
  {
    var s' := Apply(s, step);
    AllocRefs(s, step, o);
    assert ObjectOk(s, o);
    if !Linked(s, o) {
      var u :| OffList(AtOf(s, u)) && ObjOf(AtOf(s, u)) == o;
      assert OffList(AtOf(s', u)) && ObjOf(AtOf(s', u)) == o;
    }
  }

  /** A step as it is taken; one that is not safe leads nowhere. */
  function Take(s: State, step: Step): (s': State)
    requires Enabled(s, step)
  {
    if step.Advance? && !Safe(s, step.t) then s else Apply(s, step)
  }

  ghost predicate LegalRun(steps: seq<Step>)
    decreases |steps|, 0
  {
    steps == [] ||
    var front := steps[..|steps| - 1];
    LegalRun(front) && Enabled(After(front), steps[|steps| - 1])
  }

  ghost function After(steps: seq<Step>): (s: State)
    requires LegalRun(steps)
    decreases |steps|, 1
  {
    if steps == [] then Initial() else Take(After(steps[..|steps| - 1]), steps[|steps| - 1])
  }

  lemma InitialOk()
    ensures Inv(Initial())
  {
    forall t
      ensures ThreadOk(Initial(), t)
    {
      assert AtOf(Initial(), t) == Outside;
    }
  }

  /** In every interleaving of any number of threads, the invariant holds after every step. */
  lemma {:induction false} RunsAreSafe(steps: seq<Step>)
    requires LegalRun(steps)
    ensures Inv(After(steps)) && forall t :: Safe(After(steps), t)
    decreases |steps|
  {
    hide Inv, Apply;
    if steps == [] {
      InitialOk();
    } else {
      var front, step := steps[..|steps| - 1], steps[|steps| - 1];
      RunsAreSafe(front);
      StepKeeps(After(front), step);
    }
    forall t
      ensures Safe(After(steps), t)
    {
      InvSafe(After(steps), t);
    }
  }

  lemma StepKeeps(s: State, step: Step)
    requires Inv(s) && Enabled(s, step)
    ensures Inv(Take(s, step))
  {
    hide Inv, Next;
    match step
    case StartAlloc(_, _) => AllocKeeps(s, step);
    case Give(_, _, _) => GiveKeeps(s, step);
    case Advance(t) => AdvanceKeeps(s, t);
    case _ => CallKeeps(s, step);
  }

  /** What the callers can rely on in every run: f_count is the number of references outstanding; foo_find returns
      a living object with a reference of its own; and an object is freed by the thread that holds its last
      reference, when it is on no list, unlocked, and no other thread is at it. */
  lemma CallersAreSafe(steps: seq<Step>, t: Tid)
    requires LegalRun(steps)
    ensures var s := After(steps);
            var a := AtOf(s, t);
            && (forall o :: o in s.objs ==> s.objs[o].count == |RefsTo(s, o)|)
            && (a.FindDone? ==> a.o in s.objs && RefOf(a) in s.refs && s.refs[RefOf(a)] == Held(t, a.o))
            && (a.ReleFree? ==>
                 && a.o in s.objs && s.objs[a.o].lock == None && RefsTo(s, a.o) == {RefOf(a)}
                 && (forall b :: 0 <= b < |s.fh| ==> a.o !in s.fh[b])
                 && (forall u :: u != t ==> Touches(AtOf(s, u)) != Some(a.o)))
  {
    hide LegalRun, After, RefsTo, NoRepeats;
    RunsAreSafe(steps);
    var s := After(steps);
    var a := AtOf(s, t);
    assert ThreadOk(s, t);
    forall o | o in s.objs
      ensures s.objs[o].count == |RefsTo(s, o)|
    {
      assert ObjectOk(s, o);
    }
    if a.ReleFree? {
      forall u | u != t
        ensures Touches(AtOf(s, u)) != Some(a.o)
      {
        assert ThreadOk(s, u);
        Exclusive(s, u, t);
      }
    }
  }

  /** t is blocked by a lock that u has. */
  predicate WaitsFor(s: State, t: Tid, u: Tid) {
    var a := AtOf(s, t);
    || (WantsHash(a) && s.hashlock == Some(u))
    || (WantsLock(a) && ObjOf(a) in s.objs && s.objs[ObjOf(a)].lock == Some(u))
  }

  /** The lock order: who has the hash lock waits for an object's lock at most, and who has an object's lock waits for
      nothing. */
  lemma HolderWaits(s: State, t: Tid, u: Tid)
    requires Inv(s) && WaitsFor(s, t, u)
    ensures !AtOf(s, u).Outside? && !WantsHash(AtOf(s, u)) && (WantsLock(AtOf(s, t)) ==> !WantsLock(AtOf(s, u)))
  {
    assert ThreadOk(s, u);
    if WantsLock(AtOf(s, t)) {
      assert ObjectOk(s, ObjOf(AtOf(s, t)));
    }
  }

  /** There is no cycle of waiting threads: of any threads that wait, one waits for none of them. */
  lemma NoCycle(steps: seq<Step>, waiting: set<Tid>) returns (t: Tid)
    requires LegalRun(steps) && waiting != {} && forall u :: u in waiting ==> Blocked(After(steps), u)
    ensures t in waiting && forall u :: u in waiting ==> !WaitsFor(After(steps), t, u)
  {
    hide LegalRun, After, Inv, Safe, Enabled;
    RunsAreSafe(steps);
    var s := After(steps);
    t :| t in waiting;
    if v :| v in waiting && WantsLock(AtOf(s, v)) {
      t := v;
    }
    forall u | u in waiting
      ensures !WaitsFor(s, t, u)
    {
      if WaitsFor(s, t, u) {
        HolderWaits(s, t, u);
      }
    }
  }

  /** A thread that cannot go on waits, directly or through one other, for a thread that can. */
  lemma NoDeadlock(steps: seq<Step>, t: Tid) returns (v: Tid, u: Tid)
    requires LegalRun(steps) && !AtOf(After(steps), t).Outside?
    ensures var s := After(steps);
            Enabled(s, Advance(u)) && (v == t || WaitsFor(s, t, v)) && (u == v || WaitsFor(s, v, u))
  {
    hide LegalRun, After, Inv, Safe, HasHash, HasLock;
    RunsAreSafe(steps);
    var s := After(steps);
    v := t;
    if Blocked(s, t) && !WantsLock(AtOf(s, t)) {
      v := s.hashlock.value;
      HolderWaits(s, t, v);
    }
    u := v;
    if Blocked(s, v) {
      u := s.objs[ObjOf(AtOf(s, v))].lock.value;
      HolderWaits(s, v, u);
    }
  }
}
