/** The queue of print jobs of apue.3e/printer/printd.c: the doubly linked list, and what clients and the printer
    thread do with it. */
module JobQueue {
  import opened Basics

  class Job {
    var next: Job?
    var prev: Job?
    const jobid: int

    constructor (id: int)
      ensures jobid == id && next == null && prev == null
    {
      jobid, next, prev := id, null, null;
    }
  }

  ghost predicate Distinct(js: seq<Job>) {
    forall i, j :: 0 <= i < j < |js| ==> js[i] != js[j]
  }

  /** From h by next, and from t by prev, one reaches the jobs of js in order and then null. */
  ghost predicate IsList(h: Job?, t: Job?, js: seq<Job>)
    reads js
  {
    && Distinct(js)
    && (if js == [] then h == null && t == null
        else h == js[0] && t == js[|js| - 1] && js[0].prev == null && js[|js| - 1].next == null)
    && (forall i {:trigger js[i].next} :: 0 <= i < |js| - 1 ==> js[i].next == js[i + 1])
    && (forall i {:trigger js[i].prev} :: 0 < i < |js| ==> js[i].prev == js[i - 1])
  }

  ghost function Without(js: seq<Job>, k: nat): (r: seq<Job>)
    requires k < |js|
    ensures |r| == |js| - 1
  {
    js[..k] + js[k + 1..]
  }

  lemma WithoutDistinct(js: seq<Job>, k: nat)
    requires Distinct(js) && k < |js|
    ensures Distinct(Without(js, k)) && js[k] !in Without(js, k)
  {
  }

  class Queue {
    var jobhead: Job?
    var jobtail: Job?
    ghost var jobs: seq<Job>

    ghost predicate Valid()
      reads this, jobs
    {
      IsList(jobhead, jobtail, jobs)
    }

    constructor ()
      ensures Valid() && jobs == []
    {
      jobhead, jobtail, jobs := null, null, [];
    }

    /** add_job under the lock. */
    method AddJob(jp: Job)
      requires Valid() && jp !in jobs
      modifies this, jobs, jp
      ensures Valid() && jobs == old(jobs) + [jp]
    {
      jp.next := null;
      jp.prev := jobtail;
      if jobtail == null {
        jobhead := jp;
      } else {
        jobtail.next := jp;
      }
      jobtail := jp;
      jobs := jobs + [jp];
    }

    /** replace_job under the lock. */
    method ReplaceJob(jp: Job)
      requires Valid() && jp !in jobs
      modifies this, jobs, jp
      ensures Valid() && jobs == [jp] + old(jobs)
    {
      jp.prev := null;
      jp.next := jobhead;
      if jobhead == null {
        jobtail := jp;
      } else {
        jobhead.prev := jp;
      }
      jobhead := jp;
      jobs := [jp] + jobs;
    }

    /** remove_job, wherever the job is in the list. */
    method RemoveJob(target: Job, ghost k: nat)
      requires Valid() && k < |jobs| && jobs[k] == target
      modifies this, jobs
      ensures Valid() && jobs == Without(old(jobs), k)
    {
      WithoutDistinct(jobs, k);
      ghost var js := Without(jobs, k);
      assert forall i :: 0 <= i < |js| ==> js[i] == jobs[if i < k then i else i + 1];
      hide Without;
      if target.next != null {
        target.next.prev := target.prev;
      } else {
        jobtail := target.prev;
      }
      if target.prev != null {
        target.prev.next := target.next;
      } else {
        jobhead := target.next;
      }
      jobs := js;
    }
  }

  // ---------- the printer thread and its clients

  /** The jobs in the order in which add_job queued them, those pending, the one that the printer thread has picked
      up, and those that are printed or cancelled. */
  datatype State = State(arrived: seq<int>, pending: seq<int>, hand: Option<int>, ended: seq<int>)

  datatype Step = Add(id: int) | PickUp | End | Defer

  predicate Enabled(s: State, step: Step) {
    match step
    case Add(_) => true
    case PickUp => s.hand.None? && s.pending != []
    case End => s.hand.Some?
    case Defer => s.hand.Some?
  }

  function Apply(s: State, step: Step): (s': State)
    requires Enabled(s, step)
  {
    match step
    case Add(id) => s.(arrived := s.arrived + [id], pending := s.pending + [id])
    case PickUp => s.(pending := s.pending[1..], hand := Some(s.pending[0]))
    case End => s.(hand := None, ended := s.ended + [s.hand.value])
    case Defer => s.(hand := None, pending := [s.hand.value] + s.pending)
  }

  function InHand(s: State): (r: seq<int>) {
    if s.hand.Some? then [s.hand.value] else []
  }

  predicate Legal(s: State, steps: seq<Step>)
    decreases |steps|
  {
    steps == [] || (Enabled(s, steps[0]) && Legal(Apply(s, steps[0]), steps[1..]))
  }

  function Run(s: State, steps: seq<Step>): (s': State)
    requires Legal(s, steps)
    decreases |steps|
  {
    if steps == [] then s else Run(Apply(s, steps[0]), steps[1..])
  }

  /** However clients and deferrals interleave, the jobs that have ended, the one in hand and those pending are, in
      this order, the jobs as they arrived: none is lost, none doubled, and they end in the order of arrival. */
  lemma {:induction false} JobsEndInOrder(s: State, steps: seq<Step>)
    requires Legal(s, steps) && s.ended + InHand(s) + s.pending == s.arrived
    ensures var t := Run(s, steps); t.ended + InHand(t) + t.pending == t.arrived
    decreases |steps|
  {
    if steps != [] {
      var t := Apply(s, steps[0]);
      match steps[0] {
        case Add(id) =>
          assert t.ended + InHand(t) + t.pending == s.ended + InHand(s) + s.pending + [id];
        case PickUp =>
          assert s.pending == [s.pending[0]] + s.pending[1..];
          assert t.ended + InHand(t) + t.pending == s.ended + InHand(s) + s.pending;
        case End =>
          assert t.ended + InHand(t) + t.pending == s.ended + InHand(s) + s.pending;
        case Defer =>
          assert t.ended + InHand(t) + t.pending == s.ended + InHand(s) + s.pending;
      }
      JobsEndInOrder(t, steps[1..]);
    }
  }

  // ---------- the same on the linked list

  ghost function Ids(js: seq<Job>): (ids: seq<int>)
    ensures |ids| == |js| && forall i :: 0 <= i < |ids| ==> ids[i] == js[i].jobid
  {
    seq(|js|, i requires 0 <= i < |js| => js[i].jobid)
  }

  /** The list has the jobs that are pending in s, and the printer thread the one that is in hand there. */
  ghost predicate Shows(q: Queue, hand: Job?, s: State)
    reads q, q.jobs
  {
    && q.Valid() && Ids(q.jobs) == s.pending
    && (if hand == null then s.hand.None? else s.hand == Some(hand.jobid) && hand !in q.jobs)
  }

  /** What a client or the printer thread does under the job lock: add_job of a new job, remove_job of the head,
      nothing for a job that has ended, replace_job of one that cannot be printed yet. */
  method Perform(q: Queue, hand: Job?, step: Step, ghost s: State) returns (hand': Job?)
    requires Shows(q, hand, s) && Enabled(s, step)
    modifies q, q.jobs, hand
    ensures Shows(q, hand', Apply(s, step))
    ensures forall k :: 0 <= k < |q.jobs| ==> q.jobs[k] in old(q.jobs) || q.jobs[k] == hand || fresh(q.jobs[k])
    ensures hand' == null || hand' == hand || hand' in old(q.jobs)
  {
    hand' := hand;
    match step {
      case Add(id) =>
        var jp := new Job(id);
        q.AddJob(jp);
      case PickUp =>
        hand' := q.jobhead;
        q.RemoveJob(hand', 0);
        WithoutDistinct(old(q.jobs), 0);
      case End =>
        hand' := null;
      case Defer =>
        q.ReplaceJob(hand);
        hand' := null;
    }
  }

  /** However clients and deferrals interleave, on an empty list: the list stays well linked, and the jobs ended, the
      one in hand and those on the list are the jobs in the order in which they were added. */
  method Serve(steps: seq<Step>) returns (q: Queue, hand: Job?, ghost s: State)
    requires Legal(State([], [], None, []), steps)
    ensures s == Run(State([], [], None, []), steps) && Shows(q, hand, s)
    ensures s.ended + InHand(s) + Ids(q.jobs) == s.arrived
  {
    ghost var start := State([], [], None, []);
    q := new Queue();
    hand, s := null, start;
    assert steps[0..] == steps;
    for i := 0 to |steps|
      invariant Shows(q, hand, s) && fresh(q) && (hand != null ==> fresh(hand))
      invariant forall k :: 0 <= k < |q.jobs| ==> fresh(q.jobs[k])
      invariant Legal(s, steps[i..]) && Run(s, steps[i..]) == Run(start, steps)
    {
      assert steps[i..][0] == steps[i] && steps[i..][1..] == steps[i + 1..];
      hand := Perform(q, hand, steps[i], s);
      s := Apply(s, steps[i]);
    }
    JobsEndInOrder(start, steps);
  }
}
