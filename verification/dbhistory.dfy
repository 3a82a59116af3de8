/** What the replies of a database say of its history, told by the calls and replies alone. */
module DbHistory {
  import opened Basics
  import opened DbContents
  import opened Database
  import DbLocks
  import DbLocksRuns

  /** What the first n calls have left under a key, in a database that meant m at first: the data of the last store of the
      key that returned 0, unless a deletion came after it. */
  function LastValue(m: map<Key, Data>, ops: seq<Op>, replies: seq<Reply>, n: nat, key: Key): (v: Option<Data>)
    requires n <= |ops| && n <= |replies|
    decreases n
  {
    if n == 0 then if key in m then Some(m[key]) else None
    else
      var op := ops[n - 1];
      if op.DeleteOp? && op.key == key then None
      else if op.StoreOp? && op.key == key && replies[n - 1] == Returned(Code(0)) then Some(op.data)
      else LastValue(m, ops, replies, n - 1, key)
  }

  lemma {:induction false} RunPrefix(m: map<Key, Data>, ops: seq<Op>, n: nat)
    requires n <= |ops|
    ensures MapRun(m, ops).1[..n] == MapRun(m, ops[..n]).1
    decreases |ops|
  {
    var k := |ops| - 1;
    if n == |ops| {
      assert ops[..n] == ops;
    } else {
      RunPrefix(m, ops[..k], n);
      assert ops[..k][..n] == ops[..n];
    }
  }

  lemma {:induction false} LastOfPrefix(m: map<Key, Data>, ops: seq<Op>, replies: seq<Reply>, n: nat, k: nat, key: Key)
    requires n <= k <= |ops| && k <= |replies|
    ensures LastValue(m, ops[..k], replies[..k], n, key) == LastValue(m, ops, replies, n, key)
    decreases n
  {
    if n > 0 {
      LastOfPrefix(m, ops, replies, n - 1, k, key);
    }
  }

  lemma ValueStep(m: map<Key, Data>, op: Op, key: Key)
    ensures var (m', reply) := MapStep(m, op);
            && (op.DeleteOp? && op.key == key ==> key !in m')
            && (op.StoreOp? && op.key == key && reply == Returned(Code(0)) ==> key in m' && m'[key] == op.data)
            && (!(op.DeleteOp? && op.key == key) && !(op.StoreOp? && op.key == key && reply == Returned(Code(0))) ==>
                  (key in m' <==> key in m) && (key in m ==> m'[key] == m[key]))
  {
  }

  /** After any calls a key has the data of its last successful store after its last deletion. */
  lemma {:induction false} ValueIsLast(m: map<Key, Data>, ops: seq<Op>, key: Key)
    ensures var (m', replies) := MapRun(m, ops);
            LastValue(m, ops, replies, |ops|, key) == if key in m' then Some(m'[key]) else None
    decreases |ops|
  {
    hide MapStep;
    if ops != [] {
      var k := |ops| - 1;
      ValueIsLast(m, ops[..k], key);
      var replies := MapRun(m, ops).1;
      RunPrefix(m, ops, k);
      LastOfPrefix(m, ops, replies, k, k, key);
      ValueStep(MapRun(m, ops[..k]).0, ops[k], key);
    }
  }

  /** What a call replies, by what is stored under its key when it is made. */
  predicate Answers(op: Op, was: Option<Data>, reply: Reply) {
    match op
    case FetchOp(_) => reply == Fetched(was)
    case DeleteOp(_) => reply == Returned(Code(if was.Some? then 0 else -1))
    case StoreOp(_, _, Insert) => reply == Returned(Code(if was.Some? then 1 else 0))
    case StoreOp(_, _, Replace) => reply == Returned(Code(if was.Some? then 0 else -1))
    case StoreOp(_, _, Store) => reply == Returned(Code(0))
    case StoreOp(_, _, OtherFlag) => reply == Returned(Code(-1))
  }

  lemma AnswersStep(m: map<Key, Data>, op: Op)
    ensures Answers(op, if op.key in m then Some(m[op.key]) else None, MapStep(m, op).1)
  {
  }

  /** Every reply is the one that the calls and replies before it ask for. */
  lemma RepliesAreAnswers(m: map<Key, Data>, ops: seq<Op>, k: nat)
    requires k < |ops|
    ensures var replies := MapRun(m, ops).1; Answers(ops[k], LastValue(m, ops, replies, k, ops[k].key), replies[k])
  {
    hide MapRun, MapStep, Answers, LastValue;
    var replies := MapRun(m, ops).1;
    MapRunOne(m, ops, k);
    RunPrefix(m, ops, k);
    RunPrefix(m, ops, k + 1);
    assert replies[k] == replies[..k + 1][k];
    ValueIsLast(m, ops[..k], ops[k].key);
    LastOfPrefix(m, ops, replies, k, k, ops[k].key);
    AnswersStep(MapRun(m, ops[..k]).0, ops[k]);
  }

  /** The same for any number of processes at work at once: each reply is the answer asked for by the operations that
      were decided before its own. */
  lemma ConcurrentAnswers(s: DbLocks.State, k: nat)
    requires DbLocksRuns.Reachable(s) && k < |s.ops|
    ensures |s.replies| == |s.ops| && Answers(s.ops[k], LastValue(map[], s.ops, s.replies, k, s.ops[k].key), s.replies[k])
  {
    hide Answers, LastValue, DbLocksRuns.Reachable;
    DbLocksRuns.RepliesAreTheMaps(s);
    RepliesAreAnswers(map[], s.ops, k);
  }
}
