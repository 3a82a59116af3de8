/** Several processes at work on one database of apue.3e/db/db.c under its record locks, as a state machine: a step is
    one lock, unlock, read or write call of one process. Records and data records are named by number, as rewriting
    a record in place moves no other. */
module DbLocks {
  import opened Basics
  import opened DbFormat
  import opened DbLayout
  import DbChains
  import DbContents
  import Database

  type Key = DbContents.Key
  type Data = DbContents.Data
  type Op = Database.Op
  type Reply = Database.Reply
  type Pid = nat

  const FREE: nat := 0

  /** The head that the chain of a key hangs on. */
  function ChainOf(key: Key): (c: nat)
    ensures 0 < c < NHEADS
  {
    1 + DbContents.Hash(key)
  }

  // ---------- the files

  datatype Ptr = Nil | To(r: nat)

  datatype IdxRec = IdxRec(next: Ptr, key: Key, dat: nat, len: nat)

  /** A chain pointer in the index file: a head, or the pointer field of a record. */
  datatype PtrCell = Head(c: nat) | Next(r: nat)

  datatype Files = Files(heads: seq<Ptr>, recs: seq<IdxRec>, dats: seq<Data>)

  function RecAt(f: Files, p: Ptr): (r: IdxRec) {
    if p.To? && p.r < |f.recs| then f.recs[p.r] else IdxRec(Nil, [], 0, 0)
  }

  function DatAt(f: Files, d: nat): (x: Data) {
    if d < |f.dats| then f.dats[d] else []
  }

  function HeadAt(f: Files, c: nat): (p: Ptr) {
    if c < |f.heads| then f.heads[c] else Nil
  }

  function PutRec(f: Files, p: Ptr, r: IdxRec): (f': Files) {
    if p.To? && p.r < |f.recs| then f.(recs := f.recs[p.r := r]) else f
  }

  function PutDat(f: Files, d: nat, x: Data): (f': Files) {
    if d < |f.dats| then f.(dats := f.dats[d := x]) else f
  }

  function CellAt(f: Files, cell: PtrCell): (p: Ptr) {
    match cell
    case Head(c) => HeadAt(f, c)
    case Next(r) => RecAt(f, To(r)).next
  }

  function PutCell(f: Files, cell: PtrCell, p: Ptr): (f': Files) {
    match cell
    case Head(c) => if c < |f.heads| then f.(heads := f.heads[c := p]) else f
    case Next(r) => PutRec(f, To(r), RecAt(f, To(r)).(next := p))
  }

  // ---------- the processes

  /** Where a process is: each value names the call that comes next. _db_readidx makes two, one for the pointer and the
      length of a record and one for its body, and an append makes two, the lseek to the end and the write there. */
  datatype Pc =
    | Idle
    // _db_find_and_lock, up to a record read or the end of the chain
    | ChainLock | ReadHead | Walk | WalkBody | Found
    // _db_dodelete
    | DelLock | DelDat | DelReadFree | DelIdx | DelFree | DelLink | DelUnlock
    // db_store: the chain pointer
    | StoreHead
    // _db_findfree
    | FreeLock | FreeHead | FreeWalk | FreeBody | FreeTake | FreeUnlock
    // reuse
    | ReuseDat | ReuseIdx
    // append
    | DatLock | DatSeek | DatAppend | DatUnlock | IdxLock | IdxSeek | IdxAppend | IdxUnlock
    // the head of the chain, and the end of every operation
    | Link | Unlock
    // db_nextrec
    | ScanLock | ScanIdx | ScanBody | ScanDat | ScanUnlock

  /** The local variables of a process. `pos` counts the records passed on the chain or in the file; `found` says
      that db_store found the key; `seen` and `got` are what db_nextrec read. */
  datatype Proc = Proc(pc: Pc, op: Op, pos: nat, cell: PtrCell, cur: Ptr, next: Ptr, dat: nat, len: nat, ptr: Ptr,
                       found: bool, seen: Key, got: Data)

  function DataOf(op: Op): (d: Data) {
    if op.StoreOp? then op.data else []
  }

  predicate IsWriter(op: Op) {
    !op.FetchOp?
  }

  predicate HoldsChain(pc: Pc) {
    !(pc.Idle? || pc.ChainLock? || pc.ScanLock? || ReadsFree(pc))
  }

  predicate Deleting(pc: Pc) {
    pc.DelDat? || pc.DelReadFree? || pc.DelIdx? || pc.DelFree? || pc.DelLink? || pc.DelUnlock?
  }

  predicate WritesFree(pc: Pc) {
    Deleting(pc) || pc.FreeHead? || pc.FreeWalk? || pc.FreeBody? || pc.FreeTake? || pc.FreeUnlock?
  }

  predicate ReadsFree(pc: Pc) {
    pc.ScanIdx? || pc.ScanBody? || pc.ScanDat? || pc.ScanUnlock?
  }

  predicate AppendsDat(pc: Pc) {
    pc.DatSeek? || pc.DatAppend? || pc.DatUnlock?
  }

  predicate AppendsIdx(pc: Pc) {
    pc.IdxSeek? || pc.IdxAppend? || pc.IdxUnlock?
  }

  /** Two processes with locks of which one shuts out the other. */
  predicate Conflict(a: Proc, b: Proc) {
    || (HoldsChain(a.pc) && HoldsChain(b.pc) && ChainOf(a.op.key) == ChainOf(b.op.key) && (IsWriter(a.op) || IsWriter(b.op)))
    || (WritesFree(a.pc) && (WritesFree(b.pc) || ReadsFree(b.pc)))
    || (ReadsFree(a.pc) && WritesFree(b.pc))
    || (AppendsDat(a.pc) && AppendsDat(b.pc))
    || (AppendsIdx(a.pc) && AppendsIdx(b.pc))
  }

  predicate Waiting(pc: Pc) {
    pc.ChainLock? || pc.DelLock? || pc.FreeLock? || pc.DatLock? || pc.IdxLock? || pc.ScanLock?
  }

  /** Where a process is once it has the lock it waits for. */
  function Granted(pc: Pc): (pc': Pc) {
    match pc
    case ChainLock => ReadHead
    case DelLock => DelDat
    case FreeLock => FreeHead
    case DatLock => DatSeek
    case IdxLock => IdxSeek
    case ScanLock => ScanIdx
    case _ => pc
  }

  // ---------- the calls

  /** db_store has to append, as the record it found has data of another length. */
  predicate Resizes(a: Proc) {
    a.op.StoreOp? && !a.op.flag.Insert? && |a.op.data| + 1 != a.len
  }

  /** _db_findfree takes a record only when it has just the lengths it needs. */
  predicate Fits(r: IdxRec, op: Op) {
    |r.key| == |op.key| && r.len == |DataOf(op)| + 1
  }

  /** Where the process goes from its call. */
  function NextPc(f: Files, a: Proc): (pc: Pc) {
    match a.pc
    case ReadHead => Walk
    case Walk =>
      if a.cur.To? then WalkBody
      else if a.op.StoreOp? && !a.op.flag.Replace? then StoreHead
      else Unlock
    case WalkBody => if RecAt(f, a.cur).key == a.op.key then Found else Walk
    case Found => if a.op.DeleteOp? || Resizes(a) then DelLock else Unlock
    case DelDat => DelReadFree
    case DelReadFree => DelIdx
    case DelIdx => DelFree
    case DelFree => DelLink
    case DelLink => DelUnlock
    case DelUnlock => if a.op.StoreOp? then StoreHead else Unlock
    case StoreHead => if a.found then DatLock else FreeLock
    case FreeHead => FreeWalk
    case FreeWalk => if a.cur.Nil? then FreeUnlock else FreeBody
    case FreeBody => if Fits(RecAt(f, a.cur), a.op) then FreeTake else FreeWalk
    case FreeTake => FreeUnlock
    case FreeUnlock => if a.cur.To? then ReuseDat else DatLock
    case ReuseDat => ReuseIdx
    case ReuseIdx => Link
    case DatSeek => DatAppend
    case DatAppend => DatUnlock
    case DatUnlock => IdxLock
    case IdxSeek => IdxAppend
    case IdxAppend => IdxUnlock
    case IdxUnlock => Link
    case Link => Unlock
    case Unlock => Idle
    case ScanIdx => if a.pos >= |f.recs| then ScanUnlock else ScanBody
    case ScanBody => if Database.IsBlankKey(RecAt(f, To(a.pos)).key) then ScanIdx else ScanDat
    case ScanDat => ScanUnlock
    case ScanUnlock => Idle
    case _ => Granted(a.pc)
  }

  /** The process goes on to the record that the pointer it has read leads to. */
  function StepOn(a: Proc): (a': Proc) {
    a.(cell := if a.cur.To? then Next(a.cur.r) else a.cell, cur := a.next, pos := a.pos + 1)
  }

  /** What the call does to the process's variables. */
  function Local(f: Files, a: Proc): (a': Proc) {
    match a.pc
    case ReadHead => a.(cell := Head(ChainOf(a.op.key)), cur := HeadAt(f, ChainOf(a.op.key)), pos := 0)
    case Walk =>
      if a.cur.Nil? then a.(found := false) else a.(next := RecAt(f, a.cur).next)
    case WalkBody =>
      var r := RecAt(f, a.cur);
      if r.key == a.op.key then a.(dat := r.dat, len := r.len, found := true) else StepOn(a)
    case DelReadFree => a.(ptr := HeadAt(f, FREE))
    case StoreHead => a.(ptr := HeadAt(f, ChainOf(a.op.key)))
    case FreeHead => a.(cell := Head(FREE), cur := HeadAt(f, FREE), pos := 0)
    case FreeWalk =>
      if a.cur.Nil? then a else a.(next := RecAt(f, a.cur).next)
    case FreeBody =>
      var r := RecAt(f, a.cur);
      if Fits(r, a.op) then a.(dat := r.dat, len := r.len) else StepOn(a)
    case DatSeek => a.(dat := |f.dats|)
    case IdxSeek => a.(cur := To(|f.recs|))
    case ScanBody =>
      var r := RecAt(f, To(a.pos));
      if Database.IsBlankKey(r.key) then a.(pos := a.pos + 1) else a.(seen := r.key, dat := r.dat)
    case ScanDat => a.(got := DatAt(f, a.dat), pos := a.pos + 1)
    case _ => a
  }

  /** What the call does to the files. */
  function Written(f: Files, a: Proc): (f': Files) {
    match a.pc
    case Found => if a.op.StoreOp? && !a.op.flag.Insert? && !Resizes(a) then PutDat(f, a.dat, a.op.data) else f
    case DelDat => PutDat(f, a.dat, Blanks(if a.len > 0 then a.len - 1 else 0))
    case DelIdx => PutRec(f, a.cur, IdxRec(a.ptr, Blanks(|a.op.key|), a.dat, a.len))
    case DelFree => PutCell(f, Head(FREE), a.cur)
    case DelLink => PutCell(f, a.cell, a.next)
    case FreeTake => PutCell(f, a.cell, a.next)
    case ReuseDat => PutDat(f, a.dat, DataOf(a.op))
    case ReuseIdx => PutRec(f, a.cur, NewRec(a))
    case DatAppend => if a.dat == |f.dats| then f.(dats := f.dats + [DataOf(a.op)]) else PutDat(f, a.dat, DataOf(a.op))
    case IdxAppend => if a.cur == To(|f.recs|) then f.(recs := f.recs + [NewRec(a)]) else PutRec(f, a.cur, NewRec(a))
    case Link => PutCell(f, Head(ChainOf(a.op.key)), a.cur)
    case _ => f
  }

  /** A process depends on the files and on its own variables only. */
  function Moved(f: Files, a: Proc): (a': Proc) {
    Local(f, a).(pc := NextPc(f, a))
  }

  function NewRec(a: Proc): (r: IdxRec) {
    IdxRec(a.ptr, a.op.key, a.dat, |DataOf(a.op)| + 1)
  }

  // ---------- the shape of the index file

  datatype Owner = OfRec(r: nat) | OfProc(p: Pid)

  /** What the files mean, for the proof only. lists[c] lists the records of chain c in order, FREE being the free
      list; home[r] is the chain that record r is on, or LIMBO while process holder[r] has it in hand; at[k] is the
      record of a stored key; owner[d] tells whose data record d is. */
  datatype Shape = Shape(lists: seq<seq<nat>>, home: seq<nat>, holder: seq<Pid>, at: map<Key, nat>, owner: seq<Owner>)

  function TakeOff(g: Shape, c: nat, pos: nat, r: nat, p: Pid): (g': Shape) {
    if c < |g.lists| && pos < |g.lists[c]| && r < |g.home| && r < |g.holder| then
      g.(lists := g.lists[c := DbChains.RemoveAt(g.lists[c], pos)],
         home := g.home[r := DbChains.LIMBO], holder := g.holder[r := p])
    else g
  }

  function PutOn(g: Shape, c: nat, r: nat): (g': Shape) {
    if c < |g.lists| && r < |g.home| then
      g.(lists := g.lists[c := DbChains.Prepend(g.lists[c], r)], home := g.home[r := c])
    else g
  }

  function Reshape(g: Shape, f: Files, a: Proc, p: Pid): (g': Shape) {
    match a.pc
    case DelDat =>
      if a.cur.To? then TakeOff(g, ChainOf(a.op.key), a.pos, a.cur.r, p).(at := g.at - {a.op.key}) else g
    case DelFree => if a.cur.To? then PutOn(g, FREE, a.cur.r) else g
    case FreeTake => if a.cur.To? then TakeOff(g, FREE, a.pos, a.cur.r, p) else g
    case DatAppend => g.(owner := g.owner + [OfProc(p)])
    case IdxAppend =>
      g.(home := g.home + [DbChains.LIMBO], holder := g.holder + [p],
         owner := if a.dat < |g.owner| then g.owner[a.dat := OfRec(|f.recs|)] else g.owner)
    case Link =>
      if a.cur.To? then PutOn(g, ChainOf(a.op.key), a.cur.r).(at := g.at[a.op.key := a.cur.r]) else g
    case _ => g
  }

  // ---------- runs

  /** The calls that decide what an operation does, with the reply that the process then gives. */
  function Decides(f: Files, a: Proc): (r: Option<Reply>) {
    match a.pc
    case Walk =>
      if a.cur.To? || (a.op.StoreOp? && !a.op.flag.Replace?) then None
      else Some(if a.op.FetchOp? then Database.Fetched(None) else Database.Returned(Database.Code(-1)))
    case Found =>
      if a.op.FetchOp? then Some(Database.Fetched(Some(DatAt(f, a.dat))))
      else if a.op.DeleteOp? || Resizes(a) then None
      else Some(Database.Returned(Database.Code(if a.op.flag.Insert? then 1 else 0)))
    case DelDat => if a.op.DeleteOp? then Some(Database.Returned(Database.Code(0))) else None
    case Link => Some(Database.Returned(Database.Code(0)))
    case _ => None
  }

  /** ops and replies list the operations in the order in which they were decided; contents is the map that they
      make of the empty one. */
  datatype State = State(f: Files, g: Shape, procs: seq<Proc>, ops: seq<Op>, replies: seq<Reply>, contents: map<Key, Data>)

  datatype Step = Start(p: Pid, op: Op) | StartScan(p: Pid, pos: nat) | Advance(p: Pid)

  /** A process gets a lock when no other has one that shuts it out. */
  predicate Blocked(s: State, p: Pid)
    requires p < |s.procs|
  {
    Waiting(s.procs[p].pc) &&
    exists q :: 0 <= q < |s.procs| && q != p && Conflict(s.procs[p].(pc := Granted(s.procs[p].pc)), s.procs[q])
  }

  predicate Enabled(s: State, step: Step) {
    && step.p < |s.procs|
    && match step
       case Start(p, op) => s.procs[p].pc.Idle? && (op.StoreOp? ==> !op.flag.OtherFlag?)
       case StartScan(p, _) => s.procs[p].pc.Idle?
       case Advance(p) => !s.procs[p].pc.Idle? && !Blocked(s, p)
  }

  function Apply(s: State, step: Step): (s': State)
    requires Enabled(s, step)
  {
    var p := step.p;
    var a := s.procs[p];
    match step
    case Start(_, op) => s.(procs := s.procs[p := a.(pc := ChainLock, op := op)])
    case StartScan(_, pos) => s.(procs := s.procs[p := a.(pc := ScanLock, pos := pos)])
    case Advance(_) =>
      var reply := Decides(s.f, a);
      var s1 := s.(f := Written(s.f, a), g := Reshape(s.g, s.f, a, p), procs := s.procs[p := Moved(s.f, a)]);
      if reply.None? then s1
      else s1.(ops := s.ops + [a.op], replies := s.replies + [reply.value],
               contents := Database.MapStep(s.contents, a.op).0)
  }

  predicate Legal(s: State, steps: seq<Step>)
    decreases |steps|
  {
    steps == [] || (Enabled(s, steps[0]) && Legal(Apply(s, steps[0]), steps[1..]))
  }

  function Run(s: State, steps: seq<Step>): (s': State)
    requires Legal(s, steps)
    decreases |steps|
  {
    if steps == [] then s else Run(Apply(s, steps[0]), steps[1..])
  }

  function NoProc(): (a: Proc) {
    Proc(Idle, Database.FetchOp([]), 0, Head(FREE), Nil, Nil, 0, 0, Nil, false, [], [])
  }

  /** A new database, opened by n processes. */
  function Initial(n: nat): (s: State) {
    State(Files(seq(NHEADS, _ => Nil), [], []), Shape(seq(NHEADS, _ => []), [], [], map[], []),
          seq(n, _ => NoProc()), [], [], map[])
  }
}
