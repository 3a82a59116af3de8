# Verified models of an on-disk database, a timing wheel, a list sort, a JSON library and some lock protocols

The repository is a collection of C programs. This project models the parts of it that hold state whose correctness is
not visible from the code, and proves what they are for.

- **The database library** (`apue.3e/db`). An index file holds a free list and a hash table of chains, all linked by
  ASCII offsets; a data file holds the values. `dbformat`, `dblayout`, `dbchains` and `dbcontents` give the bytes
  their meaning, a map from keys to data; `dbroom` the room they leave; `database` has the library's functions as
  methods on a class with the fields of the C structure. Every sequence of calls behaves like the map. `dblocks`,
  `dblocksinv`, `dblocksteps`, `dblocksmoves` and `dblocksruns` let any number of processes interleave, one system
  call at a time, under the library's record locks. `dbhistory` tells replies by calls and replies alone.
- **The timing wheel** (`TCP_C/timer.c`). `timerspec` says what timers do with no wheel; `wheelslots` has the
  arithmetic of the five levels; `timerwheel` is the timer base with its operations, proved to do what the
  specification says for every expiry time and every handler. `wheelorder` has the order in which timers stand and
  run, `cascadewalk` the walk of `cascade` on the nodes.
- **The sort of an intrusive list** (`TCP_C/hash.c`, `TCP_C/list.h`). `ring` has the circular lists at the level of
  `next` and `prev` fields; `listsort` the quicksort whose range end is a node that swaps can move, on the ranges
  where it sorts; `anyrange` what it does on all others; `listpointers` the two functions on the nodes.
- **The JSON library** (`TCP_C/cJSON.c`). `jsontext` has the text that is printed and parsed, `jsonroundtrip` the
  round trip, `doubles` and `jsonnumber` the meaning of numbers in an arithmetic that rounds, `jsonunicode` and
  `jsonstructure` what escapes, arrays and objects mean, whoever wrote them, and `jsonbuffers`, `jsonprint` and
  `jsonparse` the two-pass buffer code and the parsing loops.
- **Queues, streams and ledgers**: the print queue (`apue.3e/printer/printd.c`, `jobqueue`), the queue of the thread
  pool (`TCP_C/thread.c`, `taskpool`), the in-memory stream (`apue.3e/exercises/fmemopen.c`, `memstream`), the
  allocation ledger (`TCP_C/mem.c`, `memledger`) and the k-way merge (`apue.3e/threads/barrier.c`, `merge`).
- **Lock protocols**: the System V semaphore wrapper (`apue.3e/lib/semaph.c`, `semaph`, `semvalues`) and the
  reference-counted table with two kinds of lock (`apue.3e/threads/mutex2.c`, `footable`, `fooids`), as state
  machines.

Where code and documentation differ the model follows the code. `_db_dodelete` passes its own buffer as the key that
`_db_writeidx` formats into that buffer; the model has the key copied first. `list_quick_sort` is given ranges by
node, and a partition of a range can run on to the tail of the list; the exact condition is `PartitionEnd`. It does
not sort every range, then: `RangeLeftUnsorted` has one that it does not, and `RangeSortedIff` says when it does.
`parse_number` is not exact on every literal either: `LiteralMeaning` says where it is as exact as a double allows,
`NeverExact` where no double has the value. A surrogate pair for a code point in a plane of even number is read as
another code point; `PairRightIff` is the condition. That timers run first in, first out holds for those with one
expiry time on one list, as `RunPass` states, and not for timers armed at different ticks, as `LaterRunsFirst` shows.
What several models share is in `basics`.

## Model

| member | source | states |
|---|---|---|
| `Ring.InitListHead` | TCP_C/list.h:66-68 | the node is a ring of its own |
| `Ring.ListDelInit` | TCP_C/list.h:532-536 | the ring without the node is well linked, in the same order, and the node is alone, as it was if the ring had no other |
| `Ring.ListDel` | TCP_C/list.h:479-483 | the ring without the entry is well linked, in the same order |
| `Ring.ListAddTail` | TCP_C/list.h:408-411 | a node that is not in the ring ends up just before the given one, the ring otherwise as before |
| `Ring.ListMoveTail` | TCP_C/list.h:554-559 | a node of the same ring, of another ring or on its own is taken out and put before the given node; both rings are well linked |
| `Ring.ListReplaceInit` | TCP_C/list.h:763-777 | the new head takes over the whole ring, also an empty one, and the old head is alone |
| `Ring.ListSwap` | TCP_C/hash.c:98-136 | two nodes of one ring, adjacent or not, in either order, also the only two, of two rings, or alone have changed places, and nothing else has |
| `Ring.ExchangeByMoves` | TCP_C/hash.c:98-136 | two removals and two insertions, in the order the code makes them, are one exchange |
| `ListSort.PartLoopInv` | TCP_C/hash.c:149-188 | at every turn the pivot stays first, a run below it and a run not below it follow, the rest is untouched |
| `ListSort.PartitionEnd` | TCP_C/hash.c:149-188 | a partition ends at the end of its range if and only if no swap moves the end node; otherwise at the tail of the list |
| `ListSort.PartitionOverruns` | TCP_C/hash.c:149-188 | a list and a range after its head whose partition runs on to the tail |
| `ListSort.PartitionCorrect` | TCP_C/hash.c:149-188 | for any range: where the partition ends, that what it goes over is permuted and split at the pivot, and where pivot and end node then are |
| `ListSort.QuickSortSorts` | TCP_C/hash.c:201-216 | a range that ends with the list or with a node nothing in it is above comes out sorted, by a recursion that ends |
| `AnyRange.AnyCall` | TCP_C/hash.c:201-216 | one call on any range, also on one that begins after its end, however far: the partition, the calls it makes and that each is on a smaller range |
| `AnyRange.GoodRangeSorted` | TCP_C/hash.c:201-216 | a range that ends with the list or with its maximum is sorted and permuted, and nothing else is touched |
| `AnyRange.BadRangeBroken` | TCP_C/hash.c:201-216 | any other range is sorted up to some point, and from there to the tail of the list everything is sorted too |
| `AnyRange.RangeSortedIff` | TCP_C/hash.c:201-216 | a range comes out sorted if and only if WillBeSorted holds of the list before the call: it ends with the list or a maximum, or its end is below its first node, or so after the partition, with nothing after the range below the pivot if the next partition runs over |
| `AnyRange.AfterEndSorted` | TCP_C/hash.c:201-216 | with a begin after its end everything from there to the tail is sorted and permuted |
| `AnyRange.SortedUnderTail` | TCP_C/hash.c:201-216 | a range comes out sorted if nothing after it is below anything in it |
| `AnyRange.TailLeftAlone` | TCP_C/hash.c:201-216 | an unsorted tail after the range is left alone if and only if nothing in the range is above its end node |
| `AnyRange.RangeLeftUnsorted` | TCP_C/hash.c:201-216 | a list and a range that the code does not sort |
| `ListPointers.GetPartition` | TCP_C/hash.c:149-188 | the pointer loop computes the partition, for any two nodes, and hands back the pivot and the end node |
| `ListPointers.ListQuickSort` | TCP_C/hash.c:201-216 | on any range the recursion on nodes is the recursion on positions, although swaps move the nodes it was given, and it ends |
| `ListPointers.SortList` | TCP_C/hash.c:201-216 | for any total preorder the ring is well linked, under the same head, sorted and a permutation of what it was |
| `TimerSpec.ArmedRunsOnTime` | TCP_C/timer.c:104-146 | a timer armed with expiry E at tick T first runs in the pass of tick max(E, T), unless deleted or re-armed before; its own handler may do either |
| `TimerSpec.RunsWhenDue` | TCP_C/timer.c:177-208 | a pending timer first runs in the pass of the tick it is due at, whatever happens to it in and after its run |
| `TimerSpec.UntouchedRunsOnce` | TCP_C/timer.c:177-208 | a timer that nothing touches, its own handler included, runs once and is then no longer pending |
| `TimerSpec.NotPendingDoesNotRun` | TCP_C/timer.c:92-102 | a timer that is not pending does not run until it is touched |
| `TimerSpec.DeletedDoesNotRun` | TCP_C/timer.c:92-102 | after del_timer a timer does not run until somebody touches it again |
| `TimerSpec.ModifiedRunsOnTime` | TCP_C/timer.c:236-247 | after mod_timer to E at tick T a timer first runs in the pass of tick max(E, T), or when it would have run if it was pending with that very expiry time |
| `TimerSpec.OthersAsBefore` | TCP_C/timer.c:92-146 | adding, moving or deleting one timer leaves every other as it was |
| `TimerSpec.LastCallDecides` | TCP_C/timer.c:194-205 | the last call that a pass's handlers make on a timer decides how the pass leaves it: re-armed by its own handler it is pending for the time asked for, deleted it is off |
| `TimerSpec.DueRunsUnlessTouched` | TCP_C/timer.c:194-205 | a timer due at a tick runs in its pass unless a handler of the pass touches it |
| `TimerSpec.PassRunsEachOnce` | TCP_C/timer.c:194-205 | whatever the handlers add, move or delete, a pass runs each timer at most once and none armed in the same pass |
| `WheelSlots.SlotForPlaces` | TCP_C/timer.c:104-146 | the slot chosen for an expiry time is emptied no later than the tick the timer is due at, for every distance, wrap-around included |
| `WheelSlots.CascadesAreVisits` | TCP_C/timer.c:168-193 | the slots that a pass cascades are exactly the slots of the higher levels that its tick visits |
| `WheelSlots.LowBits` | TCP_C/timer.c:168-168 | the slot index taken from the 64-bit tick is the one of the tick itself |
| `TimerWheel.TimerBase.constructor` | TCP_C/timer.c:54-71 | an empty wheel at the given tick |
| `TimerWheel.TimerBase.DetachTimer` | TCP_C/timer.c:79-88 | the timer is off its list and no longer pending, the others as before |
| `TimerWheel.TimerBase.InternalAddTimer` | TCP_C/timer.c:104-146 | the timer is pending and due at max(E, T), at the end of the list of a slot where the wheel comes past in time |
| `TimerWheel.TimerBase.DelTimer` | TCP_C/timer.c:92-102 | the timer is pending no more, every other as before, and the result tells whether it was |
| `TimerWheel.TimerBase.AddTimer` | TCP_C/timer.c:218-234 | refines arming, also of a timer that is pending already |
| `TimerWheel.TimerBase.ModTimer` | TCP_C/timer.c:236-247 | refines re-arming, with the short cut for an unchanged expiry time of a pending timer |
| `TimerWheel.TimerBase.ArmBoth` | TCP_C/timer.c:142-145 | of two timers armed in one tick for the same time the first stands before the second |
| `TimerWheel.TimerBase.Cascade` | TCP_C/timer.c:149-166 | every timer of the slot is placed anew and remains due at its tick |
| `TimerWheel.CascadeOrder` | TCP_C/timer.c:149-166 | a cascade leaves timers with the same expiry time in the order in which they stood |
| `TimerWheel.LaterRunsFirst` | TCP_C/timer.c:140-166 | two timers armed for the same time at different ticks, of which the one armed later comes to stand first |
| `CascadeWalk.Walk` | TCP_C/timer.c:155-163 | the walk with the next node saved, over nodes that were never unlinked, visits each once, in order, and leaves every slot well linked with what was dealt to it |
| `CascadeWalk.Cascade` | TCP_C/timer.c:149-166 | the slot's list is taken over and walked to its end; then every slot has the nodes dealt to it at its tail, in order, and this one nothing else |
| `TimerWheel.TimerBase.CascadeAll` | TCP_C/timer.c:186-193 | after the cascades of a pass every timer due at the tick is in the slot that the pass runs |
| `TimerWheel.TimerBase.RunPass` | TCP_C/timer.c:181-206 | one turn of the outer loop is one pass of the deadline-ordered timers, for any handlers; timers with the same expiry time on one list that no handler touches run in the order in which they stand |
| `TimerWheel.TimerBase.RunTimers` | TCP_C/timer.c:177-208 | the run up to a clock reading is the sequence of passes for all ticks up to it, k + 1 of them for a clock that stands k ticks ahead and none for one behind |
| `TimerWheel.LaterTick` | TCP_C/timer.c:181-181 | time_after_eq tells the later of two ticks less than half a round of the 64-bit counter apart, wrap-around included |
| `DbFormat.AtolPad` | apue.3e/db/db.c:323-334 | a number printed in a field of fixed width is read back |
| `DbFormat.PadWidth` | apue.3e/db/db.c:618-631 | a pointer fills exactly its field if and only if it is no larger than PTR_MAX |
| `DbFormat.BodyRoundTrip` | apue.3e/db/db.c:567-612 | an index record is read back as it was written if and only if its key has no separator |
| `DbLayout.ReadRec` | apue.3e/db/db.c:343-418 | what is at the offset of a record decodes to that record |
| `DbLayout.WriteRec` | apue.3e/db/db.c:567-612 | rewriting a record with one of the same length changes that record and no other |
| `DbLayout.WriteRecPtr` | apue.3e/db/db.c:618-631 | rewriting a chain pointer changes that pointer and nothing else |
| `DbLayout.AppendRec` | apue.3e/db/db.c:567-612 | appending to the file appends one record |
| `DbChains.UnlinkKeeps` | apue.3e/db/db.c:509-522 | taking a record off its chain leaves every other record on exactly one acyclic chain |
| `DbChains.PushKeeps` | apue.3e/db/db.c:496-514 | putting a record in hand at the front of a chain leaves every record on exactly one acyclic chain, and no record moves |
| `DbChains.AppendKeeps` | apue.3e/db/db.c:680-687 | a new record at the front of its chain leaves every record on exactly one acyclic chain |
| `DbContents.GoodUnlink` | apue.3e/db/db.c:463-525 | a deletion removes exactly the record's key from the map that the files mean |
| `DbContents.GoodWriteDat` | apue.3e/db/db.c:531-560 | rewriting data in place changes the value of that key only: data of distinct records never overlap |
| `DbContents.GoodPushLive` | apue.3e/db/db.c:695-697 | a reused record adds exactly its key and data |
| `DbContents.GoodAppend` | apue.3e/db/db.c:680-687 | an appended record adds exactly its key and data |
| `Database.Db.constructor` | apue.3e/db/db.c:84-166 | the files of a new database mean the empty map, and the room is that of empty files |
| `Database.Db.DbHash` | apue.3e/db/db.c:306-316 | the loop computes the hash, in 64-bit arithmetic on signed characters, modulo 137 |
| `DbContents.RaisedSum` | apue.3e/db/db.c:306-316 | raising the i-th character of a key by one raises the sum that is hashed by i, in 64 bits |
| `DbContents.ZerosSum` | apue.3e/db/db.c:306-316 | the sum of a key of zero bytes is 0, which with the law before it determines the hash |
| `Database.Db.ReadPtr` | apue.3e/db/db.c:323-334 | the number in the seven bytes at the offset |
| `Database.CellRead` | apue.3e/db/db.c:323-334 | the bytes of a chain cell spell the offset of the next record of that chain, or 0 at its end |
| `Database.Db.ReadIdx` | apue.3e/db/db.c:343-418 | the buffers and fields are those of the record at the offset; end of file is told apart |
| `Database.Db.Find` | apue.3e/db/db.c:259-301 | the record of the key and the cell that points at it, or that the key is stored nowhere |
| `Database.Db.WriteDat` | apue.3e/db/db.c:531-560 | the data file has the data at the offset, or at its end, and is otherwise unchanged |
| `Database.Db.WriteIdx` | apue.3e/db/db.c:567-612 | the index file has the record at the offset, or at its end, and is otherwise unchanged |
| `Database.Db.WritePtr` | apue.3e/db/db.c:618-631 | the pointer is written, and nothing else |
| `Database.Db.DoDelete` | apue.3e/db/db.c:463-525 | the record is blank, its data blanks, at the head of the free list and off its chain; the map has lost its key |
| `Database.Db.FindFree` | apue.3e/db/db.c:752-805 | a free record with exactly the lengths asked for is taken off the free list, or there is none |
| `Database.Db.ReadDat` | apue.3e/db/db.c:424-435 | the data of the current record |
| `Database.Db.Fetch` | apue.3e/db/db.c:233-253 | the value in the map, or nothing, and an unchanged database |
| `Database.Db.StoreNew` | apue.3e/db/db.c:661-699 | the map gets the key, whether a free record is reused or one is appended |
| `Database.Db.StoreOver` | apue.3e/db/db.c:707-738 | the map gets the new value, whether the data is overwritten or the record deleted and appended |
| `Database.Db.StoreRecord` | apue.3e/db/db.c:637-746 | 0 and the new value, 1 for an insert of a stored key, -1 for a replace of an absent one or an unknown flag, the map then as it was; or the end of the process, exactly when data or files are too long |
| `Database.AbortsIff` | apue.3e/db/db.c:567-631 | a store ends the process by what the files are exactly when it does by their lengths and the lengths of the free records |
| `DbRoom.FreeUnlink` | apue.3e/db/db.c:793-800 | a record taken off the free list leaves the others as the free lengths |
| `DbRoom.FreePush` | apue.3e/db/db.c:496-514 | a deleted record adds its lengths to the free ones |
| `Database.Run` | apue.3e/db/db.c:233-746 | any sequence of calls on any well-formed database replies what it would on a map; it ends early exactly at the first call for which the room at the start, followed through the calls, says so |
| `DbHistory.ValueIsLast` | apue.3e/db/db.c:233-746 | after any calls a key has the data of its last store that returned 0 after its last deletion |
| `DbHistory.RepliesAreAnswers` | apue.3e/db/db.c:233-746 | each reply of any sequence of calls is the one that the calls and replies before it ask for, flag by flag |
| `Database.Db.Rewind` | apue.3e/db/db.c:812-827 | the position is that of the first record |
| `Database.Db.NextRec` | apue.3e/db/db.c:835-875 | the next record with a non-blank key, in file order, or the end |
| `Database.Db.Scan` | apue.3e/db/db.c:835-875 | repeated calls list the records with a non-blank key in file order and then report the end |
| `Database.ScanIsContents` | apue.3e/db/db.c:812-875 | the listing of a scan has every stored non-blank key exactly once, with its data, and no deleted record |
| `DbLocksRuns.OnePlace` | apue.3e/db/db.c:483-524 | in every run of any number of processes every record is on one chain or in one process's hand, never in two places |
| `DbLocksRuns.ChainsAreLists` | apue.3e/db/db.c:277-283 | every chain but one from which a process is just deleting is well linked, acyclic and holds its own keys, each once |
| `DbLocksRuns.RepliesAreTheMaps` | apue.3e/db/db.c:233-746 | the replies of concurrent operations are those of a map, taken in the order in which they are decided |
| `DbHistory.ConcurrentAnswers` | apue.3e/db/db.c:233-746 | the same for any number of processes at once, in the order in which their operations are decided |
| `DbLocksRuns.DecidedOnce` | apue.3e/db/db.c:233-746 | each operation is decided by exactly one call between its start and its return |
| `DbLocksRuns.StoredIsContents` | apue.3e/db/db.c:277-283 | where nobody has the write lock of a chain its records are what the map says, in both directions |
| `DbLocksRuns.ScanSees` | apue.3e/db/db.c:846-874 | db_nextrec returns a record that is stored or just being stored with that data, never a half-deleted one |
| `DbLocksRuns.ScanPassesBlanks` | apue.3e/db/db.c:849-865 | db_nextrec passes over blank records only, and reports the end at the end of the file only |
| `DbLocksRuns.RewritesKeepLengths` | apue.3e/db/db.c:463-525 | no step changes the length of a key or of a data record, or where a record's data is |
| `DbLocksRuns.AppendsAtEnd` | apue.3e/db/db.c:537-559 | between the lseek to the end of a file and the write there nobody else appends, so that the two are one |
| `DbLocksRuns.AppendsWhenNoneFits` | apue.3e/db/db.c:770-789 | a process that leaves the free list with no record leaves none on it that has the lengths it needs |
| `DbLocksRuns.TakesFirstFit` | apue.3e/db/db.c:770-789 | a record taken off the free list is the first with the lengths needed |
| `DbLocksRuns.DeletionBlanks` | apue.3e/db/db.c:483-509 | a deletion leaves blanks of the same length in place of data and key |
| `DbLocksRuns.NoDeadlock` | apue.3e/db/db.c:761-804 | while any process is inside an operation some process can go on |
| `DbLocksRuns.NoCycle` | apue.3e/db/db.c:761-804 | of any processes that wait for locks one waits for none of the others: there is no cycle of waiters |
| `DbLocksRuns.OnlyInnerLocks` | apue.3e/db/db.c:542-559 | a process with a chain lock waits for the free list or an append lock only, and not while nobody has one |
| `DbLocksRuns.RunKeeps` | apue.3e/db/db.c:233-875 | the invariant behind these holds in every state of every run |
| `DbLocksSteps.ReplyRight` | apue.3e/db/db.c:233-746 | what an operation replies when it is decided is what the map replies at that moment |
| `DbLocksSteps.QuietKeeps` | apue.3e/db/db.c:284-301 | every lock, unlock and read call, the two reads of an index record apart, keeps the invariant: what a process reads under its locks is what the chain says |
| `DbLocksSteps.ExclusiveKept` | apue.3e/db/db.c:277-283 | lock calls are granted so that no two processes have locks that shut each other out |
| `DbLocksMoves.DelDatKeeps` | apue.3e/db/db.c:483-489 | the first write of a deletion keeps the invariant |
| `DbLocksMoves.DelIdxKeeps` | apue.3e/db/db.c:496-509 | blanking the index record, whose pointer then leads into the free list while its chain still leads to it, keeps the invariant |
| `DbLocksMoves.DelFreeKeeps` | apue.3e/db/db.c:511-514 | making the deleted record the head of the free list keeps the invariant |
| `DbLocksMoves.DelLinkKeeps` | apue.3e/db/db.c:517-524 | the pointer write that ends a deletion keeps the invariant |
| `DbLocksMoves.FreeTakeKeeps` | apue.3e/db/db.c:770-803 | taking a record off the free list keeps the invariant |
| `DbLocksMoves.ReuseDatKeeps` | apue.3e/db/db.c:695-695 | writing data to a reused record keeps the invariant |
| `DbLocksMoves.ReuseIdxKeeps` | apue.3e/db/db.c:696-696 | giving a reused record its new key keeps the invariant |
| `DbLocksMoves.ReplaceKeeps` | apue.3e/db/db.c:733-737 | overwriting data of the same length under the chain lock alone keeps the invariant and changes the one key in the map |
| `DbLocksMoves.DatAppendKeeps` | apue.3e/db/db.c:542-559 | appending data keeps the invariant: the data is nobody else's until its index record is written |
| `DbLocksMoves.LinkKeeps` | apue.3e/db/db.c:680-697 | the write that puts a record on its chain keeps the invariant and adds exactly its key and data to the map |
| `DbLocksMoves.IdxAppendKeeps` | apue.3e/db/db.c:590-611 | appending an index record keeps the invariant: the record is in the hand of its process |
| `Semaphore.RunsAreSafe` | apue.3e/lib/semaph.c:89-163 | with fewer than BIGCOUNT opens outstanding, the invariant holds in every run of creates, closes and exits with undo |
| `Semaphore.SectionKept` | apue.3e/lib/semaph.c:49-75 | member [2] is 1 exactly when one process is in a critical section, kept by every step, exits included |
| `Semaphore.CountKept` | apue.3e/lib/semaph.c:49-75 | once set, member [1] plus the number of opens is BIGCOUNT, kept by every step |
| `Semaphore.CallersAreSafe` | apue.3e/lib/semaph.c:222-253 | the set is removed only when nobody has it open, sem_create returns only with the set initialised, and the counter is never above BIGCOUNT |
| `SemValues.ValueIsBook` | apue.3e/lib/semaph.c:67-75 | in every run member [0] is the initial value asked for plus what each process that has not exited has added, plus what exits could not take back as the member is never below 0 |
| `SemValues.CreateSets` | apue.3e/lib/semaph.c:135-163 | sem_create that finds the counter at 0 ends with members i, BIGCOUNT - 1 and 0; one that finds it counting leaves member [0] as it is and counts its caller |
| `SemValues.SetWhenNew` | apue.3e/lib/semaph.c:132-153 | the counter is found at 0 only where nobody has the set open, and above 0 only where member [0] was set |
| `SemValues.LastCloseRemoves` | apue.3e/lib/semaph.c:222-253 | sem_close by the last that has the set open removes it, by any other gives back the lock |
| `SemValues.SectionGoesOn` | apue.3e/lib/semaph.c:112-163 | a process in the critical section can always go on |
| `SemValues.WaitsForValue` | apue.3e/lib/semaph.c:262-290 | sem_wait goes on exactly when member [0] is not 0, sem_signal always |
| `Semaphore.BoundIsNeeded` | apue.3e/lib/semaph.c:135-153 | with BIGCOUNT opens a legal run reaches a removal while the set is open: the bound is exact |
| `FooTable.RunsAreSafe` | apue.3e/threads/mutex2.c:19-104 | the invariant holds in every interleaving of allocations, holds, finds, releases and hand-overs |
| `FooTable.CallersAreSafe` | apue.3e/threads/mutex2.c:52-104 | f_count is the number of outstanding references, foo_find returns living objects with a reference of the caller's, an object is freed unlinked and by its last owner |
| `FooIds.CallersGetWhatTheyAsk` | apue.3e/threads/mutex2.c:19-67 | foo_alloc makes and foo_find returns an object with the id it was called with; a miss means that no object on the lists has it while the hash lock is held; and an object exists exactly as long as it has a reference |
| `FooIds.Findable` | apue.3e/threads/mutex2.c:19-67 | an object that nobody is making or unmaking is on its list |
| `FooIds.HoldAdds` | apue.3e/threads/mutex2.c:44-50 | foo_hold adds one reference, its caller's, and nothing else |
| `FooTable.NoDeadlock` | apue.3e/threads/mutex2.c:74-97 | a thread inside a call can go on, or waits for one that can, or for one that waits for one that can |
| `FooTable.NoCycle` | apue.3e/threads/mutex2.c:74-97 | of any threads that wait for locks one waits for none of the others |
| `FooTable.Exclusive` | apue.3e/threads/mutex2.c:86-99 | nobody else is near an object that one thread has taken off the lists |
| `FooTable.MoverListsKept` | apue.3e/threads/mutex2.c:52-104 | after every step the object that a thread has found is alive and on its list, and one that it has unlinked is alive, on no list and referred to by that thread alone |
| `FooTable.InvSafe` | apue.3e/threads/mutex2.c:74-92 | no thread touches a freed object, and the object that the recheck after the unlock and relock window finds unshared is on its list |
| `JsonRoundTrip.RoundTrip` | TCP_C/cJSON.c:267-297 | what is printed for a value, in either format and at any depth, parses to the value and leaves the rest of the text |
| `JsonRoundTrip.DocumentRoundTrip` | TCP_C/cJSON.c:252-264 | parsing a printed document gives it back, with nothing left over |
| `JsonRoundTrip.ItemsRoundTrip` | TCP_C/cJSON.c:300-376 | the printed items of an array, to the closing bracket, parse to the items |
| `JsonRoundTrip.MembersRoundTrip` | TCP_C/cJSON.c:379-470 | the printed members of an object, to the closing brace, parse to the members |
| `JsonText.StringRoundTrip` | TCP_C/cJSON.c:143-236 | every string without a NUL is read back from what is printed for it |
| `JsonText.NumberRoundTrip` | TCP_C/cJSON.c:96-139 | every integer of at most 53 bits is read back from its decimal form, in any arithmetic where those and the powers of ten up to the 22nd are exact |
| `JsonNumber.LiteralMeaning` | TCP_C/cJSON.c:96-116 | a literal whose digits make an integer of at most 53 bits, times a power of ten from 0 to 22, is read as its value rounded once; nothing after it is taken |
| `JsonNumber.LiteralRead` | TCP_C/cJSON.c:96-116 | any literal, its exponent any run of digits, is read to its end, its double by the sums and products of the code; an exponent that is no int overflows |
| `JsonNumber.NeverExact` | TCP_C/cJSON.c:96-116 | a literal with k digits left after the point, which make no multiple of 5 to the k, has a value that is no double's and is never read as it, whatever the rounding |
| `JsonNumber.OthersDyadic` | TCP_C/cJSON.c:96-116 | the literals outside of that condition do have the value of an integer over a power of two: the condition is exact |
| `JsonNumber.ThreeTenths` | TCP_C/cJSON.c:111-113 | 0.3 is such a literal |
| `Doubles.ToIntCuts` | TCP_C/cJSON.c:113-113 | valueint is valuedouble cut off at the point, where an int can hold it |
| `JsonBuffers.EscapedLength` | TCP_C/cJSON.c:208-213 | the first pass of print_string_ptr counts the bytes that the second writes |
| `JsonBuffers.PrintStringPtr` | TCP_C/cJSON.c:203-236 | the second pass stays inside the buffer and writes the quoted, escaped string |
| `JsonBuffers.CountEnough` | TCP_C/cJSON.c:148-151 | what parse_string counts is enough for what it writes, for every string with complete escapes, surrogate pairs included |
| `JsonBuffers.Utf8ByShifts` | TCP_C/cJSON.c:179-190 | the bytes made by shifting six bits at a time are the UTF-8 form of the code point |
| `JsonBuffers.ParseStringItem` | TCP_C/cJSON.c:143-200 | the two passes stay inside buffer and text and give the unescaped string, as `JsonUnicode` says what that is |
| `JsonUnicode.UnicodeRead` | TCP_C/cJSON.c:166-190 | an escaped code point of the first plane, digits in either case, is read as its UTF-8 form; 0 and a low surrogate give nothing |
| `JsonUnicode.Utf8IsForm` | TCP_C/cJSON.c:179-190 | what is written for a code point is its one UTF-8 form: lead byte, continuation bytes, and bits that add up to it |
| `JsonUnicode.PairRightIff` | TCP_C/cJSON.c:172-178 | a surrogate pair is read as its code point if and only if that is in a plane of odd number |
| `JsonUnicode.LoneRead` | TCP_C/cJSON.c:172-175 | a high surrogate with no escape after it gives nothing |
| `JsonUnicode.UnpairedRead` | TCP_C/cJSON.c:172-177 | a high surrogate takes an escape after it that is no low surrogate with it |
| `JsonUnicode.ShortRead` | TCP_C/cJSON.c:160-190 | the short escapes stand for what section 7 of RFC 8259 says |
| `JsonUnicode.PlainRead` | TCP_C/cJSON.c:155-156 | every other byte stands for itself |
| `JsonUnicode.WordsRead` | TCP_C/cJSON.c:267-272 | null, true and false are read as such |
| `JsonStructure.ArrayInOrder` | TCP_C/cJSON.c:300-325 | values between commas, with any blanks around them, are the items in the order in which they are written |
| `JsonStructure.ObjectInOrder` | TCP_C/cJSON.c:379-412 | names and values, with any blanks around them, are the members in the order in which they are written |
| `JsonStructure.EmptyArray` | TCP_C/cJSON.c:306-308 | brackets with blanks between them are the array of no items |
| `JsonStructure.EmptyObject` | TCP_C/cJSON.c:385-387 | braces with blanks between them are the object of no members |
| `JsonPrint.ArrayFits` | TCP_C/cJSON.c:345-352 | the length that print_array adds up is enough for what it writes |
| `JsonPrint.MembersFit` | TCP_C/cJSON.c:432-439 | the length that print_object adds up is enough for what it writes, at any depth |
| `JsonPrint.ComposeArray` | TCP_C/cJSON.c:328-376 | the text of the array and its terminator, written inside a buffer of that length |
| `JsonPrint.ComposeObject` | TCP_C/cJSON.c:415-470 | the text of the object and its terminator, written inside a buffer of that length |
| `JsonPrint.PrintNumber` | TCP_C/cJSON.c:119-127 | an int fits the 21-byte buffer |
| `JsonPrint.PrintValue` | TCP_C/cJSON.c:282-297 | the recursive printer gives the text that parses back |
| `JsonPrint.PrintArray` | TCP_C/cJSON.c:328-376 | the loop over the items and the composition give the text of the array |
| `JsonPrint.PrintObject` | TCP_C/cJSON.c:415-470 | the loop over the members and the composition give the text of the object |
| `JsonParse.ReadNumber` | TCP_C/cJSON.c:96-116 | the digit loops compute valuedouble and valueint, and no int overflows on the way unless the exponent is too large for one |
| `JsonParse.ReadItems` | TCP_C/cJSON.c:300-325 | the loop that appends children gives the list that the grammar gives, or fails where it fails |
| `JsonParse.ReadMembers` | TCP_C/cJSON.c:379-412 | the loop that appends members gives the list that the grammar gives, or fails where it fails |
| `JsonParse.ReadValue` | TCP_C/cJSON.c:267-279 | the recursive parser accepts and rejects what the grammar does |
| `JsonParse.SkipBlanks` | TCP_C/cJSON.c:249-249 | the position of the next byte that is no blank |
| `Merge.MergeRuns` | apue.3e/threads/barrier.c:59-78 | all the numbers, sorted, for any number of sorted runs of equal length below LONG_MAX, with no read past the end of a run |
| `Merge.Least` | apue.3e/threads/barrier.c:67-74 | the inner loop finds the run whose next number nothing left is below |
| `Merge.MergeStep` | apue.3e/threads/barrier.c:66-77 | one turn of the outer loop loses nothing and keeps the output sorted and below all that is left |
| `JobQueue.Queue.AddJob` | apue.3e/printer/printd.c:275-296 | the job is at the end of the doubly linked list, which is otherwise as before |
| `JobQueue.Queue.ReplaceJob` | apue.3e/printer/printd.c:303-315 | the job is at the front of the list |
| `JobQueue.Queue.RemoveJob` | apue.3e/printer/printd.c:322-331 | the list without the job, wherever it was, is well linked in both directions |
| `JobQueue.JobsEndInOrder` | apue.3e/printer/printd.c:684-697 | however clients and deferrals interleave, jobs ended, the job in hand and jobs pending are the jobs in order of arrival |
| `JobQueue.Perform` | apue.3e/printer/printd.c:275-331 | each step is add_job, remove_job of the head or replace_job on the linked list, which then has the jobs pending |
| `JobQueue.Serve` | apue.3e/printer/printd.c:684-697 | over any steps the linked list stays well linked, and jobs ended, the one in hand and those on the list are in order of arrival |
| `MemStream.TypeToFlags` | apue.3e/exercises/fmemopen.c:97-138 | a type is valid if and only if it is r, w or a followed by any number of + and b, and the flags are those it asks for |
| `MemStream.TypesAsk` | apue.3e/exercises/fmemopen.c:97-138 | r reads, w writes and truncates, a appends, and + makes any of them read and write |
| `MemStream.FindEnd` | apue.3e/exercises/fmemopen.c:140-151 | the position of the first NUL, or the end |
| `MemStream.Open` | apue.3e/exercises/fmemopen.c:37-94 | errors for a size of 0, an invalid type or a missing buffer; otherwise position and size of the new stream for each mode |
| `MemStream.OpenedHas` | apue.3e/exercises/fmemopen.c:68-83 | a new stream on a buffer has all of it for r, nothing for w, and for a the string in it with the position at its end |
| `MemStream.Stream.MRead` | apue.3e/exercises/fmemopen.c:153-171 | what a file gives, position within size within buffer, and an error for a stream that cannot be read |
| `MemStream.Stream.MWrite` | apue.3e/exercises/fmemopen.c:174-204 | what a capacity-bounded file takes, in append mode at the end, with the NUL that a stream which cannot be read gets |
| `MemStream.Stream.MSeek` | apue.3e/exercises/fmemopen.c:206-229 | a position within the file or an error, from start, end or here |
| `MemStream.ReadGives` | apue.3e/exercises/fmemopen.c:153-171 | as many bytes as asked for or left, from the position on, in an unchanged file |
| `MemStream.WriteTakes` | apue.3e/exercises/fmemopen.c:174-190 | as many bytes as given or as there is room for, at the position or in append mode at the end, every other byte as it was |
| `MemStream.AppendGrows` | apue.3e/exercises/fmemopen.c:183-189 | in append mode the file grows by what is written, wherever the position was |
| `MemStream.WriteReadBack` | apue.3e/exercises/fmemopen.c:153-204 | what was written is read back from where it was written |
| `MemStream.SeekLands` | apue.3e/exercises/fmemopen.c:206-229 | where each kind of seek lands, and when it fails |
| `MemStream.RunOps` | apue.3e/exercises/fmemopen.c:153-229 | any sequence of reads, writes and seeks on an update stream replies what a capacity-bounded file would |
| `MemStream.NulHarmless` | apue.3e/exercises/fmemopen.c:196-202 | the NUL after a write leaves what was written if and only if it falls outside of it or on a NUL |
| `TaskPool.Pool.AddTask` | TCP_C/thread.c:63-83 | the walk to the tail puts a new node at the end of the list and counts it |
| `TaskPool.Pool.TakeTask` | TCP_C/thread.c:159-167 | the first task is taken, and the two assertions before it hold |
| `TaskPool.PoolIsFifo` | TCP_C/thread.c:141-172 | in every run tasks are taken in the order of adding, size and list agree while the lock is free, a worker finds what it counted, and each task taken has been run once or is in its worker's hand |
| `TaskPool.WorkerGoesOn` | TCP_C/thread.c:141-172 | a worker with the lock takes the first task, gives back the lock and runs it; with none it waits, and after shutdown it exits |
| `TaskPool.ProducerAdds` | TCP_C/thread.c:63-83 | a producer with the lock puts its task last, counts it and gives back the lock |
| `TaskPool.HolderGoesOn` | TCP_C/thread.c:141-172 | who has the lock can go on |
| `MemLedger.Ledger.Malloc` | TCP_C/mem.c:94-129 | the block is live with its size, or nothing has changed |
| `MemLedger.Ledger.Realloc` | TCP_C/mem.c:131-202 | moved, resized in place, failed, to zero, from null: the live blocks afterwards |
| `MemLedger.Ledger.Free` | TCP_C/mem.c:204-219 | the block is no longer live; a null or unknown pointer changes nothing |
| `MemLedger.Ledger.FindHash` | TCP_C/mem.c:71-92 | the one record of the address, in the bucket of its hash, if and only if the block is live |
| `MemLedger.TotalIsSum` | TCP_C/mem.c:53-69 | the sizes in the table add up to the sizes of the live blocks |
| `MemLedger.Entered` | TCP_C/mem.c:53-61 | a new record keeps the table exact and adds its size to the total |
| `MemLedger.TakenOut` | TCP_C/mem.c:63-69 | a record taken out keeps the table exact and subtracts its size |
| `MemLedger.Resized` | TCP_C/mem.c:183-186 | a record resized in place keeps the table exact and adjusts the total by the difference |

## Left out

- Database.Run: after a call that ends the process (`err_dump`, `err_quit`) nothing is promised.
- Database.Db.ReadPtr: states the number in seven bytes; that this is what the chain says is `Database.CellRead`.
- Database.Db.StoreRecord: keys and data hold no NUL, as they are C strings, and keys no separator; `BodyRoundTrip` shows that this is exactly what reading a record back needs.
- `db_open` of files that exist already, `db_close`, the counters `cnt_*`, and errors of system calls.
- DbLocksRuns.RepliesAreTheMaps: the calls that end a process, and a process that is killed inside an operation, are not steps of the model.
- TimerWheel.TimerBase.Cascade: the slot lists of the timer base are sequences; on the nodes the walk is `CascadeWalk.Cascade`, and the other list operations are those of `ring`.
- Timer handlers are scripts of calls on timers; the clock reading is a parameter; `jhl_timer_num` is not a count of anything, as `cascade` adds without subtracting.
- ListPointers.SortList: the comparator is a function of two nodes that the sort does not change; it is a total preorder on the entries.
- `sem_open`, which takes no lock, and `sem_rm` called directly by a server.
- The chains of the reference-counted table are sequences, without the walk to the predecessor in `foo_rele`.
- Failure of `malloc` and of `pthread_mutex_init` in `foo_alloc`.
- cJSON numbers that are no integers of C's int range are parsed but not printed; the two zeros of a double are one.
- JsonNumber.LiteralMeaning: how `pow` rounds powers of ten other than those from 0 to 22 is left open, so of a literal that needs one only `NeverExact` says something.
- cJSON items are values: the `next`, `prev` and `child` pointers and `cJSON_Delete` are left out.
- JsonBuffers.ParseStringItem: a text in which an escape is broken off, where the C code reads on beyond it, is outside of its contract; so are allocation failures.
- JsonParse.ReadNumber: an exponent that overflows its int is outside of its contract, and the int that a double too large for one is converted to is left open.
- Merge.MergeRuns: numbers equal to LONG_MAX, which the inner loop does not find; the sorting of the runs and the barrier are left out.
- JobQueue.JobsEndInOrder: a step is a whole critical section of the job lock; a cancelled job counts as ended; the spool files and the printer's replies are left out.
- MemStream.Stream.MSeek: positions are not truncated to int; failing allocations and `mstream_close` are left out.
- TaskPool.PoolIsFifo: `pool_destroy` beyond setting the shutdown flag, and wake-ups, which may come at any time.
- MemLedger.Ledger.Realloc: a pointer that is not live and a size of 0, where the C code goes on with a null record, is outside of its contract; file names, line numbers and the locks are left out.
- The rest of the repository: socket, signal, terminal and process demonstrations, and near copies of the files modelled here.
