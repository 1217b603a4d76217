# VoxiUtil, modelled and proved in Dafny

VoxiUtil is a C library of utilities: threads and locks, queues, a text RPC protocol, tables and
trees, and some encodings. This project models its hand-built protocols and data structures and
proves what the rest of a program relies on. `dafny verify dfyconfig.toml` checks all of it.

Protocols between threads are transition systems: a state, the steps that each thread can take
from it, and an inductive invariant over every interleaving of any number of threads. A failing
assertion of the C code, or the use of a freed record, is a step that sets `failed`, and the
theorems say that `failed` is never set; lemmas called `StepFailsIff` say exactly when a step
would set it. Structures that C updates in place are classes over arrays and linked nodes; each
method is proved against what the structure means (a sequence, a set, a finite map), and lemmas
about that meaning say what the source promises. Code that only computes is functions.

| file | models |
|---|---|
| `RecursiveMutex.dfy` | the recursive mutex of `src/threading.c` and its condition waits |
| `PoolLists.dfy`, `ThreadPool.dfy` | the worker lists and the start and join handshakes of `src/threadpool.c` |
| `ByteRing.dfy`, `ByteStream.dfy` | the ring and the stream handshake of `src/byteQueueC.c` and `src/byteQueue.cpp` |
| `Text.dfy`, `TextRpcLines.dfy`, `TextRpc.dfy`, `TextRpcProgress.dfy` | `strsep`, the lines of the RPC protocol, and the safety and progress of the protocol of `src/textRPC.c` |
| `SemQueue.dfy` | the semaphore-counted queue of `src/queue.c` |
| `EventQueue.dfy`, `EventProgress.dfy` | the event manager of `src/event.c`: its safety, and when events get finished |
| `BinTree.dfy` | the search tree with father pointers of `src/bt.c` |
| `HashTable.dfy`, `WordMap.dfy` | the chained table of `src/hash.c` and the two-index word map of `src/wordMap.c` |
| `IdTable.dfy` | the id table of `src/idTable.c` with its free list |
| `StrBuf.dfy`, `Errors.dfy` | string buffers, quoting and error texts of `src/strbuf.c` and `src/err.c` |
| `Registers.dfy`, `Crc32.dfy` | the CRC-32 of `src/checksums.c` (section 8 of RFC 1952) |
| `Geometry.dfy` | the fixed-point rotations of `src/geometry.c` |
| `StateMachine.dfy` | the state machine runner of `src/stateMachine.c` |
| `Wrappers.dfy`, `Sequences.dfy` | what several models share |

Where the code does not do what one would expect, the model follows the code:

- `src/event.c` checks for a free slot before it takes the lock. Two posters can both pass the
  check and overrun the ring. `EventQueue.CheckCanBeOvertaken` constructs such a run;
  `EventQueue.InsertSafeIffCheckHolds` gives the exact condition.
- `src/event.c` holds the lock of a listener list while a handler calls a listener itself. If that
  listener makes a blocking post for the same source and type, neither event is ever finished
  (`EventProgress.OwnKindDeadlocks`, and the run `EventProgress.DeadlockedRun`).
  `EventProgress.FinishIffNoCircle` gives the exact condition under which an event can be
  finished, and `EventProgress.EveryRunSettles` says that then it is, in whatever order the
  threads run.
- The comment on `ErrToString` says that spaces are quoted. The escapes of newline and carriage
  return contain a space themselves (`Errors.NewlineEscape`); `Errors.SpacesQuotedExactly` says
  exactly which descriptions come out without one. The text is decodable all the same.
- `wordMap_add` offers an entry to two indexes which accept or refuse it on their own;
  `WordMap.AddCanSplitIndexes` is an entry that they do not treat alike, and
  `WordMap.WordMap.Add` says exactly when they go on agreeing. A word map without entries
  cannot be read back (`WordMap.ReadUndoesSave`): its count is the table size asked for.
- `idt_putElementAt` reads the slot before the first one if the id is in use and no slot is
  free; this is the outcome `Undefined` of `IdTable.Table.PutElementAt`, and
  `IdTable.OnlySlotTaken` reaches it.
- `textRPC_call` waits for its return without a loop. A caller that wakes up too early returns
  whatever its record holds: `TextRpcProgress.WokenTooEarlyRun` is such a run. Calls whose
  return had come get their own reply (`TextRpc.CallsGetTheirOwnReply`), others anything
  (`TextRpc.WokenTooEarly`).
- `crc32_memory` counts with an unsigned int: its loop ends exactly for lengths below 2^32
  (`Crc32.LoopEndsIff`).

## Model

| member | source | states |
|---|---|---|
| RecursiveMutex.NextKeepsInv | src/threading.c:278-574 | every step of every thread, in a lock, an unlock or a wait, keeps the invariant that ties semaphore, inner mutex, `count`, `thread` and `lastLockFrom` to what the threads hold |
| RecursiveMutex.RunKeepsInv | src/threading.c:278-574 | the invariant holds in every state of every run, for any number of threads and any interleaving |
| RecursiveMutex.SafeInEveryRun | include/voxi/util/threading.h:56-66 | in every run at most one thread owns the mutex, also in the middle of nested locks, unlocks and waits; `count` follows the owner's nesting depth, `thread` names the owner, `lastLockFrom` is what the owner passed to its last lock or unlock, and no assertion on `count`, the owner or the semaphore value fails |
| RecursiveMutex.DescriptionsNest | include/voxi/util/threading.h:90-104 | if each unlock passes back what its lock returned, each open lock has returned the description of the one it is nested in, the outermost NULL, and `lastLockFrom` describes the innermost one, also after waits |
| RecursiveMutex.StepFailsIff | src/threading.c:278-574 | a step fails exactly if an assertion at its point does not hold, or the inner mutex is released by a thread that does not have it |
| RecursiveMutex.OpenLocksOwn | src/threading.c:278-574 | a thread with open locks owns the mutex except when asleep in a wait or about to leave its last unlock |
| RecursiveMutex.StepRefines | src/threading.c:278-574 | the fields refine an abstract recursive lock: lock takes a free one or nests, unlock undoes one level, a wait drops all levels and takes exactly as many back |
| RecursiveMutex.LockMovesInner | src/threading.c:317-373 | the second half of a lock, with the inner mutex, is a legal move of the invariant |
| RecursiveMutex.UnlockMovesLeave | src/threading.c:428-448 | the end of an unlock restores the previous `lastLockFrom` and is a legal move |
| RecursiveMutex.WaitMovesBack | src/threading.c:514-565 | waking from either wait, at any time, and restoring the fields is a legal move |
| RecursiveMutex.SemHolderAdvances | src/threading.c:290-373 | the thread that has the semaphore is never blocked and every step brings it nearer to posting it |
| RecursiveMutex.NoInternalDeadlock | src/threading.c:278-574 | if no thread inside a call can move, each waits for an inner mutex whose holder is in its own code: the internals cannot deadlock |
| RecursiveMutex.CallsSettle | src/threading.c:278-574 | without new calls every order of steps comes to rest within a known number of steps, and then every call has returned or waits for a thread that has the lock in its own code |
| RecursiveMutex.CallReturns | src/threading.c:278-574 | a call made while no other thread is in one or has the lock returns: a lock adds a level that has returned the earlier description, an unlock takes one away, a wait leaves all as they were |
| PoolLists.RemoveSplits | src/threadpool.c:404-421 | removing a list member leaves what is before and after it |
| PoolLists.TakenKeepsApart | src/threadpool.c:253-280 | handing out the first available worker keeps every worker in exactly one list, once |
| PoolLists.ReturnedKeepsApart | src/threadpool.c:404-421 | giving a worker back keeps every worker in exactly one list, once |
| PoolLists.WorkerList.PushFront | src/threadpool.c:266-280 | linking in front of a doubly linked list prepends to its sequence and keeps all links consistent |
| PoolLists.WorkerList.PopFront | src/threadpool.c:253-264 | unlinking the head removes the first element and keeps all links consistent |
| PoolLists.WorkerList.Unlink | src/threadpool.c:404-414 | unlinking a worker in the middle removes exactly it and keeps all links consistent |
| PoolLists.Pool.Take | src/threadpool.c:253-280 | the two linked lists change as the two sequences do when a worker is handed out |
| PoolLists.Pool.GiveBack | src/threadpool.c:404-421 | the two linked lists change as the two sequences do when a worker is given back; no other worker comes in |
| ThreadPool.AcceptKeepsInv | src/threadpool.c:231-280 | accepting a job, with a worker from the list or a new one, keeps the invariant |
| ThreadPool.AcceptReuses | src/threadpool.c:250-280 | a job is always accepted; the first available worker is reused, and only if there is none the pool grows, by one |
| ThreadPool.WorkKeepsInv | src/threadpool.c:345-427 | every step of a worker's main loop keeps the invariant |
| ThreadPool.JoinKeepsInv | src/threadpool.c:298-338 | a join, before or after the job's end, keeps the invariant |
| ThreadPool.RunKeepsInv | src/threadpool.c:231-427 | the invariant holds in every run of a detached or joinable pool |
| ThreadPool.SafeInEveryRun | src/threadpool.c:231-427 | in every run each job is executed at most once, by the worker it was handed to, no worker gets a job before its last one is finished (and collected), every worker is in exactly one list, and no assertion fails |
| ThreadPool.StepFailsIff | src/threadpool.c:298-427 | a step fails exactly if one of the assertions does not hold |
| ThreadPool.JoinReturnsOwnResult | src/threadpool.c:298-338 | a join that has returned gave the result of that very job and is never refused |
| ThreadPool.HistoryGrows | src/threadpool.c:231-427 | no step drops an accepted job, moves it to another worker or forgets an execution |
| ThreadPool.JobGetsRun | src/threadpool.c:282-371 | no start is lost: the worker of a job not yet executed is awake and each of its steps brings the job nearer to its execution |
| ThreadPool.JobCanBeRun | src/threadpool.c:231-427 | from every state a finite number of steps of the client and the worker executes an accepted job |
| ThreadPool.JobNeverSetBack | src/threadpool.c:231-427 | no step of any thread takes a job further from its execution |
| ThreadPool.NoLostJoin | src/threadpool.c:298-398 | no join is lost: a sleeping client has the job's end before it, and a worker waiting to be joined has a client that can come |
| ThreadPool.WorkerComesNearer | src/threadpool.c:345-427 | a worker in use always has a step before it, its own or its client's, that brings it nearer to the available list; its own once the job is executed and collected |
| ThreadPool.WorkerCanComeBack | src/threadpool.c:345-427 | from every state a finite number of steps puts a worker back into the available list |
| ThreadPool.JobCanBeSettled | src/threadpool.c:231-427 | from every state a finite number of steps gets a job executed once and, in a joinable pool, its join returned with that result |
| ThreadPool.PoolSize | src/threadpool.c:253-280 | in every run there are no more workers than at first, or than have been in use at one time |
| ByteRing.BlockWritten | src/byteQueueC.c:146-169 | copying a block to the tail, wrapping at the end, appends it to the bytes in the ring |
| ByteRing.BlockRead | src/byteQueueC.c:297-320 | copying a block from the head removes it from the front of the bytes in the ring |
| ByteRing.Fitting | src/byteQueueC.c:117-169 | what a write takes is a beginning of the data, fits, and is all of it or fills the ring |
| ByteRing.Ring.CopyIn | src/byteQueueC.c:146-169 | one memcpy appends the longest prefix that fits before the wrap or the head |
| ByteRing.Ring.WriteData | src/byteQueueC.c:117-191 | a write appends exactly the longest prefix that fits, in at most two copies, returns TRUE iff all of it fits, and broadcasts iff the ring was empty |
| ByteRing.Ring.CopyOut | src/byteQueueC.c:297-320 | one memcpy takes a non-empty prefix out of the ring |
| ByteRing.Ring.Drain | src/byteQueueC.c:272-322 | the read loop takes as many bytes as are wanted and there, oldest first |
| ByteStream.RunKeepsInv | src/byteQueueC.c:117-343 | the invariant of one writer and one reader holds in every run |
| ByteStream.FlowReads | src/byteQueueC.c:272-343 | what was read, what the running read has got and what is queued always make up what was accepted in the current stream |
| ByteStream.StreamsArriveWhole | src/byteQueueC.c:193-343 | in every run the reads up to the k-th read of less than was asked for are exactly the bytes accepted in stream k, and each end of stream is reported by exactly one such read, the initial one included |
| ByteStream.ReadReturns | src/byteQueueC.c:247-343 | in every run a read gives no more than was asked for, the oldest bytes first, and less only if it has emptied the queue and reached an end of stream not reported before, which it reports |
| ByteStream.ReadReturnsIff | src/byteQueueC.c:270-342 | a read returns at once if and only if there is enough for it or an end to report; otherwise it takes all there is and waits |
| ByteStream.WriteTakes | src/byteQueueC.c:115-191 | a write takes all that is offered or fills the queue |
| ByteStream.StreamMarks | src/byteQueueC.c:193-245 | ending a stream ends it, once; starting one waits until the last end is reported and then starts it |
| ByteStream.StreamCanPass | src/byteQueueC.c:117-343 | between streams any bytes can be passed as the next one: finitely many steps get them accepted, read and their end reported |
| ByteStream.ReadsGrow | src/byteQueueC.c:247-343 | streams once read to their end never change |
| ByteStream.ReadStaysInStream | src/byteQueueC.c:247-343 | no single read mixes bytes of two streams |
| ByteStream.NoLostWakeUp | src/byteQueueC.c:222-338 | no reader or writer sleeps while what it waits for is there |
| Text.Find | src/libcCompat.c:12-32 | the first delimiter, or the end |
| Text.Strsep | src/libcCompat.c:12-32 | the token has no delimiter; token, delimiter and rest are the whole; NULL stays NULL |
| Text.StrsepUndoesJoin | src/libcCompat.c:12-32 | a token free of delimiters, a delimiter and any rest are given back |
| Text.NatToString | src/textRPC.c:1022-1026 | decimal digits, without a leading zero unless the number is 0 |
| Text.AtoiUndoesPrint | src/textRPC.c:1022-1026 | `atoi` reads back every number written with `%d` |
| Text.NumberWord | src/textRPC.c:780-785 | a printed number is one word for `strsep` and is read back |
| TextRpcLines.VersionLineParses | src/textRPC.c:464-587 | both negotiation lines are parsed as they were written |
| TextRpcLines.CallLineParses | src/textRPC.c:591-641 | a call line is parsed into its own id and text, whatever the text |
| TextRpcLines.ReplyLineParses | src/textRPC.c:708-747 | a return line is parsed into its own id and reply; NULL, empty text and error stay apart |
| TextRpcLines.SameUpToCase | src/textRPC.c:468-606 | keywords are taken for the same exactly if they differ in the case of letters at most |
| TextRpc.CallSent | src/textRPC.c:1014-1056 | sending a call keeps exactly one token (line, job or return) per pending call |
| TextRpc.JobServed | src/textRPC.c:764-859 | serving any waiting job turns its token into a return with the same id |
| TextRpc.ReplyDelivered | src/textRPC.c:708-757 | a return finds its own call, in whatever order returns come |
| TextRpc.RequestKeepsInv | src/textRPC.c:464-540 | answering the version request keeps the invariant |
| TextRpc.RunKeepsInv | src/textRPC.c:423-1098 | the invariant of both endpoints and both channels holds in every run |
| TextRpc.CallsGetTheirOwnReply | src/textRPC.c:986-1098 | every call that has returned after its return had come was dispatched exactly once, with its own text, and returned what that dispatch produced; no line is ever misunderstood |
| TextRpc.WokenTooEarly | src/textRPC.c:1058-1096 | that condition is exact: a caller woken before its return has come returns any value at all |
| TextRpc.VersionsAgree | src/textRPC.c:464-587 | a running endpoint has a version that is no later than the latest of either endpoint and is one of these two, the same at both endpoints; no call or return is next for an endpoint still negotiating |
| TextRpc.StepFailsIff | src/textRPC.c:464-757 | only the reading of a line can fail, exactly if the line is not one that the endpoint understands in its state |
| TextRpc.NegotiationAdvances | src/textRPC.c:423-587 | until both endpoints are running one particular step is possible and brings them nearer |
| TextRpc.NegotiationCanEnd | src/textRPC.c:423-587 | from every state at most three steps bring both endpoints into the running state |
| TextRpc.NegotiationNeverUndone | src/textRPC.c:423-587 | no step takes the negotiation back |
| TextRpc.CallNotLost | src/textRPC.c:986-1098 | an unfinished call can move by itself or has exactly one token in the system |
| TextRpc.CallsAddUp | src/textRPC.c:986-1098 | calls that have returned and calls still open are together as many as have been made: every call returns at most once |
| TextRpcProgress.SomewhereUnderWay | src/textRPC.c:1014-1063 | a call not yet answered is a line on its way, a job of the peer or a return on its way |
| TextRpcProgress.CallAdvances | src/textRPC.c:591-859 | a call that has been sent is answered by one particular step that is possible, or comes nearer to its answer by it: no lost wake-up |
| TextRpcProgress.CallCanBeAnswered | src/textRPC.c:591-859 | from every state a finite number of steps answers a call that has been sent |
| TextRpcProgress.CallCanReturn | src/textRPC.c:986-1098 | from every state a finite number of steps makes a call that has its id return, answered, unless its caller was woken too early |
| TextRpcProgress.NewCallCanReturn | src/textRPC.c:986-1098 | the same for a new call of a running endpoint |
| TextRpcProgress.CallNeverSetBack | src/textRPC.c:591-859 | no step of anybody takes a call further from its answer |
| TextRpcProgress.WokenTooEarlyRun | src/textRPC.c:1058-1096 | a run in which a call returns a text that nobody has produced |
| SemQueue.List.Push | src/queue.c:119-175 | linking appends a new entry to the sequence of elements and keeps the links consistent |
| SemQueue.List.DoPop | src/queue.c:206-239 | unlinking removes the oldest element and keeps the links consistent |
| SemQueue.List.Validate | src/queue.c:285-299 | both assertions of `validate` hold and its loop ends |
| SemQueue.DoKeepsInv | src/queue.c:119-283 | list length equals semaphore value plus tokens held by consumers plus producers about to post; elements leave in link order |
| SemQueue.FirstInFirstOut | src/queue.c:119-283 | in every run with any number of producers and consumers no pop finds the list empty, and the popped elements are a prefix of the linked ones |
| SemQueue.ElementCanBePopped | src/queue.c:119-239 | from every state with a thread free to pop, finitely many steps pop any element linked |
| SemQueue.PushReturns | src/queue.c:119-175 | a push appends its element, raises the semaphore by one and returns |
| SemQueue.StepFailsIff | src/queue.c:206-239 | a step fails exactly if it pops from an empty list |
| EventQueue.RingInsert | src/event.c:319-340 | with a free slot, writing at the back appends to the events in the ring |
| EventQueue.RingRemove | src/event.c:556-564 | reading at the front takes the oldest event of the ring |
| EventQueue.RunKeepsInv | src/event.c:302-801 | the invariant over posters, main loop and handlers holds in every run with fewer than 256 outstanding events |
| EventQueue.DispatchedInPostOrder | src/event.c:536-596 | every posted event is dispatched at most once, in post order; what is not dispatched is in the ring; no freed record is used |
| EventQueue.DispatchAdvances | src/event.c:536-596 | a posted event is dispatched, or brought nearer to it, by a step of the main loop or of a poster that is possible |
| EventQueue.DispatchNeverSetBack | src/event.c:302-596 | no step takes a posted event further from its dispatch |
| EventQueue.EventLifeCycle | src/event.c:598-636 | the free function runs once, when all listeners have been served and their threads have returned; the record is freed once, by the poster if blocking and by the handler otherwise; a blocking post returns only after that |
| EventQueue.ListFound | src/event.c:675-707 | a handler goes through the listener list if there is one, as it finds it when it has locked it |
| EventQueue.ListKept | src/event.c:700-776 | no step changes the list a handler goes through or takes back who was served |
| EventQueue.ListenersServed | src/event.c:704-785 | in every run the listeners found are called, or get a thread, one after the other and each once; all of them before the handler leaves its loop or a blocking post returns |
| EventQueue.StepFailsIff | src/event.c:302-801 | a step fails exactly if an assertion does not hold, a freed record is used or an event gets a second handler |
| EventQueue.StepKeepsEventOk | src/event.c:646-801 | a step of the handler uses the record only before it is freed and starts a listener thread only if there is room in the list of threads to join |
| EventQueue.DoKeepsLocks | src/event.c:700-776 | every step keeps that a locked list has a handler in its loop as its holder, and that a handler in its loop holds the lock of its own list |
| EventQueue.OneHandlerPerList | src/event.c:700-776 | in every run at most one handler goes through a listener list at a time, its calls included |
| EventQueue.InsertSafeIffCheckHolds | src/event.c:302-340 | inserting keeps the ring intact if and only if the check for a free slot still holds then |
| EventQueue.CheckCanBeOvertaken | src/event.c:302-340 | a run in which two posters pass the check, no assertion fails and the overrun ring looks empty |
| EventProgress.HandlerWaits | src/event.c:646-801 | a handler that cannot step waits for its own listener threads, for a lock whose holder is in its loop, or for the listener it calls, which waits itself |
| EventProgress.AskForNeeds | src/event.c:420-442 | a listener that adds or removes one waits for the handler that holds the lock of that list, unless it was called by it |
| EventProgress.CircleStays | src/event.c:302-801 | no step of anybody breaks a circle of waits between handlers, listeners, blocking posts and list locks |
| EventProgress.NoNewCircle | src/event.c:302-801 | a circle comes about only by a new blocking post or a new wait of a listener |
| EventProgress.CircleHasCaller | src/event.c:700-776 | in every circle a handler calls a listener that waits, directly or through further events, for the lock that the handler itself holds |
| EventProgress.StepNearsEnd | src/event.c:646-801 | every step of a handler brings it nearer to its end, whatever listeners it finds |
| EventProgress.WorkShrinks | src/event.c:302-801 | every step other than a new post or a new wait leaves less to do for all threads together |
| EventProgress.FindFree | src/event.c:302-801 | from an event not caught in a circle the waits lead to something that can step |
| EventProgress.CanDispatch | src/event.c:536-596 | from every state a finite number of steps dispatches a posted event |
| EventProgress.CanFinish | src/event.c:302-801 | from every state a finite number of steps finishes an event that is not caught in a circle: listeners returned, free function called, blocking post returned |
| EventProgress.FinishIffNoCircle | src/event.c:302-801 | some continuation finishes an event if and only if its waits do not lead into a circle |
| EventProgress.EveryRunSettles | src/event.c:302-801 | without new posts and waits every order of steps comes to rest within a known number of steps, and then exactly the events that were not caught in a circle are finished |
| EventProgress.FinishIfNoCallerWaits | src/event.c:757-761 | while no listener waits that a handler calls itself, every event can be finished, as the comment there advises |
| EventProgress.OwnKindDeadlocks | src/event.c:757-775 | a blocking post for its own source and type, made by a listener that a handler calls, puts that handler's event and the new one into a circle of waits |
| EventProgress.DeadlockedRun | src/event.c:302-801 | a run after which two events are finished in no continuation |
| BinTree.InsertKeepsLinked | src/bt.c:87-145 | hanging a leaf under a father keeps all father, child and direction links consistent with the in-order sequence |
| BinTree.Insert | src/bt.c:125-137 | the in-order values become the old ones with the new one at its place |
| BinTree.InsertKeepsIncreasing | src/bt.c:87-145 | inserting where the comparisons lead keeps the values strictly increasing |
| BinTree.NextGoesLast | src/bt.c:257-288 | a value larger than all others can only go to the end |
| BinTree.Tree.GoFirst | src/bt.c:166-179 | the cursor stands on the first node of the in-order sequence, or on none |
| BinTree.Tree.GoNext | src/bt.c:186-210 | the cursor moves to the next node of the in-order sequence, or past the end; the climb over father pointers terminates |
| BinTree.Tree.NodeFindIsMembership | src/bt.c:229-244 | the recursive search agrees with membership in the subtree |
| BinTree.Tree.Find | src/bt.c:153-159 | the search finds a value equal to the key if and only if there is one |
| BinTree.Tree.Descend | src/bt.c:87-121 | the descent ends on an equal value or on the vacant place of the new one |
| BinTree.Tree.Add | src/bt.c:87-145 | a value not yet there is inserted, one that is there changes nothing, values stay strictly increasing and counted |
| BinTree.Tree.Dup | src/bt.c:257-288 | the copy, made of new nodes, has the same traversal, and the source's cursor is restored |
| BinTree.Tree.CopyInto | src/bt.c:262-284 | the traversal loop adds every value of the source, in order |
| HashTable.OneNode | src/hash.c:358-403 | equivalent elements of a table are one and the same node |
| HashTable.InOwnBucket | src/hash.c:131-145 | an element equivalent to x is in the table if and only if one is in the chain of x |
| HashTable.TraversalMeetsOnce | src/hash.c:452-496 | a cursor traversal meets no element twice |
| HashTable.TraversalMeetsAll | src/hash.c:452-496 | a cursor traversal meets exactly the elements of the table |
| HashTable.CountIsSize | src/hash.c:237-240 | `elementCount`, the total chain length, is the number of elements |
| HashTable.Deletes | src/hash.c:261-356 | unlinking the record found removes exactly the element equivalent to x |
| HashTable.Table.constructor | src/hash.c:172-198 | a new table is empty |
| HashTable.Table.FindInfo | src/hash.c:131-145 | the node of an element equivalent to x, or NULL if and only if there is none |
| HashTable.Table.Find | src/hash.c:242-258 | the stored element equivalent to x, or NULL if there is none |
| HashTable.Table.Add | src/hash.c:358-403 | adds x and counts it if and only if no equivalent element is there |
| HashTable.Unlink | src/hash.c:261-356 | finds the record in the chain, first or later, and unlinks it alone |
| HashTable.Table.Delete | src/hash.c:261-356 | removes the equivalent element, if any, and nothing else; `elementCount` follows and stays non-negative |
| HashTable.DestroyTable | src/hash.c:216-235 | every element is destroyed exactly once, in traversal order |
| HashTable.NextIndex | src/hash.c:633-653 | the cursor moves to the first element of the next non-empty chain, or past the end |
| HashTable.Cursor.constructor | src/hash.c:412-474 | a new cursor stands on the first element, if there is one |
| HashTable.Cursor.GoNext | src/hash.c:476-496 | the cursor moves on by exactly one element of the traversal |
| HashTable.Cursor.PastLastElement | src/hash.c:498-501 | true if and only if all elements have been visited |
| HashTable.Cursor.GetElement | src/hash.c:503-508 | the element at the cursor's position; the assertion holds before the end |
| WordMap.SameNameSameNumber | src/wordMap.c:558-566 | the compare functions, with 32-bit wrap-around, decide equality of names and of numbers |
| WordMap.InsertsAgree | src/wordMap.c:119-139 | the two indexes go on agreeing after an add if and only if name and number are both new or both taken |
| WordMap.AddCanSplitIndexes | src/wordMap.c:119-139 | an entry whose name is taken and whose number is not gets into one index only |
| WordMap.Kinds | include/voxi/util/wordMap.h:31-35 | which of the two indexes each of the three kinds of map has |
| WordMap.WordMap.AgreeingIsInverse | src/wordMap.c:119-182 | indexes that agree are mutually inverse |
| WordMap.WordMap.Add | src/wordMap.c:119-139 | each index takes the entry unless it has an equivalent one; indexes that agreed go on agreeing if and only if name and number were both new or both taken |
| WordMap.WordMap.FindByName | src/wordMap.c:141-165 | the number of the entry with the name; -1 if there is none or the map has no index by name |
| WordMap.WordMap.FindByNumber | src/wordMap.c:167-182 | the name of the entry with the number, or NULL if and only if there is none |
| WordMap.WordMap.DeleteByName | src/wordMap.c:433-459 | the entry leaves both indexes, which go on agreeing and get no new nodes; the assertions on `HashDelete` hold |
| WordMap.WordMap.DeleteByNumber | src/wordMap.c:405-431 | the entry leaves both indexes, which go on agreeing and get no new nodes; the assertions on `HashDelete` hold |
| WordMap.ReadUndoesSave | src/wordMap.c:342-403 | saved lines are read back as name, kind and entries, if and only if there is an entry |
| WordMap.FileReadsBack | src/wordMap.c:193-228 | the same through the file text, for names without newlines |
| WordMap.AllIndexed | src/wordMap.c:385-400 | entries no two of which are equivalent all get into the index |
| WordMap.SaveFrom | src/wordMap.c:212-223 | the cursor loop writes one line for every element of the traversal |
| WordMap.Save | src/wordMap.c:193-228 | the lines saved are the header and the entries of the traversal |
| WordMap.LoadEntries | src/wordMap.c:385-400 | the parsing loop builds exactly the indexes of the entries read |
| WordMap.CreateFromString | src/wordMap.c:342-403 | the map built, in memory of its own, is the one read, for version 1 and 2 and for negative counts; other versions are refused |
| WordMap.Reload | src/wordMap.c:193-403 | saving a non-empty map and creating one from the lines gives the same name, kind and both indexes back |
| IdTable.Unthread | src/idTable.c:105-112 | taking a slot out of the free list, at its head or in the middle, leaves a free list of exactly the other free slots and one more live element |
| IdTable.Rethread | src/idTable.c:158-169 | putting a slot back at the head leaves a free list of exactly the free slots and one live element less |
| IdTable.Extend | src/idTable.c:171-192 | the slots of the doubled table continue the free list; live elements do not move |
| IdTable.SlotsAddUp | src/idTable.c:158-169 | free slots and live elements add up to the table size |
| IdTable.Table.constructor | src/idTable.c:55-90 | a new table has only free slots, all in the free list |
| IdTable.Table.Enlarge | src/idTable.c:171-192 | the size doubles, no live id moves, the new slots come first in the free list |
| IdTable.Table.Add | src/idTable.c:92-115 | an id not in use gets the element, nothing else changes; the array is the old one unless no slot was free |
| IdTable.Table.GetElementAt | src/idTable.c:140-148 | the element with the id |
| IdTable.Table.Remove | src/idTable.c:158-169 | exactly the element with the id is removed; the assertion on the count holds |
| IdTable.Table.FindBefore | src/idTable.c:221-225 | the search over the free list terminates on the predecessor of the slot, or on the last free slot |
| IdTable.Table.EnlargeFor | src/idTable.c:201-202 | the enlarging loop terminates with room for the id |
| IdTable.Table.PutElementAt | src/idTable.c:194-251 | stores if and only if the id is not in use and then changes nothing else; otherwise changes nothing, and is undefined if and only if no slot is free; the array is the old one if the id is within it |
| IdTable.OnlySlotTaken | src/idTable.c:194-251 | a table of one slot on which the undefined outcome is reached |
| IdTable.Table.IsElementAllocated | src/idTable.c:361-367 | true if and only if the id is in use |
| IdTable.Table.CountsElements | src/idTable.c:374-377 | `elementCount` is the number of live elements |
| StrBuf.UnquoteUndoesQuote | src/strbuf.c:182-213 | quoting with three-character escapes loses nothing, whatever is quoted |
| StrBuf.QuotedFrom | src/strbuf.c:182-213 | which characters a quoted text contains, exactly |
| StrBuf.PlainText | src/strbuf.c:233-244 | format text without percent signs stands for itself |
| StrBuf.StringBuffer.Enlarge | src/strbuf.c:284-322 | there is room afterwards, the size at least doubles if it changes, the contents and the stated invariant are kept |
| StrBuf.StringBuffer.AppendBinary | src/strbuf.c:266-282 | the data is appended; the assertion holds |
| StrBuf.StringBuffer.PutQuotedChar | src/strbuf.c:195-211 | one character is copied or quoted and room is left for the rest |
| StrBuf.StringBuffer.PutQuoted | src/strbuf.c:182-213 | the quoted text is appended and `bufferRemaining` never goes below zero |
| StrBuf.StringBuffer.Sprintf | src/strbuf.c:129-254 | appends the expansion of the format; reports an error exactly for an unknown format character |
| Errors.DecodeUndoesMarshal | src/err.c:474-494 | a decoder recovers every chain of errors (type, number, description, reason) from its text |
| Errors.NoApostrophe | src/err.c:474-494 | no raw apostrophe remains inside a quoted description |
| Errors.SpacesQuotedExactly | src/err.c:466-494 | a quoted description has a space if and only if the description has a newline or a carriage return |
| Errors.NewlineEscape | src/err.c:466-494 | the escape of a newline contains a space |
| Errors.HeadFormat | src/err.c:478-481 | the format of `ErrToString` expands to the head of the text |
| Errors.ErrToString | src/err.c:474-494 | the text of the whole chain is appended to the buffer |
| Errors.HumanLength | src/err.c:702-712 | the length computed is the length of the text |
| Errors.WriteHuman | src/err.c:683-699 | the assertion holds at every level and the buffer is filled to its last character |
| Errors.ErrToHumanReadableString | src/err.c:655-681 | the buffer allocated holds exactly the text and its terminator |
| Errors.ErrCopy | src/err.c:413-450 | an equal chain that shares no record with the original |
| Registers.FeedAtOnce | src/checksums.c:34-41 | a register whose steps postpone may take a short input all at once |
| Crc32.ShiftIsLinear | src/checksums.c:37-40 | a step of the register is linear |
| Crc32.ShiftIsInjective | src/checksums.c:37-40 | a step of the register loses nothing |
| Crc32.LookUpIsEightSteps | src/checksums.c:59-60 | one table look-up does what eight steps of the bit-at-a-time register do |
| Crc32.ShortInputsApart | src/checksums.c:47-63 | different inputs of at most 32 bits lead the register to different states |
| Crc32.BurstDetected | src/checksums.c:47-63 | messages that differ only within 32 consecutive bits, at any alignment, have different checksums |
| Crc32.FourBytesDetected | src/checksums.c:47-63 | messages of equal length that differ only within four consecutive bytes have different checksums |
| Crc32.CheckValue | src/checksums.c:26-63 | the checksum of the characters 1 to 9 is 0xCBF43926, the check value of CRC-32 |
| Crc32.GenEntry | src/checksums.c:34-42 | the inner loop computes eight shifts |
| Crc32.GenTable | src/checksums.c:26-44 | every table entry is eight shifts of its index |
| Crc32.FirstEntry | src/checksums.c:52-56 | a complete table is not taken for a missing one |
| Crc32.LoopEndsIff | src/checksums.c:49-60 | the unsigned counter ends the loop if and only if the length is below 2^32 |
| Crc32.Crc32Memory | src/checksums.c:47-63 | the table-driven loop, with the table made on first use, gives the checksum of the bit-at-a-time register on every byte sequence for which it ends |
| Geometry.Folding | src/geometry.c:151-173 | the first quarter is the table; sin(-a) = -sin(a), cos(-a) = cos(a), and the other foldings of the quadrants |
| Geometry.DivTruncates | src/geometry.c:228-283 | the division used truncates toward zero: the rest is smaller than the divisor and has the sign of the dividend |
| Geometry.TransformOutward | src/geometry.c:228-244 | the exact sums of truncated quotients, height and angle, and that 32768 times the result is within 65536 of the rotated coordinates |
| Geometry.TransformInward | src/geometry.c:261-283 | the same for the inward transformation, in terms of the sine and cosine of the frame itself |
| Geometry.OutwardThenInward | src/geometry.c:228-283 | the angle comes back exactly modulo 65536, height exactly, x and z within 6 plus the coordinate times D/2^30 |
| Geometry.RotatedThereAndBack | src/geometry.c:228-283 | the error bound for every sine and cosine within D of the circle |
| Geometry.AtanByQuarter | src/geometry.c:103-146 | each of the eight sections is the mirrored first quarter |
| Geometry.AtanMirrors | src/geometry.c:103-146 | the direction of a vector mirrored at either axis or the diagonal is the mirrored direction |
| StateMachine.KeepsTheChoice | src/stateMachine.c:244-258 | the one field keeps the first state set under Nuance semantics and the last one otherwise |
| StateMachine.ExitIsLast | src/stateMachine.c:260-367 | in a run no callback comes after one that asked for an immediate exit |
| StateMachine.DueOnce | src/stateMachine.c:268-353 | a full visit makes exactly the callbacks that the state has, each once: entry of the class, entry of the state, exit of the state, exit of the class |
| StateMachine.Machine.SetNextState | src/stateMachine.c:244-258 | refused if and only if Nuance semantics and a state is set |
| StateMachine.Machine.CallBack | src/stateMachine.c:404-411 | what a callback asks for, in any number and order, is what the fields hold after it |
| StateMachine.Machine.MakeVisit | src/stateMachine.c:268-353 | the callbacks of a visit come in order, each once, and stop after the first exit request |
| StateMachine.Machine.Run | src/stateMachine.c:260-367 | for every oracle the trace is full visits, each leading to the next state chosen, and the beginning of a last one; the run ends exactly on an exit request or without a next state |

## Left out

- Sockets, TCP, shared libraries, drivers, files, licences and logging: input and output; the RPC model takes a channel of lines in order as given.
- `threadPool_destroy`, `queue_destroy`, `em_shutdown`: they rest on thread cancellation and add no protocol invariant.
- `bt_remove`: it does not unlink the node, so there is no contract to prove.
- `src/memory.c`, `src/bag.c`, `src/vector.c`, `src/circularBuffer.c`, `src/path.c`, `src/bitFippling.c`: easier members that repeat what is covered.
- Failing allocations, semaphores and mutexes: taken to succeed.
- Heap block sizes, terminators and the buffer behind string formatting: contents and counters are modelled, not bytes beyond them. Counters and most ints are unbounded; 32-bit wrap-around is written out where it decides something (hash indexes, call ids, word map numbers, angles, the CRC).
- Spurious wake-ups in the thread pool: lines 353 and 389 of `src/threadpool.c` test with `if`, so the pool relies on there being none.
- `textRPC_client_create`: its unconditional wait for the negotiation is not modelled, nor are pings, closing connections, the size of the call buffer and calls without a text.
- A caller of `textRPC_call` that wakes up too early between lines 750 and 757 of `src/textRPC.c` frees the record on which the condition is then broadcast; storing a return and broadcasting it is one step here.
- An id that an error reply left in the table of outstanding calls and that comes again after 2^32 calls: `HashAdd` refuses it unnoticed at line 1038 of `src/textRPC.c`; the model allocates only ids not in the table.
- TextRpc.CallsGetTheirOwnReply: does not cover the id of a call whose caller woke up too early, if that id comes again after 2^32 calls while the old line or job is under way. It has left the table (line 1092 of `src/textRPC.c`), so that the old return answers the new call; the model does not allocate an id that is under way.
- `connection->lock` is initialised anew in every call (line 1003 of `src/textRPC.c`), so that a concurrent caller blocked on it can miss its wake-up before it gets an id; allocating an id is one step here, without that lock.
- The table of outstanding calls in `src/textRPC.c` is taken to be accessed atomically.
- `em_addListener`, `em_removeListener`: which listeners an event has is chosen freely. A listener that calls them waits for the lock of the list; that they hold it for a moment themselves is part of that step.
- Listeners and free functions return by themselves, apart from the waits inside `em_postEvent`, `em_addListener` and `em_removeListener`.
- Several cursors on a hash table and deletion during a traversal: one cursor, on an unchanged table.
- `src/byteQueue.cpp`: the same algorithm as `src/byteQueueC.c`, modelled once.
- IdTable.Table.PutElementAt: lines 161 and 212 of `src/idTable.c` index by the declared slot type and other lines by the element size; the model has one slot array. The two agree if and only if the element size is at most `sizeof( int )`.
- `idt_save`, `idt_load` and element sizes other than a pointer.
- `wordMap_load`, `wordMap_saveToStringBuffer`: the same lines through other channels.
- Crc32.Crc32Memory: only for lengths below 2^32; for longer ones the loop does not end.
- How floating point fills the tables of `src/geometry.c`; what is needed of them is a hypothesis. Result structs are not aliased.
- `stateMachine_setNextState` refused with NULL as its argument: it would read the name of NULL for its message.
- HashTable.Table.Delete: also stands for `HashDestroy`, which hands the removed data to the destroy function; that call is the value returned.
- WordMap.CreateFromString: `Crash` stands for every text on which the code does not return.
