# Verified models of taosAdapter

taosAdapter puts HTTP and websocket interfaces in front of the TDengine client driver. This project models the parts of
it whose correctness is not visible from one function, in Dafny, and proves what they promise:

- **Protocols with several goroutines.** The connection pool and the smaller handler pool, the TMQ session with its one-cell
  mailbox and C worker, the holders of native results and statements, and the registry of pools by user. Each is a
  transition system whose steps are the atomic sections of the code; the theorems hold for every interleaving of any
  number of goroutines. The mutable objects behind the sections (pool, result holder, registry) are classes, each method
  proved to compute the section.
- **Formats.** The CSV reader, the column blocks with null bitmaps, the strided bind buffers, the stmt2 bind message, JSON
  integers and strings, and UTF-8. Each reader is proved to invert an encoder on all values.
- **Loops that combine them.** REST row streaming under a row limit and with flushes, and CSV upload in batches.

Where the code does not meet the plain form of a property, the exact condition is proved instead:

- a waiter can queue beside an idle connection, by exactly one kind of step, and can be left waiting beside room for a new
  connection, by exactly one other: a caller that closes its connection wakes nobody;
- a waiter that times out after release abandons a filled slot, which a run reaches and which is the only way a connection
  stays open;
- `NewConnectPool` blocks for ever when `InitialCap` exceeds `MaxCap` and no earlier factory call fails;
- a printed CSV table is read back exactly when its rows have one positive width, none is a single missing field and the text
  does not start with a byte order mark, which an unquoted first field can do;
- a column that an upload writes without quotes is read back exactly when it is one SQL word: no comma, bracket, quote or
  null;
- an upload whose first row does not fit behind the statement prefix executes one INSERT without rows;
- the bind buffer holds whatever is copied into it exactly when length times rows fits in 32 bits, and a valid column of
  65,538 rows does not;
- the range checks of a bind message do not cover its records. Which messages make the parser read outside them, and which
  leave it with a structure that points outside, is stated in arithmetic on the words of the message, with an input for each;
- a fetch waits for a handler while it holds the lock of its result. A waiting request can still get a handler unless none is
  idle and each request that has one waits, directly or for the holder lock, for a request that waits for a handler; that
  state is reachable for every number of handlers and never ends;
- `HandlerPool.Get` queues without looking again, so a request can wait beside an idle handler;
- a fetch of a result that belongs to a statement calls the driver on a live native result exactly when the statement is
  still open, which nothing the fetch holds ensures;
- `TMQ.Close` completes in some continuation exactly when no handler waits for the session lock that `Close` holds and the
  worker did not miss the shutdown signal, which is sent without its lock; both failures are reachable and final.

The code and its comments disagree in two places, where the model follows the code: the CSV reader does not turn CR LF
into LF (tools/csv/reader.go:54-56 against 221-225), and it returns the fields read so far together with a parse error
(134-136 against 398-431).

## Files

| file | content |
|---|---|
| `Wrappers.dfy`, `Sequences.dfy`, `Machine.dfy` | options, queues of numbers, runs of a transition system |
| `ConnectPool.dfy`, `ConnectPoolCalls.dfy`, `ConnectPoolObject.dfy`, `HandlerPool.dfy` | connection pool protocol, what each call comes to, the pool object, the handler pool |
| `TmqSession.dfy`, `TmqConsumers.dfy`, `TmqClose.dfy` | TMQ session with consumer thread and mailbox, its consumers, when it closes |
| `TmqService.dfy`, `TmqHandlers.dfy` | which requests reach the worker, and what each leaves when it is through |
| `Holders.dfy`, `HolderCalls.dfy`, `HolderDeadlock.dfy`, `HolderObjects.dfy` | a holder with the handler pool, what each request leaves when it is through, when requests stand still, the holder object |
| `SessionHolders.dfy`, `SessionDeadlock.dfy` | the result and statement holders of a session together |
| `Registry.dfy` | pools by user |
| `Bytes.dfy`, `Scanning.dfy` | bytes, reading a text from its front |
| `Csv.dfy`, `CsvReader.dfy`, `CsvRoundTrip.dfy`, `CsvGrammar.dfy` | CSV, printed tables read back, inputs refused |
| `LittleEndian.dfy`, `Block.dfy`, `BlockConvert.dfy`, `BindBuffers.dfy` | column blocks and bind buffers |
| `Stmt2.dfy`, `Stmt2Message.dfy`, `Stmt2Range.dfy` | stmt2 bind message, and what its range checks leave open |
| `JsonNumbers.dfy`, `Utf8.dfy`, `JsonStrings.dfy`, `JsonStream.dfy`, `JsonBlock.dfy` | JSON stream, and text cells written to it |
| `RestStream.dfy`, `RestRead.dfy` | REST streaming, and its data array read back |
| `Upload.dfy`, `UploadTuples.dfy` | CSV upload and its row tuples |
| `Spelling.dfy` | the marks and words of the formats |

Conventions: driver answers, network writes and executions are nondeterministic values; memory is a sequence of bytes; bit
masks of disjoint bits are sums in `Utf8` and bit-vector operations in `Block`; integer widths are written out wherever
they matter. `dafny verify dfyconfig.toml` checks the project.

## Model

| member | source | states |
|---|---|---|
| `ConnectPool.NextKeepsInv` | tools/connectpool/pool.go:99-251 | every step of every goroutine (fast receive, locked section, enqueue, delivery, timeout, Put, Close, Release, drain) keeps the pool invariant |
| `ConnectPool.EveryConnectionInOnePlace` | tools/connectpool/pool.go:99-251 | in every reachable state each connection made is in exactly one of idle channel, caller, waiter slot (abandoned ones included) and closed list; `openingConns` is the number not closed, at most `maxActive`; `close` is nil only when that number is 0 |
| `ConnectPool.WaitersServedInOrder` | tools/connectpool/pool.go:117-200 | connections go to waiters in queue order, passing over only timed-out ones; a waiter that returns ErrTimeout was never given one; the queue respects a positive `maxWait` |
| `ConnectPool.SendsNeverBlock` | tools/connectpool/pool.go:183-251 | a Put of a held connection never blocks under the mutex, never sends on a closed channel and never finds the idle channel full, so the fallback close is dead; queued channels are open and empty |
| `ConnectPool.ClosedExactlyOnceIff` | tools/connectpool/pool.go:131-251 | once a released pool has come to rest, every connection was closed exactly once if and only if no waiter took the timeout return after release with a filled slot |
| `ConnectPool.AbandonedRun` | tools/connectpool/pool.go:131-157 | a slot is abandoned in a run exactly when some step of it is a timeout after release on a filled slot |
| `ConnectPool.AbandonedSlotIsReachable` | tools/connectpool/pool.go:131-157 | a run from a fresh pool of one connection that ends released and at rest, with that connection counted and never closed |
| `ConnectPool.NoWaiterBesideIdleIff` | tools/connectpool/pool.go:101-130 | a step breaks "no waiter queues beside an idle connection" if and only if it is a locked section of an unreleased pool that has `maxActive` connections open, room in its queue and a connection idle |
| `ConnectPool.WaiterBesideIdleIsReachable` | tools/connectpool/pool.go:101-130 | a run from a fresh pool that ends with a waiter queued beside an idle connection |
| `ConnectPoolCalls.LockedAnswersIff` | tools/connectpool/pool.go:112-171 | in every reachable state the locked part of GetWithContext gives ErrClosed, ErrMaxWait, the factory error, a place in the queue or a new connection, each if and only if its own condition on `released`, the number of connections made and not closed, the queue and the factory holds |
| `ConnectPoolCalls.RoomMeansNewConnection` | tools/connectpool/pool.go:117-171 | with fewer than `maxActive` connections open and a working factory the caller ends with a new connection that nobody else has |
| `ConnectPoolCalls.QueuesOnlyWhenSaturated` | tools/connectpool/pool.go:117-130 | over all runs, a step makes a call wait only when `maxActive` connections are open, the pool is not released and the queue has room |
| `ConnectPoolCalls.QueuesLast` | tools/connectpool/pool.go:122-125 | a call that waits is the last in the queue, with an empty channel of its own, and nothing else changes |
| `ConnectPoolCalls.IdleIsTakenIff` | tools/connectpool/pool.go:99-111 | before that, a call takes the connection idle longest exactly when there is one, and is refused exactly when there is none and the pool was released |
| `ConnectPoolCalls.EveryCallIsAccounted` | tools/connectpool/pool.go:99-173 | in every run the calls begun are those answered, those queued and those still before one of the two tests |
| `ConnectPoolCalls.QueuedMeansSaturatedIff` | tools/connectpool/pool.go:213-225 | a step leaves a call waiting beside room for a connection if and only if it is a Close of a connection while somebody is queued |
| `ConnectPoolCalls.WaiterBesideRoomIsReachable` | tools/connectpool/pool.go:213-225 | a run from a fresh pool that ends with a call waiting and no connection open |
| `ConnectPoolCalls.PutGoesIff` | tools/connectpool/pool.go:176-211 | in every reachable state Put sends a connection to the request queued longest, to the idle ones when none is queued, or to be closed when the pool is released |
| `ConnectPoolCalls.CloseGoesIff` | tools/connectpool/pool.go:213-225 | a connection its caller closes is closed at once and counted |
| `ConnectPoolCalls.PutAloneRuns` | tools/connectpool/pool.go:176-211 | the Put of the object is a run of the sections of Put; in a released pool the one that closes the last connection drops the close function, and no other |
| `ConnectPool.DrainRuns` | tools/connectpool/pool.go:241-251 | the draining steps of the machine reach the state that the draining loop computes |
| `ConnectPoolObject.Instance.New` | tools/connectpool/pool.go:44-77 | comes back with `InitialCap` idle connections, or with an error and everything made closed; blocks for ever exactly when `InitialCap` exceeds the capacity and the factory does not fail first |
| `ConnectPoolObject.Instance.GetLocked` | tools/connectpool/pool.go:112-171 | the locked part of GetWithContext: ErrClosed exactly when released; ErrMaxWait or a place in the queue exactly when `maxActive` connections are open, by the queue limit; else the factory error or a new connection |
| `ConnectPoolObject.Instance.TimeoutLocked` | tools/connectpool/pool.go:131-157 | the locked part of the timeout branch removes exactly this request from the queue, or finds it served |
| `ConnectPoolObject.Instance.Put` | tools/connectpool/pool.go:176-211 | Put hands the connection to the first waiter, the idle channel or the close function, each under its condition; a nil connection changes nothing; the close function goes with the last connection of a released pool |
| `ConnectPoolObject.Instance.Close` | tools/connectpool/pool.go:213-225 | Close closes one connection and counts it; a nil connection is rejected and changes nothing |
| `ConnectPoolObject.Instance.Release` | tools/connectpool/pool.go:227-239 | the first Release shuts every queued channel and drains every idle connection; later ones change nothing |
| `ConnectPoolObject.Instance.DoRelease` | tools/connectpool/pool.go:241-251 | every idle connection is closed and counted, in channel order |
| `HandlerPool.HandlersConserved` | db/async/handlerpool.go:57-103 | idle + held + delivered handlers are `count` in every interleaving, each handler in one place, and giving one back never blocks |
| `HandlerPool.HandlersGoInOrder` | db/async/handlerpool.go:73-103 | in every interleaving Get takes the handler idle longest exactly when one is idle, a request that finds none is last in the queue, and a handler given back goes to the first request not yet served, or becomes idle |
| `TmqSession.NextKeepsInv` | controller/ws/tmq/tmq.go:55-1832 | every step of handlers, `Close` and the worker keeps the lock, mailbox and message invariants |
| `TmqSession.MessagesFreedOnce` | controller/ws/tmq/tmq.go:713-1339 | in every run each polled message is freed at most once, and exactly once when `Close` has completed; message ids are 1, 2, 3, ... |
| `TmqSession.OnlyTheLatestIsTouched` | controller/ws/tmq/tmq.go:713-1004 | no driver call touches a freed message; the worker and the readers touch only the current one, poll by itself reads, stores and frees only one that it polled and that is not current yet; a fetch is for the id handed out last |
| `TmqSession.FreedIsTouched` | controller/ws/tmq/tmq.go:713-810 | every step frees nothing or exactly the message it is said to touch |
| `TmqSession.MailboxLosesNothing` | db/asynctmq/tmq.go:183-343 | whenever a submitter holding `asyncLocker` can enter the thread lock the cell is empty and the worker alive; the worker never sleeps on a task; tasks run once, in order, and are freed once; callbacks never block; a caller receives the answer to its own task; nothing is submitted after destruction |
| `TmqSession.NoLockLeaks` | controller/ws/tmq/tmq.go:1582-1832 | each lock is held exactly by the live goroutine inside its section, so the return of wrapperFreeResult that keeps `asyncLocker` is unreachable |
| `TmqSession.CloseNeverUnsubscribes` | controller/ws/tmq/tmq.go:1262-1322 | the closing goroutine submits only the free of the message and the close of the consumer, because its unsubscribe call finds `closed` already set |
| `TmqService.EveryFetchHasData` | controller/ws/tmq/tmq.go:820-842 | in every run the current message has a type that poll keeps, the record carries its type, and each FETCH_RAW_BLOCK task the worker runs names the current message, of a type that has data |
| `TmqService.RequestIsServed` | controller/ws/tmq/tmq.go:713-1121 | from every reachable state of an open session a request whose first lock is free has its first task run by the worker in some continuation, on the consumer or message the session has; for a fetch: the id handed out last, and a type with data |
| `TmqService.CanFetchIff` | controller/ws/tmq/tmq.go:1362-1364 | blocks of the current message can be fetched in some continuation if and only if its type has data |
| `TmqService.RequestIsRefused` | controller/ws/tmq/tmq.go:713-1121 | any other request comes to an end without a task and leaves the session as it was, no lock held |
| `TmqHandlers.PollDoes` | controller/ws/tmq/tmq.go:713-797 | from every reachable open session whose locks are free, a run of poll: no message changes nothing; a message of a type it does not keep is freed; any other becomes current with its type and the next id, and the one before it is freed; one task more for the commit, if it comes first |
| `TmqHandlers.FetchDoes` | controller/ws/tmq/tmq.go:810-893 | likewise a fetch of the current message: one task and a read, and the session is as before |
| `TmqHandlers.SimpleDoes` | controller/ws/tmq/tmq.go:663-691 | likewise commit and its like: one task, and the session is as before |
| `TmqHandlers.SubscribeDoes` | controller/ws/tmq/tmq.go:413-626 | likewise the first subscribe: a new consumer is subscribed and becomes the consumer of the session |
| `TmqHandlers.ResubscribeDoes` | controller/ws/tmq/tmq.go:413-626 | likewise a subscribe after an unsubscribe: the session is subscribed again exactly when the driver agrees |
| `TmqHandlers.UnsubscribeDoes` | controller/ws/tmq/tmq.go:1139-1171 | likewise unsubscribe: the driver is told, the current message is freed and the session knows that it is unsubscribed |
| `TmqConsumers.NextKeepsConsumers` | controller/ws/tmq/tmq.go:533-660 | every step keeps the account of consumers: closed once, the consumer of the session, or with the handler that holds the session lock |
| `TmqConsumers.ConsumersClosedOnce` | controller/ws/tmq/tmq.go:533-660 | in every run each consumer is closed at most once, and exactly once when `Close` has completed |
| `TmqConsumers.ConsumerCallsAreLive` | controller/ws/tmq/tmq.go:1487-1832 | a driver call that names a consumer, in a task or directly by listTopics, names one that exists and is not closed |
| `TmqClose.DeadlockIsReachable` | controller/ws/tmq/tmq.go:1262-1290 | a run in which `Close` waits, holding the session lock, for a handler that waits for that lock |
| `TmqClose.DeadlockedForEver` | controller/ws/tmq/tmq.go:1262-1290 | from such a state no continuation of any length completes `Close` |
| `TmqClose.CloseCompletesIff` | controller/ws/tmq/tmq.go:1262-1322 | a `Close` that has set `closed` completes in some continuation if and only if no handler waits for the session lock and the shutdown signal is not lost; before the signal only the first can fail, after it only the second |
| `TmqClose.HandlersDecidedWhenClosedIsSet` | controller/ws/tmq/tmq.go:1262-1270 | as far as handlers go it is decided at the step that sets `closed`: it can still complete exactly when none waits then, and none starts to wait later |
| `TmqClose.DecidedAtShutdown` | db/asynctmq/tmq.go:320-324 | after the shutdown signal it can complete if and only if the worker was not between its test and its wait when the signal was sent |
| `TmqClose.LostSignalIsReachable` | db/asynctmq/tmq.go:186-190 | a run, with no request at all, in which the worker misses the shutdown signal |
| `TmqClose.LostForEver` | db/asynctmq/tmq.go:320-324 | from such a state no continuation of any length completes `Close` |
| `Holders.NextKeepsInv` | controller/ws/ws/query_result.go:32-256 | every step of result and statement handlers keeps the holder invariant |
| `Holders.ReleasedExactlyOnce` | controller/ws/ws/query_result.go:32-256 | over any interleaving an owned native object is released at most once and exactly when its pointer was dropped, a statement-owned result never, and the list holds exactly the live objects |
| `Holders.DriverCallsSeeLiveObjects` | controller/ws/ws/fetch.go:17-214 | every driver call made under an item lock sees an object that is listed and that its holder has not released |
| `Holders.HolderRefinesIdSet` | controller/ws/ws/query_result.go:61-127 | the holder is a finite set of ids: adding inserts an id above all earlier ones, freeing removes the id that the step frees next, nothing else changes it |
| `Holders.FreesWhatWasAsked` | controller/ws/ws/query_result.go:89-127 | a request to free an id takes the holder lock to free exactly that id, from a list that has it |
| `Holders.HolderLockComesFirst` | controller/ws/ws/query_result.go:89-127 | no request asks for the lock of a holder while it holds the lock of an item of that holder |
| `HolderCalls.GetDoes` | controller/ws/ws/query_result.go:72-87 | from every reachable state in which the locks it takes are free, a request for an id that was added and not freed, of the right kind, calls the driver on exactly that object and leaves the holder as it was |
| `HolderCalls.GetFindsNothing` | controller/ws/ws/query_result.go:72-87 | a request for any other id, or of the wrong kind, finds nothing and changes nothing |
| `HolderCalls.FreeDoes` | controller/ws/ws/query_result.go:89-106 | freeing by id: exactly that object leaves the list, released if the holder owns it; any other id changes nothing |
| `HolderCalls.AddDoes` | controller/ws/ws/query_result.go:61-70 | adding: the object can be used by its new id from then on, with its own kind and no other |
| `HolderCalls.QueryDoes` | controller/ws/ws/query.go:178-240 | a query with rows: its result is listed and its handler back |
| `HolderCalls.FetchDoes` | controller/ws/ws/fetch.go:17-113 | a fetch: the driver is called on the result asked for, with a handler, and all is as before |
| `HolderCalls.LastFetchDoes` | controller/ws/ws/fetch.go:69-94 | a fetch that finds the end frees the result and gives its handler back |
| `HolderCalls.FreeAllDoes` | controller/ws/ws/query_result.go:108-127 | freeing everything: no object is left, and those the holder owns were released in the order of the list |
| `SessionHolders.NextKeepsInv` | controller/ws/ws/stmt.go:545-572 | every step of both holders of a session keeps their invariants, the links between results and statements, and the account of ended native results |
| `SessionHolders.DriverCallSeesNativeIff` | controller/ws/ws/fetch.go:17-214 | a driver call on a listed result sees a native result that was not ended if and only if the holder owns the result or its statement is still open |
| `SessionHolders.StmtCallsSeeOpenStatements` | controller/ws/ws/stmt.go:75-93 | a driver call on a statement, the use of its result included, sees an open statement |
| `SessionHolders.EndedFetchIsReachable` | controller/ws/ws/query_result.go:211-235 | a run in which a fetch calls the driver on a result whose statement was closed before |
| `SessionHolders.CloseOvertakesFetch` | controller/ws/ws/query_result.go:140-156 | a run in which a statement is closed while a fetch of its result is under way |
| `SessionHolders.LocksAreOrdered` | controller/ws/ws/stmt2.go:212-225 | whoever waits for a lock holds only locks before it in the order statement list, statement, result list, result |
| `SessionHolders.UseHoldsStatement` | controller/ws/ws/stmt.go:547-572 | the use of a result waits for the result list while it holds its statement |
| `HolderDeadlock.HandlerComesIff` | controller/ws/ws/fetch.go:51-113 | a request that waits for a handler gets one in some continuation if and only if a handler is idle or some request that has one does not wait, directly or for the holder lock, for a request that waits for a handler |
| `HolderDeadlock.DoomedForEver` | controller/ws/ws/fetch.go:151-214 | from such a state no continuation, with whatever new requests, gives anybody a handler |
| `HolderDeadlock.DoomIsReachable` | controller/ws/ws/fetch.go:51-113 | for every number of handlers, a run into such a state |
| `HolderDeadlock.NobodyMovesIff` | db/async/handlerpool.go:73-103 | at the result holder, no request can take its next step if and only if each waits for a handler, for an item whose owner does, or for the holder lock whose owner waits for such an item; then handlers are idle or the state is as above |
| `HolderDeadlock.IdleStandstillIsReachable` | db/async/handlerpool.go:73-87 | a run that ends with the only request queued beside the only handler, idle |
| `SessionDeadlock.HandlerComesIff` | controller/ws/ws/fetch.go:51-113 | the same condition decides in a session with both holders, where statements add results |
| `SessionDeadlock.DoomIsReachable` | controller/ws/ws/fetch.go:51-113 | a session reaches the state without a way out for every number of handlers |
| `SessionDeadlock.NobodyMovesIff` | controller/ws/ws/stmt.go:545-572 | no request of a session can take its next step if and only if those at the result holder stand as above and each at the statement holder waits for the result holder with its statement locked, for a statement locked so, or for the list whose owner waits for one |
| `HolderObjects.QueryResult.Free` | controller/ws/ws/query_result.go:32-49 | free hands the driver the pointer of a result that no statement owns, and nothing of any other; it leaves no pointers |
| `HolderObjects.QueryResultHolder.Add` | controller/ws/ws/query_result.go:61-70 | the new result is last and gets an id above every id given before |
| `HolderObjects.QueryResultHolder.Get` | controller/ws/ws/query_result.go:72-87 | gives the listed result with this id, or nothing exactly when there is none |
| `HolderObjects.QueryResultHolder.FreeResultByID` | controller/ws/ws/query_result.go:89-106 | exactly the result with this id leaves the list, and its pointer goes to the driver unless a statement owns it |
| `HolderObjects.QueryResultHolder.FreeAll` | controller/ws/ws/query_result.go:108-127 | the list becomes empty and the pointers of all results that no statement owns go to the driver, front to back |
| `Registry.EntriesAreTheLivePools` | db/commonpool/pool.go:223-345 | whenever the lock is free the entries are exactly the built and unreleased pools, at most one for each user; every answer has the requested user and password |
| `Registry.ReplacedPoolsAreReleased` | db/commonpool/pool.go:322-345 | a pool whose entry passed to another has been released |
| `Registry.EntriesLeaveOnlyByRelease` | db/commonpool/pool.go:122-233 | any step removes only the entry of a pool it releases, so a late signal removes no successor; a released pool never comes back |
| `Registry.LivePoolIsReused` | db/commonpool/pool.go:322-331 | in every reachable state a request with the user and password of a live pool is answered with that pool, by the lookup under the lock and by the one before it, and changes nothing |
| `Registry.FastGetIff` | db/commonpool/pool.go:264-271 | the lookup without the lock answers if and only if a live pool has the user and password |
| `Registry.OtherwiseOneIsBuilt` | db/commonpool/pool.go:322-345 | any other request changes nothing when it cannot connect; else it is answered with a new live pool, and of the pools before exactly that of the same user is released |
| `Registry.ReleasedIff` | db/commonpool/pool.go:122-345 | over any run the released pools are exactly those that got a signal and those whose user was requested, while they were the entry, with another password that connects |
| `Registry.NextKeepsInv` | db/commonpool/pool.go:122-345 | every step of lookups, replacements, stores and signals keeps the registry invariant |
| `RegistryObjects.Instance.Release` | db/commonpool/pool.go:223-233 | the pool is released and only its own entry leaves; a second call changes nothing |
| `RegistryObjects.Instance.GetConnectorPoolSafe` | db/commonpool/pool.go:322-345 | an entry with the right password is the answer and nothing changes; else a new pool becomes the entry, exactly the one it replaces is released, and there is no answer exactly when the connect fails |
| `Csv.LengthNL` | tools/csv/reader.go:236-244 | the ending is the whole line exactly for an empty line, LF and CR LF |
| `CsvReader.Reader.ReadLine` | tools/csv/reader.go:201-233 | one line with its ending, a carriage return before the end of input dropped, a byte order mark dropped from the first line only |
| `CsvReader.CutFields` | tools/csv/reader.go:398-415 | cutting the record buffer at the field indexes gives back the fields, nil where the index is -1, every slice in bounds |
| `CsvReader.Reader.ReadQuotedField` | tools/csv/reader.go:328-391 | the loop over a quoted field appends the text the specification reads, and stops where it stops |
| `CsvReader.Reader.ReadAllFields` | tools/csv/reader.go:280-415 | the fields of a record, and the error that stopped it, as the specification reads them |
| `CsvReader.Reader.ReadRecord` | tools/csv/reader.go:252-431 | skips blank lines, reads a record, checks or sets the expected number of fields |
| `CsvReader.Reader.ReadAll` | tools/csv/reader.go:184-195 | every record up to the end of input, or the first error |
| `CsvRoundTrip.RoundTripIff` | tools/csv/reader.go:201-431 | however fields are quoted and lines ended (RFC 4180, section 2), the printed text is read back exactly when all rows have one positive width, none is a single missing field and the text does not start with a byte order mark |
| `CsvGrammar.RefusedIff` | tools/csv/reader.go:280-391 | a record is refused for a bare quote or a bad quote exactly when the grammar of RFC 4180, section 2, read byte by byte, refuses it for the same reason |
| `CsvGrammar.ReadsTheGrammar` | tools/csv/reader.go:280-415 | on every input the reader gives the fields that the grammar gives, byte by byte, up to the first it refuses, and goes on behind the record |
| `CsvGrammar.RecordRefusedIff` | tools/csv/reader.go:252-431 | on any input after its first line, the next record: none exactly when only blank lines are left, else the error of the grammar, or of the number of fields |
| `CsvRoundTrip.MarkIsDropped` | tools/csv/reader.go:201-233 | on any input the mark at its start is dropped and changes nothing else |
| `CsvRoundTrip.MarkedTableReads` | tools/csv/reader.go:201-431 | a readable table whose text starts with the mark is read as the table without it, which is another one |
| `CsvRoundTrip.MarkIsLost` | tools/csv/reader.go:226-231 | one unquoted field of a mark and a letter is read as the letter |
| `CsvRoundTrip.ReturnedIffReadable` | tools/csv/reader.go:184-431 | a list of records is the result of reading some input if and only if it has that form |
| `CsvRoundTrip.RereadIsSame` | tools/csv/reader.go:184-431 | printing what was read and reading it again gives the same records, nil and empty string kept apart |
| `CsvRoundTrip.PrintedRowsRead` | tools/csv/reader.go:252-431 | from the second line on, printed rows are read back one after another by a reader that expects their width |
| `CsvRoundTrip.ReadRecordsAreReadable` | tools/csv/reader.go:252-431 | whatever the input, records read without error have one positive width and none is a single nil |
| `Block.NullExactlyWhereBitIsSet` | tools/ctools/block.go:22-42 | the bit test on byte row/8, bit 7-(row mod 8), is true exactly for null rows |
| `Block.RawConvertReads` | controller/ws/stmt/convert.go:285-337 | a fixed-width value of any type, signed or not, is read back from its little-endian cell |
| `Block.EncodedIsLaidOut` | driver/common/parser/block.go:73-79 | an encoded block has its lengths and columns at the offsets the readers compute, whatever its description bytes |
| `BlockConvert.GetBytesFromPointer` | controller/ws/stmt/convert.go:388-403 | the bytes of a variable-width cell and their number, or nothing for offset -1 |
| `BlockConvert.RawConvertNchar` | controller/ws/stmt/convert.go:363-378 | the runes of an NCHAR cell and four times their number; the 16-bit index product does not wrap |
| `BlockConvert.ConvertVarColumn` | controller/ws/stmt/convert.go:224-235 | a variable-width column is read back, and the maximum length becomes that of its longest value |
| `BlockConvert.ConvertFixedColumn` | controller/ws/stmt/convert.go:236-245 | a fixed-width column is read back, nulls exactly where they were |
| `BlockConvert.LaidOutWalk` | controller/ws/stmt/convert.go:214-250 | the column cursors of a laid-out block are the prefix sums of header and data lengths |
| `BlockConvert.BlockConvert` | controller/ws/stmt/convert.go:214-250 | decoding a laid-out block gives back its columns and raises the maximum lengths as needed |
| `BlockConvert.RestCursors` | controller/rest/restful.go:411-424 | the REST walk visits the same cursors, where the same cells can be read |
| `BlockConvert.RoundTrip` | controller/ws/stmt/convert.go:214-250 | decoding the encoding of any table gives the table |
| `BindBuffers.DecodedValuesAreBounded` | controller/ws/stmt/convert.go:228-235 | the maximum length that decoding leaves bounds the bytes of every value, UTF-8 of NCHAR values included |
| `BindBuffers.SlotsFitIff` | driver/wrapper/stmt.go:559-630 | every byte of every slot lies inside the allocation if and only if the product of length and rows fits in 32 bits |
| `BindBuffers.WritesFitIff` | driver/wrapper/stmt.go:559-630 | whatever the values, every copied byte lies inside the allocation if and only if the product fits in 32 bits |
| `BindBuffers.LongColumnDoesNotFit` | driver/wrapper/stmt.go:559-575 | a valid column of nulls and one value of 65,535 bytes, with 65,538 rows or more, has a copy that does not fit |
| `BindBuffers.BindColumn` | driver/wrapper/stmt.go:559-630 | when every copied byte fits, each row is read back from its slot with its stored length, or is marked null |
| `BindBuffers.OtherSlotKept` | driver/wrapper/stmt.go:568-570 | a write to the slot of one row never changes the value of another, before or behind it |
| `Stmt2.ReadOne` | driver/wrapper/stmt2binary.go:18-57 | one bind record: its structure and the next cursor, a length error, or a read outside the message |
| `Stmt2.ReadBindEncoded` | driver/wrapper/stmt2binary.go:18-57 | an encoded record is parsed as its bind and the cursor advances by its length |
| `Stmt2.BindsTile` | driver/wrapper/stmt2binary.go:52-57 | on success the records tile the section and each declared length is the cursor advance |
| `Stmt2.StopsAtRecord` | driver/wrapper/stmt2binary.go:10-61 | a section is refused, for a length error or a read outside the message, exactly when one of its records is, behind records that are read |
| `Stmt2.ReadBindsEncoded` | driver/wrapper/stmt2binary.go:10-61 | every record of an encoded section is read back |
| `Stmt2.GenerateBinds` | driver/wrapper/stmt2binary.go:10-61 | the nested loops write the structures of the consecutive records, point each table at its first field and touch nothing before them |
| `Stmt2Message.CheckLengths` | driver/wrapper/stmt2binary.go:73-142 | the range check of a section, in 32-bit arithmetic |
| `Stmt2Message.CheckIff` | driver/wrapper/stmt2binary.go:73-142 | without wrap-around a section passes if and only if its lengths are positive and it ends inside the message |
| `Stmt2Message.NamePointers` | driver/wrapper/stmt2binary.go:146-158 | each table name starts behind the lengths and the names before it |
| `Stmt2Message.NumbersFit` | driver/wrapper/stmt2binary.go:162-175 | the structure counts of a message that fits in 32 bits do not wrap |
| `Stmt2Message.MessagePasses` | driver/wrapper/stmt2binary.go:73-142 | every valid message passes all range checks |
| `Stmt2Message.BindBinary` | driver/wrapper/stmt2binary.go:64-272 | any message that passes the checks is answered with the names its lengths spell out and the structures of its consecutive records, tags before columns, or with what stopped the parser; an encoded message is answered with every name, tag and column where it stands |
| `Stmt2Range.AcceptedIff` | driver/wrapper/stmt2binary.go:64-142 | on any data a message passes the checks if and only if it says its own length and each of names, tags and columns is absent or has its lengths inside, none 0, and ends inside in 32-bit arithmetic, tags and columns with fields |
| `Stmt2Range.LeavesMessageIff` | driver/wrapper/stmt2binary.go:10-61 | a message that passed the checks makes the parser read outside it exactly when, behind records as long as they say, the words, the flag or the buffer length of some record lie outside or four times its count is no `int` |
| `Stmt2Range.RecordIff` | driver/wrapper/stmt2binary.go:18-57 | each outcome for one record as arithmetic on its words |
| `Stmt2Range.CheckedMessageLeaves` | driver/wrapper/stmt2binary.go:73-142 | a message of 33 bytes that passes every check and holds no whole record |
| `Stmt2Range.StructuresInsideIff` | driver/wrapper/stmt2binary.go:10-61 | every structure of an answered message points inside it if and only if every parsed record, by its start and declared length, ends inside it |
| `Stmt2Range.OnlyTheLastLeaves` | driver/wrapper/stmt2binary.go:52-57 | of the records of a section that was parsed only the last can end outside |
| `Stmt2Range.LongBufferLeaves` | driver/wrapper/stmt2binary.go:44-57 | a message of 50 bytes that is answered, with a buffer of 100 bytes behind its end |
| `Stmt2Message.EncodedHolds` | driver/common/stmt/stmt2.go:174-216 | an encoded message holds its header and its sections where the header says |
| `JsonNumbers.NumeralIsUnique` | tools/jsonbuilder/stream_int.go:17-30 | digits without leading zeros are the decimal numeral of a number if and only if they denote it |
| `JsonNumbers.Thousands` | tools/jsonbuilder/stream_int.go:50-60 | the numeral of a number above 999 is that of its thousands and three more digits |
| `JsonNumbers.FirstBufIsDecimal` | tools/jsonbuilder/stream_int.go:17-26 | the packed entry of a number below 1000 is written as its numeral without leading zeros |
| `JsonStream.InitDigits` | tools/jsonbuilder/stream_int.go:5-15 | the table holds for each number its three digits and the count of leading zeros |
| `JsonStream.SignedDecimalIsUnique` | tools/jsonbuilder/stream_int.go:38-179 | the text of a signed number is a minus sign for a negative one and the one numeral of its absolute value |
| `JsonStream.Stream.WriteUint8` | tools/jsonbuilder/stream_int.go:33-35 | appends the numeral of the argument |
| `JsonStream.Stream.WriteUint16` | tools/jsonbuilder/stream_int.go:50-59 | appends the numeral of the argument |
| `JsonStream.Stream.WriteUint32` | tools/jsonbuilder/stream_int.go:74-98 | appends the numeral of the argument |
| `JsonStream.Stream.WriteUint64` | tools/jsonbuilder/stream_int.go:113-167 | appends the numeral of the argument |
| `JsonStream.Stream.WriteInt8` | tools/jsonbuilder/stream_int.go:38-47 | appends the signed numeral, the minimum included |
| `JsonStream.Stream.WriteInt16` | tools/jsonbuilder/stream_int.go:62-71 | appends the signed numeral, the minimum included |
| `JsonStream.Stream.WriteInt32` | tools/jsonbuilder/stream_int.go:101-110 | appends the signed numeral, the minimum included |
| `JsonStream.Stream.WriteInt64` | tools/jsonbuilder/stream_int.go:170-179 | appends the signed numeral, the minimum included |
| `JsonStream.NegatedUnsigned` | tools/jsonbuilder/stream_int.go:38-47 | negating in two's complement and reading unsigned gives the absolute value, the minimum included |
| `JsonStream.Stream.WriteString` | tools/jsonbuilder/stream_str.go:115-133 | appends a quote, every byte escaped and a quote, wherever the fast path gives way |
| `JsonStream.Stream.WriteStringSlowPath` | tools/jsonbuilder/stream_str.go:135-175 | the rest of the string is escaped byte by byte, safe runs copied whole |
| `JsonStream.Stream.WriteStringByte` | tools/jsonbuilder/stream_str.go:178-208 | appends the escape of one byte |
| `JsonStrings.StringRoundTrip` | tools/jsonbuilder/stream_str.go:115-208 | a reader after RFC 8259, section 7, which refuses raw control bytes and bare quotes, reads the written string back, whatever follows it |
| `JsonStream.Stream.WriteRune` | tools/jsonbuilder/stream_rune.go:28-53 | appends the UTF-8 of the rune |
| `JsonStream.Stream.WriteRuneString` | tools/jsonbuilder/stream_rune.go:55-80 | appends the escape of each byte of the UTF-8 of the rune |
| `Utf8.DecodeEncode` | tools/jsonbuilder/stream_rune.go:28-53 | decoding (RFC 3629, section 3) gives the rune, or U+FFFD for surrogates, negative and too large values, whatever follows |
| `Utf8.EncodeDecode` | tools/jsonbuilder/stream_rune.go:28-53 | bytes that decode are exactly the bytes written for what they decode to |
| `JsonStrings.RunesRoundTrip` | tools/ctools/block.go:152-166 | an NCHAR value written rune by rune is read back, as a string and then as UTF-8 |
| `JsonBlock.WriteRawJsonNchar` | tools/ctools/block.go:152-166 | a null NCHAR cell of a block is written as null, any other as the quoted UTF-8 of its runes |
| `JsonBlock.WriteRawJsonBinary` | tools/ctools/block.go:108-123 | a null BINARY cell of a block is written as null, any other as the quoted bytes |
| `JsonBlock.CellTextReads` | tools/ctools/block.go:108-166 | the text of a cell that is not null is read back as its bytes, and is never null |
| `JsonStream.Stream.Flush` | tools/jsonbuilder/stream.go:109-125 | a flush that succeeds sends the whole buffer once and empties it; one that fails keeps the buffer and stays failed |
| `RestStream.WriteRow` | controller/rest/restful.go:427-450 | a row text, or a prefix of it when a flush fails; no more than 16353 bytes stay buffered |
| `RestStream.WriteBlock` | controller/rest/restful.go:426-459 | the rows of a block, all without a limit and else up to the limit in total, a comma between any two and none behind the last |
| `RestStream.StreamRows` | controller/rest/restful.go:388-462 | however rows are split into blocks and wherever flushes fall, the data array is the comma join of the first rows; their number is that of all rows, or the limit if it is smaller and not negative |
| `RestStream.Respond` | controller/rest/restful.go:380-475 | a response sent completely is the data array of all rows or as many as the limit allows, their number and the trailer; one that failed is a prefix of it |
| `RestStream.RowsInOrder` | controller/rest/restful.go:390-424 | the rows to be sent are those of the blocks before the first answer without rows, each in its place, and no others |
| `RestStream.TryFlush` | controller/rest/restful.go:478-493 | what is buffered is sent exactly when it is more than 16352 bytes, and nothing that was written changes |
| `Spelling.Words` | controller/rest/restful.go:259-261 | the bytes between the parts of a response spell `],"data":[`, `],"rows":` and `,"timing":` |
| `RestRead.ResponseReads` | controller/rest/restful.go:380-475 | a reader of JSON (RFC 8259) gives back the data array as exactly the first rows the limit allows, cell by cell and, for objects, name by name |
| `RestRead.SentResponseReads` | controller/rest/restful.go:380-475 | from a response sent completely a reader of JSON gets the rows, as many as the limit allows, and behind them that number |
| `RestRead.ValueReads` | tools/ctools/block.go:183-229 | null, booleans, integers and strings are read back as what they are, whatever follows in the list |
| `RestRead.CountReads` | controller/rest/restful.go:463-470 | behind the data array the number of rows is read back |
| `Upload.WriteTuple` | controller/rest/restful.go:646-663 | the row tuple of a record: null, quoted and escaped, or bare, comma-separated |
| `UploadTuples.TupleIsScannedIff` | controller/rest/restful.go:646-663 | a reader of SQL literals gives back the columns of the record, and stops where the tuple ends, if and only if each column written without quotes is one word; quoted and null columns are read back whatever bytes they hold |
| `UploadTuples.BareIsScannedIff` | controller/rest/restful.go:655-657 | a column written without quotes is read back if and only if it is not empty, not the word null, starts with no quote and holds no comma or closing bracket |
| `UploadTuples.ReplacedIsScanned` | controller/rest/restful.go:646-663 | unescaping the escaped text gives the cell, and no byte of the cell ends the string early |
| `Upload.BatchesFlatten` | controller/rest/restful.go:646-705 | the rows of all statements, in order, are the rows of the upload |
| `Upload.EveryStatementHasARowIff` | controller/rest/restful.go:664-686 | every statement carries a row if and only if the first row fits behind the prefix |
| `Upload.EveryStatementIsSmallIff` | controller/rest/restful.go:664-686 | every statement is below 1 MiB or carries exactly one row if and only if the prefix alone is below 1 MiB |
| `Upload.EveryStatementIsFull` | controller/rest/restful.go:664-686 | no statement ends early: with the first row of the next one it would reach 1 MiB |
| `Upload.PartIsTakenIff` | controller/rest/restful.go:629-648 | a part is taken whole, with the records it is read as, if and only if it can be read and every record has a value for each column; else the upload stops with the error of the reader or for too few columns |
| `Upload.PartsAreTakenIff` | controller/rest/restful.go:608-648 | an upload takes every part if and only if none is broken and every data part is taken whole; then its records are those of the parts one after another |
| `Upload.Uploader.AddRow` | controller/rest/restful.go:664-686 | executes the pending batch exactly when the tuple no longer fits, and puts the tuple in the buffer |
| `Upload.Uploader.Finish` | controller/rest/restful.go:689-705 | executes what is left in the buffer |
| `Upload.Upload` | controller/rest/restful.go:608-711 | a successful upload executed the batches of exactly the records of its parts and reports their number; otherwise only batches of the first records ran |
| `Upload.PrintedTableIsUploaded` | controller/rest/restful.go:629-663 | uploading a printed table offers the database exactly its rows if and only if its text does not start with a byte order mark |

## Left out

- TmqConsumers.ConsumersClosedOnce: takes the driver to return either a consumer or an error string; a consumer returned with an error string would not be closed by the handler (controller/ws/tmq/tmq.go:533-537, 1617-1618).
- TmqClose.CloseCompletesIff: says when some continuation completes, not that every fair one does; a wait of the worker ends only by a signal, as spurious wake-ups are nothing to rely on; the process-wide lock that listTopics takes is taken to come free.
- HolderDeadlock.HandlerComesIff: one session to a machine; requests of other sessions that share the handler pool appear as queries, which hold a handler and no lock of this session.
- SessionHolders.DriverCallSeesNativeIff: a native result of a statement ends when the statement is closed; that preparing or executing the statement again may end it too is not modelled.
- Holders.DriverCallsSeeLiveObjects: covers driver calls made under an item lock, not the error-string reads after it is dropped.
- ConnectPoolObject.Instance.Put: the locked part and the delivery run without another goroutine between them; the interleavings are those of `ConnectPool`.
- ConnectPoolObject.Instance.Release: the same holds of the locked part and the drain.
- ConnectPoolObject.Instance.DoRelease: no receiver takes a connection while it drains; the interleavings are those of `ConnectPool`.
- Stmt2Message.BindBinary: a bind whose `num * 4` exceeds a 32-bit integer is outside valid messages, as C leaves that product undefined.
- BindBuffers.BindColumn: requires that every copied byte fits, as C leaves other writes undefined; `WritesFitIff` gives the condition for all values and `LongColumnDoesNotFit` a column without it.
- Block.RawConvertReads: timestamps are tick counts and floating-point cells bit patterns.
- BlockConvert.RawConvertNchar: stops at the runes; their conversion to a string is `Utf8.EncodeAll`, applied where a value is bound or written.
- RestStream.Respond: takes the texts of cells; `RestRead` says which values they stand for and reads them back. Timestamps, floating-point, VARBINARY and GEOMETRY cells are not covered.
- The handler pool, the TMQ session, the statement holder and the item locks are modelled on values as transition systems, so updating their fields in place and aliasing are not captured there.
- TmqService.RequestIsServed: says that some continuation serves the request, not that every fair one does.
- The TMQ request that sends the buffer of an earlier fetch once more (controller/ws/tmq/tmq.go:901-944).
- The websocket plumbing of the TMQ session: waiting for the close signal is modelled only as a call of `Close`.
- `singleflight` in getConnectionPool, whitelists, and the inside of NewConnectorPool beyond success and failure.
- CSV error positions, LazyQuotes, TrimLeadingSpace, comment characters, delimiters other than a comma, and read errors of the input.
- Timestamp conversion, floating-point formatting (floating-point cells are bit patterns), and JSON indentation, which the adapter never switches on.
- StmtParseColumn and StmtParseTag, which go through a JSON library.
- malloc failure, cgo, HTTP, logging, configuration and metrics.
- The statsd, collectd, OpenTSDB, InfluxDB, Prometheus and node_exporter plugins.
