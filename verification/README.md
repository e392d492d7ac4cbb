# A verified model of the yfs distributed file system

This project models, in Dafny, the parts of a small distributed file system that decide whether it is
correct, and proves what they promise.

- **Caching locks over a write-back extent cache.** Clients keep locks after use. The server revokes
  them for others. A client flushes the extent of a lock before it gives the lock back. The system is a
  step relation over any number of clients, threads, locks and extents (`Protocol`); a step is one mutex
  region or one RPC handler. Every run is proved to look, to all threads, like a run of the plain lock
  server with one shared store (`Refinement`), in which only the owner of a lock touches what it protects
  (`Ownership`). Revoke and retry messages are counted as tokens, and a waiter is proved to wait for
  something that can move, except in two exactly described cases (`Progress`): a lock that its client
  strands, and a lock whose holding thread is itself blocked in another acquire. Without the first, and
  without a cycle of the second, the system never stops; a cycle stays for ever (`Deadlock`). Clients that
  wait for a lock are served in the order in which they were refused, and revokes arrive in the order in
  which they were sent (`Fairness`). `StrandedRun` and `DeadlockRun` are runs into the two cases (built from `Worlds`).
- **At-most-once RPC.** The client's window of answered calls (`XidWindow`), the server's window of
  remembered replies (`ReplyWindow`), and both together over a network that delays, reorders and
  duplicates (`AtMostOnce`, `LeakedReply`).
- **Wire format and framing.** Typed values as bytes and back (`Marshalling`, `MarshallingCut`,
  `Messages`, `MarshallBuffers`), what arbitrary bytes can do to the reader (`StringLengths`), and PDUs over
  a byte stream with partial reads and writes (`Framing`).
- **Smaller pieces.** Directories as searched strings (`StringSearch`, `Directory`, `DirectoryRuns`,
  `DirectoryRace`, `DirectoryListing`), the Paxos log, whole and cut (`TextStream`, `PaxosLog`, `CutLog`),
  views and majorities (`Views`), the retransmission timer (`Timer`) and the draining thread pool (`ThreadPool`).

Objects whose methods change their fields are classes; each method is proved against a function of the
old state, and the theorems are about those functions. Pure code and whole-system arguments are
functions and lemmas.

`dafny verify dfyconfig.toml` checks everything.

## Where the code falls short of its purpose

These are properties one would expect and that the code does not have. Each is stated with the exact
condition under which the code is right, and most with a concrete failing case.

- A releaser pass gives back one lock and then switches the releaser off (lock_client_cache.cc:105,
  lock_client_cache.cc:110). A second lock that waits to be released is stranded.
  `StrandedRun.WaiterCanBeStuck` is the run. `Progress.NoStuckWaiter` says which waiters it stops, and
  `Progress.NothingStrandedIffLonely` which runs strand no lock.
- A thread may ask for a second lock while it holds one (yfs_client.cc:128-137), so clients can wait for
  each other. `Progress.HolderMovesUnlessStuck` and `Progress.NoStuckWaiter` are the conditions for one
  lock. For the whole system, `Deadlock.NoCycleNoDeadlock` says that it goes on unless there is a cycle of
  threads that hold one lock and wait for the next, and `Deadlock.CycleIsForEver` that no run ever ends
  such a cycle. `DeadlockRun.HoldersCanDeadlock` is a run into one; `Deadlock.RankedHasNoCycle` says that
  clients which take their locks in a fixed order never get there.
- `release` on the server leaves its mutex locked when nobody waits (lock_server_cache.cc:211-218).
  `Progress.ReleaseFindsWaiter` shows that this branch is never reached; `ServerCache.ReleaseBreaksIff` and
  `ServerCache.LateWaiters` say what it would do, to clients that ask in the meantime too.
- A request that was never seen is answered as forgotten when it is older than the first one that
  arrived (`ReplyWindow.FreshRefused`, `ReplyWindow.ReorderedRefused`). The comment at rpc/rpc.cc:654
  says that all acknowledged requests are deleted; the code deletes them only from 100 entries on, and
  the model follows the code.
- Reporting an xid twice can leave it twice in the client's window (`XidWindow.DuplicatesHappen`):
  exactly if it is above the front when it is repeated (`XidWindow.UpdatedStrict`,
  `XidWindow.StrictIffNoneRepeated`). As a set the window is right (`XidWindow.ReplayIsWindow`).
- The reply of a handler is never freed exactly if the window has passed its request before it returns
  (`LeakedReply.LeaksIffPassed`); `LeakedReply.ReplyCanLeak` is a run.
- A live connection dies when the size word arrives in pieces or when a PDU is above 10 MB, although `send`
  reported success (`Framing.LargeIsLost`). `Framing.ReceiverDiesIff` lists all cases.
- A string whose length makes the 32-bit end of the string wrap around is read outside the buffer
  (rpc/rpc.cc:1041). `StringLengths.WrapHappens` is the shortest input; `StringLengths.GetWrongIff` and
  `StringLengths.ReceiveWrongIff` say for which bytes it happens.
- `create` refuses a free name that is part of another name or of an inum (`Directory.CreateExact`,
  `Directory.CreateRefusesFreeName`), `lookup` finds entries whose name merely ends with the given one
  (`Directory.LookupExact`, `DirectoryRuns.LookupFindsLongerName`), and `unlink` cuts too much when an
  earlier entry holds the digits of the inum (`Directory.UnlinkExact`, `Directory.UnlinkCutsTooMuch`).
- `unlink` gives up the directory's lock between its lookup and its cut. If the name is gone by then, it goes
  on with a position that is not there (`DirectoryRace.RaceGoesWrong`); if the inum has changed, it can cut at
  the wrong place or nothing at all (`DirectoryRace.CutCases`). `DirectoryRace.RacedUnlink` says exactly when
  it still removes the right entry.
- A removed extent cannot be flushed: the call carries no argument (extent_client.cc:148), the server cannot
  read it (`Messages.MissingArgumentFails`), and the client stops. `ExtentCache.ExtentClient.Flush` says that
  this happens to the marked extents and to no others.
- `readdir` uses a variable before it is set exactly if a semicolon has no colon before it
  (`DirectoryListing.ListingFailsIff`).
- Removing a node that a view lists twice can separate two majorities (`Views.DuplicateLosesOverlap`).
  `Views.SuccessiveViewsMeet` and `Views.RemoveOverlapExactly` say exactly when.
- A record of the Paxos log is not written atomically (log.cc:85), and a log can end inside one.
  `CutLog.CutLogReplays` gives the record that is read for every cut. A `done` line that ends right behind its
  type word erases the last decision on the disk (`CutLog.CutErasesDecision`, `CutLog.CutLosesDecision`), one
  that ends inside its value decides a value that nobody proposed (`CutLog.CutValueIsDecided`), an `accepted`
  line can erase the accepted value (`CutLog.CutErasesAccepted`), and a `propseen` line can lower the promise
  (`CutLog.CutPromise`). `CutLog.DecisionsSurviveCut` and `CutLog.CutIsCleanIff` say exactly for which cuts
  the decisions and the whole state are those with or without the line.
- The first node that starts on a log with proposals but no decision forgets them in the log only
  (paxos.cc:189-193, `PaxosLog.StartCanDisagree`); `PaxosLog.StartAgrees` is the condition.
- `add_timespec` can leave a whole second in the nanoseconds (`Timer.AddWholeSecond`), and a timed wait
  refuses such a deadline (`Timer.RefusalHappens`): exactly if the call comes to its final deadline and the
  timeout fills up a second (`Timer.RefusedIff`).
- A pool without workers loses its jobs (`ThreadPool.NoWorkersLoseJobs`), and only such a pool does
  (`ThreadPool.DrainedIffWorkers`).

## Model

| member | source | states |
|---|---|---|
| PlainLock.LockServer.Acquire | lock_server.cc:36-70 | one attempt is granted exactly if the lock is not held, and the lock is held afterwards either way |
| PlainLock.LockServer.Release | lock_server.cc:73-89 | OK exactly if the lock was held; it is free afterwards, and a lock that was not held changes nothing |
| ServerCache.LockServerCache.constructor | lock_server_cache.cc:29-41 | starts with no lock known and both queues empty |
| ServerCache.LockServerCache.Acquire | lock_server_cache.cc:89-197 | the whole new server state and the reply: an open or unknown lock is granted, a held one queues the caller behind the others and at most one revoke per tenure |
| ServerCache.LockServerCache.TestRelease | lock_server_cache.cc:205-219 | the answer of the two tests that run before the mutex is taken |
| ServerCache.LockServerCache.CommitRelease | lock_server_cache.cc:209-240 | the whole new server state on the branch that the earlier test chose, including the mutex that stays locked and the pop of a list that has become empty |
| ServerCache.ReleaseAlone | lock_server_cache.cc:200-243 | the two halves of a release with nothing in between, on any server: a held lock is free, its first waiter gets the one new retry and the others move up; a free lock changes nothing; other locks are untouched |
| ServerCache.ReleaseBreaksIff | lock_server_cache.cc:209-240 | a release leaves the mutex locked or pops an empty list if and only if one of its two looks finds no waiter; the lock is open, without holder, and its revoke is forgotten |
| ServerCache.LateWaiters | lock_server_cache.cc:205-240 | any clients that ask between the two halves wait behind the earlier ones; if there were none, nobody is told that the lock is free |
| ClientCache.LockClientCache.EnterAcquire | lock_client_cache.cc:142-162 | an unknown lock becomes NONE with its retry flag down, a known one stays as it is |
| ClientCache.LockClientCache.AcquireTurn | lock_client_cache.cc:163-257 | one turn of the acquire loop in each of the five states |
| ClientCache.LockClientCache.RetryTurn | lock_client_cache.cc:191-214 | a raised retry flag leads to one more call, which lowers the flag and takes the lock or keeps waiting |
| ClientCache.LockClientCache.Release | lock_client_cache.cc:260-299 | a revoked lock becomes RELEASING and wakes the releaser, any other becomes FREE |
| ClientCache.LockClientCache.RevokeHandler | lock_client_cache.cc:302-332 | the lock is listed for revocation; only a FREE one is handed to the releaser at once |
| ClientCache.LockClientCache.RetryHandler | lock_client_cache.cc:335-347 | the retry flag of that lock goes up and nothing else changes |
| ClientCache.LockClientCache.ReleaserScan | lock_client_cache.cc:82-91 | the scan stops at the first listed lock that is RELEASING and makes it NONE, or switches the releaser off |
| ClientCache.LockClientCache.ReleaserErase | lock_client_cache.cc:95-110 | one occurrence of the lock leaves the list, the others keep their order, and the releaser goes off |
| ClientCache.FirstReleasingFound | lock_client_cache.cc:82-91 | the lock a pass takes is the first listed one that is RELEASING; if it takes none, none is |
| ClientCache.RemoveFirstCount | lock_client_cache.cc:95-105 | erasing removes exactly one occurrence |
| ExtentStore.ExtentServer.PutExtent | extent_server.cc:15-84 | content and size of that extent are replaced, the others stay, and every size is the length of its content |
| ExtentCache.ExtentClient.PutExtent | extent_client.cc:89-116 | the cached copy is dirty and is what every later get sees, whatever the server has; other extents are seen as before; cached sizes stay right |
| ExtentCache.ExtentClient.GetExtent | extent_client.cc:24-63 | answers with what the client sees, and caching it clean changes nothing that is seen; cached sizes stay right |
| ExtentCache.ExtentClient.GetAttrExtent | extent_client.cc:66-86 | a size exactly if get would answer with content, and then the length of that content |
| ExtentCache.ExtentClient.Flush | extent_client.cc:141-162 | a dirty copy reaches the server, a clean one does not, neither stays cached, and nothing dirty or absent is seen differently afterwards; for a removed extent nothing happens and the client stops |
| ExtentCache.ExtentClient.RemoveExtent | extent_client.cc:119-139 | only a cached extent is marked, and what get and put see stays the same |
| LockInvariant.EnterInv | lock_client_cache.cc:142-162 | the token invariant survives the first region of acquire |
| LockInvariant.AcquireNoneInv | lock_client_cache.cc:166-190 | the token invariant survives a first acquire call, granted or refused |
| LockInvariant.AcquireRetryInv | lock_client_cache.cc:191-214 | the token invariant survives a call after a retry, granted or refused |
| LockInvariant.ReleaseInv | lock_client_cache.cc:260-299 | the token invariant survives a thread's release |
| LockInvariant.DeliverRevokeInv | lock_server_cache.cc:66-87 | the token invariant survives the delivery of a revoke |
| LockInvariant.DeliverRetryInv | lock_server_cache.cc:43-64 | the token invariant survives the delivery of a retry |
| LockInvariant.PickInv | lock_client_cache.cc:76-92 | the token invariant survives the start of a releaser pass |
| LockInvariant.CommitInv | lock_server_cache.cc:209-240 | the token invariant survives the locked half of release together with the end of the pass |
| Coherence.FlushGood | lock_release_cache_user.cc:8-10 | the flush of a pass keeps the whole invariant: caches only under the lock, clean copies equal to the store |
| Coherence.FetchInsertGood | extent_client.cc:42-58 | a fetched copy that is inserted late still equals the store |
| Refinement.StepGood | lock_client_cache.cc:68-347 | every step of every client keeps the whole invariant |
| Refinement.StepMatches | lock_client_cache.cc:68-347 | one step of the caching system is one step of the plain system, or none |
| Refinement.CachingRefinesPlain | lock_client_cache.cc:68-347 | in every run, what the threads of all clients see is a history of the plain lock server and one store |
| Refinement.ReadsLatestPut | extent_client.cc:24-116 | in every run a get returns the latest put of any client, getattr its length, and a miss means that there was none |
| Ownership.StepPermitted | lock_client_cache.cc:138-299 | one step takes a lock only if no thread of any client has it, and does anything else under a lock only as its owner |
| Ownership.OnlyOwnersAct | lock_client_cache.cc:138-299 | in every run each lock passes from owner to owner, a thread of a client, and only its owner releases it or reads or writes its extent |
| Refinement.MutualExclusion | lock_client_cache.cc:138-299 | in every reachable state at most one thread of all clients is between acquire and release of a lock |
| Refinement.HolderAgrees | lock_server_cache.cc:89-243 | a client is FREE, LOCKED or RELEASING, or giving the lock back, exactly if the server records it as holder |
| Refinement.OneCacher | extent_client.cc:141-162 | at most the recorded holder of its lock caches an extent |
| Refinement.NoPutNoWrite | extent_client.cc:141-162 | in every run a client that never put an extent writes nothing to the server when it gives up the lock |
| Protocol.SilentIff | lock_client_cache.cc:138-299 | every step with which acquire, release, get, put or getattr answers its caller is observed, and no other |
| Fairness.FirstRefusedFirstServed | lock_server_cache.cc:146-153 | in every run, for every lock: the refused clients, in their order, are those that were handed a retry and then those still waiting; and the handed ones are those it reached and then those it is on the way to |
| Fairness.StepWaits | lock_server_cache.cc:219-240 | one step appends a refused client at the end of the waiting list, or hands a retry to its first |
| Fairness.RevokesInOrder | lock_server_cache.cc:66-87 | in every run revokes reach clients in the order in which the server queued them, and a client lists those not yet obeyed in that order |
| Progress.TokensConserved | lock_server_cache.cc:117-153 | each tenure has at most one revoke over server queue and client list; a client has one of waiting entry, retry, retry flag exactly if it is ACQUIRING |
| Progress.WaitersDistinct | lock_server_cache.cc:146-153 | the waiting list of a lock has no client twice, and each client in it is ACQUIRING |
| Progress.ReleaseFindsWaiter | lock_server_cache.cc:205-228 | every release that reaches the server comes from the holder and finds a waiter, the unlocked test stays true, and the mutex is never left locked |
| Progress.CommitConsumes | lock_server_cache.cc:219-240 | the release of a tenure consumes its one revoke, opens the lock, and leaves its first waiter one retry |
| Progress.HolderMovesUnlessStuck | lock_server_cache.cc:117-153 | a held lock with waiters has an enabled step that moves its holder if and only if it is not stranded and its holding thread is not blocked in another acquire |
| Progress.OpenMoves | lock_server_cache.cc:219-240 | an open lock has an outstanding retry that can move |
| Progress.NoStuckWaiter | lock_client_cache.cc:191-214 | an acquiring client waits for something that can move if and only if it is not listed for a lock that is stranded or whose holding thread is blocked |
| Progress.TidyIffLonely | lock_client_cache.cc:76-110 | in every run, a RELEASING lock always finds its client's releaser switched on and not busy with another lock if and only if every pass starts with at most one lock to give back |
| Progress.NothingStrandedIffLonely | lock_client_cache.cc:76-110 | in every run that ends with all releasers idle, no lock is ever stranded if and only if every pass starts with at most one lock to give back |
| Progress.PassStrands | lock_client_cache.cc:105-110 | the end of a pass strands exactly the other RELEASING locks of the client |
| StrandedRun.WaiterCanBeStuck | lock_client_cache.cc:105-110 | a reachable state in which a client waits for a lock that nothing can move |
| Deadlock.NoCycleNoDeadlock | lock_client_cache.cc:138-299 | in every reachable state in which a thread holds or wants a lock, nothing is stranded and no cycle of threads holds one lock and waits for the next, a step is enabled that is not a new call of acquire or a read or write under a held lock |
| Deadlock.CycleIsForEver | lock_client_cache.cc:138-257 | whatever happens in any run, the threads of such a cycle keep their locks and wait |
| Deadlock.RankedHasNoCycle | lock_client_cache.cc:138-257 | if every thread waits only for locks of higher rank than those it holds there is no cycle |
| DeadlockRun.HoldersCanDeadlock | lock_client_cache.cc:138-257 | a reachable state in which nothing is stranded, two holders wait for each other, the only enabled steps are new calls of acquire, and every run from it leaves both waiting |
| XidWindow.RpcClient.constructor | rpc/rpc.cc:101-131 | xids start at 1 and nothing is reported |
| XidWindow.RpcClient.NewCall | rpc/rpc.cc:208-214 | a new call's header acknowledges the largest n with all of 1..n reported, which is less than its own xid |
| XidWindow.RpcClient.UpdateXidRep | rpc/rpc.cc:386-408 | after a report of any xid the window stands for the reported set: its front is the largest n with all of 1..n reported |
| XidWindow.RpcClient.InsertXid | rpc/rpc.cc:394-400 | the loop inserts in order, behind equal elements |
| XidWindow.RpcClient.Compress | rpc/rpc.cc:402-407 | the nested loops pop the front while the next element continues it, never the element under the iterator |
| XidWindow.ReplayIsWindow | rpc/rpc.cc:386-408 | after any sequence of reports, in any order and with repeats, the window is sorted, its front is maximal and the rest are exactly the reported xids above it |
| XidWindow.DuplicatesHappen | rpc/rpc.cc:386-408 | two reports of one xid can leave it twice in the window |
| XidWindow.UpdatedStrict | rpc/rpc.cc:386-408 | one report leaves a strictly increasing window strictly increasing if and only if it is at or below the front or new |
| XidWindow.StrictIffNoneRepeated | rpc/rpc.cc:386-408 | over any sequence of reports the window stays free of repeats if and only if no report repeats an xid above the front |
| ReplyWindow.Rpcs.CheckDuplicateAndUpdate | rpc/rpc.cc:664-747 | the verdict, the new window and the freed buffers, for every request |
| ReplyWindow.Rpcs.Scan | rpc/rpc.cc:673-695 | one pass finds the entry, the minimum before pruning, and erases exactly the acknowledged prefix above 99 entries |
| ReplyWindow.Rpcs.InsertRequest | rpc/rpc.cc:729-743 | the loop inserts a request without a reply where the order wants it |
| ReplyWindow.Rpcs.AddReply | rpc/rpc.cc:755-788 | the reply goes to every entry with that xid and nowhere else |
| ReplyWindow.Rpcs.FreeReplyWindow | rpc/rpc.cc:790-803 | shutdown frees the buffers of every client's window once and empties all windows |
| ReplyWindow.DroppedExactly | rpc/rpc.cc:688-696 | only acknowledged entries are dropped, and pruning stops at 99 entries or at the first unacknowledged one |
| ReplyWindow.CheckedSorted | rpc/rpc.cc:670-743 | any request keeps a window strictly sorted and leaves it not empty |
| ReplyWindow.CheckedKeeps | rpc/rpc.cc:670-743 | if a request acknowledges less than its xid, every remembered xid stays in the window or falls below its minimum, and the minimum never falls |
| ReplyWindow.LateAcknowledgementForgets | rpc/rpc.cc:688-717 | without that bound a remembered request can be taken for new |
| ReplyWindow.CheckedLength | rpc/rpc.cc:688-696 | after a call the length is at most 100 or at most one more than the unacknowledged entries |
| ReplyWindow.FreshRefused | rpc/rpc.cc:708-717 | a request that is not remembered is refused exactly if it lies below a window that is not empty |
| ReplyWindow.ReorderedRefused | rpc/rpc.cc:708-717 | a first request 2 makes the server refuse request 1 that never ran |
| AtMostOnce.Arrive | rpc/rpc.cc:523-583 | what dispatch answers and what it leaves of the windows, for old servers, clients without nonce and all verdicts |
| AtMostOnce.Issue | rpc/rpc.cc:208-214 | the call method of the client object is the call step of the whole system, and the header on the network acknowledges the largest n with all of 1..n reported |
| AtMostOnce.Note | rpc/rpc.cc:386-408 | the report method of the client object is the report step of the whole system |
| AtMostOnce.OldServerUntouched | rpc/rpc.cc:522-531 | in every state a request is answered as one for an old server if and only if it names another instance, and then it changes nothing |
| AtMostOnce.LookedRemembers | rpc/rpc.cc:663-747 | a request taken for new never ran before, and everything that ran stays in the window or below it |
| AtMostOnce.StepInv | rpc/rpc.cc:499-803 | every step of clients, network and server keeps the invariant that crosses both sides |
| AtMostOnce.HandlerRunsAtMostOnce | rpc/rpc.cc:552-593 | in every run the handler runs at most once for each (nonzero nonce, xid) |
| AtMostOnce.RequestsAcknowledgeLess | rpc/rpc.cc:208-214 | in every run every request carries xid_rep below its xid |
| AtMostOnce.WindowRemembersRuns | rpc/rpc.cc:670-743 | in every run a client's window is sorted, not empty once something ran, and holds or has passed all that ran |
| AtMostOnce.ResendsRecordedReply | rpc/rpc.cc:678-726 | a resent reply is the buffer and size that add_reply recorded, and neither an earlier call nor this one freed it |
| AtMostOnce.ResponseExact | rpc/rpc.cc:522-644 | in every run and for every request: one for another instance is refused and changes nothing; without nonce it runs; otherwise it runs only if it never ran, a duplicate of a running one is dropped, a duplicate of a finished one gets its recorded reply, and only one below the window is refused |
| AtMostOnce.RecordedOnce | rpc/rpc.cc:610-613 | add_reply is called once for each request that ran |
| AtMostOnce.BuffersFreedOnce | rpc/rpc.cc:790-803 | no buffer is freed twice; after shutdown every recorded one was freed, except where add_reply found no entry |
| LeakedReply.LeaksIffPassed | rpc/rpc.cc:755-787 | in every run a handler that returns loses its reply if and only if the window is not empty and starts above its xid |
| LeakedReply.ReplyCanLeak | rpc/rpc.cc:664-787 | a run of a hundred calls after which that happens |
| AtMostOnce.ZeroNonceRunsTwice | rpc/rpc.cc:580-583 | a duplicated request without nonce runs twice |
| Marshalling.ReadsBack | rpc/rpc.cc:838-1049 | any typed value, nested vectors and maps included, is read back and the reader stops right behind it |
| Marshalling.ReadsAll | rpc/rpc.cc:838-1049 | any sequence of typed values is read back |
| Marshalling.MapSetLast | rpc/marshall.h:247-260 | a key above all others is appended, so a map read in key order keeps its order, for any key order |
| Marshalling.MapSetKeyed | rpc/marshall.h:246-260 | assigning any key keeps the keys of a map in order |
| Marshalling.MapSetValue | rpc/marshall.h:246-260 | afterwards that key has the value, also if it was there, and every other key what it had |
| Marshalling.ReadMapKeyed | rpc/marshall.h:246-260 | a map read from any bytes has its keys in order, each once |
| Marshalling.BoolIsByte | rpc/rpc.cc:839-844 | a bool is written as the byte 0 or 1 |
| Marshalling.BoolFromByte | rpc/rpc.cc:960-965 | every byte but 0 is read as true, so a read bool is written back as it was if and only if the byte was 0 or 1 |
| MarshallingCut.GetMoves | rpc/rpc.cc:949-958 | a failed reader stays failed whatever is read next |
| MarshallingCut.CutAll | rpc/rpc.cc:949-1049 | reading a cut message gives the same values or fails, and never reads outside the buffer |
| Messages.MessageRoundTrip | rpc/marshall.h:83-108 | header and body come back as packed and the reader ends in okdone |
| Messages.RequestRoundTrip | rpc/marshall.h:175-187 | the five header fields that the server reads are the ones that the client packed, each in its place, and the arguments are too |
| Messages.LongRequestFails | rpc/rpc.cc:939-947 | with anything behind its arguments a message is read but not accepted |
| Messages.CutRequestFails | rpc/marshall.h:175-187 | no strict prefix of a request is accepted, wherever it is cut |
| Messages.ReplyRoundTrip | rpc/rpc.cc:929-937 | a reply taken over by the waiting caller gives the xid and the return value that the server packed, and the values, and ends in okdone |
| Messages.CutReplyFails | rpc/rpc.cc:929-937 | no strict prefix of a reply is accepted |
| Messages.MissingArgumentFails | rpc/rpc.h:397-406 | a request without a body fails at a handler with a number argument |
| Messages.PastEnd | rpc/rpc.cc:949-1049 | reading past the end gives zeros, fails, moves nothing and leaves a string as it was |
| Messages.FailedStrKeeps | rpc/rpc.cc:1028-1049 | a string that is not read whole stays as it was |
| StringLengths.StrWrongIff | rpc/rpc.cc:1028-1049 | a string is read outside the buffer if and only if its length word was read and takes the 32-bit end back into the buffer |
| StringLengths.GetWrongIff | rpc/marshall.h:220-260 | any bytes read as any type: the reader goes outside the buffer if and only if it comes to such a length, and its index never leaves the buffer |
| StringLengths.AllWrongIff | rpc/marshall.h:220-260 | the same for any list of arguments |
| StringLengths.ReceiveWrongIff | rpc/rpc.cc:1028-1049 | the same for any message of any bytes with room for its header; the header cannot cause it |
| StringLengths.SmallLengthsFine | rpc/rpc.cc:1041-1041 | a length below 2 GB never does it |
| StringLengths.WrapHappens | rpc/rpc.cc:1041-1041 | four bytes that do |
| MarshallBuffers.Marshall.constructor | rpc/marshall.h:53-58 | 1024 bytes, with the header's room left at the front |
| MarshallBuffers.Marshall.RawByte | rpc/rpc.cc:814-824 | the byte goes to the write index; a full buffer doubles and keeps its bytes; otherwise no other byte changes |
| MarshallBuffers.Marshall.RawBytes | rpc/rpc.cc:826-836 | the bytes are appended; the capacity stays, doubles, or grows by the length, and always holds them |
| MarshallBuffers.Marshall.PutNum | rpc/rpc.cc:838-908 | the bytes of every integer width in network order |
| MarshallBuffers.Marshall.PutStr | rpc/rpc.cc:894-900 | length and bytes are appended |
| MarshallBuffers.Marshall.PutValue | rpc/marshall.h:211-244 | any typed value appends exactly its encoding |
| MarshallBuffers.Marshall.Pack | rpc/rpc.cc:910-917 | four header bytes are overwritten in place, the rest stays |
| MarshallBuffers.Marshall.PackReqHeader | rpc/marshall.h:83-96 | the five fields go behind the size word; content and write index stay |
| MarshallBuffers.Marshall.PackReplyHeader | rpc/marshall.h:98-108 | the two fields go behind the size word; content and write index stay |
| MarshallBuffers.ReqBytes | rpc/marshall.h:90-94 | the packed request header is the encoding of its five typed fields |
| MarshallBuffers.ReplyBytes | rpc/marshall.h:105-106 | the packed reply header is the encoding of its two typed fields |
| MarshallBuffers.MarshallRequest | rpc/rpc.cc:208-214 | arguments and then header give a message in the sense of the round-trip results |
| MarshallBuffers.Unmarshall.ReadByte | rpc/rpc.cc:949-958 | a byte, or zero and a failed reader at the end |
| MarshallBuffers.Unmarshall.ReadBytes | rpc/rpc.cc:1038-1049 | bytes, failure with the caller's string kept, or the out-of-range read when the 32-bit sum wraps |
| MarshallBuffers.Unmarshall.ReadNum | rpc/rpc.cc:960-1026 | every integer width |
| MarshallBuffers.Unmarshall.ReadStr | rpc/rpc.cc:1028-1036 | a string whose body is read only if its length was, and which otherwise stays what it was |
| MarshallBuffers.Unmarshall.ReadValue | rpc/marshall.h:220-260 | the recursive reader computes the specified value and reader state, after failures too |
| Framing.ConsumedIsPrefixOfSent | rpc/connection.cc:123-296 | for every schedule of partial writes, partial reads, refusals and failures, the consumed PDUs are a prefix of the sent ones, in order, each once, byte for byte |
| Framing.CompletePduIsNext | rpc/connection.cc:212-218 | a complete PDU that is accepted is the next one sent, a refused one stays with everything else unchanged |
| Framing.SuccessWroteAll | rpc/connection.cc:151-166 | when send can report success, every byte of every PDU so far is on the wire |
| Framing.QuietLinkDeliveredAll | rpc/connection.cc:123-296 | on a live connection with nothing under way, everything that was sent was consumed |
| Framing.ReceiverDiesIff | rpc/connection.cc:246-296 | in every run a callback ends the connection if and only if the size word is in pieces, the next PDU is above the limit, or the body read fails |
| Framing.SenderDiesIff | rpc/connection.cc:222-244 | in every run a write ends the connection if and only if it fails; one that would block leaves the slot, its position and the stream as they were; any other moves on by what was written |
| Framing.DeadForEver | rpc/connection.cc:193-219 | from the moment an end dies it stays dead: the sender takes and writes nothing more, the receiver hands over nothing more |
| Framing.UndersizedBlocks | rpc/connection.cc:193-219 | once a buffer holds more than its size says, no callback changes it, hands anything over or ends the connection |
| Framing.LargeIsLost | rpc/connection.cc:267-274 | no PDU above the limit is ever consumed, and one that was sent with success ends the connection at the first callback |
| Framing.StepInv | rpc/connection.cc:123-296 | every step keeps the byte-stream invariant between writer, wire and reader |
| Framing.WriteMoves | rpc/connection.cc:222-244 | one writepdu moves on in the stamped buffer by exactly the bytes written |
| Framing.SizeFound | rpc/connection.cc:246-283 | the four bytes a reader takes for a size are the size of the next PDU |
| Framing.Connection.BeginSend | rpc/connection.cc:124-138 | the slot is taken with nothing written, for any buffer, unless the connection is dead |
| Framing.Connection.WriteSome | rpc/connection.cc:222-244 | the new slot and the bytes that went out, for full, partial, blocked and failed writes; a blocked one changes nothing |
| Framing.Connection.FinishSend | rpc/connection.cc:159-166 | send reports success exactly if the connection lives and all bytes are out |
| Framing.Connection.ReadSome | rpc/connection.cc:246-296 | size word and body read, with short size, oversize, undersize, blocking and error cases |
| Framing.Connection.HandOver | rpc/connection.cc:212-218 | only a complete PDU that the channel manager takes leaves the connection |
| Framing.Connection.ReadCb | rpc/connection.cc:193-219 | one callback: reads only if the PDU is incomplete, hands over only complete ones, keeps refused ones |
| StringSearch.FindsFirst | yfs_client.cc:211-211 | find returns the first occurrence, or that there is none |
| Directory.CreateExact | yfs_client.cc:131-146 | create refuses exactly the names inside a name or an inum and the empty one, and appends one entry otherwise |
| Directory.CreateRefusesFreeName | yfs_client.cc:131-134 | a free name is refused because another contains it |
| Directory.LookupExact | yfs_client.cc:211-231 | lookup gives the inum of the first entry whose name ends with the given one, for every directory and name |
| Directory.LookupAtFront | yfs_client.cc:218-229 | a text that begins with the name is read as the inum as a whole, because the length of the inum wraps around |
| Directory.UnlinkExact | yfs_client.cc:259-271 | unlink removes exactly one entry if and only if no earlier entry holds the digits of its inum |
| Directory.UnlinkCutsTooMuch | yfs_client.cc:259-271 | a directory in which unlink damages a second entry |
| Directory.DirectoryExtent.MakeEntry | yfs_client.cc:128-151 | the new text and the status, for create and create_dir alike |
| Directory.DirectoryExtent.LookupName | yfs_client.cc:202-238 | the backward loop computes the specified result on any text |
| Directory.DirectoryExtent.UnlinkName | yfs_client.cc:246-283 | lookup on the text before and both searches, the forward loop and the cut on whatever text is there in the second region, with the case where a position is missing |
| DirectoryRace.RacedUnlink | yfs_client.cc:246-283 | for any directories before and after the gap that had the name before: undefined if the name is gone, otherwise the cut of the second region; exactly the entry with the name is removed if and only if its inum begins with the digits looked up and no earlier entry holds them |
| DirectoryRace.CutCases | yfs_client.cc:257-271 | the cut for any inum: from the first place of its digits to the end of the entry if they stand up to there, nothing if they start the next entry, and positions out of order or absent otherwise |
| DirectoryRace.AbsentUnlink | yfs_client.cc:246-283 | a name that is not there at the lookup is answered with NOENT, and whatever text is there by then stays |
| DirectoryRace.UndisturbedRace | yfs_client.cc:246-283 | for every directory and name, present or not, without a change in the gap it is the unlink of the other results |
| DirectoryRace.RaceGoesWrong | yfs_client.cc:259-271 | a name that somebody else unlinked in the gap |
| DirectoryRuns.RunMatches | yfs_client.cc:118-283 | in every allowed run of create, create_dir and unlink the string is the text of the list that was meant |
| DirectoryRuns.LookupAfterRun | yfs_client.cc:202-238 | after any such run every present name is looked up to its own inum |
| DirectoryRuns.UnlinkOwn | yfs_client.cc:246-283 | unlink of a present file removes exactly its entry |
| DirectoryRuns.LookupFindsLongerName | yfs_client.cc:211-231 | looking up an absent name finds the entry of a longer one |
| DirectoryListing.ReadDir | fuse.cc:360-379 | the splitting loop computes the specified listing of any text, or would use an unset variable where there is none |
| DirectoryListing.ListingOfText | fuse.cc:360-379 | the listing of every directory is its entries in order, names and inums |
| DirectoryListing.ListingExact | fuse.cc:360-379 | on any text there is one item for each semicolon: its name and inum are given by the last separators before it |
| DirectoryListing.ListingFailsIff | fuse.cc:364-374 | a text has no listing if and only if a semicolon stands before the first colon |
| TextStream.ReadWord | log.cc:26-26 | a word is read up to the space behind it, with or without a space before it |
| TextStream.WordEndsIff | log.cc:26-26 | a word ends at a character if and only if it is one of the six blanks |
| TextStream.ReadNumber | log.cc:29-29 | a printed number is read back, whatever the variable held |
| TextStream.ReadSigned | log.cc:29-29 | a number with a sign: plus is dropped and minus wraps around 32 bits |
| TextStream.ReadTooLarge | log.cc:29-29 | a number above 32 bits gives the largest one and ends the reading |
| TextStream.ReadNoNumber | log.cc:29-29 | text that is no number gives zero, no text leaves the variable alone, and both end the reading |
| TextStream.ReadLine | log.cc:30-31 | the rest of a line is read, leading spaces included |
| PaxosLog.ReplayFolds | log.cc:18-58 | parsing the text of any list of printable records is folding the records |
| PaxosLog.ReplayFrom | log.cc:18-58 | parsing the text of records and any further text is folding the records and parsing the rest |
| PaxosLog.ReadRecord | log.cc:26-55 | each kind of record is read back in front of any further text |
| PaxosLog.FoldDecides | log.cc:27-38 | replay over any state puts the log's decisions on top and takes its last instance |
| PaxosLog.RestoreReproduces | log.cc:60-83 | dump, restore and logread bring the values and the last instance of the log to any acceptor |
| PaxosLog.RestoreTakesHighest | log.cc:60-83 | the log that an acceptor wrote in any run brings its decisions, and an instance that is the highest of them |
| PaxosLog.LogRises | paxos.cc:242-262 | in every run the decisions are logged with rising instances |
| PaxosLog.StepAgrees | paxos.cc:241-262 | each operation keeps log and acceptor in agreement |
| PaxosLog.RestartAgrees | paxos.cc:223-262 | after any run, replaying the log gives the acceptor's state apart from the node of zeroed proposals |
| PaxosLog.DecideExact | paxos.cc:224-239 | a decide for a known instance succeeds and changes nothing, the next one with the accepted value is a commit, and no other can be done |
| PaxosLog.CommitResets | paxos.cc:242-262 | a commit leaves the acceptor as a fresh one apart from its decisions |
| PaxosLog.FoldNode | log.cc:27-42 | the node of the promise after any replay is that of the last promise in the log |
| PaxosLog.Acceptor.LogRead | log.cc:18-58 | on any file the loop computes the specified state, and stops exactly at an unknown type word |
| PaxosLog.Acceptor.LogReadOne | log.cc:26-55 | one record of any text, with what a missing or unreadable number, name or value leaves in the fields |
| PaxosLog.Acceptor.DumpLog | log.cc:60-72 | the line loop computes the specified text, which is the file itself if its last line is whole |
| PaxosLog.Acceptor.LogInstance | log.cc:86-98 | a file that lists some records lists one more afterwards, and the acceptor is unchanged |
| PaxosLog.Acceptor.LogProp | log.cc:102-113 | a file that lists some records lists one more afterwards, and the acceptor is unchanged |
| PaxosLog.Acceptor.LogAccept | log.cc:118-131 | a file that lists some records lists one more afterwards, and the acceptor is unchanged |
| PaxosLog.Acceptor.Restore | paxos.cc:278-282 | the file is replaced and read over the present state; if it lists records, the object is in agreement with them and has their decisions on top of its own |
| PaxosLog.Acceptor.CommitInstance | paxos.cc:242-262 | a later instance is recorded, logged and resets the proposals, any other changes nothing, and file and state stay in agreement |
| PaxosLog.Acceptor.DecideReq | paxos.cc:224-239 | the next instance is committed with the accepted value, an earlier one is ignored, anything else stops, and file and state stay in agreement |
| PaxosLog.Acceptor.Start | paxos.cc:187-193 | an acceptor that starts on any file has the state that the file gives, then the first value if it is due; file and state agree exactly if no proposal was pending then |
| PaxosLog.StartAgrees | paxos.cc:189-193 | deciding instance 1 at the start keeps log and state in agreement if and only if nothing was proposed |
| PaxosLog.StartCanDisagree | paxos.cc:189-193 | any log with one promise and no decision |
| PaxosLog.Restart | paxos.cc:175-193 | a new acceptor on the file of another has its state, apart from the node of zeroed proposals |
| CutLog.CutLogReplays | log.cc:18-58 | a log cut at any character: whole lines count in full; a cut in a type word stops the reader; any other is read as one record, given exactly by the characters that are left and by what the variables held |
| CutLog.DecisionsSurviveCut | log.cc:27-38 | the decisions after any cut: only a done line changes them, at the one instance that is read, and they are those with or without the line if and only if it is read whole or repeats a decision |
| CutLog.CutIsCleanIff | log.cc:18-58 | the whole state after a cut behind any type word is the one with or without the record if and only if the part that is read is the record or says what was there |
| CutLog.CutErasesDecision | log.cc:27-38 | a done line that ends behind its type word or the space makes the last decision empty |
| CutLog.CutLosesDecision | log.cc:27-38 | so a decision written before it is lost unless it was empty |
| CutLog.CutErasesAccepted | log.cc:43-52 | an accepted line that ends there makes the accepted value empty |
| CutLog.CutPromise | log.cc:39-42 | a propseen line that ends inside its number leaves the promise of the digits that are there |
| CutLog.CutValueIsDecided | log.cc:85-98 | a done line that lost the last character of its value decides the shorter value |
| Views.MajoritiesMeet | paxos.cc:61-72 | two majorities of one view share a node |
| Views.WholeViewIsMajority | paxos.cc:61-72 | all nodes of a view are a majority of it, unless it is empty |
| Views.AddKeepsOverlap | config.cc:184-187 | a majority of a view and one of the view with a node added share a node |
| Views.RemoveKeepsOverlap | config.cc:205-209 | majorities before and after the removal of a node that is listed at most once share a node, whatever else the view repeats |
| Views.RemoveOverlapExactly | config.cc:205-209 | if only the removed node is repeated, all majorities before and after share a node if and only if nothing is left or the old view is shorter than half of both plus two |
| Views.SuccessiveViewsMeet | config.cc:176-220 | in any sequence of adds and removes, all majorities of a view and of the next share a node if and only if that change is an add or no group of nodes splits the view |
| Views.DistinctViewsMeet | config.cc:176-220 | in any sequence of changes that adds only new nodes to a duplicate-free view, they always do |
| Views.DuplicateLosesOverlap | config.cc:205-209 | with a node listed twice they need not |
| Views.MembersOfValue | config.cc:100-121 | the members of a printed view are the view |
| Views.ViewSurvivesRestart | config.cc:100-121 | a view that is decided and logged last is the view that a restarted node reads back |
| Views.ProposalOrder | paxos.cc:18-28 | proposal numbers are totally ordered and >= is > or equal |
| Views.NextNumberAbove | paxos.cc:84-88 | a fresh number is above the last one and above everything the acceptor has seen, and is the smallest such |
| Views.IsAMember | paxos.cc:43-49 | the loop decides membership |
| Views.IsMajority | paxos.cc:61-72 | the counting loop decides majority |
| Views.Config.ValueOf | config.cc:112-121 | the loop prints the view |
| Views.Config.MembersOf | config.cc:100-109 | the loop splits the text |
| Views.Config.ProposeAdd | config.cc:176-189 | the next view id and the text of the view with the node, unless the view has moved on |
| Views.Config.ProposeRemove | config.cc:202-211 | the next view id and the text of the view without any copy of the node |
| Views.Config.PaxosCommit | config.cc:137-156 | a decided text becomes the view it was printed from |
| Timer.WaitsBounded | rpc/rpc.cc:217-284 | at most floor(log2(to/1000 + 1)) + 1 timed waits, no deadline past the final one, curr_to at most 2 * (to + 1000) |
| Timer.BoundIsMet | rpc/rpc.cc:217-284 | on a punctual clock a call without reply makes exactly as many waits as the bound says |
| Timer.GivesUpAtFinalDeadline | rpc/rpc.cc:255-262 | a call that gives up has waited for its whole timeout |
| Timer.WaitForReply | rpc/rpc.cc:217-284 | the loop sets the specified deadlines, keeps to the bound, and is refused a deadline exactly under the stated condition |
| Timer.AddTimespec | rpc/rpc.cc:1117-1127 | the carrying loop computes the specified sum |
| Timer.AddExact | rpc/rpc.cc:1117-1127 | the sum is exact to the nanosecond |
| Timer.AddWholeSecond | rpc/rpc.cc:1123-1126 | the nanoseconds are a whole second exactly if they come out even |
| Timer.RefusedIff | rpc/rpc.cc:255-271 | over any clock readings, a deadline is refused if and only if the call comes to its final one and the timeout fills up a second |
| Timer.RefusalHappens | rpc/rpc.cc:255-271 | a clock reading and a timeout for which it is |
| Timer.CompareSound | rpc/rpc.cc:1099-1114 | the comparison is never wrong about which of two sums is later |
| Timer.CompareOrders | rpc/rpc.cc:1099-1114 | the comparison turns its sign with its arguments, is zero only for equal times, and is transitive |
| ThreadPool.QueueBoundedFifo | rpc/fifo.h:56-92 | in every run items leave in the order they entered, and with workers the queue keeps its limit |
| ThreadPool.TakesJobIff | rpc/thr_pool.cc:24-24 | in every run an open pool takes a job if and only if fewer than a hundred items per worker are queued, or it has no workers |
| ThreadPool.DestroyedIsDrained | rpc/thr_pool.cc:38-51 | when the destructor is done every accepted job was taken and returned once, before any pill, each worker took one pill, and the queue is empty |
| ThreadPool.DrainedIffWorkers | rpc/thr_pool.cc:38-51 | when the destructor is done the queue is empty if and only if there was a worker or no job was accepted |
| ThreadPool.ClosingCanMove | rpc/thr_pool.cc:38-51 | while the destructor runs some step can always be taken |
| ThreadPool.DestructorEnds | rpc/thr_pool.cc:38-51 | under every schedule it ends within a bounded number of steps |
| ThreadPool.NoWorkersLoseJobs | rpc/thr_pool.cc:23-51 | without workers an accepted job is lost |
| ThreadPool.Fifo.TryEnq | rpc/fifo.h:56-72 | one attempt: appended exactly if there is room |
| ThreadPool.Fifo.TryDeq | rpc/fifo.h:74-92 | one attempt: the front leaves exactly if there is one |

## Left out

- Paxos prepare, accept and decide of proposer and acceptor, and the replicated state machine: their bodies are unfilled in the repository.
- Removed extents in the protocol: `Protocol` has no step that marks an extent, because flushing a marked one stops the client.
- What a caller does after a refused deadline: it stays in that wait.
- Client shutdown, attach and unattach: they release locks without flushing and lie outside the protocol.
- Condition variables, lost wakeups and fairness: a blocked thread is a step that is not enabled.
- Data races on containers that the source touches without a mutex, other than the unlocked test of `release`: each such access is one step.
- Time stamps, inum randomness, logging and printing.
- yfs read, write, setattr, and the lock discipline around directory operations: the directory model is one locked region per operation, and two for unlink.
- Sockets, polling, address resolution, FUSE replies, reference counts and main programs.
- 32-bit overflow of xids and of buffer capacities: xids and sizes are unbounded, and messages below 2 GB.
- The life of a reply buffer between the window's mutex and the send that follows it: the buffer's content is sent after the mutex is dropped, in a step of its own that is not modelled.
- Clients that draw the same random nonce: the results are per nonce, as the server sees it.
- Framing.Connection.BeginSend: for a buffer below four bytes only the bytes that go out are modelled, not the memory that the size word then overwrites.
- AtMostOnce.StepInv: a reply that reaches no caller is not tracked further, because only the server side of a reply is stated.
- Decimal text with sign or leading space is not read by `Decimal.Number`: a directory holds digits only.
- PaxosLog.RestartAgrees: the acceptor's changes on prepare and accept are the ones that the comments of logprop and logaccept ask for, because the handlers are unfilled.
- Handler registration, counting and the choice of connection in dispatch.
