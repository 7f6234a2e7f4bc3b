# ByteForge: a verified model

ByteForge is a small key-value store: a chained hash table behind a TCP server, made durable by
an append-only log and periodic snapshots, served by a pool of workers that an event loop feeds,
and guarded by a rate limiter. This project models those parts and proves what holds of them in
every run, down to the bytes of the two files, and what does not.

| file | module | models |
|---|---|---|
| `Text.dfy` | `Text` | words as `>>` reads them, lines as `getline` reads and `endl` writes them |
| `KeyValue.dfy` | `KeyValue` | the store as a plain map; replay of mutations |
| `LogFormat.dfy` | `LogFormat` | the text of the log and of the snapshot |
| `Hashing.dfy` | `Hashing` | the hash of a key in 64-bit arithmetic |
| `Buckets.dfy` | `Buckets` | the table as a value, one list of entries per bucket |
| `HashTable.dfy` | `HashTable` | the table on the heap, with its nodes and pointers |
| `Persistence.dfy` | `Storage` | loading, logging, snapshots, and crashes inside them |
| `Protocol.dfy` | `Protocol` | collecting bytes into commands; what a command asks for |
| `Server.dfy` | `SequentialServer` | the command path over the concrete table and files, and whole runs |
| `CommandText.dfy` | `CommandText` | what the text of a message means, word for word |
| `Serving.dfy` | `Serving` | the handler over many calls and many clients |
| `Durability.dfy` | `Durability` | workers and the snapshotter interleaving |
| `ThreadPool.dfy` | `Pool` | the job queue, sleeping and waking, shutdown |
| `Connections.dfy` | `Connections` | the one-shot event loop, the session table, the server's tables |
| `Dispatch.dfy` | `Dispatching` | event loop, workers and expiry interleaving |
| `Turns.dfy` | `Turns` | the loops of one turn of the event loop |
| `SessionAgreement.dfy` | `SessionAgreement` | sessions against connections |
| `Lifetime.dfy` | `Lifetime` | why connections close |
| `SerialExecution.dfy` | `SerialExecution` | what dispatch means for each client |
| `Progress.dfy` | `Progress` | dispatch gets its work done |
| `Staffing.dfy` | `Staffing` | the thread pool underneath dispatch |
| `WholeSystem.dfy` | `WholeSystem` | dispatch and durability together, crashes included |
| `Settling.dfy` | `Settling` | the whole system comes to rest |
| `TokenBucket.dfy`, `Limiter.dfy` | `TokenBucket`, `RateLimiting` | the rate limiter |

The main results:

- **Recovery.** With one command at a time, after any messages, snapshots and restarts, the bytes
  of the files rebuild exactly the store that the executed commands add up to
  (`RecoveryEqualsLive`). A crash inside a snapshot recovers a part of it, and all of it exactly
  when the log mentions every key whose line is still missing (`CrashDuringSnapshotInRun`).
- **Commands.** Called with the bytes of any number of clients, cut at will, the message handler
  serves each as a lone handler of its connection would (`EveryClientIsServed`,
  `CutLineIsExecutedOnce`, `LinesAreServed`), and each text does what its words say
  (`InsertText`, `GetText`, `DeleteText`, `InsertWithoutValueText`, `OtherText`).
- **Recovery under interleaving.** For any number of workers and in every run, memory and disk
  agree on a key with nothing in flight exactly when the mutation logged last has the result of
  the one map-written last or, if the log does not mention the key, when its snapshot line is
  written and no reset has dropped an update of it (`EveryRunExactly`). While no two mutations of
  one key overlap, the first case never goes wrong, and what the disk holds during a mutation is
  known too (`ExactDurability`). An update between a scan and its log reset is lost
  (`WindowLosesMutation`); two overlapping mutations can leave memory and disk different for good
  (`RaceDiverges`).
- **Dispatch.** Nobody is stranded and no two workers share a connection
  (`NobodyStrandedOrShared`), so every client is served as if alone
  (`ConnectionsAreServedSerially`), connections close only for a cause (`ClosedForACause`), at every moment only lines before the first overlong one have
  been executed (`OnlyAcceptedLinesAreExecuted`), and left alone the server catches up with all
  that has arrived in a bounded number of steps (`TheServerCatchesUp`).
- **The whole system** is linearizable between crashes: one order of all messages explains every
  reply and the live store (`EffectsAreLinear`) and extends real time (`OrderExtendsRealTime`). If
  nobody mutates a key again before the last mutation of it is answered, the exact account of
  recovery holds (`SpacedKeysAreDurable`), which says what any crash leaves (`WhatACrashLeaves`);
  if moreover no mutation falls between scan and reset, at rest the bytes of the files hold what
  all bytes received amount to (`RestIsSafe`). Left alone the system does come to rest, in a
  bounded number of steps (`TheSystemSettles`).
- **Workers.** No wakeup for a job is lost (`JobsAreTakenInOrder`), so no queued client is
  overslept (`QueuedClientsAreAttended`); a shutdown joins all threads if and only if no worker is
  between its test and its sleep when the bell rings (`ShutdownJoinsIff`).
- **Sessions.** Session and connection tables stay in agreement through a step exactly when it
  registers or refuses no address that has a session, and closes no socket whose address has
  somebody else's (`StepAgreesIff`).
- **The table** refines a finite map on the heap; a snapshot and reload reverses every chain.
- **The limiter** is an exact token bucket, and no policy within the same allowance admits more
  (`LimiterIsOptimal`). The global cap of a fixed window is kept over a given second exactly when
  the window is over, new or full (`CapHoldsIff`); over T seconds ceil(T) + 1 windows' worth can
  pass, and no more (`GlobalBound`, `GlobalBoundIsAttained`).

## Where the code and its documentation disagree

The model follows the code.

- `src/RAM/HashMap.cpp:47` announces 31 as the multiplier of the hash. The update adds to the
  accumulator, so it is 32: only the last thirteen characters of a key count (`HashWindow`).
- `src/Storage/Persistence.h:13-14` guarantees recovery across crashes. The old snapshot is
  truncated before the new one is written, so a crash at that moment can lose everything
  (`SnapshotCrashLosesData`).
- `src/Storage/Persistence.cpp:107` says the snapshot represents the full state when the log is
  reset. Mutations made since the scan are neither in one nor any longer in the other
  (`WindowLosesMutation`).
- `README.md:57` promises a shutdown that joins all threads. It can hang (`ShutdownCanHang`),
  exactly when a worker is caught about to sleep (`ShutdownJoinsIff`).
- The limiter's global cap is per fixed window, so for every limit more than that can pass within
  a second (`OverrunPasses`, `CapHoldsIff`); `GlobalBound` is what does hold.
- `README.md:127` mentions a `busySockets` guard and `README.md:50` dynamic growth of the table.
  Neither is in the code; one-shot arming is what keeps workers apart.

## Conventions

A `string` stands for a `std::string`; its characters are read as bytes, and as signed ones by
the hash, as on the platforms targeted. Time is a `real` parameter where the code reads a clock.
What `recv`, `epoll_wait` and `accept` deliver are parameters. The log always exists when it is
read, because opening it for appending creates it. Searching a bucket, which `insert`, `get` and
`remove` each write out, is one method `Walk`; the callback of `forEach` is a returned list,
written line by line by `WriteLines`.

## Model

| member | source | states |
|---|---|---|
| Text.Extract | src/Server/Server.cpp:266-278 | `>>` delivers a token or, when the stream runs dry, an empty string and nothing left |
| Text.ExtractToken | src/Server/Server.cpp:270-278 | `>>` skips any white space and stops right after the token |
| CommandText.WhiteSpace | src/Server/Server.cpp:266-278 | what separates words |
| Text.LinesOfUnlines | src/Storage/Persistence.cpp:40-46 | `getline` over text written with `endl` returns the lines written |
| Text.LinesAppend | src/Storage/Persistence.cpp:87-91 | appending to a file with a complete last line adds exactly one line |
| KeyValue.Apply | src/RAM/HashMap.cpp:55-118 | a mutation decides its own key and leaves every other key alone |
| KeyValue.ReplayAppend | src/Storage/Persistence.cpp:67-83 | replaying one more log entry applies it last |
| KeyValue.Absorption | src/Storage/Persistence.cpp:67-83 | a key the log mentions ends up the same on any base; one it does not mention keeps the base's value |
| KeyValue.ReplayByLast | src/Storage/Persistence.cpp:67-83 | the last mention of a key in the log decides, and the base where there is none |
| KeyValue.ReplayIdempotent | src/Storage/Persistence.cpp:67-83 | replaying a log on the store it has shaped changes nothing |
| KeyValue.ReloadPart | src/Storage/Persistence.cpp:40-46 | the lines of a partly written snapshot restore exactly their bindings |
| KeyValue.ReloadEnumeration | src/Storage/Persistence.cpp:40-46 | a full snapshot restores the store it enumerates |
| LogFormat.LogLineRoundTrip | src/Storage/Persistence.cpp:70-90 | a log line reads back as its mutation if and only if key and value are words `>>` can deliver |
| LogFormat.SnapshotLineRoundTrip | src/Storage/Persistence.cpp:42-45 | a snapshot line of a token pair is one line and reads back as that pair |
| LogFormat.LogAppend | src/Storage/Persistence.cpp:87-91 | a logged mutation is replayed after all earlier ones |
| LogFormat.LogRoundTrip | src/Storage/Persistence.cpp:67-91 | a whole log reads back as the mutations written, keyless DELETE and trailing blanks included |
| LogFormat.SnapshotRoundTrip | src/Storage/Persistence.cpp:40-46 | a whole snapshot reads back as its pairs in order |
| Hashing.HashFunction | src/RAM/HashMap.cpp:40-53 | the loop with wrap-around computes the closed form with multiplier 32; the index is a bucket |
| Hashing.CharValueIsTheByte | src/RAM/HashMap.cpp:45-48 | a character counts as the signed byte congruent to it modulo 256 |
| Hashing.HashConcat | src/RAM/HashMap.cpp:40-53 | hash(x+y) is hash(x) times 32 to the length of y plus hash(y), modulo 2^64 |
| Hashing.HashWindow | src/RAM/HashMap.cpp:40-53 | characters before the last thirteen never influence the hash |
| Hashing.ThirteenthCharacter | src/RAM/HashMap.cpp:40-53 | the thirteenth from the end does, through exactly its low four bits |
| Buckets.AbsLookup | src/RAM/HashMap.cpp:74-89 | searching the bucket named by the hash finds what the map holds |
| Buckets.ChainPutMeaning | src/RAM/HashMap.cpp:58-71 | inserting into a chain binds that key alone and keeps keys distinct |
| Buckets.ChainPutPlaces | src/RAM/HashMap.cpp:60-71 | a known key keeps its place in the chain, a new one comes first |
| Buckets.ChainDropMeaning | src/RAM/HashMap.cpp:94-116 | removing from a chain unbinds that key alone |
| Buckets.ApplyRefines | src/RAM/HashMap.cpp:55-118 | insert and remove keep the table well formed and act on its map as on a plain one |
| Buckets.ReplayRefines | src/Storage/Persistence.cpp:67-83 | so does any list of them |
| Buckets.EnumerateIsComplete | src/RAM/HashMap.cpp:120-132 | the walk reports every live key exactly once with its value, and nothing else |
| Buckets.WalkInBucketOrder | src/RAM/HashMap.cpp:123-131 | the walk goes through the buckets from first to last |
| Buckets.ReloadReverses | src/RAM/HashMap.cpp:120-132 | reloading the walk into an empty table reverses every chain and keeps the map |
| Buckets.ReloadTwiceRestores | src/RAM/HashMap.cpp:120-132 | doing so twice restores the chains |
| HashTable.HashMap.constructor | src/RAM/HashMap.cpp:11-21 | a table of empty buckets standing for the empty map |
| HashTable.HashMap.OnePlace | src/RAM/HashMap.cpp:55-118 | chains are acyclic and pairwise disjoint: a node stands in one place |
| HashTable.HashMap.Walk | src/RAM/HashMap.cpp:59-68 | the pointers stop at the first node with the key or at the end, with the node before it |
| HashTable.HashMap.Overwrite | src/RAM/HashMap.cpp:62-66 | one node's value changes and no other entry of any chain |
| HashTable.HashMap.PushFront | src/RAM/HashMap.cpp:69-71 | a new node heads its chain; all other chains are untouched |
| HashTable.HashMap.UnlinkHead | src/RAM/HashMap.cpp:101-105 | the head leaves its chain; all other chains are untouched |
| HashTable.HashMap.UnlinkAfter | src/RAM/HashMap.cpp:106-110 | a node inside a chain leaves it; all other chains are untouched |
| HashTable.HashMap.Insert | src/RAM/HashMap.cpp:55-72 | the key maps to the value, all else as before, in the table and in the map |
| HashTable.HashMap.Get | src/RAM/HashMap.cpp:74-89 | the value of the key, or an empty string when it is absent |
| HashTable.HashMap.Remove | src/RAM/HashMap.cpp:91-118 | the key is gone, all else as before |
| HashTable.HashMap.ForEach | src/RAM/HashMap.cpp:120-132 | the pairs passed on enumerate the map, in chain order |
| Storage.Persistence.constructor | src/Storage/Persistence.cpp:8-17 | opening the log creates it if missing and keeps it otherwise |
| Storage.Persistence.AppendToLog | src/Storage/Persistence.cpp:87-91 | one line more in the log, the snapshot untouched |
| Storage.Persistence.LoadDataOnStartup | src/Storage/Persistence.cpp:28-85 | both reading loops rebuild on the heap exactly the table the two texts describe |
| Storage.Persistence.ReadSnapshotLine | src/Storage/Persistence.cpp:42-45 | a snapshot line inserts, whatever its command word |
| Storage.Persistence.ReadLogLine | src/Storage/Persistence.cpp:70-82 | a log line inserts or, with any other command word, removes |
| Storage.Persistence.CreateSnapshot | src/Storage/Persistence.cpp:93-120 | the snapshot lists the walk over the table, the log is empty, and in between the files go exactly through the moments of truncation, one line after the other with the log whole, and reset |
| Storage.LoadRefinesRecover | src/Storage/Persistence.cpp:28-85 | the table loaded from any two texts stands for the store they describe |
| Storage.SnapshotCycleReverses | src/Storage/Persistence.cpp:28-120 | a snapshot read back has the same map and every chain reversed |
| Storage.CrashAtKey | src/Storage/Persistence.cpp:96-112 | crash inside a snapshot, key by key: which are recovered, which missing |
| Storage.CrashInsideSnapshot | src/Storage/Persistence.cpp:96-112 | what is recovered is a part of the live store, right on logged keys, and all of it if and only if the log mentions every unwritten key |
| Storage.CrashInsideSnapshotFile | src/Storage/Persistence.cpp:96-112 | the same on the bytes of the files |
| Storage.CrashAfterSnapshot | src/Storage/Persistence.cpp:105-112 | once all lines are written a crash on either side of the log reset loses nothing |
| Storage.CrashAtAnyMoment | src/Storage/Persistence.cpp:93-120 | what a crash at each of these moments recovers, and exactly when it is everything |
| Storage.TruncationLosesEverything | src/Storage/Persistence.h:13-14 | with an empty log, a crash right after the truncation recovers nothing, whatever the store was |
| Storage.SnapshotCrashLosesData | src/Storage/Persistence.h:13-14 | the guarantee of recovery across crashes fails on a concrete store |
| Protocol.Parse | src/Server/Server.cpp:266-282 | what an INSERT or DELETE carries are tokens (or, for DELETE, no key) |
| CommandText.InsertText | src/Server/Server.cpp:276-294 | INSERT, a key and a value, however spaced and whatever follows: stored, the same words logged, confirmed |
| CommandText.InsertWithoutValueText | src/Server/Server.cpp:282-288 | INSERT without a value or a key: nothing stored or logged, refused |
| CommandText.GetText | src/Server/Server.cpp:296-308 | GET and a key: nothing changes, and the reply has the value or says there is none |
| CommandText.DeleteText | src/Server/Server.cpp:310-318 | DELETE and a key, or none: unbound, logged, confirmed |
| CommandText.OtherText | src/Server/Server.cpp:320-326 | any other first word, or none: nothing changes, no command |
| CommandText.EveryMessage | src/Server/Server.cpp:266-271 | every message is blank or starts, after blanks, with a word |
| CommandText.OtherLogLineRemoves | src/Storage/Persistence.cpp:70-82 | a log line with any first word but INSERT removes its key |
| CommandText.AnySnapshotLineInserts | src/Storage/Persistence.cpp:42-45 | a snapshot line inserts, whatever its first word |
| Protocol.MutationOf | src/Server/Server.cpp:276-318 | every mutation a message asks for can be logged and read back |
| Protocol.InsertMessage | src/Server/Server.cpp:264-291 | an INSERT however spaced inserts its pair; later text in the buffer is dropped |
| Protocol.FragmentationIndependence | src/Server/Server.cpp:246-274 | however a line is cut, it is executed once and whole, or closes the connection if over 2024 bytes |
| Protocol.StreamOfLines | src/Server/Server.cpp:246-274 | of a stream of lines exactly those before the first overlong one are executed, in order |
| SequentialServer.LogKeepsRecovery | src/Storage/Persistence.cpp:87-91 | logging a mutation applies it to what a restart would rebuild |
| SequentialServer.MutationKeepsDurable | src/Server/Server.cpp:290-291 | a map write followed by its log append keeps disk and memory equal |
| SequentialServer.GetIsDecisive | src/Server/Server.cpp:300-306 | the test for an empty result decides whether the key is present |
| SequentialServer.ExecutionMeaning | src/Server/Server.cpp:276-326 | a command acts and replies as on a plain map and keeps disk and memory equal |
| SequentialServer.HandleMeaning | src/Server/Server.cpp:214-330 | so does the handler for anything `recv` may report |
| Serving.HandleIsReceive | src/Server/Server.cpp:246-268 | one call with bytes: buffer, executed message and fate of the socket are those of the connection on its own |
| Serving.HandleWithoutBytes | src/Server/Server.cpp:224-244 | one call without: nothing is touched, and the socket is kept only if there was merely nothing to read |
| Serving.FeedInStep | src/Server/Server.cpp:214-330 | any number of chunks: as the connection on its own, and table, log and replies as of executing its messages |
| Serving.CutLineIsExecutedOnce | src/Server/Server.cpp:246-274 | a line of at most 2024 bytes, however cut, is executed and answered once, the buffer empty and the socket kept; a longer one executes nothing and closes |
| Serving.EveryClientIsServed | src/Server/Server.cpp:214-330 | in every run each client is registered, has the buffer and had the messages executed of its connection on its own |
| Serving.LinesAreServed | src/Server/Server.cpp:246-274 | a client's lines, cut at will and among whatever others do, are executed in order up to the first overlong one, which alone closes |
| SequentialServer.SnapshotKeepsDurable | src/Storage/Persistence.cpp:93-120 | a finished snapshot keeps disk and memory equal |
| SequentialServer.RestartKeepsDurable | src/Server/Server.cpp:81-81 | a restart rebuilds the store that was live |
| SequentialServer.Server.Start | src/Server/Server.cpp:62-85 | the startup loads what the files hold |
| SequentialServer.Server.TakeSnapshot | src/Server/Server.cpp:6-7 | the snapshot callback leaves table and map alone |
| SequentialServer.Server.MessageHandler | src/Server/Server.cpp:214-330 | in all branches: buffer, table, log and reply after one call, the session's activity for a complete message, and the socket re-armed or closed with its session |
| SequentialServer.Server.Process | src/Server/Server.cpp:224-326 | the part of it that concerns the bytes |
| SequentialServer.Server.MutateThenLog | src/Server/Server.cpp:290-291 | first the map, with the log as it was, then one log line; the snapshot untouched |
| SequentialServer.Server.Words | src/Server/Server.cpp:266-282 | the words of a message, read in the handler's order, make the request it stands for |
| SequentialServer.Server.ExecuteCommand | src/Server/Server.cpp:266-326 | table, log and reply after one command |
| SequentialServer.StepKeepsFaithful | src/Server/Server.cpp:214-330 | messages, snapshots and restarts keep memory equal to the executed commands and disk equal to memory |
| SequentialServer.RecoveryEqualsLive | src/Storage/Persistence.cpp:28-120 | in every run the bytes of the files rebuild exactly the live store |
| SequentialServer.RepliesAreRight | src/Server/Server.cpp:276-326 | in every reachable state replies are those of a plain map; "key dont exist" exactly when absent |
| SequentialServer.CrashDuringSnapshotInRun | src/Storage/Persistence.cpp:96-112 | in every reachable state, the exact loss of a crash after any number of snapshot lines |
| SequentialServer.SnapshotAndRestartTwice | src/Storage/Persistence.cpp:28-120 | in every reachable state two rounds of snapshot and restart restore the very chains |
| Durability.MapWriteKeepsInv | src/Server/Server.cpp:290-291 | a map write keeps the account of where memory and disk agree |
| Durability.AppendKeepsInv | src/Storage/Persistence.cpp:87-91 | so does the log append that follows it, at any later moment |
| Durability.ResetKeepsInv | src/Storage/Persistence.cpp:107-112 | so does the log reset, which exposes what was logged since the scan |
| Durability.CrashKeepsInv | src/Storage/Persistence.cpp:28-85 | so does a crash and restart, which replays the log as map writes |
| Durability.StepKeepsInv | src/Storage/Persistence.cpp:93-112 | so does every step, overlapping mutations included |
| Durability.AgreementExactly | src/Storage/Persistence.cpp:93-112 | a key with nothing in flight is recovered right if and only if the last logged mutation has the last map-written result, or it is not logged, not unwritten, and not dropped with another value |
| Durability.EveryRunExactly | src/Server/Server.cpp:290-291 | so it is in every state of every run |
| Durability.MapWriteStartsFlight | src/Server/Server.cpp:290-291 | a mutation overwrites on disk what it overwrites in memory, unless its key was dropped |
| Durability.StepKeepsOrderly | src/Server/Server.cpp:290-291 | without overlap the log stays in map-write order and keeps what pending mutations overwrote |
| Durability.AgreementIffNotExposed | src/Storage/Persistence.cpp:93-112 | then a key with nothing in flight is recovered right if and only if it is neither unwritten nor dropped with another value |
| Durability.InFlightExactly | src/Storage/Persistence.cpp:93-112 | then the disk holds for a key in flight the overwritten value, nothing, the new value, or what a reset left, as log, scan and history say |
| Durability.ExactDurability | src/Storage/Persistence.cpp:93-112 | both, in every state of every run in which no two mutations of a key overlap |
| Durability.QuiescentRecoveryIff | src/Storage/Persistence.cpp:93-112 | in every run, at rest recovery equals live if and only if the log is in map-write order by result and nothing dropped has changed |
| Durability.QuiescentRecovery | src/Storage/Persistence.cpp:102-112 | so it does whenever no mutations of a key overlapped and no map write fell between a scan and its reset |
| Durability.WindowLosesMutation | src/Storage/Persistence.cpp:102-112 | on any store, a mutation made and logged between scan and reset is gone from the disk for good |
| Durability.WindowLosesUpdate | src/Storage/Persistence.cpp:102-112 | a run from the start that loses an acknowledged update |
| Durability.RaceDiverges | src/Server/Server.cpp:290-291 | on any store, two mutations of one key logged in the other order leave memory with one and disk with the other |
| Durability.OverlappingMutationsDiverge | src/Server/Server.cpp:290-291 | a run from the start, without a snapshot, in which they disagree at rest |
| Durability.LogTextGrows | src/Storage/Persistence.cpp:87-91 | the abstract append is the append to the file's text |
| Durability.FilesHoldDisk | src/Storage/Persistence.cpp:28-120 | in any state with tokens only, the bytes of the two files recover what the step model says |
| Durability.DiskIsTheFiles | src/Storage/Persistence.cpp:28-120 | in every run, overlapping or not, the bytes of the two files recover what the step model says |
| Pool.ThreadPool.constructor | src/Worker/ThreadPool.cpp:4-43 | the given number of workers, none asleep, an empty queue |
| Pool.ThreadPool.AcceptJob | src/Worker/ThreadPool.cpp:55-60 | one job more at the end of the queue, one sleeper woken if there is any |
| Pool.ThreadPool.TakeTurn | src/Worker/ThreadPool.cpp:15-33 | a worker waits exactly on an empty queue of an active pool, leaves exactly on one of an inactive pool, and else takes the first job |
| Pool.ThreadPool.ClearActive | src/Worker/ThreadPool.cpp:47-47 | the flag is cleared and nothing else changes, whoever holds the mutex |
| Pool.ThreadPool.RingForAll | src/Worker/ThreadPool.cpp:45-53 | the destructor's bell wakes all who sleep and nobody else |
| Pool.StepKeepsInv | src/Worker/ThreadPool.cpp:11-60 | no step loses a wakeup or a job or reorders jobs |
| Pool.JobsAreTakenInOrder | src/Worker/ThreadPool.cpp:11-60 | in every run jobs are taken in order and once, and min(queued, live) workers are not asleep |
| Pool.NobodyLeavesAnActivePool | src/Worker/ThreadPool.cpp:21-25 | in every run no worker leaves while the pool is active, so no job is too late |
| Pool.ExitDrainsTheQueue | src/Worker/ThreadPool.cpp:23-31 | once all workers have left, exactly the jobs accepted before that were taken |
| Pool.ShutdownIsSafeIff | src/Worker/ThreadPool.cpp:45-53 | after the bell nobody can sleep again if and only if no worker was between test and sleep |
| Pool.StepTakesOne | src/Worker/ThreadPool.cpp:11-41 | once the flag is cleared, each step of a worker uses up one of a bounded number |
| Pool.SleeperStays | src/Worker/ThreadPool.cpp:45-53 | a worker asleep after the bell sleeps through whatever the workers do afterwards |
| Pool.ShutdownJoinsIff | src/Worker/ThreadPool.cpp:45-53 | from the bell on the workers take boundedly many steps, and whenever they can go no further all have exited, if and only if none was between test and sleep |
| Pool.JoinedPoolIsDrained | src/Worker/ThreadPool.cpp:23-31 | once they are joined, every job accepted while a worker was there has been taken, in order |
| Pool.ShutdownCanHang | README.md:57-57 | a reachable shutdown in which the only worker sleeps on, against the promise to join all threads |
| Connections.Classify | src/Networking/EpollEventLoop.cpp:45-62 | a socket is reported readable only with input and neither hang-up nor error |
| Connections.EpollEventLoop.Add | src/Networking/EpollEventLoop.cpp:18-25 | a new socket is watched and armed; one already watched is left as it is |
| Connections.EpollEventLoop.Remove | src/Networking/EpollEventLoop.cpp:27-30 | the socket is no longer watched |
| Connections.EpollEventLoop.Wait | src/Networking/EpollEventLoop.cpp:32-68 | every ready socket is reported once, in order, and muted |
| Connections.EpollEventLoop.Rearm | src/Networking/EpollEventLoop.cpp:70-77 | re-arming fails exactly on sockets not watched |
| Connections.UserSessionManager.AddSession | src/UserSession/UserSession.cpp:9-25 | a session for a new key; an existing one is kept as it is |
| Connections.UserSessionManager.UpdateActivity | src/UserSession/UserSession.cpp:27-33 | the session then expires only after its idle time from now; no other session changes |
| Connections.UserSessionManager.RemoveSession | src/UserSession/UserSession.cpp:35-39 | that session alone is gone |
| Connections.UserSessionManager.CleanupExpiredSessions | src/UserSession/UserSession.cpp:41-54 | exactly the sessions found expired, each by its own reading of the clock, are erased, each reported once |
| Connections.ConnectionServer.RegisterClient | src/Server/Server.cpp:119-129 | connection, watch and a session that expires after exactly 240 idle seconds for the new client, an existing session and all others untouched; or no session under its key if the socket cannot be made non-blocking |
| Connections.SweepSparesNewClient | src/UserSession/UserSession.h:65-65 | a sweep within 240 seconds of a registration neither reports nor erases the client |
| Connections.ConnectionServer.CloseConnection | src/Server/Server.cpp:200-212 | watch, connection and the session under its key are gone |
| Connections.ConnectionServer.RearmSocket | src/Server/Server.cpp:332-339 | armed again, or closed if not watched |
| Connections.ConnectionServer.SweepSessions | src/Server/Server.cpp:341-346 | a sweep is the expiry of each expired session in turn |
| Connections.ConnectionServer.CloseExpired | src/Server/Server.cpp:164-175 | all queued sockets are closed in turn and the queue emptied |
| Connections.ConnectionServer.DispatchReady | src/Server/Server.cpp:176-196 | readable registered sockets are queued in order, all others that are ready closed |
| Turns.CloseAllMeaning | src/Server/Server.cpp:171-174 | exactly the queued sockets are gone from connections and watch |
| Turns.DispatchAllMeaning | src/Server/Server.cpp:180-196 | exactly the readable registered sockets join the queue in order, exactly the others reported are closed |
| Turns.ClosingHalfIsARun | src/Server/Server.cpp:164-175 | the closing loop is a run of the dispatch protocol |
| Turns.DispatchingHalfIsARun | src/Server/Server.cpp:176-196 | so is the dispatching loop, and sockets not reported are left alone |
| Connections.ExpireAllAtOnce | src/UserSession/UserSession.cpp:41-54 | expiring one by one or all at once comes to the same |
| Dispatching.MuteMeaning | src/Networking/EpollEventLoop.cpp:18-25 | exactly the reported sockets are muted |
| Dispatching.ReleaseKeepsPlaces | src/Server/Server.cpp:224-257 | a worker that re-arms or closes its socket and returns leaves nobody stranded |
| Dispatching.DispatchNextKeepsPlaces | src/Server/Server.cpp:180-196 | a reported socket is queued, or is gone |
| Dispatching.CloseNextKeepsPlaces | src/Server/Server.cpp:171-174 | closing an expired socket is safe wherever that socket is |
| Dispatching.StepKeepsPlaces | src/Server/Server.cpp:158-339 | every step keeps each socket in exactly one place |
| Dispatching.NobodyStrandedOrShared | src/Server/Server.cpp:158-339 | in every run each registered socket is armed, reported, queued or held by one worker, and no socket is in two of these |
| Lifetime.ClosedForACause | src/Server/Server.cpp:158-257 | in every run, a client no longer registered had its session expired, was reported as not readable, ended or failed, or overflowed its buffer |
| SessionAgreement.CloseTwice | src/Server/Server.cpp:200-212 | closing a connection twice is closing it once |
| SessionAgreement.RegisterAgreesIff | src/Server/Server.cpp:119-129 | registering keeps sessions and connections in agreement if and only if the address has no session |
| SessionAgreement.RefuseAgreesIff | src/Server/Server.cpp:119-127 | refusing a client does if and only if its address has no session |
| SessionAgreement.CloseAgreesIff | src/Server/Server.cpp:200-212 | closing does if and only if the session under the connection's key is absent or its own |
| SessionAgreement.CloseTakesTheOtherSession | src/Server/Server.cpp:200-209 | otherwise it leaves the session's connection registered and beyond the reach of every sweep |
| SessionAgreement.RefuseTakesTheOtherSession | src/Server/Server.cpp:119-127 | so does refusing a client from an address in use |
| SessionAgreement.StepAgreesIff | src/Server/Server.cpp:119-346 | any step of the system keeps agreement if and only if it meets these guards |
| SessionAgreement.CarefulRunsAgree | src/Server/Server.cpp:119-346 | so does any run whose steps all do |
| SessionAgreement.FreshPeersAreCareful | src/Server/Server.cpp:119-129 | clients from addresses of no connection make every step meet them |
| SessionAgreement.SessionsAndConnectionsAgree | src/Server/Server.cpp:119-212 | in every run with distinct live peers, sessions and connections agree, up to those waiting to be closed |
| SessionAgreement.ReusedAddressOrphans | src/Server/Server.cpp:119-209 | a run that leaves a registered connection which no sweep will ever find |
| SerialExecution.JudgeStep | src/Server/Server.cpp:248-268 | the handler's decisions match those of a lone handler |
| SerialExecution.StepKeepsSerial | src/Server/Server.cpp:158-339 | no step of anyone disturbs another connection's buffer or order of execution |
| SerialExecution.ConnectionsAreServedSerially | src/Server/Server.cpp:214-339 | in every run each client is served as by one handler fed its chunks in order |
| SerialExecution.OnlyAcceptedLinesAreExecuted | src/Server/Server.cpp:246-274 | at every moment of every run, what is executed of a stream of lines is a first part of those before the first overlong one |
| SerialExecution.LinesAreExecutedInOrder | src/Server/Server.cpp:246-274 | and all of those, once each and in order, when all is received or as much as overflows the buffer |
| Progress.StepIsLess | src/Server/Server.cpp:158-339 | every step of event loop or worker leaves less work, by a measure |
| Progress.WorkerSteps | src/Server/Server.cpp:214-339 | a worker at work can always go on |
| Progress.SomebodySteps | src/Server/Server.cpp:158-198 | while an open connection is not armed, or has something to be read, the server can take a step |
| Progress.TheServerFinishes | src/Server/Server.cpp:158-339 | from any reachable state it can come to the end of its work |
| Progress.TheServerCatchesUp | src/Server/Server.cpp:158-339 | left alone it does so within the measure, and then all that arrived on open connections is received and processed |
| Staffing.PoolStepsAreDispatchSteps | src/Server/Server.cpp:189-191 | what the pool does with queue and jobs the dispatch protocol allows, and where that wants a worker an awake one will do |
| Staffing.StepKeepsMatched | src/Worker/ThreadPool.cpp:11-60 | the pool's queue stays the queue of sockets, its running workers those in the handler |
| Staffing.QueuedClientsAreAttended | src/Worker/ThreadPool.cpp:11-60 | in every run both sides see runs of their own, and in an active pool a queued socket has a worker awake, free to take it, or busy with another |
| WholeSystem.AnswerIsReply | src/Server/Server.cpp:296-308 | the reply computed from an empty-string test is that of a plain store without empty values |
| WholeSystem.EffectsAreLinear | src/Server/Server.cpp:214-330 | in every run one order of all messages since the last start explains every reply and the live store, and has of each idle client exactly what its bytes received amount to |
| WholeSystem.OrderExtendsRealTime | src/Server/Server.cpp:214-330 | until a crash that order is only ever extended, for every client by what the bytes received since complete, up to one message a worker holds |
| WholeSystem.StepKeepsCoupled | src/Server/Server.cpp:290-291 | a mutation in flight is that of the message its worker has just executed |
| WholeSystem.StepKeepsAll | src/Server/Server.cpp:158-339 | dispatch, execution and snapshot steps together keep all invariants |
| WholeSystem.EveryRunExactly | src/Storage/Persistence.cpp:93-112 | the exact account of recovery for keys at rest, in every run |
| WholeSystem.NoOverlapKeepsExclusive | src/Server/Server.cpp:290-315 | if nobody mutates a key while another mutation of it is still to be logged, at most one mutation per key is in flight |
| WholeSystem.SpacedKeysAreDurable | src/Server/Server.cpp:290-315 | then the exact account of recovery holds, for keys at rest and in flight, through whatever connections they are mutated |
| WholeSystem.WhatACrashLeaves | src/Storage/Persistence.cpp:28-112 | what a crash at any moment leaves of every key, logged or in flight, down to the bytes read back |
| WholeSystem.OwnKeysNeverOverlap | src/Server/Server.cpp:158-339 | one connection per key is one way to meet that, by the dispatch protocol itself |
| WholeSystem.RestIsSafe | src/Storage/Persistence.cpp:28-120 | if moreover no mutation falls between scan and reset, then at rest the bytes of the files recover exactly what all bytes received make of the store the server started with |
| Settling.StepIsLess | src/Server/Server.cpp:158-339 | every step of dispatch, log or a snapshot under way leaves less work, by a measure |
| Settling.SomebodySteps | src/Storage/Persistence.cpp:93-112 | nobody waits for good: while something is in flight or unread, somebody can take a step |
| Settling.TheSystemCanSettle | src/Server/Server.cpp:158-339 | from any reachable state the system can come to rest |
| Settling.TheSystemSettles | src/Server/Server.cpp:158-339 | left alone it does so within the measure, with nothing in flight and all that arrived on open connections executed |
| TokenBucket.TokensAreMinimum | src/Limit/Limiter.cpp:66-83 | the tokens found are the least room over all windows, and some window is tight |
| TokenBucket.AdmitsIffAllWindowsFit | src/Limit/Limiter.cpp:76-83 | admission if and only if every window ending there fits |
| TokenBucket.NoPolicyAdmitsMore | src/Limit/Limiter.cpp:66-83 | no policy within the allowances has admitted more after any number of requests |
| RateLimiting.RateLimiter.IsAllowedGlobal | src/Limit/Limiter.cpp:19-46 | window and answer after one check, in all branches |
| RateLimiting.RateLimiter.IsAllowedPrivate | src/Limit/Limiter.cpp:48-86 | the record of that IP and the answer; no other record changes |
| RateLimiting.RateLimiter.IsAllowed | src/Limit/Limiter.cpp:88-91 | the second check is made only if the first passes |
| RateLimiting.RecordsAreTokenBucket | src/Limit/Limiter.cpp:48-86 | the lazily refilled records are a token bucket |
| RateLimiting.TokensSeenExactly | src/Limit/Limiter.cpp:66-72 | tokens seen are the minimum over windows of a full bucket plus refill less what was let through |
| RateLimiting.LetThroughIff | src/Limit/Limiter.cpp:76-83 | a request is let through if and only if every window ending at it stays within that allowance |
| RateLimiting.LimiterIsOptimal | src/Limit/Limiter.cpp:48-86 | the limiter keeps to the allowance and no policy that does lets more through |
| RateLimiting.PerIPBound | src/Limit/Limiter.cpp:48-86 | any stretch of one IP's requests gets at most a full bucket and its refill |
| RateLimiting.WindowsAreSpaced | src/Limit/Limiter.cpp:19-46 | over any stretch of a run the window is the same, its count telling what passed, or starts at least a second later |
| RateLimiting.Bookkeeping | src/Limit/Limiter.cpp:19-46 | over any stretch, what passes by the number of windows opened in it |
| RateLimiting.GlobalBound | src/Limit/Limiter.cpp:19-46 | any T seconds pass at most limit times (ceil(T) + 1) requests |
| RateLimiting.GlobalBoundIsAttained | src/Limit/Limiter.cpp:19-46 | for every limit and every T there are requests of which exactly as many pass |
| RateLimiting.OverrunPasses | src/Limit/Limiter.cpp:30-45 | for every limit, a window under way and not full lets one more than the limit pass within a second |
| RateLimiting.CapHoldsIff | src/Limit/Limiter.cpp:30-45 | over a second from t the cap is kept for all requests if and only if the window is over by t, starts at t, or is full |
| RateLimiting.IPsAreIsolated | src/Limit/Limiter.cpp:48-91 | buckets and answers of an IP are those of its own globally admitted requests alone |
| RateLimiting.RunsLeaveTheWindow | src/Limit/Limiter.cpp:88-91 | after a whole run the window is that of the global check alone |
| RateLimiting.RefusalEffects | src/Limit/Limiter.cpp:88-91 | over any stretch of a run, the global window is used up by exactly what is let in and what the buckets turn away |

## Left out

- RateLimiting.RateLimiter.IsAllowedPrivate: tokens and times are reals, so rounding of doubles is not modelled.
- Settling.TheSystemSettles: the assumptions of `Progress.TheServerCatchesUp`; no new snapshot begins meanwhile.
- Progress.TheServerCatchesUp: the kernel reports a socket as readable only if it is, and no clients arrive, send or expire meanwhile; turns of the event loop without any event are not counted.
- RateLimiting.GlobalBound: times do not decrease, as on a steady clock read by the single accept loop.
- Connections.ConnectionServer.RegisterClient: registration is one step and socket ids are not reused; races on the unlocked `connections` map are not modelled.
- Connections.UserSessionManager.AddSession: the check and the insertion, under two locks, are one step; the accept loop is the only caller.
- HashTable.HashMap.Unlink: the removed node is no longer reachable; freeing it, and the destructor, are not modelled.
- Storage.Persistence.CreateSnapshot: failures to open files, and writes torn inside a line, are not modelled; the disk changes line by line.
- Pool.ShutdownJoinsIff: a job is one step, so that jobs terminate is taken for granted; one that throws counts as finished.
- Protocol.StreamOfLines: no chunk crosses a line end; when one does, only the first command of the buffer is executed (`Protocol.InsertMessage`).
- WholeSystem.OrderExtendsRealTime: speaks of one life of the server; a crash starts a new order from the store recovered.
- Sockets, console output, signals and `main`: platform calls; what they deliver are parameters.
- `Server::stop`, the snapshot scheduler and the session sweeper's timer: they only decide when a step happens, and steps here may happen at any time.
- The IOCP event loop: it offers the same interface by foreign calls.
- Weak memory: each region under a lock is one atomic step.
- Table growth and authentication: announced in the documentation, absent from the code.
