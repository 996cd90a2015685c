# Verified models of the sensor gateway and its companions

This project models the concurrent core of a sensor gateway, a peer-to-peer chat handshake, a
one-page character device and a parallel sum, and proves what their code keeps over every run.
`dafny verify dfyconfig.toml` checks all of it.

## What is modelled

- **Shared buffer.** `RingBuffer` is the circular array of `sbuffer.c` as a class with ghost
  histories, refined to a queue that keeps the newest items. `BufferProtocol` is its mutex and
  condition-variable protocol as a transition system with one producer, any number of consumers of
  both kinds (their loops, retry counters and database calls included), the main thread's shutdown,
  an asynchronous flag and spurious wakeups. `BufferHistory` accounts for every reading over every
  run; `ConsumerLoop` says what each consumer does in terms of its own statements, and
  `BufferProgress` that readings get through; `Shutdown` shows that the broadcast frees every consumer and how long each then takes.
- **Client tables.** `KeepAlive` and `ConnectionManager` are the tables and the loops that delete
  while iterating, on arrays. `TableProtocol` interleaves the two threads step by step,
  `TableRuns` is what one undisturbed iteration of the manager does;
  `EvictionTiming` gives the timing of evictions over whole runs.
- **Consumers.** `DataManager` keeps windowed averages and raises throttled alerts; `StorageManager`
  is one iteration of the database writer and the pop loop both consumers share.
- **Log pipe.** `LogStream` specifies framing and tokenising, `LogProcess` is the in-place tokeniser
  and the numbering loop.
- **Chat handshake.** `PortMessage` prints and scans the message, `ChatPeer` is the code of each side
  with its table, `Handshake` is the protocol between any number of peers.
- **Character device** (`CharDevice`) and **parallel sum** (`ParallelSum`).

All deleting loops share one specification, `Sequences.Keep`: the elements at marked positions, in
order. Protocols are given by what enables a step and what the step does; a run is a sequence of
states joined by enabled steps, and the main results quantify over every run.

## Where the code differs from its documentation, or from what one would expect

- The documentation says each reading goes to both managers; the code lets each reading be popped by
  exactly one (`BufferHistory.FifoAccounting`). The timeout is 15 s, not 60 s.
- The documentation says that only clients that send nothing are disconnected. An eviction leaves the private
  table alone, so the tables drift apart and a client that keeps sending is evicted
  (`EvictionTiming.SendingClientIsEvicted`). Exactly the clients in front of the evicted one keep
  their own entry (`TableProtocol.EvictionSplitsTables`, `KeepAlive.MatchAfterSweep`); for a client in
  front of all evictions the promise holds in every run (`EvictionTiming.SendingClientIsKept`). Nor does an
  eviction, or an end of file, close the client's descriptor.
- The drain loop waits for an empty buffer, but each consumer takes at most one more reading once the
  flag is set. `Shutdown.DrainableExactly` says exactly when the buffer can still become empty.
- A log message of 255 characters or more loses its newline and runs into the next one.
  `LogStream.MessagesRecoveredExactly` gives the exact condition for getting messages back.
- A write to the device clears everything written before.
- For the values the program generates the parallel sum is right exactly when the number of workers
  divides the length of the array.

## Assumptions

Lock, signal, broadcast and unlock succeed, except that locking in `sbuffer_pop` may fail and make it
return -1, which is what keeps the retry loops alive. A signal wakes at least one waiting thread. The
keep-alive loop's sleep is cut short only by the signal that sets the flag. The clock never runs
backwards where the tables are concerned; the averages need no such assumption.
Temperatures are reals and integers are unbounded. `accept` never returns a descriptor still in the
client table. Messages of the chat handshake are delivered whole, in order and without loss, and the
backlog is unbounded. Results of `select`, `read`, `accept`, the clock, the database and the user-space
copies are parameters or choices of the environment.

## Model

| member | source | states |
|---|---|---|
| RingBuffer.SBuffer.Init | Course1-LinuxProgramming/XX-SensorMonitoringSystem/src/sbuffer.c:18-62 | a buffer exists exactly for a positive size, and starts empty |
| RingBuffer.SBuffer.Push | Course1-LinuxProgramming/XX-SensorMonitoringSystem/src/sbuffer.c:79-92 | the contents become the newest `size` of old contents and new item; a full buffer drops exactly its oldest item, and departures followed by contents stay the pushes |
| RingBuffer.SBuffer.DropOldest | Course1-LinuxProgramming/XX-SensorMonitoringSystem/src/sbuffer.c:79-88 | moving the tail drops the oldest item and nothing else |
| RingBuffer.SBuffer.Append | Course1-LinuxProgramming/XX-SensorMonitoringSystem/src/sbuffer.c:90-92 | writing at the head appends to the contents, across the end of the array too |
| RingBuffer.SBuffer.Pop | Course1-LinuxProgramming/XX-SensorMonitoringSystem/src/sbuffer.c:138-146 | -1 exactly on an empty buffer, otherwise the oldest item, which leaves the contents |
| RingBuffer.SBuffer.Count | Course1-LinuxProgramming/XX-SensorMonitoringSystem/src/sbuffer.c:238-261 | the count is the number of items held, at most the size |
| RingBuffer.SBuffer.HeadFollowsTail | Course1-LinuxProgramming/XX-SensorMonitoringSystem/src/sbuffer.c:33-36 | head == (tail + count) % size in every valid state |
| RingBuffer.PushAllKeepsNewest | Course1-LinuxProgramming/XX-SensorMonitoringSystem/src/sbuffer.c:79-92 | any n pushes without pops leave the last min(n + held, size) items of everything held and pushed |
| RingBuffer.SlotIsRemainder | Course1-LinuxProgramming/XX-SensorMonitoringSystem/src/sbuffer.c:91 | the wrapped index of the specification is the source's remainder |
| BufferProtocol.MutexKept | Course1-LinuxProgramming/XX-SensorMonitoringSystem/src/sbuffer.c:73-107 | every step of any thread keeps mutual exclusion: the recorded owner is the one thread inside a critical section |
| BufferProtocol.WakeupKept | Course1-LinuxProgramming/XX-SensorMonitoringSystem/src/sbuffer.c:121-142 | every step, spurious wakeups and signals that wake several threads included, keeps: if some consumer waits, the queue is no longer than the woken consumers plus one outstanding credit |
| BufferProtocol.NoWakeupIsLost | Course1-LinuxProgramming/XX-SensorMonitoringSystem/src/sbuffer.c:96 | in every reachable state with the mutex free, a waiting consumer implies that each queued reading has a woken consumer on its way; if all consumers sleep over a nonempty queue, the producer is between insertion and signal and exactly one reading is queued |
| BufferProtocol.ShutdownKept | Course1-LinuxProgramming/XX-SensorMonitoringSystem/src/main.c:102-109 | every step keeps: past the broadcast no consumer waits or is about to wait |
| BufferProtocol.RetriesKept | Course1-LinuxProgramming/XX-SensorMonitoringSystem/src/storage_manager.c:126-174 | no retry counter of either consumer ever exceeds MAX_RETRIES |
| BufferProtocol.InvKept | Course1-LinuxProgramming/XX-SensorMonitoringSystem/src/sbuffer.c:113-164 | all four invariants are kept by every step |
| ConsumerLoop.PopFailsOnlyForReason | Course1-LinuxProgramming/XX-SensorMonitoringSystem/src/sbuffer.c:121-142 | in every run sbuffer_pop returns -1 only if locking failed or shutdown has begun; before that a consumer gets past the wait loop only with a reading to take |
| ConsumerLoop.OneReadingEach | Course1-LinuxProgramming/XX-SensorMonitoringSystem/src/sbuffer.c:138-164 | in every run a consumer has taken exactly one reading for each pop that has returned 0, and none for any other |
| ConsumerLoop.EmptyQueuePutsToSleep | Course1-LinuxProgramming/XX-SensorMonitoringSystem/src/sbuffer.c:127-136 | in every run a consumer that tests an empty buffer and executes two more statements, whatever the others do meanwhile, waits with the mutex released, unless shutdown has begun |
| ConsumerLoop.ThreeAttempts | Course1-LinuxProgramming/XX-SensorMonitoringSystem/src/storage_manager.c:126-141 | in every run before shutdown a failed pop is tried again exactly as long as fewer than three attempts of the iteration have failed; with the third the iteration is given up |
| ConsumerLoop.LeavesOnlyForShutdown | Course1-LinuxProgramming/XX-SensorMonitoringSystem/src/data_manager.c:34-43 | in every run a consumer leaves its loop only if shutdown has begun |
| ConsumerLoop.WorkIsItsOwn | Course1-LinuxProgramming/XX-SensorMonitoringSystem/src/storage_manager.c:143-189 | in every run what a consumer does with a reading depends on the outcomes of its own calls alone, on no other thread and not on the flag |
| ConsumerLoop.PreparesAtMostThrice | Course1-LinuxProgramming/XX-SensorMonitoringSystem/src/storage_manager.c:143-158 | a statement is prepared as soon as one of at most three attempts succeeds; with the third failure the reading is given up |
| ConsumerLoop.FinalizesInAnyCase | Course1-LinuxProgramming/XX-SensorMonitoringSystem/src/storage_manager.c:160-189 | a prepared statement is bound once, stepped at most three times, only if bound, and finalized in any case |
| BufferProgress.ProducerCanPush | Course1-LinuxProgramming/XX-SensorMonitoringSystem/src/sbuffer.c:64-107 | in every reachable state with the mutex free any reading can be pushed: it becomes the newest, and if consumers wait at least one is woken |
| BufferProgress.QueuedReadingCanBeTaken | Course1-LinuxProgramming/XX-SensorMonitoringSystem/src/sbuffer.c:121-146 | from every reachable state before shutdown with a queued reading and a consumer that has not left, a run without spurious wakeups leads to a consumer taking a reading |
| BufferProgress.ShutdownCanBeAnnounced | Course1-LinuxProgramming/XX-SensorMonitoringSystem/src/main.c:92-109 | from every reachable state the signal can come, and a run without spurious wakeups then leads main to its broadcast |
| BufferHistory.AccountedKept | Course1-LinuxProgramming/XX-SensorMonitoringSystem/src/sbuffer.c:79-92 | every step keeps the accounts: departures in order plus queue are the pushes, each departure is dated, each consumer holds exactly the departures it took |
| BufferHistory.PushesAreProduced | Course1-LinuxProgramming/XX-SensorMonitoringSystem/src/sbuffer.c:90 | in every run what has been pushed, with the reading about to be, is what sbuffer_push was called with, in order |
| BufferHistory.FifoAccounting | Course1-LinuxProgramming/XX-SensorMonitoringSystem/src/sbuffer.c:79-92 | in every run, departures followed by contents, and the reading about to be inserted, are the readings sbuffer_push was called with; each consumer received such readings at strictly increasing indices; none reached two consumers |
| BufferHistory.DroppedExactly | Course1-LinuxProgramming/XX-SensorMonitoringSystem/src/sbuffer.c:79-83 | in every run record k has been dropped if and only if push k + size has happened and nobody popped k; that very push dropped it, and every pop of k came before it |
| Shutdown.WaitForDrain | Course1-LinuxProgramming/XX-SensorMonitoringSystem/src/main.c:112-121 | at most 100 polls; it ends early exactly when one of them reads 0 |
| Shutdown.PollsUntilZero | Course1-LinuxProgramming/XX-SensorMonitoringSystem/src/main.c:112-121 | in every run main stops polling at the first count of 0, or after 100 other counts |
| Shutdown.FlagNeedsSignal | Course1-LinuxProgramming/XX-SensorMonitoringSystem/src/keep_alive.c:22-30 | in every run the flag is set if and only if the signal has come |
| Shutdown.AnnouncedByBroadcast | Course1-LinuxProgramming/XX-SensorMonitoringSystem/src/main.c:102-109 | in every run shutdown is announced if and only if main has broadcast while holding the buffer mutex |
| Shutdown.BroadcastFreesEveryone | Course1-LinuxProgramming/XX-SensorMonitoringSystem/src/main.c:102-109 | from the broadcast on, in every run, no consumer waits, none is about to, and none ever will, whenever the flag was set |
| Shutdown.RankFalls | Course1-LinuxProgramming/XX-SensorMonitoringSystem/src/data_manager.c:34-47 | with the flag set each own statement of a consumer lowers its rank and no other thread's step raises it |
| Shutdown.ConsumersEndQuickly | Course1-LinuxProgramming/XX-SensorMonitoringSystem/src/storage_manager.c:119-176 | in every run, once the flag is set, a consumer executes at most rank <= 18 more statements, pop, prepare and step retries included; at rank 0 it has left |
| Shutdown.HolderAdvances | Course1-LinuxProgramming/XX-SensorMonitoringSystem/src/sbuffer.c:73-107 | the holder of the buffer mutex always has an enabled step, at most three of which release the mutex |
| Shutdown.HoldShrinks | Course1-LinuxProgramming/XX-SensorMonitoringSystem/src/sbuffer.c:73-107 | every step of the holder brings the release nearer, and no step of another thread delays it or takes the mutex away |
| Shutdown.MutexIsReleased | Course1-LinuxProgramming/XX-SensorMonitoringSystem/src/sbuffer.c:121-155 | in every run, whatever the other threads do, the holder executes at most two statements while keeping the mutex; the third at the latest releases it |
| Shutdown.NoConsumerIsStuck | Course1-LinuxProgramming/XX-SensorMonitoringSystem/src/sbuffer.c:127-142 | after the broadcast a consumer that has not left can move, or waits for a mutex whose holder can move |
| Shutdown.AtMostOneMoreReading | Course1-LinuxProgramming/XX-SensorMonitoringSystem/src/data_manager.c:34-43 | in every run, once the flag is set, each consumer takes at most one more reading |
| Shutdown.QueueOutlastsArmed | Course1-LinuxProgramming/XX-SensorMonitoringSystem/src/data_manager.c:39-43 | with the flag set a reading, queued or about to be, goes only together with a consumer's last chance to take one |
| Shutdown.DrainableExactly | Course1-LinuxProgramming/XX-SensorMonitoringSystem/src/main.c:111-121 | the drain loop's hope made exact, whoever holds the mutex: the buffer is or can still become empty if and only if it is empty or the readings due, the producer's insertion under way included, are no more than the consumers that may take one; if they are more, every poll reads a nonzero count |
| KeepAlive.Tracker.RemoveConnection | Course1-LinuxProgramming/XX-SensorMonitoringSystem/src/keep_alive.c:33-52 | removes exactly the entry at a valid index, keeping order; any other index changes nothing |
| KeepAlive.Tracker.Track | Course1-LinuxProgramming/XX-SensorMonitoringSystem/src/connection_manager.c:85-88 | appends a fresh active entry |
| KeepAlive.Tracker.Refresh | Course1-LinuxProgramming/XX-SensorMonitoringSystem/src/connection_manager.c:161 | dates the live entry at the index, or only a dead slot |
| KeepAlive.Tracker.Sweep | Course1-LinuxProgramming/XX-SensorMonitoringSystem/src/keep_alive.c:92-110 | the delete-while-iterating loop terminates, examines each entry once, each at its own clock reading, and keeps exactly those not stale at that moment, in order |
| KeepAlive.SweepOutcome | Course1-LinuxProgramming/XX-SensorMonitoringSystem/src/keep_alive.c:92-110 | for any nondecreasing clock: stale at the start means evicted, not stale at the end means kept, and survivors are the kept positions in increasing order |
| KeepAlive.SweepKeepsActive | Course1-LinuxProgramming/XX-SensorMonitoringSystem/src/keep_alive.c:94 | `active == 1` on the live entries survives a sweep, and every survivor was within the timeout when the sweep began |
| KeepAlive.MatchAfterSweep | Course1-LinuxProgramming/XX-SensorMonitoringSystem/src/keep_alive.c:107 | after a sweep of lockstep tables client i's slot is still its own if and only if no entry at or before i was evicted |
| ConnectionManager.Manager.HandleNewConnection | Course1-LinuxProgramming/XX-SensorMonitoringSystem/src/connection_manager.c:58-112 | a client is added to both tables exactly when there is room, no shutdown and accept succeeded; a full table closes the descriptor |
| ConnectionManager.Manager.ShiftClients | Course1-LinuxProgramming/XX-SensorMonitoringSystem/src/connection_manager.c:115-123 | removes exactly the client at the index, keeping order |
| ConnectionManager.Manager.VisitClient | Course1-LinuxProgramming/XX-SensorMonitoringSystem/src/connection_manager.c:135-222 | one client: ready with data is pushed and refreshed, ready without data leaves both tables, otherwise nothing happens; tables, buffer contents and drops are all determined |
| ConnectionManager.Manager.HandleClientData | Course1-LinuxProgramming/XX-SensorMonitoringSystem/src/connection_manager.c:126-224 | the sweep terminates, visits each client once in order, keeps exactly the clients not (ready and read <= 0), pushes exactly the successful reads in table order, leaves the newest `size` of old contents and these in the buffer and drops exactly the rest, and keeps lockstep tables in lockstep with the right entries refreshed |
| ConnectionManager.Manager.CleanupConnections | Course1-LinuxProgramming/XX-SensorMonitoringSystem/src/connection_manager.c:227-254 | closes exactly the descriptors other than -1 and empties the tracking table |
| ConnectionManager.Manager.SweepClients | Course1-LinuxProgramming/XX-SensorMonitoringSystem/src/connection_manager.c:133-223 | the same for the loop alone: it is where the index steps back after a deletion |
| ConnectionManager.SurvivorsExactly | Course1-LinuxProgramming/XX-SensorMonitoringSystem/src/connection_manager.c:133-223 | with distinct descriptors a client survives if and only if it was in the table and its read, if any, brought data |
| ConnectionManager.ReadsFollowTable | Course1-LinuxProgramming/XX-SensorMonitoringSystem/src/connection_manager.c:135-138 | there is one read per ready client, and the k-th read is on the k-th ready client |
| ConnectionManager.DeliveredExactly | Course1-LinuxProgramming/XX-SensorMonitoringSystem/src/connection_manager.c:138-152 | the readings pushed are those of exactly the successful reads, in the order of the reads |
| ConnectionManager.ProgressMade | Course1-LinuxProgramming/XX-SensorMonitoringSystem/src/connection_manager.c:133-223 | one iteration of the sweep advances its specification by one client, whether or not the index steps back |
| RingBuffer.ReceivedOneMore | Course1-LinuxProgramming/XX-SensorMonitoringSystem/src/sbuffer.c:79-92 | pushing one reading after others leaves contents, pushes and drops as pushing them all does |
| ConnectionManager.KeptEntriesAreDated | Course1-LinuxProgramming/XX-SensorMonitoringSystem/src/connection_manager.c:161 | after a sweep of lockstep tables a client that stayed has its entry, dated by its own read if it was ready |
| Sequences.KeepIsOrderedFilter | Course1-LinuxProgramming/XX-SensorMonitoringSystem/src/connection_manager.c:133-223 | the specification of all sweeps selects exactly the marked positions, in increasing order |
| Sequences.KeptInPlace | Course1-LinuxProgramming/XX-SensorMonitoringSystem/src/keep_alive.c:107 | an element of a table without repetitions keeps its index if and only if nothing at or before it was deleted |
| TableProtocol.InBoundsKept | Course1-LinuxProgramming/XX-SensorMonitoringSystem/src/connection_manager.c:74-88 | every step of either thread keeps conn_active_count <= client_count <= MAX_SENSORS, strictly less between the halves of an insertion or removal |
| TableProtocol.AccessesInRange | Course1-LinuxProgramming/XX-SensorMonitoringSystem/src/connection_manager.c:85 | in every reachable state each array access is in range, the insertion at connections[conn_active_count] included |
| TableProtocol.LoopsEndOnlyForShutdown | Course1-LinuxProgramming/XX-SensorMonitoringSystem/src/connection_manager.c:277-311 | in every run both loops end only if the signal has come, and the shared table is empty once the manager has ended |
| TableProtocol.AcceptedClientIsTracked | Course1-LinuxProgramming/XX-SensorMonitoringSystem/src/connection_manager.c:74-88 | in every run a client accepted with fewer than 50 in the table is appended to the private table and, whatever evictions happen in between, to the shared one with the time of that moment |
| TableRuns.Connects | Course1-LinuxProgramming/XX-SensorMonitoringSystem/src/connection_manager.c:58-112 | one undisturbed iteration adds a new client to both tables and changes nothing else |
| TableRuns.IsRefused | Course1-LinuxProgramming/XX-SensorMonitoringSystem/src/connection_manager.c:107-111 | a new client finding the table full changes nothing |
| TableRuns.Reports | Course1-LinuxProgramming/XX-SensorMonitoringSystem/src/connection_manager.c:138-168 | one undisturbed iteration in which client i has sent refreshes the slot at index i and changes nothing else |
| TableRuns.Disconnects | Course1-LinuxProgramming/XX-SensorMonitoringSystem/src/connection_manager.c:170-222 | one undisturbed iteration in which client i is at end of file removes the entries at index i of both tables and changes nothing else |
| TableRuns.CleansUp | Course1-LinuxProgramming/XX-SensorMonitoringSystem/src/connection_manager.c:227-254 | the signal can come at any moment, and the manager then empties the shared table and ends |
| TableRuns.BothLoopsEndQuickly | Course1-LinuxProgramming/XX-SensorMonitoringSystem/src/connection_manager.c:277-311 | in every run, once the flag is set, manager and keep-alive loop together execute at most 206 more statements, and nothing is left to execute exactly when both have ended |
| TableRuns.KeeperReturns | Course1-LinuxProgramming/XX-SensorMonitoringSystem/src/keep_alive.c:79-120 | with the flag set the keep-alive loop can always finish its sweep and return |
| TableProtocol.InStepKept | Course1-LinuxProgramming/XX-SensorMonitoringSystem/src/connection_manager.c:181-198 | until the first eviction every step keeps the two tables in the same order, up to the half-done operation, and afterwards still those clients in front of all evictions |
| TableProtocol.LockstepUntilEviction | Course1-LinuxProgramming/XX-SensorMonitoringSystem/src/connection_manager.c:76-88 | in every run up to the first eviction, between manager steps, both counts are equal, the descriptors distinct and the tables list the same clients in the same order |
| TableProtocol.OwnSlotInFront | Course1-LinuxProgramming/XX-SensorMonitoringSystem/src/keep_alive.c:107 | in every run, however many evictions and removals, a client in front of all evictions has its own slot |
| TableProtocol.RefreshHitsItsClient | Course1-LinuxProgramming/XX-SensorMonitoringSystem/src/connection_manager.c:161 | in every run the entry refreshed or removed at index i belongs to client i: for all clients up to the first eviction, afterwards for those in front of all evictions |
| TableProtocol.EvictionSplitsTables | Course1-LinuxProgramming/XX-SensorMonitoringSystem/src/keep_alive.c:107 | the first eviction, at j, leaves client i its own slot if and only if i < j |
| TableProtocol.InSweepKept | Course1-LinuxProgramming/XX-SensorMonitoringSystem/src/connection_manager.c:133-223 | every step of either thread during the client sweep keeps the dealt-with part of the client table that of the specification |
| TableProtocol.SweepDespiteEvictions | Course1-LinuxProgramming/XX-SensorMonitoringSystem/src/connection_manager.c:133-223 | with any evictions interleaved, the client sweep visits each client exactly once, in order, and leaves exactly those not (ready and read <= 0), in order |
| EvictionTiming.NeverEvictedEarly | Course1-LinuxProgramming/XX-SensorMonitoringSystem/src/keep_alive.c:94 | over any stretch of a run in which neither an end of file nor the cleanup removes it, an entry stays tracked for 15 s after its time stamp |
| EvictionTiming.RefreshReachesExactly | Course1-LinuxProgramming/XX-SensorMonitoringSystem/src/connection_manager.c:161 | a client's reading dates its own entry if and only if that is the entry at the client's index, as for every client in front of all evictions |
| EvictionTiming.SendingClientIsKept | Course1-LinuxProgramming/XX-SensorMonitoringSystem/include/common.h:18 | in every run a client that sends while in front of all evictions (before the first one: any client) stays tracked for 15 s after each reading, whatever happens to the others, as long as clients that go away meanwhile are in front of all evictions too |
| EvictionTiming.StaleEntriesAreGone | Course1-LinuxProgramming/XX-SensorMonitoringSystem/src/keep_alive.c:92-110 | once a sweep that began after t + 15 has completed, no entry dated t or earlier is tracked, then or later |
| EvictionTiming.SweepsAreSpaced | Course1-LinuxProgramming/XX-SensorMonitoringSystem/src/keep_alive.c:81-83 | until the flag is set every sweep begins at least 10 s after boot and after the one before |
| EvictionTiming.FirstLateSweep | Course1-LinuxProgramming/XX-SensorMonitoringSystem/src/keep_alive.c:81-83 | with sweeps at most a period apart the first one after t + 15 begins by t + 15 + period |
| EvictionTiming.EvictedByDeadline | Course1-LinuxProgramming/XX-SensorMonitoringSystem/src/keep_alive.c:81-110 | both together, for every run: gone once the first sweep beginning after t + 15 has completed, and that sweep begins by t + 15 + period |
| EvictionTiming.StalenessIsBounded | Course1-LinuxProgramming/XX-SensorMonitoringSystem/include/common.h:18 | between sweeps, with the next one not overdue, no tracked entry is older than 15 s plus the period |
| EvictionTiming.SendingClientIsEvicted | Course1-LinuxProgramming/XX-SensorMonitoringSystem/src/connection_manager.c:161 | a concrete run with sweeps at 10, 20 and 30 s, each after the full 10 s sleep: after the eviction of another client at 20 s, a client that sends every ten seconds has its readings refresh a dead slot and is evicted in the second of its latest one |
| DataManager.WindowIsLongestGapless | Course1-LinuxProgramming/XX-SensorMonitoringSystem/src/data_manager.c:80-92 | the window is the longest suffix of a sensor's readings in which each was handled at most 3600 s after the time stamp of the one before |
| DataManager.OwnIsFilter | Course1-LinuxProgramming/XX-SensorMonitoringSystem/src/data_manager.c:63 | a sensor's readings are exactly those with its id, in order |
| DataManager.FiresExactly | Course1-LinuxProgramming/XX-SensorMonitoringSystem/src/data_manager.c:99-151 | an alert fires exactly for an id from 1 to 49, a window of at least 5 readings with an average below 18 or above 40, and 60 s after the sensor's last alert |
| DataManager.WindowGrows | Course1-LinuxProgramming/XX-SensorMonitoringSystem/src/data_manager.c:80-92 | one more reading starts the window over after a gap and extends it otherwise |
| DataManager.FitsOthers | Course1-LinuxProgramming/XX-SensorMonitoringSystem/src/data_manager.c:56-61 | a reading of another or of an invalid sensor leaves what a sensor's fields stand for unchanged |
| DataManager.FitsAccumulated | Course1-LinuxProgramming/XX-SensorMonitoringSystem/src/data_manager.c:80-96 | resetting or accumulating sum and count yields total and size of the window, first reading included |
| DataManager.FitsAllValid | Course1-LinuxProgramming/XX-SensorMonitoringSystem/src/data_manager.c:80-152 | accumulate and decide keeps all sensors' fields those of their windows and decides what the window calls for |
| DataManager.Averages.ProcessValid | Course1-LinuxProgramming/XX-SensorMonitoringSystem/src/data_manager.c:63-152 | a valid reading keeps all sensors' fields those of their windows and raises what the specification expects |
| DataManager.Averages.Process | Course1-LinuxProgramming/XX-SensorMonitoringSystem/src/data_manager.c:55-152 | for every id from 1 to 49 the fields stay those of its window; a cold (hot) alert, with the window's average, exactly when the id is from 1 to 49, the window has at least 5 readings, its average is below 18 (above 40) and 60 s have passed since the sensor's last alert; any other id changes nothing |
| DataManager.Averages.Handle | Course1-LinuxProgramming/XX-SensorMonitoringSystem/src/data_manager.c:55-152 | what one reading adds to the alerts of the whole run |
| DataManager.Averages.Run | Course1-LinuxProgramming/XX-SensorMonitoringSystem/src/data_manager.c:34-153 | over any stream of readings from any sensors the fields of every id from 1 to 49 stay those of its window and the alerts raised are those of the specification |
| DataManager.AverageBetween | Course1-LinuxProgramming/XX-SensorMonitoringSystem/src/data_manager.c:101 | the window average lies between any lower and upper bound on the window's readings |
| DataManager.AlertHasWitness | Course1-LinuxProgramming/XX-SensorMonitoringSystem/src/data_manager.c:127-139 | a cold (hot) alert has a reading below 18 (above 40) in its window, so a window inside the range never alerts |
| DataManager.AlertsAreSpaced | Course1-LinuxProgramming/XX-SensorMonitoringSystem/src/data_manager.c:125 | in every run one sensor's alerts are at least 60 s apart, whatever the clock does |
| DataManager.AlertRateBounded | Course1-LinuxProgramming/XX-SensorMonitoringSystem/src/data_manager.c:125-151 | any span of T seconds holds at most T / 60 + 1 alerts of one sensor |
| StorageManager.PopWithRetries | Course1-LinuxProgramming/XX-SensorMonitoringSystem/src/storage_manager.c:126-141 | a reading from the first of at most three pops that succeeds, an exit from the first that fails after shutdown, a skipped iteration exactly when all three merely fail |
| StorageManager.Storage.Store | Course1-LinuxProgramming/XX-SensorMonitoringSystem/src/storage_manager.c:143-189 | a row exactly when some prepare, the bind and some step among at most three succeed; never two rows; each prepared statement is finalized within the iteration |
| PortMessage.ScanUndoesPrint | Course1-LinuxProgramming/0X-ChatApplication/client/client_socket.c:54 | scanning "PORT %d" undoes printing it, whatever follows the digits in the buffer |
| PortMessage.ScanReads | Course1-LinuxProgramming/0X-ChatApplication/server/server_socket.c:82-90 | blanks and a sign in front of the digits are read as sscanf reads them |
| PortMessage.ScanNeeds | Course1-LinuxProgramming/0X-ChatApplication/server/server_socket.c:82-90 | what scanning accepts begins with PORT and has a digit behind it |
| PortMessage.ValueOfDigits | Course1-LinuxProgramming/0X-ChatApplication/server/server_socket.c:66 | reading decimal digits undoes writing them |
| ChatPeer.Clients.Insert | Course1-LinuxProgramming/0X-ChatApplication/server/server_socket.c:92-107 | an entry is appended exactly when fewer than MAX_CLIENTS are held |
| ChatPeer.Clients.ClientSocketStart | Course1-LinuxProgramming/0X-ChatApplication/client/client_socket.c:45-86 | receive, then send, then insert; each failure's outcome and what was sent by then |
| ChatPeer.Clients.ServerStartClientThread | Course1-LinuxProgramming/0X-ChatApplication/server/server_socket.c:59-107 | sends before it receives, whatever the other side does; then the same insertion |
| ChatPeer.Exchange | Course1-LinuxProgramming/0X-ChatApplication/client/client_socket.c:45-77 | the two sides run against each other end with each other's listening port, unless their own table is full |
| Handshake.ConnsKept | Course1-LinuxProgramming/0X-ChatApplication/client/client_socket.c:45-77 | every step keeps each connection's two sides and messages consistent, so no scan ever fails |
| Handshake.ThreadsKept | Course1-LinuxProgramming/0X-ChatApplication/server/server_socket.c:146-155 | every step keeps: a serial thread is busy exactly with the one unfinished connection it took on |
| Handshake.TablesKept | Course1-LinuxProgramming/0X-ChatApplication/server/server_socket.c:92-107 | every step keeps: each table is the first ten of its peer's finished handshakes, each recorded once and with the port received |
| Handshake.NeverStuck | Course1-LinuxProgramming/0X-ChatApplication/server/server_socket.c:137-157 | for any number of peers and any pattern of connections a state with anything left to do has an enabled step |
| Handshake.ConnectsAsAsked | Course1-LinuxProgramming/0X-ChatApplication/client/client_socket.c:22-43 | in every run each peer keeps its port and has connected to exactly the peers it was asked to, in order, but for those still to come |
| Handshake.StepCostsOne | Course1-LinuxProgramming/0X-ChatApplication/server/server_socket.c:59-107 | every step does exactly one unit of a global amount of work |
| Handshake.EveryHandshakeCompletes | Course1-LinuxProgramming/0X-ChatApplication/client/client_socket.c:45-77 | a run cannot be continued if and only if it has exactly 8 steps per requested connection; then every peer has connected to exactly the peers it was asked to, and each side of each connection holds and has recorded the port the other listened on from the start |
| LogStream.TokensKeepText | Course1-LinuxProgramming/XX-SensorMonitoringSystem/src/log.c:83-99 | tokenising one chunk keeps all text but the newlines exactly when it contains no NUL |
| LogStream.ChunkingKeepsText | Course1-LinuxProgramming/XX-SensorMonitoringSystem/src/log.c:78-100 | under any chunking the texts of the entries put together are the stream without newlines if and only if no chunk contains a NUL |
| LogStream.TokensAreLines | Course1-LinuxProgramming/XX-SensorMonitoringSystem/src/log.c:83-99 | the entries of a chunk are its nonempty lines, however long, the last one with or without newline, up to the first NUL |
| LogStream.MessagesRecoveredExactly | Course1-LinuxProgramming/XX-SensorMonitoringSystem/src/log.c:148-154 | a chunk cut at message ends gives back exactly the messages written if and only if each is nonempty, newline-free and at most 254 characters long, the last one 255 |
| LogStream.BatchesRecovered | Course1-LinuxProgramming/XX-SensorMonitoringSystem/src/log.c:78-100 | however such messages are batched into chunks, all come out in order |
| LogProcess.SkipNewlines | Course1-LinuxProgramming/XX-SensorMonitoringSystem/src/log.c:83 | passing delimiters leaves the tokens ahead unchanged |
| LogProcess.FindBreak | Course1-LinuxProgramming/XX-SensorMonitoringSystem/src/log.c:83 | finds the first delimiter or NUL behind a token |
| LogProcess.NextToken | Course1-LinuxProgramming/XX-SensorMonitoringSystem/src/log.c:83-98 | cutting the buffer in place, with one NUL written behind the token and nothing else changed, yields the first token, and the rest of the tokens from where it stopped |
| LogProcess.LogWriter.Write | Course1-LinuxProgramming/XX-SensorMonitoringSystem/src/log.c:94 | an entry with the current number, which then advances |
| LogProcess.LogWriter.ProcessChunk | Course1-LinuxProgramming/XX-SensorMonitoringSystem/src/log.c:80-99 | every line of a chunk becomes an entry; numbers stay consecutive from 1 across chunks |
| LogProcess.LogWriter.Run | Course1-LinuxProgramming/XX-SensorMonitoringSystem/src/log.c:78-100 | the whole read loop writes the tokens of the chunks up to the first empty read |
| CharDevice.CharDev.Read | Course3-LinuxDeviceDriver/01-KernelModulesAndCharacterDeviceDrivers/Assignments/charDev.c:35-44 | returns the contents from the offset on, as far as asked for and as they reach; a fault changes nothing |
| CharDevice.CharDev.Write | Course3-LinuxDeviceDriver/01-KernelModulesAndCharacterDeviceDrivers/Assignments/charDev.c:46-58 | accepts all of the data or what fits into the 4096 bytes, puts exactly that at the offset on a page of zeros, and sets size and offset to its end; a fault still clears the page and leaves size and offset alone |
| CharDevice.CharDev.Perform | Course3-LinuxDeviceDriver/01-KernelModulesAndCharacterDeviceDrivers/Assignments/charDev.c:35-58 | every operation of an open file on the driver does and returns what the session model says |
| CharDevice.ConsistentAlways | Course3-LinuxDeviceDriver/01-KernelModulesAndCharacterDeviceDrivers/Assignments/charDev.c:50-57 | over any sequence of sessions offset <= size <= PAGE_SIZE |
| CharDevice.ContentsAreLastWrite | Course3-LinuxDeviceDriver/01-KernelModulesAndCharacterDeviceDrivers/Assignments/charDev.c:50-57 | over any sequence of sessions the page is that of the last write, failed or not; if it succeeded the contents are zeros up to its start followed by as much of its data as fits |
| CharDevice.PiecesArePrefix | Course3-LinuxDeviceDriver/01-KernelModulesAndCharacterDeviceDrivers/Assignments/charDev.c:39-43 | a session that only reads, in pieces of any sizes, has read the contents as far as it asked and as they reach |
| CharDevice.LaterSessionReadsBack | Course3-LinuxDeviceDriver/01-KernelModulesAndCharacterDeviceDrivers/Assignments/charDev.c:39-43 | what a successful write was given is read back in a later session, in pieces of any sizes: zeros up to its start followed by as much of its data as fits, as far as asked, and nothing beyond |
| ParallelSum.CheckSumResult | Course1-LinuxProgramming/04-Thread/Assignment/Ex6/sumArrMutex.c:31-39 | the sequential sum of the whole array |
| ParallelSum.LocalSum | Course1-LinuxProgramming/04-Thread/Assignment/Ex6/sumArrMutex.c:44-51 | the sum of one slice |
| ParallelSum.Partition | Course1-LinuxProgramming/04-Thread/Assignment/Ex6/sumArrMutex.c:61-66 | worker w's slice begins at w times the slice length |
| ParallelSum.InvKept | Course1-LinuxProgramming/04-Thread/Assignment/Ex6/sumArrMutex.c:52-54 | with the commit split into lock, load, store and unlock, every step of any worker keeps: the total is the sum of the committed slices |
| ParallelSum.NeverStuck | Course1-LinuxProgramming/04-Thread/Assignment/Ex6/sumArrMutex.c:44-56 | as long as a worker has not joined some worker can move |
| ParallelSum.EveryRunEnds | Course1-LinuxProgramming/04-Thread/Assignment/Ex6/sumArrMutex.c:44-56 | a run has at most slice + 5 steps per worker, and cannot be continued exactly when it has that many, which is when all workers have joined |
| ParallelSum.MainStarts | Course1-LinuxProgramming/04-Thread/Assignment/Ex6/sumArrMutex.c:58-81 | main's partition into K slices of length N / K is an initial state, for any array |
| ParallelSum.ParallelEqualsSequential | Course1-LinuxProgramming/04-Thread/Assignment/Ex6/sumArrMutex.c:75-90 | for any array and any interleaving the final total is the sum of the covered part; it is the sequential sum exactly when the uncovered rest sums to 0, so always when the slices cover the array, with slices of length N / K whenever K divides N; for generated values (1 to 1000) those are the only cases, and the total is at most 1000 times the length |
| ParallelSum.SumBounds | Course1-LinuxProgramming/04-Thread/Assignment/Ex6/sumArrMutex.c:13-20 | n generated values sum to between n and 1000 n |

## Left out

- Sockets, `select`, file and FIFO opening, SQLite itself, `fork`, time formatting and terminal output.
- The text of the warning about a dropped reading: it names the sensor of the slot after the tail has moved.
- `sbuffer_free` and everything after the drain loop: the threads are detached, so the model stops before the buffer is freed; readings still held then stay in the accounts as contents.
- `not_full`: it is signalled, but nothing waits on it.
- Failures of `pthread_cond_wait`, of signals and of unlocks, and null arguments.
- The locking inside the signal handler: the handler is one step that sets the flag.
- Partial reads of a reading, rounding of floats, wrap-around of clocks and of the entry counter.
- How much longer than its 10 s sleep the keep-alive loop takes from one sweep to the next: the period is a parameter of the timing results.
- ConnectionManager.Manager.HandleClientData: covers a sweep without evictions in between; the sweep of the client table with evictions interleaved is TableProtocol.SweepDespiteEvictions, which leaves the buffer out.
- ParallelSum.InvKept: sums are unbounded integers; ParallelSum.ParallelEqualsSequential bounds them by 1000 times the length, well inside the 64 bits the source uses.
- PortMessage.ScanUndoesPrint: scanned values are unbounded; the ports printed are 16-bit numbers.
- Chat user interface, relaying of messages, termination and removal from the chat table, thread creation failures after the handshake.
- Overlapping open files on the device, and loading and unloading of the module.
