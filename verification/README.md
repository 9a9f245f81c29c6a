# rs_ipc in Dafny

rs_ipc broadcasts messages between processes through one shared buffer. Writers and readers coordinate through two
packed 64-bit atomic words (`sequence_and_flags`, `readers_state`), a futex mutex and two ticket condition variables.
This project models that protocol and proves what it promises, for every interleaving of any number of threads.

## How it is organised

| files | content |
|---|---|
| `Words`, `Machine` | the decoded state words; the protocol as an interleaving step machine |
| `Exclusion`, `History`, `Content`, `Wakeups`, `Safety` | the invariants every step keeps, and their induction over runs |
| `Traces` | what the history flags of the buffer record, read off the run |
| `Theorems`, `Backpressure`, `Stranded`, `Progress`, `Publishing` | read/write exclusion, counters, sequence numbers, snapshots, wake-ups, backpressure, exactly who is left asleep, stop, drain, what a write call comes to |
| `Outcomes`, `Solo` | how calls end in every run, and what each call comes to from any state when its thread is left to run |
| `Order`, `Discipline`, `Delivery` | disciplined readers: order of receipt, exact counters, wait-all delivery |
| `Limits` | reachable states that show where the code's guarantees end |
| `Bits`, `Packed`, `PackedMachine`, `PackedRuns`, `SharedWords` | the bit-level words, the machine that runs on them and its equivalence with the record machine, the compare-and-swap loops under interference |
| `FutexLock`, `LockedMachine` | the three-state lock: exclusion, no forgotten sleeper; the protocol with that lock in place of its mutex |
| `Guards`, `AsyncWriter` | the Python file-like guards and the asynchronous write queue |

A machine state is the shared memory plus one record per thread. A step is one atomic action of one thread: a load, a
compare-and-swap, a fetch-or, a fetch-and, a store, one copied byte, a mutex acquire or release, a futex park or
wake-all. Payloads are copied and read byte by byte, so a torn read is a state the machine could reach. A thread stands
for one outstanding call or guard, so a program thread holding several guards is several threads. The concurrent core is
written as a relation on values because its steps interleave; the code that works alone on its own fields (the guards,
the queue handle, the compare-and-swap loops) is written as classes whose methods update fields and arrays.

Each invariant is proved in three layers: what one action does to the acting thread and to shared memory (no
quantifiers), what that means for every other thread, and induction over the run.

History fields (the publish history, released guards, receipts, and the flags `dirty`, `tainted`, `abandoned`) record the
past for the statements; no step reads them.

## Assumptions

- Atomics are sequentially consistent.
- At most 65535 threads exist, because `active_readers` is a `u16` not tied to the number of consumers.
- Condition-variable tickets are unbounded, that is, fewer than 2^32 notifications fall between a ticket and its wait.
- `u16` arithmetic wraps, as in a release build.
- `futex_wait` is an atomic compare-and-sleep that may return spuriously; `futex_wake_one` and wake-all act atomically.
- The mutex in the protocol machine is atomic; `LockedMachine.LockedRunRefines` shows that nothing is lost by that.

## What the code does not promise

- A writer waiting for consumption can be forgotten. A release that falls between its look at the counters
  (src/shared_message/mod.rs:86) and its first ticket (src/shared_message/mod.rs:90) is missed, and `remove_reader`
  (src/shared_message/mod.rs:340-347) lowers what it waits for without a notification. `Limits.FirstPassWakeupIsLost`
  and `Limits.RemovalIsMissed` reach such states. `Backpressure.ForgottenExactly` is the exact condition: with nobody left to wake the writer, what it
  waits for has happened if and only if it had happened by the later of its look and its ticket.
- A release notifies writers only when it leaves no reader active (src/shared_message/mod.rs:135). While another guard is
  held, a writer sleeps on although the consumption it waits for came after its look and its ticket:
  `Limits.RemainingReaderDelays`. The last reader to leave does notify (`Backpressure.LastReaderNotifies`), so such a writer
  always has an owed wake-up or a registered reader (`Backpressure.WriterIsAttended`).
- A reader that finds a write in progress sleeps, even in a non-blocking `read`, until that write ends
  (src/shared_message/mod.rs:277-281). An aborted write lowers the flag without notifying readers
  (src/shared_message/mod.rs:115-117), and a dropped write guard leaves the flag up; either can leave a reader asleep over an
  unread message with nobody about to wake it: `Limits.AbortStrandsReader`, `Limits.DropStrandsReader`. `Stranded.StrandedExactly` and
  `Stranded.OrphanedExactly` are the exact conditions, and `Stranded.UnreadIsAttended` is the guarantee outside them.
- The comments on `publish` say that it returns nothing when stopped (src/shared_message/guard.rs:57, rs_ipc.pyi:126). The
  code does not look at stop there: `Limits.PublishedAfterStop` publishes a message after stop. `Publishing.PublishExactly` is
  the exact condition: a `publish` appends its message if and only if the size fits the capacity
  (src/shared_message/guard.rs:60). `Progress.StopBounds` bounds what is published after stop.
- The documentation says that an unpublished write guard discards its data (rs_ipc.pyi:122-123). The code leaves the writing
  flag up over the half-written buffer, and a later aborted write can lower it. `Limits.SnapshotTears` reaches a read guard
  over such bytes; `Theorems.SnapshotHolds` says exactly when a guard's buffer is untouched since the publish.

## Model

| member | source | states |
|---|---|---|
| Theorems.GuardsExclude | src/shared_message/mod.rs:107-124 | in every state of every run no verified read guard exists while a write guard is granted, and never two write guards are granted, including stop-aborts, dropped write guards and failed verifications |
| Theorems.CountersConserved | src/shared_message/mod.rs:128-138 | active_readers is always the number of registered threads and never wraps; outside the publish window data_consumed is the number of released guards of the current message as a u16 |
| Theorems.SequenceClosedForm | src/shared_message/mod.rs:168-199 | after n publishes by any interleaving of writers the sequence is 0 for n = 0 and ((n-1) mod (2^62-1)) + 1 otherwise, no publish is lost, consecutive messages differ |
| Theorems.SnapshotHolds | src/shared_message/guard.rs:20-35 | while a read guard is held nothing is published and data() does not change; it is the payload published under the guard's sequence unless an aborted write lowered the flag over a buffer a dropped write guard left touched, which is settled when the guard is obtained and is the case exactly when the buffer was stored to since the publish |
| Traces.FlagsRecord | src/shared_message/mod.rs:113-117 | the history flags say what happened in the run: a store since the last publish, an abort over a stored-to buffer since then, a write guard given up unpublished |
| Theorems.SlicePublished | src/shared_message/mod.rs:238-255 | write_slice publishes exactly its data although it copies byte by byte while others move |
| Theorems.ReceivedInOrder | src/python/message.rs:275-305 | a reader that always passes its last seen sequence receives a subsequence of the publish history in publish order, none twice, each byte for byte, under any policy |
| Theorems.ReadReturnsNews | src/shared_message/mod.rs:258-297 | a guard is only given for a message other than the last seen one; a non-blocking read never waits for lack of new data |
| Outcomes.ReadReturns | src/shared_message/mod.rs:263-295 | read returns with a guard of the current message, clean and other than the last seen one, or without one, and then there is nothing new at that moment and stop is set or the call does not block; a failed verification makes it start over |
| Outcomes.WriteGivesUp | src/shared_message/mod.rs:76-124 | a write attempt that publishes nothing ends before its grant only because of stop, and after it only because a slice or a size does not fit or the guard is dropped, and releases the mutex |
| Outcomes.CountsAreCalls | src/shared_message/mod.rs:324-347 | in every state consumers is the number of completed add_reader calls less the completed remove_reader calls, calls at the u16 bounds changing nothing, and the target is the last one set |
| Solo.ReadAlone | src/shared_message/mod.rs:258-297 | from any state a read left to run returns nothing if there is nothing new and stop is set or it does not block, obtains a guard of the current message if that is another one and no write is in progress, and else sleeps on the current ticket |
| Solo.ReadOnAlone | src/shared_message/mod.rs:259-281 | a reader woken from its sleep comes to the same |
| Solo.ReadOutAlone | src/shared_message/mod.rs:128-148 | a guard that is read out and dropped yields the current data whole, takes one off active_readers, adds one to data_consumed, and notifies writers exactly if it was the last |
| Solo.StartWriteAlone | src/shared_message/mod.rs:76-124 | from any state with the mutex free start_write left to run refuses after stop, sleeps after a kick to the readers while consumption is missing, raises the flag and sleeps while readers are active, and else is granted |
| Solo.EnterOnAlone | src/shared_message/mod.rs:92-104 | a writer woken from the wait for consumption goes on, gives up because of stop with the mutex free, or sleeps again, by the counters as they are |
| Solo.DrainAlone | src/shared_message/mod.rs:112-122 | a drain is granted when no reader is active, else lowers the flag and frees the mutex after stop, else sleeps |
| Solo.SliceAlone | src/shared_message/mod.rs:238-255 | a granted write_slice left to run publishes exactly its data over the start of the buffer under the next sequence number, resets consumption, notifies the readers and frees the mutex; data that does not fit is not stored at all |
| Solo.StoreAlone | src/shared_message/guard.rs:48-50 | a write guard can make the start of the buffer any bytes |
| Solo.GuardPublishAlone | src/shared_message/guard.rs:59-65 | publish of any size that fits completes likewise; a larger one frees the mutex and leaves the flag up |
| Solo.StopAlone | src/shared_message/mod.rs:314-321 | stop sets the flag and notifies readers and writers |
| Solo.AddReaderAlone | src/shared_message/mod.rs:330-337 | one more consumer, or nothing at 65535 |
| Solo.RemoveReaderAlone | src/shared_message/mod.rs:340-347 | one consumer less, nobody notified, or nothing at zero |
| Solo.SetTargetAlone | src/shared_message/mod.rs:324-327 | the target becomes the count given, under the mutex |
| Theorems.WriterIsWoken | src/shared_message/mod.rs:111-122 | a writer asleep in the drain with no active reader, asleep in either wait loop with stop set, or asleep for consumption with no active reader after the counter moved since the later of its look and its ticket, is still owed a wake-all |
| Theorems.ReaderIsWoken | src/shared_message/mod.rs:259-275 | a reader asleep although there is a message other than the one it saw when it went to wait, or although stop was set while it had nothing new, is still owed a wake-all by a publisher, stopper or kicking writer |
| Stranded.StrandedExactly | src/shared_message/mod.rs:277-281 | for a reader asleep over an unread message with nobody owing it a wake-all: nothing was published since its load, and the flag it waits for is down if and only if an aborted write lowered it since and nobody raised it again, which takes a stop |
| Stranded.OrphanedExactly | src/shared_message/guard.rs:59-65 | the writing flag is up with no writer behind it if and only if a write guard was dropped and the flag it left has had nobody behind it since |
| Stranded.UnreadIsAttended | src/shared_message/mod.rs:258-297 | a reader asleep over an unread message is owed a wake-all or has a writer behind the flag, unless an aborted write lowered the flag since its load or a dropped write guard left it up |
| Theorems.DrainWaitsForSomeone | src/shared_message/mod.rs:111-122 | while a writer sleeps in the drain some thread is in the middle of an update, a notification or a verification, or holds a read guard: the drain never waits for nobody |
| Backpressure.PublishWaited | src/shared_message/mod.rs:83-105 | every publish that replaces a message comes after at least min(target, consumers) releases of it, counted over the run, the minimum taken at the writer's last look, under any policy and regardless of stop; the target cannot have changed since the look |
| Backpressure.ReleasedCounts | src/shared_message/mod.rs:128-138 | the history counter equals the number of guard releases since the last publish, counted over the run |
| Backpressure.ForgottenExactly | src/shared_message/mod.rs:86-104 | for a writer asleep for consumption with nobody owing a wake-up and no reader registered: what it waits for has happened if and only if it had happened when the later of its look and its ticket was taken, and then a release fell between the two or a reader was removed since the look |
| Backpressure.WriterIsAttended | src/shared_message/mod.rs:88-105 | a writer asleep for consumption that came after the later of its look and its ticket is owed a wake-all or has a registered reader to wait for |
| Backpressure.LastReaderNotifies | src/shared_message/mod.rs:134-137 | whoever takes the number of active readers to zero goes on to notify the writers |
| Progress.StopBounds | src/shared_message/mod.rs:314-321 | stop is permanent, also against racing swaps, and from a stopped state on at most as many messages are published as write attempts were past their initial stop check |
| Publishing.PublishExactly | src/shared_message/guard.rs:59-65 | publish appends the first size bytes of the buffer as they were at the call, if and only if size fits the capacity, whether or not stop is set before or meanwhile |
| Publishing.SlicesInOrder | src/shared_message/mod.rs:238-255 | a thread that writes fitting slices publishes a prefix of what it was asked to write, each once and in order; until stop only the slice in flight is missing, so a write_slice that returns has published or stop is set |
| Publishing.HandleInOrder | src/python/message.rs:199-237 | what the background threads of one handle have published in the shared history is a prefix of what its queues accepted, also across queues closed by stop and opened after it |
| Progress.DrainEnds | src/shared_message/mod.rs:107-122 | while the flag stays up, register, verify, unregister and release steps together number at most the total reader weight, at most three per thread, and at weight zero no reader is active |
| Progress.RegistersOnce | src/shared_message/mod.rs:277-295 | while the flag stays up no thread registers twice and no thread's weight grows |
| Discipline.CountersExact | src/python/message.rs:247-254 | if every reader passes its last seen sequence, data_consumed is exactly the number of readers finished with the current message, zero before the first, and never wraps, under any policy |
| Delivery.WaitAllDelivers | src/python/reader_wait_policy.rs:12-17 | with all readers registered before the first write, never removed and waited for, every reader has received the whole publish history or the history without its newest message, in order and exactly once, in every state, also across stop and sequence wrap |
| Delivery.PublisherWaited | src/shared_message/mod.rs:88-105 | in that setting whoever holds a write guard has waited until every reader finished with the message being replaced |
| Limits.FirstPassWakeupIsLost | src/shared_message/mod.rs:86-100 | a reachable state in which a writer sleeps for consumption that has happened, every other thread idle and nobody owing a wake-up |
| Limits.RemainingReaderDelays | src/shared_message/mod.rs:128-138 | a reachable state in which a writer sleeps although the consumption it waits for came after its look and its ticket, because another reader is still active |
| Limits.RemovalIsMissed | src/shared_message/mod.rs:340-347 | a reachable state in which a writer sleeps for the consumption of a reader that was removed, every other thread idle and nobody owing a wake-up |
| Limits.AbortStrandsReader | src/shared_message/mod.rs:113-118 | a reachable state in which a reader sleeps over an unread message after an aborted write, the flag down, every other thread idle and nobody owing a wake-up |
| Limits.DropStrandsReader | src/shared_message/guard.rs:59-65 | a reachable state, not stopped, in which a reader sleeps over an unread message under a flag a dropped write guard left up, the other thread idle and nobody owing a wake-up |
| Limits.PublishedAfterStop | src/shared_message/guard.rs:56-65 | from a reachable stopped state with an empty history the holder of a write guard publishes by its own steps alone |
| Limits.SnapshotTears | src/shared_message/mod.rs:113-118 | a reachable state in which a verified read guard delivers bytes that were never published, after a dropped write guard and an aborted write |
| Safety.SafeAlways | src/shared_message/mod.rs:350-355 | the mutex, flag, counter, history, content and wake-up invariants hold in every state of every run |
| Words.TargetConsumed | src/shared_message/packed.rs:64-67 | the number waited for is the smaller of target and consumers |
| Packed.UnpackPackSequence | src/shared_message/packed.rs:13-27 | decoding an encoded sequence state gives it back, for every 62-bit sequence and both flags |
| Packed.PackUnpackSequence | src/shared_message/packed.rs:13-27 | encoding a decoded word gives it back, for every 64-bit word |
| Packed.UnpackPackReaders | src/shared_message/packed.rs:46-62 | decoding encoded counters gives them back, for all u16 values |
| Packed.PackUnpackReaders | src/shared_message/packed.rs:46-62 | encoding decoded counters gives the word back, for every 64-bit word |
| Packed.FetchOps | src/shared_message/packed.rs:9-11 | the fetch-or and fetch-and with the flag masks change their flag and nothing else, on every 64-bit word |
| PackedRuns.PackedRunDecodes | src/shared_message/mod.rs:66-74 | every run over the two 64-bit words, with loads decoded, fetch-or and fetch-and on masks, and swaps that succeed only on equal words and may fail spuriously, decodes step by step to a run over the records |
| PackedRuns.StepDecodes | src/shared_message/mod.rs:201-224 | each such step on the words is one step on the decoded records, so a swap applies its closure or increment once, at one atomic point, to the fields as last written |
| PackedRuns.RecordRunEncodes | src/shared_message/packed.rs:13-62 | conversely every run over the records is the decoding of a run over the words |
| SharedWords.SharedMessageWords.UpdateReaderState | src/shared_message/mod.rs:201-224 | under any interference and spurious failures the loop ends having applied its closure exactly once, to the word as the others left it, every other field as last written; a panic changes nothing |
| SharedWords.SharedMessageWords.PublishSequence | src/shared_message/mod.rs:168-199 | under any interference the loop increments the sequence once, lowers the flag and keeps stopped as the others left it |
| SharedWords.SharedMessageWords.Stop | src/shared_message/mod.rs:314-316 | sets stopped and nothing else |
| SharedWords.SharedMessageWords.RaiseWriting | src/shared_message/mod.rs:107-109 | raises the writing flag and nothing else |
| SharedWords.SharedMessageWords.LowerWriting | src/shared_message/mod.rs:115-116 | lowers the writing flag and nothing else |
| FutexLock.LockAlways | src/sync/lock/futex_lock.rs:18-94 | in every state of every run at most one thread holds the lock, it is held exactly when the word is not unlocked, and if a thread sleeps then an awake thread is in the contended loop, owes a wake-up, or holds the lock under a contended word |
| FutexLock.FreeLockIsMinded | src/sync/lock/futex_lock.rs:49-75 | a free lock with sleepers always has an awake thread that is in the contended loop, or gives an owed wake-up to a sleeper; that thread or that sleeper then has the lock after at most three steps of its own |
| FutexLock.TakesFreeLock | src/sync/lock/futex_lock.rs:26-64 | wherever it is inside lock, every way of moving alone while the lock is free takes it in a fixed number of steps, at most three |
| FutexLock.SleepsOnHeldLock | src/sync/lock/futex_lock.rs:53-59 | a thread that finds the lock held can go to sleep, and does so on a contended word |
| FutexLock.TryLockExactly | src/sync/lock/futex_lock.rs:19-23 | try_lock succeeds exactly on a free lock and otherwise changes nothing |
| FutexLock.RefinesMutex | src/sync/lock/mutex.rs:11-15 | every step keeps the holder, takes a free lock for the acting thread, or frees the acting thread's lock |
| LockedMachine.LockedRunRefines | src/shared_message/mod.rs:81-81 | the protocol run over the futex lock, with every load, swap, sleep and wake-up of the lock a step of its own, simulates the protocol over an atomic mutex state by state, so every property of all runs carries over |
| LockedMachine.LockedMatches | src/sync/lock/mutex.rs:11-15 | conversely every step of the protocol over an atomic mutex is matched over the futex lock by steps of the same thread alone |
| LockedMachine.LockedAlways | src/sync/lock/mutex.rs:48-52 | in the protocol run over the futex lock a thread has the lock exactly where its program says so, never two have it, and no sleeper is forgotten |
| Guards.ReadGuard.Read | src/python/guards.rs:112-140 | delivers the bytes between the old and the new cursor, all that is left for None or a negative size, as many as asked for if there are that many, nothing past the end, where the cursor stays, and an error after release |
| Guards.SeekRoundTrip | src/python/guards.rs:121-149 | a chunk written at a position sought to and published comes back to a reader that seeks there, the bytes around it are untouched, and a reader that seeks to the end or past it gets nothing however often it reads and stays there |
| Guards.SpentGuardsRefuse | src/python/guards.rs:63-71 | a write guard after publish and a read guard after its with block refuse every later publish, write and read, and the bytes and cursors stay as they were |
| Guards.WriteGuard.Write | src/python/guards.rs:268-303 | replaces exactly the bytes under the chunk and advances the cursor, or refuses the chunk whole and changes nothing |
| Guards.WriteGuard.Publish | src/python/guards.rs:329-346 | publishes the given size or everything up to the cursor, nothing for a size beyond the capacity, and spends the guard either way |
| Guards.RoundTrip | src/python/guards.rs:112-149 | chunks that fit, written and published with the default size, come back through any mix of read sizes as the prefix whose length tell gives; complete if one read asks for everything, else as long as the sizes add up to |
| Guards.ReadsReachTheEnd | src/python/guards.rs:128-132 | one read of everything in a list of reads leaves the cursor at the end |
| Guards.ReadsCoverTheirSum | src/python/guards.rs:126-137 | reads of given sizes leave the cursor at their sum, capped at the end |
| AsyncWriter.Interleave | src/python/message.rs:199-237 | after any actions of any threads in any order the published payloads are a prefix of the accepted ones, also when stop closes the queue and later calls open a new one; until stop every write that fits is accepted and nothing accepted is missing |
| AsyncWriter.PythonSharedMessage.Write | src/python/message.rs:72-91 | the payload joins the end of the current queue's line, a new queue if there is none; refused exactly if it exceeds the capacity or the queue's thread is gone, which takes a stop |
| AsyncWriter.PythonSharedMessage.CloseQueue | src/python/message.rs:157-164 | the sender is gone, no queue is open any more, and whatever was in line stays in line |
| AsyncWriter.Shutdown | src/python/message.rs:157-164 | after stop a background thread left to run is gone once its current write and at most two more actions are done, having published nothing else |
| AsyncWriter.PythonSharedMessage.Receive | src/python/message.rs:217-219 | the oldest payload in line moves into the thread's hand and none is lost or reordered; the thread ends exactly on an empty line without a sender |
| AsyncWriter.PythonSharedMessage.BeginWrite | src/shared_message/mod.rs:76-79 | the payload in hand stays first in line, or is the one payload lost when stop is found |
| AsyncWriter.PythonSharedMessage.EndWrite | src/python/message.rs:220-226 | the payload in hand goes from the front of the line to the end of the published ones, so published and line together stay the same; a failure, possible only after stop as Publishing.SlicesInOrder shows, ends the thread |

## Left out

- Weak memory orderings: acquire and release are modelled as sequentially consistent accesses.
- Liveness under a scheduler: wake-ups are shown to be owed, the drain to be bounded, and every call to come to its end when left to run, not that every thread gets to move.
- Backpressure.PublishWaited: a lowered `consumers` counts only if it was there at the writer's last look, because the code does not look again.
- Theorems.SnapshotHolds: after a dropped write guard and an aborted write nothing is said about the bytes, because the code gives no guarantee then.
- The bounded numbers of spins in the lock and in `wait`: any number of loads is allowed.
- `notify_one`, which nothing calls; the futex system calls, and memory mapping (`src/memory_mapper.rs`): a zeroed buffer is taken as given.
- AsyncWriter.Interleave: the steps of `write_slice` between its stop check and its end are one action here; `Publishing.HandleInOrder` has them one by one.
- Update in place of the shared words and the buffer by the protocol's threads: the step machine gives their new values instead; `SharedWords` has the two loops in place.
- PyO3 glue: the GIL, the buffer protocol, strided copies, `last_written_sequence`, operation-mode checks and name validation.
- `read_async` taking messages off its queue, and `read_all`, which apply library queues and thread pools.
- Crashes of a process inside the protocol.
