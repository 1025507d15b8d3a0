# ArmOS, modelled in Dafny

ArmOS is a small Unix-like operating system written in C. This project models the parts of it
whose correctness is hardest to see from the code: protocols between concurrent threads, and
bounded data structures that must agree with a simple specification. Every statement below is a
theorem over all inputs, all interleavings or all reachable states of the model.

The concurrent parts are transition systems. Each has shared words, a program counter for every
one of an unbounded set of threads, and one step per atomic operation, locked region or system
call. A *run* is a sequence of states linked by such steps; the theorems hold at every index of
every run. Each protocol module has an invariant, lemmas that a step keeps it for the acting
thread and for the others, an induction over runs, and then the theorems. The kernel futex is a
compare-and-sleep and a wake of up to n sleepers.

| file | models |
|---|---|
| Mutex.dfy, Barrier.dfy, Cond.dfy, RwLock.dfy, Semaphore.dfy | the synchronisation objects of newlib-port/pthread_sync.c (POSIX.1-2017, System Interfaces, section 2.9) |
| Handles.dfy | their handles and slot tables |
| Threads.dfy, Once.dfy, RegistryLock.dfy | thread control blocks, pthread_once and the registry lock of newlib-port/pthread.c |
| DrmLifetime.dfy, DrmTables.dfy, DrmRect.dfy | reference counts, tables and geometry of kernel/drivers/drm.c |
| TtyInput.dfy, TtyReaders.dfy | the input ring and the sleep/wake handshake of kernel/drivers/tty.c |
| VirtioBlock.dfy | the request protocol of kernel/drivers/virtio_block.c (split virtqueues, section 2.6 of VIRTIO 1.1) |
| ConsoleScreen.dfy, ConsoleBytes.dfy, Console.dfy | the text console of kernel/drivers/display.c: what it should show, what the bytes sent to it mean, and the code that draws it |
| Timer.dfy | timerfd of kernel/drivers/event_timer.c |
| InputRing.dfy | the event ring of kernel/drivers/input.c |
| Path.dfy | path normalisation of newlib-port/syscalls.c |

`dafny verify dfyconfig.toml` checks the whole project.

## What the code does not keep

Some promises fail in the code as it stands. The model keeps the code as it is; a lemma gives the
failing case, and another says when the promise is kept, exactly where that could be had.

- A waiter of a rwlock or semaphore loads the sequence after the test, so a release in between is
  missed (RwLock.WaiterCanSleepOnAFreeLock, Semaphore.WaiterCanSleepOnAPostedValue). The state at the
  load decides, and RwLock.LoadIsSafeIff and Semaphore.LoadIsSafeIff give the exact condition on it. A
  load that comes before the next release always meets it (the two PromptSleeperIsNotStranded).
- A reader that only waiting writers keep out is not woken when they give up
  (RwLock.GatedReaderCanSleepOnAnOpenLock). The last of them giving up is the only step that strands a
  sleeping reader (RwLock.OnlyQuittingStrands).
- A condition signal sent without the mutex can wake a latecomer (Cond.SignalWithoutMutexCanMiss);
  Cond.SignalIsHeardIff gives the exact condition, which holds whenever the mutex is held
  (Cond.SignalReleasesAnEarlierWaiter).
- pthread_create stores the new thread's id into a block that may have been reaped
  (Threads.LateStoreCanHitAFreedBlock); nothing else touches a destroyed block
  (Threads.OnlyTheLateStoreTouchesAFreedBlock).
- A join that fails while it waits for the kernel leaves the block joined and never destroyed
  (Threads.FailedJoinCanOrphan); nothing else does (Threads.OrphanedExactlyByALateFailure), and it
  stays so (Threads.OrphanedForEver).
- 2^32 mappings of one DRM buffer wrap its counter (DrmLifetime.MappingWrapFreesAMappedBuffer); up to
  2^32 - 1 the lifetime theorem holds (DrmLifetime.NeverFreedWhileReferenced).
- Leaving canonical-echo mode without a flush can strand a terminal reader
  (TtyReaders.ModeChangeCanStrand; TtyReaders.ModeChangeIsSafeIff gives the exact condition).
- A canonical-echo line that fills the ring cannot be ended, so its reader sleeps on whatever ordinary
  characters follow (TtyReaders.FullLineStrandsItsReader). A line end is heard if and only if the ring
  has room for it (TtyReaders.LineEndIsHeardIff).
- With autowrap off a tab may never return (ConsoleScreen.TabCanHang; ConsoleScreen.TabReturnsIff and
  ConsoleScreen.TabAfterTextReturnsIff give the exact condition).
- ESC [ n B and C add n in 32 bits, so a large n moves up or left (ConsoleBytes.DownCanGoUp);
  ConsoleBytes.CursorGoesOn gives the exact condition.
- A timer decides by the sign of a 32-bit difference. A delay of more than 2^31 ticks fires at once
  (Timer.DelayFiresAtOnceIff). An absolute deadline 2^31 ticks old or older, though due, does not fire
  (Timer.OldDeadlineDoesNotFire, Timer.AbsoluteFiresAtOnceIff). Timer.SignIsRightIff and
  Timer.TimerFd.SetTime give the exact condition.
- A blocking read of an armed timer sleeps without a deadline if and only if the timer's 32-bit
  deadline is 0 (Timer.TimerFd.Read, with the input in Timer.SleepAcrossTheWrap).

The header comment of kernel/drivers/input.c:18 says that a slow consumer loses the oldest event. The
code drops a new ordinary event instead, and for a key or configuration event pushes out the first
ordinary one; the model follows the code.

## Model

| member | source | states |
|---|---|---|
| `Mutex.MutualExclusion` | newlib-port/pthread_sync.c:207-267 | In every state of every interleaving at most one thread has more locks than unlocks, and a holder is the owner on record with `recursion` equal to its locks less its unlocks |
| `Mutex.OwnerTestIsExact` | newlib-port/pthread_sync.c:207-228 | The owner field, read without any lock, names the calling thread if and only if that thread holds the mutex |
| `Mutex.LockAnswers` | newlib-port/pthread_sync.c:207-267 | In every interleaving a lock call by a holder gives 0 and one more level if and only if the mutex is recursive and below UINT_MAX, EAGAIN at UINT_MAX, EDEADLK if and only if it checks errors, and never 0 otherwise; a call by another thread gives 0 or EOWNERDEAD together with the mutex, or an error without it; EBUSY only to a trylock that found the word taken, ETIMEDOUT only to a timed call |
| `Mutex.DeadlineAnswers` | newlib-port/pthread_sync.c:182-245 | A deadline that passes before or in the wait gives ETIMEDOUT, and a failing clock or futex EINVAL, with the mutex untouched |
| `Mutex.UnlockAnswers` | newlib-port/pthread_sync.c:391-416 | Unlock gives EPERM if and only if the caller does not hold the mutex, and otherwise 0 and one level less |
| `Mutex.ConsistentAnswers` | newlib-port/pthread_sync.c:418-432 | pthread_mutex_consistent gives 0 if and only if the caller holds a robust mutex marked inconsistent, and the mark is then gone; otherwise EINVAL |
| `Mutex.NoStrandedWaiter` | newlib-port/pthread_sync.c:182-205 | While a thread sleeps on the word, the word is 2 or some awake thread still owes a wake or is about to exchange in 2, across fast path, try, timeout, unlock, robust release and the not-recoverable release |
| `Mutex.SleepersAtRestHaveAHolder` | newlib-port/pthread_sync.c:391-416 | With every thread idle, asleep or exited, a sleeper implies a holder, and one that has exited only if the mutex is not robust |
| `Mutex.DeathsAreAnnounced` | newlib-port/pthread_sync.c:434-451 | Deaths of owners equal the EOWNERDEAD notices given plus one if a notice is pending, and while it is pending nobody holds the mutex |
| `Mutex.DeathLeavesANotice` | newlib-port/pthread_sync.c:434-451 | A holder of a robust mutex that exits has left the owner-dead mark by the time it gives the word away, and no exited thread still has a robust mutex |
| `Mutex.NextAcquirerIsTold` | newlib-port/pthread_sync.c:247-266 | After an owner dies the next thread to acquire gets EOWNERDEAD, for every run up to that acquisition |
| `Mutex.UnrepairedUnlockLosesTheMutex` | newlib-port/pthread_sync.c:391-432 | From the moment a lock returns EOWNERDEAD until its receiver repairs the mutex or exits, the mutex is its own and marked inconsistent, or it is being given up; once the owner is cleared without repair it is not recoverable |
| `Mutex.ToldIsMarked` | newlib-port/pthread_sync.c:247-266 | A thread whose last lock gave EOWNERDEAD owns the mutex, and the mutex is marked inconsistent |
| `Mutex.LostForever` | newlib-port/pthread_sync.c:230-258 | Once not recoverable, for ever: nobody owns it and no lock call, blocked or later, is on its way to success |
| `Mutex.LaterLockIsRefused` | newlib-port/pthread_sync.c:207-232 | A lock call that begins once the mutex is lost gives ENOTRECOVERABLE and nothing else, whatever the other threads do |
| `Mutex.PendingLockFails` | newlib-port/pthread_sync.c:182-258 | A lock call under way when the mutex is lost gives ENOTRECOVERABLE, unless its own trylock gives EBUSY, its own deadline ETIMEDOUT, or its clock or futex EINVAL |
| `Mutex.LostLeavesNoSleeper` | newlib-port/pthread_sync.c:252-258 | When a lost mutex comes to rest nobody sleeps on it: each thread that backs out passes the wake on |
| `Mutex.RunKeepsInv` | newlib-port/pthread_sync.c:182-451 | The inductive invariant behind these, kept by every step of every thread |
| `Barrier.NobodyLeavesEarly` | newlib-port/pthread_sync.c:1067-1093 | No thread has left more rounds than any other has entered |
| `Barrier.OneSerialPerRound` | newlib-port/pthread_sync.c:1078-1084 | The serial value of a round goes to at most one thread, and to exactly one once all have left |
| `Barrier.NobodyLeftAsleep` | newlib-port/pthread_sync.c:1079-1092 | A sleeper waits for the round in progress, or the wake of its round is still to come |
| `Barrier.SleepersAtRestLackSomeone` | newlib-port/pthread_sync.c:1067-1093 | When nothing can move by itself and a thread sleeps, some participant has not come to that round, or left the barrier with a futex error before it |
| `Barrier.WrapIsHarmless` | newlib-port/pthread_sync.c:1076-1092 | The 32-bit generation word equals a waiter's snapshot if and only if its round is still open, however often the word has wrapped |
| `Barrier.RunInv` | newlib-port/pthread_sync.c:1067-1093 | The inductive invariant over all interleavings of the participants, futex errors included |
| `Cond.WaitReturnsHoldingTheMutex` | newlib-port/pthread_sync.c:612-670 | A wait returns with the mutex held, whether it gives 0, ETIMEDOUT, EOWNERDEAD or a futex error, if and only if neither its unlock nor its relock failed; a deadline refused before the wait leaves the mutex as it was at the call |
| `Cond.WaitAnswers` | newlib-port/pthread_sync.c:612-670 | In every interleaving a wait called without the mutex gives the unlock error, unless its deadline is refused first, and one called with it never does; ETIMEDOUT only to a timed wait |
| `Cond.SleepAnswers` | newlib-port/pthread_sync.c:654-669 | A sleeper whose deadline ends its sleep gives ETIMEDOUT and one that is woken or interrupted 0, unless the relock gives EOWNERDEAD or fails |
| `Cond.DeadlineAnswers` | newlib-port/pthread_sync.c:627-669 | A deadline or an error before the wait, in it or in the relock has an answer of its own |
| `Cond.WaitersIsExact` | newlib-port/pthread_sync.c:634-660 | The waiters counter is zero if and only if no thread is between its two updates of the counter |
| `Cond.SleepsIffWholeWraps` | newlib-port/pthread_sync.c:634-654 | A waiter falls asleep if and only if the sequence moved by a multiple of 2^32 since its snapshot |
| `Cond.BroadcastReachesEveryone` | newlib-port/pthread_sync.c:601-610 | Once a broadcast has made its wake call, and for ever after, no thread whose snapshot preceded its increment sleeps (waits shorter than 2^32 increments) |
| `Cond.SignalReleasesAnEarlierWaiter` | newlib-port/pthread_sync.c:590-599 | A signal sent with the mutex held releases a thread that was blocked before it, if there is one |
| `Cond.SignalIsHeardIff` | newlib-port/pthread_sync.c:590-599 | With or without the mutex, a signal is sure to release a thread blocked before it if and only if such a thread has yet to make its futex call, or nobody who blocked after the increment is asleep |
| `Cond.ReleasedStaysAwake` | newlib-port/pthread_sync.c:643-660 | A thread released before its futex call never sleeps in that wait |
| `Cond.SignalWithoutMutexCanMiss` | newlib-port/pthread_sync.c:590-599 | Counterexample: a signal sent without the mutex wakes a latecomer while an earlier waiter sleeps on |
| `RwLock.StateIsExact` | newlib-port/pthread_sync.c:802-956 | State is -1 if and only if a writer and no reader holds the lock, and is otherwise the number of read locks held |
| `RwLock.WriterTestIsExact` | newlib-port/pthread_sync.c:858-880 | The writer field, read without a lock, names a thread outside a transition if and only if it has the write lock |
| `RwLock.ReadAnswers` | newlib-port/pthread_sync.c:802-846 | In every interleaving rdlock gives 0 together with one more read lock, and only if no writer was waiting at some point of the call; EBUSY only to a try that meets a writer, EAGAIN only if the reader count was at INT32_MAX, ETIMEDOUT only to a timed call |
| `RwLock.WriteAnswers` | newlib-port/pthread_sync.c:848-900 | In every interleaving wrlock gives EDEADLK if and only if the caller has the write lock, 0 together with the write lock, EBUSY only to a try that met a lock that was taken, ETIMEDOUT only to a timed call, and every error without the lock |
| `RwLock.UnlockAnswers` | newlib-port/pthread_sync.c:934-972 | Unlock gives 0 and takes back the write lock, or exactly one read lock |
| `RwLock.DeadlineAnswers` | newlib-port/pthread_sync.c:802-900 | A deadline that passes in the wait leads to ETIMEDOUT, and a failing clock or futex to its error |
| `RwLock.WaitingWritersIsExact` | newlib-port/pthread_sync.c:870-900 | waiting_writers is the number of writers inside the acquire loop, on every way out of it |
| `RwLock.LoadIsSafeIff` | newlib-port/pthread_sync.c:802-900 | For every run up to a reader's or writer's load of the sequence: no continuation leaves it asleep with the lock open to it and no release about to advance the sequence or wake, if and only if at the load the lock refuses it or a release is about to advance the sequence; counting queued writers as a reason for a reader, the same of the continuations in which no writer gives up (fewer than 2^32 releases between load and futex call) |
| `RwLock.PromptSleeperIsNotStranded` | newlib-port/pthread_sync.c:802-900 | A load that comes before any release has followed the thread's being turned away is safe, also for a reader that only waiting writers turned away as long as none has given up since |
| `RwLock.OnlyQuittingStrands` | newlib-port/pthread_sync.c:821-900 | A step strands a sleeping reader if and only if it is the last queued writer giving up while the lock is open to readers and no release is about to advance the sequence or wake |
| `RwLock.WaiterCanSleepOnAFreeLock` | newlib-port/pthread_sync.c:821-841 | Counterexample: the sequence is loaded after the state, so a release in between leaves a reader asleep on a free lock |
| `RwLock.GatedReaderCanSleepOnAnOpenLock` | newlib-port/pthread_sync.c:821-841 | Counterexample: a reader turned away by a trylock writer that gives up sleeps though the lock is open to readers, with no writer queued and no wake to come |
| `Semaphore.ValueIsConserved` | newlib-port/pthread_sync.c:1213-1307 | The value is the initial value plus posts less successful waits, and at most SEM_VALUE_MAX, at every step |
| `Semaphore.CallsAnswer` | newlib-port/pthread_sync.c:1213-1307 | A wait that gives 0 takes exactly one unit; EAGAIN only to a trywait that found none, ETIMEDOUT only to a timed wait, EOVERFLOW only to a post at SEM_VALUE_MAX, each without changing the value |
| `Semaphore.PostAnswers` | newlib-port/pthread_sync.c:1287-1307 | A post that gives 0 has raised the value by one; EOVERFLOW is its only other answer |
| `Semaphore.DeadlineAnswers` | newlib-port/pthread_sync.c:1242-1264 | A deadline that passes in the wait leads to ETIMEDOUT, and a failing futex to its error |
| `Semaphore.WaitersIsExact` | newlib-port/pthread_sync.c:1242-1264 | The waiters counter equals the number of threads between its two updates, in every run of fewer than 2^32 threads |
| `Semaphore.LoadIsSafeIff` | newlib-port/pthread_sync.c:1231-1307 | For every run up to a waiter's load of the sequence: no continuation leaves it asleep on a unit that nobody will take or announce, if and only if at the load the value is at most the posters yet to advance the sequence, plus the waiters on their way to the value, plus the lesser of the wakes to come and the sleepers without a deadline (fewer than 2^32 posts between load and futex call) |
| `Semaphore.PromptSleeperIsNotStranded` | newlib-port/pthread_sync.c:1231-1264 | A waiter whose load comes before any post has followed its test never sleeps on a unit that nobody will take or announce, and with everything at rest the value is zero |
| `Semaphore.WaiterCanSleepOnAPostedValue` | newlib-port/pthread_sync.c:1232-1255 | Counterexample: a post between the value test and the sequence load leaves a waiter asleep on a positive value |
| `Handles.RoundTripIff` | newlib-port/pthread_sync.c:89-104 | Decoding a made handle gives back slot and generation if and only if the generation is in 1 to 2^24 - 1 |
| `Handles.HandlesDiffer` | newlib-port/pthread_sync.c:89-92 | Distinct objects of representable generations have distinct handles |
| `Handles.StaleHandle` | newlib-port/pthread_sync.c:106-110 | The handle of an earlier generation of a slot differs from that of a later representable one |
| `Handles.Table.Resolve` | newlib-port/pthread_sync.c:158-180 | A handle is accepted if and only if it names a slot in use under its current, representable generation |
| `Handles.Table.Allocate` | newlib-port/pthread_sync.c:125-156 | The first free slot is taken under its next generation, every other slot is untouched, and the handle resolves if and only if that generation fits 24 bits |
| `Threads.DestroyedOnceAfterTheEnd` | newlib-port/pthread.c:116-153 | A control block is destroyed at most once, only out of the table, only after `finished` is set and the kernel has cleared alive_tid (or the clone failed), and is never both joined and detached |
| `Threads.OneDestroyer` | newlib-port/pthread.c:589-644 | Of a failing create, the joiner and the reapers at most one thread is on its way to destroy a block |
| `Threads.JoinAnswers` | newlib-port/pthread.c:589-644 | A join gives 0 only after it has destroyed, for the first time, the block of a thread that has finished and whose id the kernel has cleared; ESRCH only for an id the registry does not have, EINVAL only after another join or detach |
| `Threads.DetachAnswers` | newlib-port/pthread.c:646-666 | A detach gives ESRCH if and only if the registry does not have the id, EINVAL if and only if another join or detach was first, and otherwise marks the thread |
| `Threads.SelfJoinDeadlocks` | newlib-port/pthread.c:589-600 | A join is refused at once, with EDEADLK, if and only if it is of the caller itself |
| `Threads.OnlyTheLateStoreTouchesAFreedBlock` | newlib-port/pthread.c:589-686 | No step of any thread touches a destroyed block, except pthread_create's store of the new id, and then only of a detached or joined thread |
| `Threads.LateStoreCanHitAFreedBlock` | newlib-port/pthread.c:558-569 | Counterexample: a thread created detached can be reaped by another thread before pthread_create stores its id |
| `Threads.JoinersAreWoken` | newlib-port/pthread.c:618-635 | A joiner sleeps on a finished (cleared) thread only while that thread's own wake is still to come |
| `Threads.OrphanedExactlyByALateFailure` | newlib-port/pthread.c:626-635 | A step leaves a joined block without a destroyer if and only if it is a join whose second wait fails |
| `Threads.FailedJoinCanOrphan` | newlib-port/pthread.c:626-635 | A run in which a join meets a finished thread whose id the kernel has not cleared, its wait fails, and the block is orphaned |
| `Threads.OrphanedForEver` | newlib-port/pthread.c:597-616 | A joined block without a destroyer is never destroyed, in any continuation |
| `Threads.RunInv` | newlib-port/pthread.c:468-686 | The inductive invariant over create, join, detach, exit and reaping |
| `Once.RunsOnceBeforeAnyReturn` | newlib-port/pthread.c:697-727 | The routine begins at most once, and a call that has returned did so after the routine returned |
| `Once.SleepersWaitForTheRoutine` | newlib-port/pthread.c:716-726 | A sleeper in pthread_once waits for a routine in progress, or the wake-all is about to come |
| `RegistryLock.MutualExclusion` | newlib-port/pthread.c:49-66 | The registry lock is held by at most one thread |
| `RegistryLock.NoStrandedSleeper` | newlib-port/pthread.c:49-66 | A sleeper on the registry lock implies a holder, or an awake thread about to take the lock or to wake one |
| `DrmLifetime.CountsAreExact` | kernel/drivers/drm.c:290-356 | owner_count, export_count and mapping_count are the table entries, open export files and mappings plus the references in transit |
| `DrmLifetime.NeverFreedWhileReferenced` | kernel/drivers/drm.c:251-288 | For every order of create, destroy, close, import, export, map and unmap the buffer is freed at most once, by one task, and not while a table entry, export file, mapping or reference in transit exists (up to 2^32 - 1 mappings) |
| `DrmLifetime.FreedOnceUnreferenced` | kernel/drivers/drm.c:268-288 | When every task is idle and nothing refers to the buffer it has been freed exactly once |
| `DrmLifetime.NoUseAfterFree` | kernel/drivers/drm.c:1184-1217 | No step of any task touches a freed buffer, and nobody else reaches it while it is being freed |
| `DrmLifetime.ImportFindsItLive` | kernel/drivers/drm.c:1363-1432 | An import never finds the buffer retired or unregistered, because of the export file it holds |
| `DrmLifetime.CallsTakeEffect` | kernel/drivers/drm.c:1184-1430 | Destroy, close, export, import and map do their work in every run unless the handle is missing or already there, a counter is full or something outside fails; the retired flag refuses nobody |
| `DrmLifetime.CountedIsEntered` | kernel/drivers/drm.c:1184-1430 | What an import, a creation or an export has counted is then entered in the table or the export file |
| `DrmLifetime.RetiredForGood` | kernel/drivers/drm.c:305-356 | A retired buffer stays retired in every continuation |
| `DrmLifetime.MappingWrapFreesAMappedBuffer` | kernel/drivers/drm.c:2029-2032 | Counterexample: mapping_count has no overflow test, so 2^32 mappings let the buffer be freed while mapped |
| `DrmLifetime.RunInv` | kernel/drivers/drm.c:251-356 | The inductive invariant over all interleavings |
| `DrmTables.SwapRemoveIsRemoval` | kernel/drivers/drm.c:1210-1211 | Swap-removal takes out exactly the element at the index, as a multiset |
| `DrmTables.SwapRemoveNoDup` | kernel/drivers/drm.c:998-1000 | Swap-removal from a duplicate-free table keeps it duplicate-free and removes exactly that element |
| `DrmTables.FileState.constructor` | kernel/drivers/drm.c:87-101 | A new file state has empty, consistent tables |
| `DrmTables.FileState.HasContext` | kernel/drivers/drm.c:199-211 | Found if and only if the context is in the table, at its first index |
| `DrmTables.FileState.FindBuffer` | kernel/drivers/drm.c:213-226 | Found if and only if the handle is in the table, at its first index |
| `DrmTables.FileState.FindAttachment` | kernel/drivers/drm.c:228-237 | -1 if and only if the pair is not attached, otherwise its index |
| `DrmTables.FileState.AddContext` | kernel/drivers/drm.c:931-944 | Appends the id, or fails with the table unchanged; attachments stay a duplicate-free subset of contexts x buffers |
| `DrmTables.FileState.AddBuffer` | kernel/drivers/drm.c:1397-1409 | Appends the handle, refusing a full table and an import of a handle already there |
| `DrmTables.FileState.DetachAll` | kernel/drivers/drm.c:988-1001 | The in-place loop removes exactly the attachments of the context |
| `DrmTables.FileState.ContextDestroy` | kernel/drivers/drm.c:963-1011 | All attachments of the context go even if the backend then refuses; the context goes only if it agrees; consistency is kept on every path |
| `DrmTables.FileState.BufferDestroy` | kernel/drivers/drm.c:1184-1217 | Refused if and only if unknown or attached; otherwise exactly that handle leaves the table |
| `DrmTables.FileState.Attach` | kernel/drivers/drm.c:1434-1479 | Every outcome, and the attachments afterwards, with no duplicate and no dangling pair |
| `DrmTables.FileState.Detach` | kernel/drivers/drm.c:1480-1497 | Every outcome, and exactly that pair leaves the table |
| `DrmTables.TriedAreDistinct` | kernel/drivers/drm.c:372-379 | Up to 0x7ffff successive candidates of the wrapping counter are distinct |
| `DrmTables.SomeTryIsFree` | kernel/drivers/drm.c:371-393 | With a free slot, as many candidates as there are slots cannot all be in use |
| `DrmTables.Registry.Register` | kernel/drivers/drm.c:358-399 | Fails if and only if the table is full; otherwise finds the first unused candidate in 1 to 0x7ffff within 256 probes and stores it in a free slot |
| `DrmTables.Registry.Unregister` | kernel/drivers/drm.c:401-413 | Exactly that handle becomes unused |
| `DrmTables.BufferCreate` | kernel/drivers/drm.c:1065-1180 | Across both tables a file's handles stay distinct and registered: on success, when either table is full, when the backend is missing or fails, and when the reply cannot be copied out, where both tables are as before |
| `DrmRect.CreateCheckIsExact` | kernel/drivers/drm.c:1031-1063 | The creation checks, in 64-bit arithmetic, accept exactly the descriptions whose rows fit the stride and whose rows fit the size |
| `DrmRect.Buffer.constructor` | kernel/drivers/drm.c:1103-1118 | A buffer that passed the checks has a page for every byte |
| `DrmRect.Buffer.SetMetadata` | kernel/drivers/drm.c:1248-1304 | Succeeds if and only if the geometry is already this, or is unset, unexported and fits; keeps the geometry sound |
| `DrmRect.Buffer.CleanRect` | kernel/drivers/drm.c:1499-1525 | Every call stays in a page of the buffer, and a byte is cleaned if and only if its line, address / stride, is in [y, y + height) and its pixel, address % stride / 4, in [x, x + width); each once |
| `DrmRect.Buffer.CleanRow` | kernel/drivers/drm.c:1510-1523 | The inner loop covers one row page by page, ends, and stays inside the pages |
| `DrmRect.OffsetIsExact` | kernel/drivers/drm.c:1507-1508 | The 32-bit and 64-bit operations give line * stride + 4x, and the row ends inside the buffer |
| `DrmRect.RectBytesAt` | kernel/drivers/drm.c:1499-1525 | Byte k of row r of the rectangle is at (y + r) * stride + 4x + k, and there are height * 4 * width of them |
| `DrmRect.RectBytesIncrease` | kernel/drivers/drm.c:1499-1525 | The addresses increase strictly, so no byte is cleaned twice |
| `TtyInput.EditKeepsLines` | kernel/drivers/tty.c:974-1027 | Erase, word erase and kill shorten only the line in progress and keep every completed line |
| `TtyInput.EraseUndoesTyping` | kernel/drivers/tty.c:984-1024 | Backspace takes back the character typed last, and no line end |
| `TtyInput.KillUndoesTheLine` | kernel/drivers/tty.c:984-1024 | Kill takes back exactly the text of the open line |
| `TtyInput.WordEraseUndoesTheWord` | kernel/drivers/tty.c:984-1024 | Word erase takes back exactly the last word together with the blanks after it |
| `TtyInput.DropWhileIsLongest` | kernel/drivers/tty.c:995-1024 | What an edit drops is the longest tail of which its test holds |
| `TtyInput.Ring.Put` | kernel/drivers/tty.c:1040-1050 | Appends to the queue unless 511 characters are queued, with wrap-around of the indices |
| `TtyInput.Ring.Take` | kernel/drivers/tty.c:1294-1298 | Removes and returns the oldest character |
| `TtyInput.Ring.Erase` | kernel/drivers/tty.c:984-993 | The in-place edit is the erase of the last character of the line |
| `TtyInput.Ring.Kill` | kernel/drivers/tty.c:995-1004 | The in-place loop is the erase of the line in progress |
| `TtyInput.Ring.WordErase` | kernel/drivers/tty.c:1006-1024 | The two in-place loops are the erase of the last word and the blanks after it |
| `TtyInput.Ring.HasLine` | kernel/drivers/tty.c:1155-1163 | True if and only if the queue holds a line end |
| `TtyReaders.NoSleeperOnInput` | kernel/drivers/tty.c:1187-1291 | For fixed termios and any interleaving of input, flushes, signals, timeouts and competing readers: a reader asleep in schedule has a wake on its way, or is registered with no end of file and nothing for it (no character, or in canonical-echo mode no line end) |
| `TtyReaders.CharactersKeepTheirOrder` | kernel/drivers/tty.c:1171-1324 | Outside canonical-echo mode, for fixed termios: what readers have got followed by what is queued is every ordinary character that found room, in order, less what a flush discarded |
| `TtyReaders.QueueIsClean` | kernel/drivers/tty.c:883-972 | In every run the queue holds no signal character under ISIG, no editing or end-of-file character in canonical-echo mode, and no carriage return or newline that IGNCR, ICRNL or INLCR should have removed or changed |
| `TtyReaders.OrdinaryIsQueued` | kernel/drivers/tty.c:1029-1050 | An ordinary character goes behind the others, as the modes map it, if there is room |
| `TtyReaders.EditCharacters` | kernel/drivers/tty.c:974-1027 | The erase, kill and word-erase characters do to the queue what their names say, and a signal character nothing |
| `TtyReaders.EndOfFileIsHeard` | kernel/drivers/tty.c:958-972 | The end-of-file character wakes the sleeping canonical-echo reader and leaves the queue alone |
| `TtyReaders.EndOfFileIsReadOnce` | kernel/drivers/tty.c:1200-1212 | A reader that finds nothing but the end of file returns, and the end of file is gone |
| `TtyReaders.OneRegisteredSleeper` | kernel/drivers/tty.c:1230-1241 | At most one reader sleeps without a wake on its way |
| `TtyReaders.ModeChangeIsSafeIff` | kernel/drivers/tty.c:555-591 | A change of modes without a flush keeps that promise if and only if it does not leave canonical-echo mode over a line in progress that a reader waits on |
| `TtyReaders.ModeChangeCanStrand` | kernel/drivers/tty.c:574-588 | Counterexample: such a change leaves a reader asleep on a queued character |
| `TtyReaders.FullLineStrandsItsReader` | kernel/drivers/tty.c:1040-1044 | For every line that fills the ring and every string of ordinary characters typed after it, newlines included: there is a run in which each is typed in turn and the reader of the line sleeps throughout, no wake on its way |
| `TtyReaders.LineEndIsHeardIff` | kernel/drivers/tty.c:1040-1065 | In every run, a character that ends the line takes the sleeping canonical-echo reader to be woken if and only if the ring has room for it |
| `TtyReaders.RunInv` | kernel/drivers/tty.c:1187-1291 | The inductive invariant over all interleavings |
| `VirtioBlock.OneHolder` | kernel/drivers/virtio_block.c:104-146 | At most one task is between acquire and release |
| `VirtioBlock.DeviceOwnsItsPages` | kernel/drivers/virtio_block.c:632-847 | The device never has a chain whose pages were freed, and at most one: that of the request in flight, unless the driver has failed |
| `VirtioBlock.IdleQueueIsEmpty` | kernel/drivers/virtio_block.c:698-745 | Idle and not failed: nothing is outstanding, avail.idx equals last_used_idx mod 2^16, and every DMA page has been freed |
| `VirtioBlock.FreedPagesAreOurs` | kernel/drivers/virtio_block.c:853-1022 | Pages are freed only if their chain was never published or has come back, even when the device posts stray used elements |
| `VirtioBlock.NothingPublishedAfterFailure` | kernel/drivers/virtio_block.c:632-648 | After a failure no chain is published and no page is allocated or freed |
| `VirtioBlock.AcceptedWasReturned` | kernel/drivers/virtio_block.c:726-744 | If the used index moved by one mod 2^16 and the slot names descriptor 0 then the chain has come back, even if the index went round |
| `VirtioBlock.CompletionIsGenuine` | kernel/drivers/virtio_block.c:473-525 | With a conforming device and handlers not delayed by 2^16 requests, a request that stops waiting finds exactly one new used element, its own |
| `VirtioBlock.SuccessIsTheDevices` | kernel/drivers/virtio_block.c:746-757 | In every run a request succeeds only if the device returned its chain with status VIRTIO_BLK_S_OK, and one that fails on a driver still in service was returned with another status |
| `VirtioBlock.StatusDecides` | kernel/drivers/virtio_block.c:727-757 | With a device that keeps to the rules a request whose wait has ended succeeds if and only if its status is VIRTIO_BLK_S_OK, and the driver stays in service |
| `VirtioBlock.LegacyLayoutIsSound` | kernel/drivers/virtio_block.c:197-245 | For every queue size the descriptor table, avail ring and used ring are aligned, disjoint and inside the allocated pages |
| `VirtioBlock.RunInv` | kernel/drivers/virtio_block.c:632-1029 | The inductive invariant over tasks, device and interrupt handlers |
| `ConsoleScreen.FeedWellFormed` | kernel/drivers/display.c:993-1066 | Every byte keeps the grid's shape and the cursor inside it, whatever 32-bit parameters an escape sequence carries |
| `ConsoleScreen.TabReturnsIff` | kernel/drivers/display.c:1340-1346 | The tab loop ends if and only if autowrap is on, a multiple of eight lies ahead in the row, or the cursor waits to wrap |
| `ConsoleScreen.TabAfterTextReturnsIff` | kernel/drivers/display.c:1340-1346 | With the parser at rest: after ESC [ ? 7 l and any text of any length, the console returns from a tab if and only if a multiple of eight lies ahead of where the text ends, or the last column is one, or the cursor waits there to wrap |
| `ConsoleScreen.TabCanHang` | kernel/drivers/display.c:1340-1346 | On 25 by 80 the bytes ESC [ ? 7 l, 72 characters from the start of a line and a tab never return |
| `ConsoleScreen.FeedAll` | kernel/drivers/display.c:1356-1361 | The screen after a string of bytes is well formed |
| `ConsoleScreen.TextIsWritten` | kernel/drivers/display.c:836-857 | Printable text that ends before the last column replaces exactly those cells of the row, in the pen's colours, and moves the cursor behind it |
| `ConsoleScreen.DigitsAreANumber` | kernel/drivers/display.c:1034-1041 | The decimal digits of any parameter of a control sequence stand for their number modulo 2^32, and the parameter counts as given |
| `ConsoleScreen.SavedCursorReturns` | kernel/drivers/display.c:789-805 | After ESC 7, any bytes that do not save again (text, scrolling, erasing, moving), and ESC 8, the cursor is where it was |
| `ConsoleBytes.CursorIsPut` | kernel/drivers/display.c:928-943 | ESC [ r ; c H or f, in decimal: the cursor goes to column min(max(c, 1), cols) - 1 and row min(max(r, 1), rows) - 1, and nothing else changes |
| `ConsoleBytes.CursorGoesBack` | kernel/drivers/display.c:904-927 | ESC [ n A and D move up and left by max(n, 1) and stop at the edge, and nothing else changes |
| `ConsoleBytes.CursorGoesOn` | kernel/drivers/display.c:908-922 | ESC [ n B and C move down and right by max(n, 1) and stop at the edge, unless the 32-bit sum wraps |
| `ConsoleBytes.DownCanGoUp` | kernel/drivers/display.c:908-914 | Counterexample: ESC [ 4294967295 B from the second line moves to the first |
| `ConsoleBytes.LineIsErased` | kernel/drivers/display.c:951-958 | ESC [ n K, cell by cell: from the cursor on, up to it, or the whole line is blank in the pen's colours, and every other cell stays |
| `ConsoleBytes.ScreenIsErased` | kernel/drivers/display.c:942-950 | ESC [ n J, cell by cell: from the cursor to the end, from the start to the cursor, or all of it with the cursor sent home; every other cell stays |
| `ConsoleBytes.NewlineMovesOn` | kernel/drivers/display.c:1319-1336 | A newline goes to the start of the next line; on the last one every line moves up, the first into the history, and a blank line comes in |
| `ConsoleBytes.ReturnGoesToTheStart` | kernel/drivers/display.c:1319-1336 | A carriage return moves the cursor to the start of its line and changes nothing else |
| `ConsoleBytes.BackspaceErases` | kernel/drivers/display.c:1319-1336 | Backspace and delete blank the cell before the cursor and step onto it, and every other cell stays |
| `ConsoleBytes.TabWritesBlanks` | kernel/drivers/display.c:1340-1346 | A tab writes blanks up to the next multiple of eight, if there is one in the row |
| `ConsoleBytes.TextWraps` | kernel/drivers/display.c:836-857 | At the right margin text goes on at the start of the next line, cell by cell, and the screen moves up if there is none |
| `ConsoleBytes.ResetClears` | kernel/drivers/display.c:1018-1023 | ESC c blanks every cell in the default colours and sends the cursor home |
| `ConsoleBytes.PaletteIsAnsi` | kernel/drivers/display.c:166-187 | The two palettes are the ANSI ones: a bit each for red, green and blue, dark yellow being brown |
| `ConsoleBytes.ColourIsSet` | kernel/drivers/display.c:859-897 | ESC [ n m sets foreground, background or reverse as the ANSI code n says, and nothing else |
| `ConsoleBytes.BoldBrightens` | kernel/drivers/display.c:859-897 | ESC [ 1 ; n m makes a dark foreground n bright |
| `ConsoleBytes.ModeIsSet` | kernel/drivers/display.c:968-979 | ESC [ n h and l, private or not, switch wrapping for 7 and the cursor for 25, and nothing else |
| `ConsoleBytes.SavedCursorComesBack` | kernel/drivers/display.c:962-967 | After ESC [ s, any bytes that do not save again, and ESC [ u, the cursor is where it was |
| `Console.Console.constructor` | kernel/drivers/display.c:1128-1140 | A fresh console shows the blank screen |
| `Console.Console.EraseCursor` | kernel/drivers/display.c:807-827 | The bar goes and the frame still shows the screen |
| `Console.Console.PutCell` | kernel/drivers/display.c:1273-1303 | Puts one cell; skipping a cell that is already there keeps the frame right |
| `Console.Console.ClearLineRange` | kernel/drivers/display.c:739-751 | Exactly the cells of the range are cleared, in grid and frame |
| `Console.Console.ScrollScreen` | kernel/drivers/display.c:1363-1431 | The grid moves up, its first line joins the history and the ring keeps the last 256, and the frame follows |
| `Console.Console.LineFeed` | kernel/drivers/display.c:829-834 | Moves down or scrolls |
| `Console.Console.PrintableChar` | kernel/drivers/display.c:836-857 | Wraps if pending, puts the character and advances, as the screen model does |
| `Console.Console.Clear` | kernel/drivers/display.c:1200-1218 | Clears grid, frame, cursor and view |
| `Console.Console.EraseDisplay` | kernel/drivers/display.c:769-787 | CSI J in all its forms |
| `Console.Console.EraseLine` | kernel/drivers/display.c:753-767 | CSI K in all its forms |
| `Console.Console.ApplySgr` | kernel/drivers/display.c:859-897 | The parameter loop is the fold of single renditions |
| `Console.Console.HandleCsi` | kernel/drivers/display.c:899-983 | Every control sequence has the effect the screen model gives it; ConsoleBytes says what that is |
| `Console.Console.ConsumeAnsi` | kernel/drivers/display.c:993-1066 | A byte is consumed exactly inside a sequence or as its start, with the effect the screen model gives it |
| `Console.Console.Render` | kernel/drivers/display.c:593-634 | Redraws the whole frame so that row r shows line (kept lines - offset + r), the history taken from the ring |
| `Console.Console.ResetView` | kernel/drivers/display.c:636-643 | Back to the bottom, with the frame redrawn |
| `Console.Console.ScrollBack` | kernel/drivers/display.c:645-656 | The offset grows to at most the kept lines and the frame shows that view |
| `Console.Console.ScrollForward` | kernel/drivers/display.c:658-669 | The offset shrinks to at least 0 and the frame shows that view |
| `Console.ViewIsWindow` | kernel/drivers/display.c:593-630 | Scrolled back by k lines the view is the window, ending k lines above the last, of everything ever shown |
| `Console.Console.DrawCursor` | kernel/drivers/display.c:248-287 | The bar is drawn if and only if the cursor is visible, lit and the view is at the bottom, and then at the cursor |
| `Console.Console.TabChar` | kernel/drivers/display.c:1340-1346 | The loop has the effect of the tab of the screen model |
| `Console.Console.PutChar` | kernel/drivers/display.c:1305-1354 | After any byte the console stands for the screen model's next screen and its frame shows it, with scrollback and cursor bar accounted for |
| `Console.Console.Puts` | kernel/drivers/display.c:1356-1361 | The same for any string of bytes |
| `Console.RingIndexFinds` | kernel/drivers/display.c:548-558 | The ring index of a logical line finds the line of the history it stands for, before and after the ring is full |
| `Timer.TickTwice` | kernel/drivers/event_timer.c:173-194 | Updating at t1 and then at t2 equals updating at t2 alone |
| `Timer.TickAdvances` | kernel/drivers/event_timer.c:183-188 | The next deadline lies in (now, now + interval] |
| `Timer.TickCountsInstants` | kernel/drivers/event_timer.c:183-188 | The expirations added are the number of instants D, D + interval, ... up to now |
| `Timer.OneShotFiresOnce` | kernel/drivers/event_timer.c:180-183 | A timer without an interval goes off exactly once, however often it is looked at |
| `Timer.TimerFd.Update` | kernel/drivers/event_timer.c:173-194 | The 32-bit wrapping timer agrees with the unbounded one: deadline, armed flag, and taken plus pending plus saturated expirations equal the due instants; with an interval of at most 2^31 a look within the next 2^31 ticks tells the truth |
| `Timer.TimerFd.AgreesLater` | kernel/drivers/event_timer.c:173-194 | After an update with an interval of at most 2^31, a look at any of the next 2^31 ticks tells the truth |
| `Timer.TimerFd.Read` | kernel/drivers/event_timer.c:196-226 | Hands over exactly what is due and not yet taken; the sleep it then asks for has a deadline, the timer's own, if and only if the timer is armed and its 32-bit deadline is not 0 |
| `Timer.SleepAcrossTheWrap` | kernel/drivers/event_timer.c:208-225 | Counterexample: a timer set one tick before the counter wraps, to go off at the wrap, leaves its reader to sleep without a deadline |
| `Timer.TimerFd.SetTime` | kernel/drivers/event_timer.c:445-456 | The timer set agrees with the unbounded one and a look at it now tells the truth, if and only if it is disarmed or its deadline is at most 2^31 ticks ahead and less than 2^31 ticks past |
| `Timer.SignIsRightIff` | kernel/drivers/event_timer.c:173-182 | The sign of the 32-bit difference tells whether a deadline less than 2^32 ticks away has come if and only if it is at most 2^31 ticks ahead and less than 2^31 ticks past |
| `Timer.DelayFiresAtOnceIff` | kernel/drivers/event_timer.c:445-453 | A relative delay is taken for one that has passed if and only if it exceeds 2^31 ticks |
| `Timer.AbsoluteFiresAtOnceIff` | kernel/drivers/event_timer.c:445-453 | An absolute deadline fires at once if and only if it came less than 2^31 ticks ago or is more than 2^31 ticks ahead |
| `Timer.OldDeadlineDoesNotFire` | kernel/drivers/event_timer.c:173-182 | Counterexample: the deadline at tick 1, set at the last tick of the counter's turn, is due and does not fire |
| `Timer.TicksRoundTrip` | kernel/drivers/event_timer.c:337-366 | Every 32-bit tick count survives the way to a timespec and back, for every tick rate |
| `Timer.TicksRoundUp` | kernel/drivers/event_timer.c:337-358 | A timespec is never shortened and is lengthened by less than a tick, when ticks divide the second |
| `Timer.ToTicksAcceptsIff` | kernel/drivers/event_timer.c:337-358 | A timespec is accepted if and only if its fields are in range and its ticks, rounded up, fit 32 bits |
| `InputRing.EmittedNoTwoSyncs` | kernel/drivers/input.c:76-87 | Two SYNC events are never adjacent, not even after removal from the middle |
| `InputRing.KeysAreLostIff` | kernel/drivers/input.c:90-99 | Key and config events are queued in order and one is lost if and only if all 511 queued events are of these kinds and another arrives |
| `InputRing.EventIsQueuedIff` | kernel/drivers/input.c:68-107 | With room left nothing is dropped and an event is queued unless it is a second sync in a row; in a full ring an ordinary event is lost, and a key or configuration event takes a place |
| `InputRing.EmittedIsWithin` | kernel/drivers/input.c:68-107 | What was delivered and what is queued stays an in-order subsequence of what was emitted |
| `InputRing.Ring.RemoveAt` | kernel/drivers/input.c:55-63 | The in-place shift with wrap-around removes exactly one event |
| `InputRing.Ring.DropIdle` | kernel/drivers/input.c:44-66 | The first event that is neither key nor config goes, if there is one |
| `InputRing.Ring.Emit` | kernel/drivers/input.c:68-107 | The ring becomes the queue the specification gives, and keeps both properties |
| `InputRing.Ring.Read` | kernel/drivers/input.c:156-161 | Hands over the oldest events in order, as many as fit |
| `InputRing.Ring.Reset` | kernel/drivers/input.c:165-174 | Opening or closing discards what is queued |
| `Path.NormalFormIsFixed` | newlib-port/syscalls.c:682-708 | Normalising a normalised path that fits returns it unchanged |
| `Path.NormalizingTwiceIsOnce` | newlib-port/syscalls.c:682-708 | For every path that fits, normalising its normal form changes nothing and does not overflow |
| `Path.FoldIsCanonical` | newlib-port/syscalls.c:642-664 | No empty, "." or ".." component is ever on the stack |
| `Path.DotDotTakesBack` | newlib-port/syscalls.c:642-664 | A name followed by ".." leaves no trace, wherever it stands in a path |
| `Path.RootIsItsOwnParent` | newlib-port/syscalls.c:649-664 | A leading ".." means nothing |
| `Path.DotAndEmptyVanish` | newlib-port/syscalls.c:642-648 | Empty components and "." mean nothing, wherever they stand |
| `Path.NamesStand` | newlib-port/syscalls.c:666-680 | Names alone stand for themselves |
| `Path.SplitBoth` | newlib-port/syscalls.c:682-708 | The components of two paths joined by a slash are those of the first followed by those of the second |
| `Path.SplitWhole` | newlib-port/syscalls.c:682-708 | A string without slashes is one component |
| `Path.AppendComponent` | newlib-port/syscalls.c:642-680 | The buffer goes from one printed stack to the next, or fails if and only if that does not fit |
| `Path.PopComponent` | newlib-port/syscalls.c:651-664 | ".." removes the last component in place, and nothing at the root |
| `Path.PushComponent` | newlib-port/syscalls.c:666-680 | A name is appended in place if and only if it fits with its terminator |
| `Path.Normalize` | newlib-port/syscalls.c:682-708 | Succeeds if and only if the path is absolute and every stack on the way fits the buffer; then the buffer holds the printed fold of the components, which is canonical |

## Left out

- Memory ordering, cache maintenance, barriers and device registers: atomics are sequentially consistent and a region under a lock is one step.
- Scheduler, allocator, copies to and from user space, VFS and GPU backend: parameters, choices or small abstract steps.
- Thread cancellation, and the signal handling around blocking calls beyond an early wake.
- mutexattr and condattr objects, clock choices and deadlines: a timeout is a choice the environment makes.
- Cond.WaitReturnsHoldingTheMutex: the mutex of a wait is held once; a recursive mutex held more than once stays held through the wait in the code.
- Several mutexes at once in the robust release: one slot is modelled, each slot being handled alone.
- Static initialisation by several threads at once, thread-specific data and reuse of thread ids.
- Barrier.RunInv: for exactly `count` participating threads, as POSIX asks of callers; a thread whose call gave a futex error does not come back.
- RwLock.LoadIsSafeIff: queued writers keep a reader out as far as the model goes; that a queued writer is itself stranded is the business of the same theorem for writers.
- pthread_create's other stores into the control block before the clone, which nobody else can see.
- DrmLifetime.NeverFreedWhileReferenced: one buffer and any number of files, exports and mappings; armos_drm_map_fd counts a mapping and installs its release hook in one step.
- DRM fences, presentation, command submission and the card/render access rules.
- DrmTables.Registry.Register: a registered buffer is represented by its handle, which is unique, rather than by its address.
- DrmTables.FileState.AddContext: the wrap of the global context id counter after 2^32 ids; the table theorems do not need ids to be distinct.
- Terminal output, job control, VMIN and VTIME deadlines: a read may return early wherever these could make it.
- TtyReaders.NoSleeperOnInput: a task marked interruptible reaches its recheck; that the scheduler could take the processor from it for good in between is not part of this model, nor are stopped tasks.
- VirtIO device discovery, feature negotiation, shutdown and the contents of requests; the deadline that wakes a waiter every two ticks.
- Console.Console.PutChar: the frame is modelled cell by cell, with a blank space glyph, a height that is a multiple of the font's, no scrolling backend and no user-owned frame buffer; glyph pixels, blending, dirty rectangles and mode changes are not. Rows of the grid, the frame and the ring are values in arrays, so a write within a row is an assignment of the row.
- Console.Console.TabChar: with autowrap off, only for tabs that return.
- eventfd, poll readiness, gettime and the closing of timers.
- Timer.TimerFd.Update: for an update less than 2^31 ticks after the deadline, beyond which the sign test is wrong (Timer.SignIsRightIff).
- Path.Normalize: the path is a string without NUL; the joining of relative paths with the working directory is elsewhere in the file.
- pty.c, block_device.c, keyboard.c, disk_layout.c, mount.c and the stdio locks: simpler members of families covered here.
- Boot, power, UART, headers and the generators of fonts and meshes.
