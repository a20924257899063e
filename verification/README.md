# Models and proofs for four concurrent or buffered programs

The repository holds teaching programs. Four of them keep real state, and this
project models those four in Dafny and proves what each is for. Every model
follows the code branch by branch; constants (the 0x1000-byte queue, the 512-byte
sector, the 80-byte buffer, the 0.5 threshold) are the code's own.

* **globalfifo** (`driver/globalfifo/ch12/globalfifo.c`) is a bounded byte queue
  behind a character device. `FifoSpec` says what each system call does to the
  queue when taken as one atomic operation (`Apply`). `GlobalFifo` is the driver's
  buffer and length, updated in place, one critical section a method.
  `FifoProtocol` is the driver as a step system: any number of tasks with their own
  program counters, one mutex, two wait queues, scheduler states, signals, stray
  wake-ups and copy faults. `FifoInvariant`, `FifoRefinement`, `FifoLocking`,
  `FifoSleep`, `FifoSolo`, `FifoAnswers`, `FifoWitness` and `FifoMutualSleep` prove
  that every interleaving is linearizable to `Apply`, that bytes are conserved, that the mutex is balanced and
  can always be freed, that poll foretells the non-blocking calls, that a call on its
  own returns the one right answer, anew or after a sleep, and which wake-ups can be
  lost. One can: a writer asleep when `FIFO_CLEAR` empties the queue is not
  woken. A run strands a writer if and only if it contains such a clear, and if and
  only if it does can a reader and a writer come to sleep together;
  `ClearCausesMutualSleep` is a run that ends so.
* **libthreadpool** (`multi-thread/libthreadpool/src/thread-pool.c`) hands jobs to
  slots. `PoolSpec`, `PoolLaws` and `ThreadPool` take each call as one step: lowest
  idle slot, growth, trimming, thread ids, conservation of jobs. `PoolProtocol` interleaves the single
  memory accesses of any number of submitters and workers; `PoolOwnership` and
  `PoolSafety` prove that a job runs at most once and from the pair its submitter
  stored. This fails in one way: a dropped submission signals the slot at its own
  scan index, which may by then belong to another. `PoolHarm` proves that this is
  the only way and always one: from every state reached without one, a step is such
  a signal to a worker waiting in a slot that is idle or not yet signalled if and
  only if after it some run, itself without one, makes a worker execute a submission
  twice or a pair nobody gave it. It also proves that a job handed over can run,
  without the signal of a failed submission, if and only if its own signal found
  the worker waiting.
  `PoolSolo` proves that a submission by itself does what the one-step pool says.
  `PoolWitness` has a run from the start in which a job executes twice, and one in
  which the only job is accepted and never executes.
* **The select server** (`io/io-models/select-model.c`) keeps four views of its
  clients. `SelectSpec` defines a round by a full scan without shortcuts;
  `SelectServer` is the event loop with `maxi`, `nready` and both early exits, proved
  equal to it; `SelectRuns` covers whole runs, and `SelectStreams` shows that what a
  run delivers on a descriptor is a list of connections, each served as by the
  forking server of `io/io-models/multi-process-model.c` (`ForkServer`).
* **The RAM disk** (`driver/vmem_disk/vmem_disk.c`) moves bios segment by segment,
  a segment being a window of a memory page. `DiskSpec` models the transfers and
  `VmemDisk` is the driver over a device array and pages. The driver uses the length
  of the first segment for all of them. `DiskTransfers` says which bytes it moves
  for any bio, on the disk and in memory, inside the segments or not; `DiskExact`
  proves when that is the contiguous transfer of the segments with their own
  lengths, within pages and device: for any bio, if and only if the bytes moved are
  place by place those of the segments; and for non-empty segments that do not
  overlap and are not neighbours on a page, if and only if all are as long as the
  first and that is a whole number of sectors. Both hold for reads and writes.
  `DiskModes` compares the queued mode with the direct one, and `DiskQueue` says what
  bios do through either, and that the disk is an array of separate sectors.

## Assumptions

* globalfifo: `mutex_lock` is not interruptible and does not change the task state
  seen by the wait loop; `remove_wait_queue` unlinks the caller's own entry,
  although read queues on `r_wait` (line 109) and names `w_wait` on removal
  (line 147); the overlapping `memcpy` (line 135) copies forward byte by byte;
  `copy_to_user` and `copy_from_user` of zero bytes cannot fail; `schedule()`
  returns when the task is runnable or has a signal pending; a signal makes an
  interruptible sleeper runnable.
* Thread pool: the step system starts with `min <= max`; slots start idle (the
  table is allocated without being cleared); `pthread_create` succeeds and stores
  the id before the new thread looks itself up; a wait ends only by a signal; signalling past the end of the table
  (the scan index of a dropped submission can be `max_th_num`) has no effect; a
  killed thread stops; pools are small enough for a `float` to count threads
  exactly, so the busy share is a `real` here.
* Servers: reads and accepts succeed, writes are complete, `toupper` is that of the
  C locale, and a new descriptor is not one already watched. A descriptor number may
  be used again after its close.
* RAM disk: no copy the driver makes leaves its page or the device (`Safe`), and
  pages are not the device itself. Byte offsets are taken modulo 2^64, as in an
  `unsigned long`. The comment on `size` says sectors, the code keeps bytes; the
  model follows the code.

## Model

| member | source | states |
|---|---|---|
| FifoSpec.Conservation | driver/globalfifo/ch12/globalfifo.c:128-201 | over any history of atomic calls, initial bytes plus accepted bytes equal removed bytes plus what is left, in order |
| FifoSpec.ReadsFromFront | driver/globalfifo/ch12/globalfifo.c:128-142 | reads of any positive sizes deliver a front of the queue, leave the rest, and take at most one call per byte |
| FifoSpec.ChunkedReads | driver/globalfifo/ch12/globalfifo.c:128-142 | enough small reads drain the queue and deliver exactly what one large read delivers |
| FifoSpec.ChunkedWrites | driver/globalfifo/ch12/globalfifo.c:182-200 | two writes that fit equal one write of the concatenation |
| FifoSpec.WriteTakesWhatFits | driver/globalfifo/ch12/globalfifo.c:182-189 | a write takes the longest prefix that fits; if that is not all the queue is full and a write of the rest gets -EAGAIN or must wait |
| FifoSpec.ReadTakesWhatIsThere | driver/globalfifo/ch12/globalfifo.c:128-142 | a read takes as much as it asked for or all there is, from the front |
| FifoSpec.AnswerUnique | driver/globalfifo/ch12/globalfifo.c:54-201 | apart from faults and interruptions each call has exactly one outcome on a given queue, and none when it must wait |
| GlobalFifo.Device.constructor | driver/globalfifo/ch12/globalfifo.c:227-234 | a new device is an empty queue of full capacity |
| GlobalFifo.Device.Control | driver/globalfifo/ch12/globalfifo.c:54-74 | FIFO_CLEAR empties and zeroes, any other command is refused and changes nothing |
| GlobalFifo.Device.Poll | driver/globalfifo/ch12/globalfifo.c:76-97 | the mask is the one the atomic poll allows on the current contents |
| GlobalFifo.Device.CopyToUser | driver/globalfifo/ch12/globalfifo.c:131 | copies the accessible part and returns how many bytes it could not copy |
| GlobalFifo.Device.CopyFromUser | driver/globalfifo/ch12/globalfifo.c:185 | fills the free end only, even when it faults |
| GlobalFifo.Device.ShiftDown | driver/globalfifo/ch12/globalfifo.c:135 | the forward overlapping copy moves the unread bytes down unchanged |
| GlobalFifo.Device.Read | driver/globalfifo/ch12/globalfifo.c:111-145 | sleeps exactly on an empty queue without O_NONBLOCK, else does one atomic read; faults exactly when the user buffer is too short; the user gets the bytes returned |
| GlobalFifo.Device.Write | driver/globalfifo/ch12/globalfifo.c:164-204 | sleeps exactly on a full queue without O_NONBLOCK, else does one atomic write; faults exactly when the user buffer is too short |
| FifoInvariant.InitInv | driver/globalfifo/ch12/globalfifo.c:227-236 | the invariant holds of a fresh device with any number of tasks |
| FifoInvariant.NextInv | driver/globalfifo/ch12/globalfifo.c:54-209 | every action of every task keeps it |
| FifoInvariant.RunInv | driver/globalfifo/ch12/globalfifo.c:54-209 | it holds in every reachable state |
| FifoRefinement.ShiftKeepsQueue | driver/globalfifo/ch12/globalfifo.c:131-136 | half-way through the overlapping copy the bytes handed out, moved and unmoved still make up the old queue |
| FifoRefinement.UpdateCommits | driver/globalfifo/ch12/globalfifo.c:135-136 | the update of the length is the atomic read or write, with the call's result |
| FifoRefinement.NextRefines | driver/globalfifo/ch12/globalfifo.c:54-209 | each step of any interleaving is the step of the atomic machine its label names |
| FifoRefinement.CommitsUnderMutex | driver/globalfifo/ch12/globalfifo.c:108-145 | operations take effect while their caller holds the mutex, so in the order of the critical sections |
| FifoRefinement.FailedCallsChangeNothing | driver/globalfifo/ch12/globalfifo.c:112-189 | the step that decides -EAGAIN, -EFAULT, -ERESTARTSYS or -EINVAL leaves the queue as it was, whatever a faulty copy wrote |
| FifoRefinement.RunRefines | driver/globalfifo/ch12/globalfifo.c:54-209 | the labels of any run are a run of the machine with one atomic operation between invocation and return |
| FifoRefinement.Linearizable | driver/globalfifo/ch12/globalfifo.c:54-209 | over every run of any number of tasks, with the mutex free, the buffer holds what replaying the operations in order leaves |
| FifoRefinement.StreamConserved | driver/globalfifo/ch12/globalfifo.c:61-201 | over every run, all accepted bytes equal all delivered or cleared bytes followed by the buffer |
| FifoLocking.LockBalance | driver/globalfifo/ch12/globalfifo.c:62-208 | every task has released the mutex as often as taken, unless it holds it now |
| FifoLocking.EveryReturnIsUnlocked | driver/globalfifo/ch12/globalfifo.c:119-149 | every return path, that of an interrupted sleeper included, is balanced, and two tasks are never both inside |
| FifoLocking.OnlyHolderWrites | driver/globalfifo/ch12/globalfifo.c:63-189 | only the mutex holder changes buffer or length |
| FifoLocking.OnlyHolderReads | driver/globalfifo/ch12/globalfifo.c:63-189 | any action of another task is the same whatever buffer and length are |
| FifoLocking.HolderCanStep | driver/globalfifo/ch12/globalfifo.c:108-145 | the mutex holder is never blocked |
| FifoSolo.HolderReleases | driver/globalfifo/ch12/globalfifo.c:108-145 | the holder, stepping alone, comes to its unlock, with a bound over the overlapping copy |
| FifoSolo.MutexComesFree | driver/globalfifo/ch12/globalfifo.c:54-209 | so in every reachable state of any number of tasks the mutex can be freed in at most 0x1000 + 17 steps of one task |
| FifoSolo.PollForetells | driver/globalfifo/ch12/globalfifo.c:76-172 | in every reachable state with the mutex free, a poll and a non-blocking call, each run alone, return, some bit is set, and the call's own bit exactly when the call does not give -EAGAIN |
| FifoAnswers.FailureHasCause | driver/globalfifo/ch12/globalfifo.c:113-189 | -ERESTARTSYS is decided only for a woken sleeper with a signal pending that did not ask not to wait, -EFAULT exactly by a faulty copy, -EAGAIN only for a call that asked not to wait |
| FifoAnswers.SignalDecides | driver/globalfifo/ch12/globalfifo.c:122-126 | a woken sleeper gives up exactly when a signal is pending, else it takes the mutex again |
| FifoAnswers.CallsAnswer | driver/globalfifo/ch12/globalfifo.c:54-201 | from every reachable state with the mutex free, a call that need not wait can run alone, and every such fault-free run returns the queue's answer and leaves the queue it should; FIFO_CLEAR zeroed memory too |
| FifoAnswers.WokenAnswers | driver/globalfifo/ch12/globalfifo.c:120-201 | a waiter woken without a signal on a ready queue can go on alone, and every such run returns its bytes or its count |
| FifoAnswers.SignalledGivesUp | driver/globalfifo/ch12/globalfifo.c:120-126 | a waiter with a signal pending can go on alone, and every such run returns -ERESTARTSYS and leaves the queue alone |
| FifoAnswers.SignalEndsSleep | driver/globalfifo/ch12/globalfifo.c:120-126 | so a signal ends any sleep, whatever the queue holds |
| FifoSleep.WakeUpWakes | driver/globalfifo/ch12/globalfifo.c:140-193 | after the wake-up of a read no writer is asleep, after that of a write no reader; of other tasks only scheduler states change |
| FifoSleep.NoLostReaderWakeup | driver/globalfifo/ch12/globalfifo.c:108-193 | in every run, clears, signals and faults included, a reader asleep with the mutex free faces an empty queue |
| FifoSleep.OnlyClearStrands | driver/globalfifo/ch12/globalfifo.c:61-65 | a step strands a writer exactly when it is a clear under a sleeping writer |
| FifoSleep.LostWriterWakeups | driver/globalfifo/ch12/globalfifo.c:61-180 | a run strands a writer if and only if some clear in it empties the queue while a writer sleeps |
| FifoSleep.NoMutualSleep | driver/globalfifo/ch12/globalfifo.c:111-180 | without such a clear a sleeping writer faces a full queue and never sleeps together with a reader |
| FifoSleep.NoMutualSleepWithoutClear | driver/globalfifo/ch12/globalfifo.c:111-180 | in particular when nobody calls FIFO_CLEAR |
| FifoMutualSleep.StepSleepsBothIff | driver/globalfifo/ch12/globalfifo.c:61-180 | from every state with no writer stranded, a step is a clear under a sleeping writer if and only if after it some run, without another, ends with a reader and a writer asleep |
| FifoMutualSleep.MutualSleepIff | driver/globalfifo/ch12/globalfifo.c:54-209 | a run of any number of tasks contains such a clear if and only if from some state of it a reader and a writer can so come to sleep together |
| FifoSleep.QuietForCause | driver/globalfifo/ch12/globalfifo.c:108-208 | when nothing can move, the mutex is free and all sleepers are readers of an empty or all writers to a full queue |
| FifoWitness.FallsAsleep | driver/globalfifo/ch12/globalfifo.c:108-119 | a call that must wait is queued and asleep after its own steps, with the mutex released and the buffer untouched |
| FifoWitness.ClearCausesMutualSleep | driver/globalfifo/ch12/globalfifo.c:61-180 | a concrete run in which FIFO_CLEAR leaves a reader and a writer asleep for ever |
| PoolSpec.LowestIdle | multi-thread/libthreadpool/src/thread-pool.c:126-144 | the slot chosen is idle and every lower one is busy |
| PoolSpec.HighestBusy | multi-thread/libthreadpool/src/thread-pool.c:226-242 | the trimming limit is busy and every higher live slot is idle |
| PoolSpec.DroppedWhenSaturated | multi-thread/libthreadpool/src/thread-pool.c:146-158 | a submission is dropped exactly when the pool is at its maximum and all slots are busy |
| PoolSpec.SubmitAdds | multi-thread/libthreadpool/src/thread-pool.c:126-154 | an accepted submission adds exactly its job, disturbs no busy slot and keeps min <= cur <= max |
| PoolLaws.SubmitPlaces | multi-thread/libthreadpool/src/thread-pool.c:126-158 | the first idle live slot becomes busy with the job and keeps its thread; only when all are busy a new slot is added; dropped when the table is full; nothing else changes |
| PoolSpec.FinishRemoves | multi-thread/libthreadpool/src/thread-pool.c:299-305 | a finishing worker takes exactly its own job out |
| PoolLaws.FinishFrees | multi-thread/libthreadpool/src/thread-pool.c:299-305 | a finished slot is idle, and nothing else of the pool changes |
| PoolSpec.SweepKeeps | multi-thread/libthreadpool/src/thread-pool.c:226-242 | a sweep loses no job, keeps the busy count and never goes below the minimum |
| PoolSpec.SweepAgain | multi-thread/libthreadpool/src/thread-pool.c:226-333 | a second sweep finds nothing to trim |
| PoolLaws.SweepTrims | multi-thread/libthreadpool/src/thread-pool.c:226-333 | nothing is trimmed unless less than half of the threads are busy; then idle slots from the end, down to the minimum or to a busy slot |
| PoolLaws.IdsSetByGrowth | multi-thread/libthreadpool/src/thread-pool.c:170-216 | only growth sets a thread id, in the slot it adds and to the new thread's, so look-ups by id keep their answers |
| PoolSpec.JobsConserved | multi-thread/libthreadpool/src/thread-pool.c:121-305 | over every run, held at first plus accepted equals finished plus still held, as multisets |
| PoolSpec.HeldUntilFinished | multi-thread/libthreadpool/src/thread-pool.c:121-305 | a busy slot is neither overwritten nor trimmed until its own worker finishes |
| ThreadPool.ThreadPool.constructor | multi-thread/libthreadpool/src/thread-pool.c:37-45 | all slots idle, the minimum counted as live; a proper pool exactly when the minimum fits the maximum |
| ThreadPool.ThreadPool.GetThreadById | multi-thread/libthreadpool/src/thread-pool.c:170-179 | the first live slot with the id, or -1 when there is none |
| ThreadPool.ThreadPool.AddThread | multi-thread/libthreadpool/src/thread-pool.c:188-216 | succeeds exactly below the maximum and then adds one busy slot |
| ThreadPool.ThreadPool.ProcessJob | multi-thread/libthreadpool/src/thread-pool.c:121-160 | the scan and growth code does what the lowest-idle-slot specification says |
| ThreadPool.ThreadPool.FinishJob | multi-thread/libthreadpool/src/thread-pool.c:296-305 | hands out the slot's job and frees the slot |
| ThreadPool.ThreadPool.DeleteThread | multi-thread/libthreadpool/src/thread-pool.c:226-242 | succeeds exactly when the last slot is idle and above the minimum |
| ThreadPool.ThreadPool.GetTpStatus | multi-thread/libthreadpool/src/thread-pool.c:251-266 | 0 exactly when twice the busy count is below the thread count |
| ThreadPool.ThreadPool.ManageSweep | multi-thread/libthreadpool/src/thread-pool.c:323-333 | the trimming loop ends at max(min, 1 + highest busy slot) and is entered exactly from an idle status |
| PoolOwnership.InitInv | multi-thread/libthreadpool/src/thread-pool.c:58-73 | ownership holds of a new pool and any submissions |
| PoolOwnership.NextInv | multi-thread/libthreadpool/src/thread-pool.c:126-308 | every step of every submitter and worker but a harmful signal keeps ownership |
| PoolSolo.SubmitsAlone | multi-thread/libthreadpool/src/thread-pool.c:121-160 | a submission that runs alone while no lock is taken can finish, and every such run leaves the table, slot and signal of the one-step pool |
| PoolSafety.RunsAtMostOnce | multi-thread/libthreadpool/src/thread-pool.c:126-308 | else each submission runs at most once, from the pair it stored, though the pair is written outside the lock |
| PoolSafety.RunsAtMostOnceWithoutFailure | multi-thread/libthreadpool/src/thread-pool.c:126-308 | in particular when no add_thread fails |
| PoolSafety.NothingLost | multi-thread/libthreadpool/src/thread-pool.c:126-308 | in the same runs a submission that was placed has run, or still sits handed over in its busy slot |
| PoolSafety.PlacedBySignal | multi-thread/libthreadpool/src/thread-pool.c:138-158 | a submission returns a slot exactly by signalling it, and none only by its stray signal |
| PoolSafety.EverySlotStaffed | multi-thread/libthreadpool/src/thread-pool.c:58-216 | in the same runs every live slot has a worker, or a submitter about to start it |
| PoolHarm.HarmIffWrong | multi-thread/libthreadpool/src/thread-pool.c:147-158 | from every state reached without one, a step is a failed submission's signal to a worker waiting in an idle or unsignalled slot if and only if after it some run without one executes a submission twice or a wrong pair |
| PoolHarm.HarmlessIffRight | multi-thread/libthreadpool/src/thread-pool.c:126-308 | a run has no such signal if and only if from each of its states all such runs execute every submission at most once and as stored |
| PoolHarm.Release | multi-thread/libthreadpool/src/thread-pool.c:128-144 | the submitter holding a slot's lock gives it back by its own steps, a busy slot unchanged, an idle one idle or claimed |
| PoolHarm.WorkerTurn | multi-thread/libthreadpool/src/thread-pool.c:287-308 | a woken worker, by itself, runs exactly the pair in its slot, frees the slot and waits again |
| PoolHarm.SignalledJobRuns | multi-thread/libthreadpool/src/thread-pool.c:138-300 | a signal that finds the worker waiting is not lost: lock holder, submitter and worker can go on by themselves and run exactly the submitted pair |
| PoolHarm.SignalLostIff | multi-thread/libthreadpool/src/thread-pool.c:138-291 | from every state reached without a harmful signal: a job handed over can run, without a harmful signal or a failed submission's signal to its slot, if and only if its own signal found the worker waiting |
| PoolSafety.ForgottenForever | multi-thread/libthreadpool/src/thread-pool.c:138-308 | else it stays in its slot and never runs, as long as no failed submission signals that slot |
| PoolHarm.StrayRescues | multi-thread/libthreadpool/src/thread-pool.c:147-291 | such a stray signal that finds the worker waiting does no harm, and the forgotten job can run |
| PoolWitness.DroppedSubmissionDoublesJob | multi-thread/libthreadpool/src/thread-pool.c:146-158 | a concrete run in which a dropped submission makes another's job run twice |
| PoolWitness.AcceptedJobNeverRuns | multi-thread/libthreadpool/src/thread-pool.c:146-291 | a concrete run in which the only submission grows the pool, signals before the worker waits and returns; no continuation executes anything |
| SelectSpec.FirstFree | io/io-models/select-model.c:55-59 | the entry a new client gets is free and every lower one is taken |
| SelectSpec.ServeNothing | io/io-models/select-model.c:71-92 | with nothing ready ahead the rest of the scan does nothing, so both early exits are safe |
| SelectSpec.RoundValid | io/io-models/select-model.c:47-94 | the four views agree after every round, across accepts, closes and reused numbers |
| SelectSpec.RoundServesEach | io/io-models/select-model.c:47-94 | every descriptor is answered exactly once for what was delivered to it, whatever happens on the others |
| SelectSpec.RoundInOrder | io/io-models/select-model.c:47-94 | a round accepts first, then answers each ready client once, in the order of the table |
| SelectServer.SelectServer.constructor | io/io-models/select-model.c:32-37 | an empty table watching the listener only |
| SelectServer.SelectServer.AcceptClient | io/io-models/select-model.c:55-69 | first free entry, all four views updated together; full exactly when no entry is free |
| SelectServer.SelectServer.ServeClient | io/io-models/select-model.c:78-89 | one client read into the shared buffer, then closed or answered in upper case |
| SelectServer.SelectServer.ServeReady | io/io-models/select-model.c:75-94 | the loop bounded by maxi and cut short by nready equals the full scan |
| SelectServer.SelectServer.Loop | io/io-models/select-model.c:40-94 | one round of the event loop with its exits equals the round of the specification |
| SelectServer.ReadyAfterAccept | io/io-models/select-model.c:47-73 | after an accept nready counts exactly the ready clients; the new one is not among them |
| ForkServer.UpperInPlace | io/io-models/multi-process-model.c:46-47 | the loop puts exactly the first n bytes into capitals, letter by letter, and no others |
| SelectSpec.UpperMeans | io/io-models/select-model.c:86-87 | upper case leaves no small letter, makes each the capital of the same place in the alphabet, keeps all other bytes, and once is enough |
| ForkServer.ServeChild | io/io-models/multi-process-model.c:36-50 | a child writes the whole input in capitals, however it was chunked |
| SelectRuns.RunServesEach | io/io-models/select-model.c:39-95 | over every run each descriptor is answered delivery by delivery |
| SelectStreams.RunOrderly | io/io-models/select-model.c:47-94 | over every run what is delivered on a descriptor is an accept, chunks, an end of file, over and over |
| SelectStreams.SameStream | io/io-models/select-model.c:55-89 | so in every run the events of a descriptor are those of whole connections and at most one open one, each echoed in capitals as a forked child would for the same bytes in any chunking |
| SelectRuns.TableNeverFull | io/io-models/select-model.c:55-65 | the too-many-clients exit is unreachable while descriptors are below FD_SETSIZE |
| SelectRuns.RunsInRange | io/io-models/select-model.c:34-95 | so such a run never stops for lack of room and keeps the views in agreement |
| DiskSpec.WriteIsSplice | driver/vmem_disk/vmem_disk.c:67-81 | writing segment behind segment is one contiguous write of the joined segments, all other bytes unchanged |
| DiskPlaces.ReadBytes | driver/vmem_disk/vmem_disk.c:67-81 | reading segment behind segment gives every memory byte the disk byte of its last place in transfer order, or leaves it |
| DiskTransfers.FitIsLongest | driver/vmem_disk/vmem_disk.c:54-57 | a segment's move is done exactly when its end lies on the device |
| DiskTransfers.SegmentsMove | driver/vmem_disk/vmem_disk.c:67-81 | the segment loop is one contiguous transfer of the segments resized to the first one's whole sectors, as far as they fit |
| DiskTransfers.MovedIs | driver/vmem_disk/vmem_disk.c:73-77 | each segment is moved from its own start with the length of the first, down to whole sectors |
| DiskTransfers.BoundsIff | driver/vmem_disk/vmem_disk.c:48-81 | the copies of a bio stay within pages and device exactly when the windows it moves, as far as they fit, lie in their pages |
| DiskTransfers.BioWrites | driver/vmem_disk/vmem_disk.c:48-81 | a write puts exactly the page bytes at the moved places on the disk, those behind short segments included, and changes nothing else |
| DiskTransfers.BioReads | driver/vmem_disk/vmem_disk.c:48-81 | a read overwrites exactly the page bytes less than the moved length behind the start of a segment that fits, inside the segment or not, and says with which disk byte |
| DiskTransfers.ReadIsSlice | driver/vmem_disk/vmem_disk.c:67-81 | separate segments read in hold together one contiguous slice of the disk |
| DiskTransfers.RoundTrip | driver/vmem_disk/vmem_disk.c:48-81 | what one bio moves out, another of the same start moves back in any segmentation with separate places, as far as it reaches |
| DiskExact.TransferIff | driver/vmem_disk/vmem_disk.c:73-77 | for every read or write bio whose segments lie in their pages and its data on the device: the driver leaves neither page nor device and does on all contents what the segments ask for, if and only if the places it moves are theirs, with no wrap-around |
| DiskExact.SegmentedIsContiguousIff | driver/vmem_disk/vmem_disk.c:73-77 | of those bios, with separate segments that are unmerged or all moved: that is if and only if all have the first one's length, in whole sectors |
| DiskExact.EqualIsRegular | driver/vmem_disk/vmem_disk.c:48-81 | equal whole-sector segments in their pages keep the driver in bounds |
| DiskExact.SplitNeighboursAgree | driver/vmem_disk/vmem_disk.c:54-77 | that hypothesis on neighbours is needed: a disk, pages and a bio of unequal separate segments that the driver handles as asked on all contents |
| DiskExact.DataRoundTrip | driver/vmem_disk/vmem_disk.c:48-81 | between bios of equal whole sectors the data written is the data read back |
| DiskModes.ModesAgree | driver/vmem_disk/vmem_disk.c:86-118 | draining a queue, however bios are grouped and other requests interleaved, equals handling the bios directly |
| DiskModes.DrainedAppend | driver/vmem_disk/vmem_disk.c:86-105 | requests are taken from the front: what stands ahead is done first |
| DiskQueue.ModesWrite | driver/vmem_disk/vmem_disk.c:86-118 | in either mode a write bio puts exactly the page bytes at the moved places on the disk |
| DiskQueue.ModesRead | driver/vmem_disk/vmem_disk.c:86-118 | in either mode a read bio fills exactly the moved length from the start of each segment that fits |
| DiskQueue.QueueRoundTrip | driver/vmem_disk/vmem_disk.c:86-118 | what a write bio of a queue puts out a later read bio of the range brings back, in any grouping, with other requests and reads between |
| DiskQueue.SectorsOnDevice | driver/vmem_disk/vmem_disk.c:51-57 | the device takes exactly the sectors whose number modulo 2^55 is below its count and turns the others away, but for one whose end wraps around to 0 |
| DiskQueue.SectorsAreSeparate | driver/vmem_disk/vmem_disk.c:48-62 | a read of a sector gives what was last written to it; a write to one sector leaves all others alone |
| VmemDisk.AnnouncedSectors | driver/vmem_disk/vmem_disk.c:144-185 | the device has exactly the sectors of the capacity it announces |
| VmemDisk.VmemDisk.Transfer | driver/vmem_disk/vmem_disk.c:48-62 | one bounds-checked copy between device and page window, nothing beyond the end; offsets modulo 2^64 |
| VmemDisk.VmemDisk.XferBio | driver/vmem_disk/vmem_disk.c:67-81 | the segment loop does the bio's specified transfers |
| VmemDisk.VmemDisk.TransferRequest | driver/vmem_disk/vmem_disk.c:101-102 | the loop over a request's bios handles them in order |
| VmemDisk.VmemDisk.DrainQueue | driver/vmem_disk/vmem_disk.c:86-105 | the queue is emptied, exactly the file system requests end without error, disk and pages are as specified |
| VmemDisk.VmemDisk.MakeRequest | driver/vmem_disk/vmem_disk.c:111-118 | one bio is transferred at once and always ends without error |

## Left out

- MakeRequest: and the other disk methods require that no copy leaves its page or the device; where one does the code has no defined result. `BoundsIff` says which bios are so.
- BioWrites: and the other statements about the bytes a bio moves are for bios whose byte offsets do not wrap around modulo 2^64 from one segment to the next.
- Thread-pool liveness: a signal given before the worker waits is lost, so that every accepted job eventually runs is false of the code; `AcceptedJobNeverRuns` is a run and `SignalLostIff` says exactly when a job handed over can still run.
- The manager thread running concurrently with submitters and workers: `tp_delete_thread` checks and kills without a lock; sweeps are one step in `PoolSpec` and absent from `PoolProtocol`.
- `tp_init` and `tp_close` resource handling, failed `pthread_create`, thread ids seen before they are stored: foreign calls.
- SIGIO delivery through `kill_fasync`: in the model a signal may arrive at any time.
- poll's registration on the two wait queues: its entries belong to the caller of poll and are woken outside the driver.
- Socket setup, failing `accept`, `read` and `write`, address printing in the servers.
- Failing or shared user pages other than a buffer that ends early, and kernel mapping of bio pages.
- `vmem_disk_getgeo`, device registration, module parameters and teardown: constant arithmetic and kernel plumbing.
- The ch8 and ch9 versions of globalfifo and the globalmem drivers: the same paths again or copies at a file position.
