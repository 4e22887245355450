# Scheduling, codecs and ownership in EnvironmentCheck's native code

A Dafny model of the hard core of the app's native library (a port of Flutter's fml), of its two
RFC 4648 codecs and of its ownership and waiting primitives, with proofs of what they promise.
`dafny verify dfyconfig.toml` checks everything.

* **Scheduler.** `DelayedTask.dfy`, `TaskSource.dfy`: tasks, their order, and a source with a
  primary and a pausable secondary heap. `TaskQueues.dfy`: the dispatcher as a state machine in
  which an owner is *one flat priority queue* over everything visible in its family, one step per
  public operation. `MessageLoopTaskQueues.dfy`: the dispatcher as it is (a map of entries,
  popping by queue and grade), each method proved to be the step of the same name. `Ownership.dfy`,
  `Wakeups.dfy`, `Conservation.dfy`: what every run keeps. `Observations.dfy`: what each operation
  changes, told by what can be observed. `MessageLoop.dfy`: posting, flushing and
  finishing a loop. `Thread.dfy`: joining a thread.
* **Worker pool.** `WorkerPool.dfy`: posters, workers, late notifications, spurious wake-ups,
  broadcasts and shutdown, in every interleaving. `ConcurrentMessageLoop.dfy`: the loop's fields and
  the code under its mutex, proved to be those steps.
* **Codecs.** `Bits.dfy`, `Base32.dfy` (section 6 of RFC 4648 with the padding of section 3.2
  omitted, through a 16-bit shift buffer) and `Base64.dfy` (sections 4 and 5, written in place into
  a presized buffer, with the canonicity of section 3.5).
* **Ownership.** `RefCounting.dfy` (all handles and counts as a state machine) and `WeakPtr.dfy`
  (weak pointers on top of it); `RefPtr.dfy`, `WeakPtrFlag.dfy` and `WeakPtrObjects.dfy` (the classes
  as they are, each operation proved to be its step); `ReferencePool.dfy`.
* **Waiting.** `WaitableEvent.dfy` and `CountDownLatch.dfy`: blocked calls, wrapping signal numbers
  and wrapping counts, in every interleaving.

Main results: `Ownership.ReachableInv`, `Wakeups.StepWakesIff`, `Wakeups.ReachableWakes`,
`Conservation.RunConserves`, `Conservation.JoinDrains`, `MessageLoops.RoundsFlush`,
`MessageLoops.RoundsPerform`, `WorkerPool.NoLostNotification`, `WorkerPool.ShutdownStory`,
`WorkerPool.DrainedAtExit`, `WorkerPool.WorkersExit`, `Base32.DecodeIffEncoded`, `Base64.AcceptedIffEncoding`, `Base64.EncodedBits`,
`RefCounting.CountIsHandles`, `WeakPtrs.WeakIffAlive`, `ReferencePools.MembersInReverseOrder`,
`WaitableEvents.ReleasedIff`, `WaitableEvents.SignaledIff`, `CountDownLatches.OpenIff`.

Where the code does not do what one would expect, the model follows the code and says exactly when:

* A wake-up is lost when the last pause of a *subsumed* queue is lifted over a task its owner is not
  armed for, and when a wakeable is set on a queue that already has visible tasks, and in no other
  step (`Wakeups.StepWakesIff`; `Wakeups.LostWakeupExample` and `Wakeups.LateWakeableExample` are runs that
  reach the two cases).
* The comment in base64.cc at lines 161-162 says that '=' is an error unless the length is a multiple
  of four; the code accepts one '=' at length 3 mod 4, and then leaves one byte too many in the output
  (`Base64.HalfPaddedExample`, `Base64.Base64Decode`).
* Base32Decode accepts one surplus trailing 'A' at lengths 1, 3 and 6 mod 8 (`Base32.DecodeIffEncoded`).
* A waiter is missed by exactly a multiple of 2^32 signals (`WaitableEvents.ReleasedIff`,
  `WaitableEvents.WrapExample`).

## Model

| member | source | states |
|---|---|---|
| `DelayedTasks.TopIsUnique` | app/src/main/cpp/delayed_task.cc:36-41 | the (time, order) comparison leaves one possible head of a heap whose order numbers differ |
| `DelayedTasks.TopExists` | app/src/main/cpp/delayed_task.cc:36-41 | every non-empty heap has a head that nothing precedes |
| `TaskSources.TaskSource.ShutDown` | app/src/main/cpp/task_source.cc:19-22 | both heaps are emptied, the pause count stays |
| `TaskSources.TaskSource.RegisterTask` | app/src/main/cpp/task_source.cc:24-36 | the task is added to the heap its grade selects |
| `TaskSources.TaskSource.PopTask` | app/src/main/cpp/task_source.cc:38-50 | popping by grade alone removes exactly the peeked task from the source |
| `TaskSources.TaskSource.GetNumPendingTasks` | app/src/main/cpp/task_source.cc:52-58 | the number of visible tasks, paused ones not counted |
| `TaskSources.TaskSource.IsEmpty` | app/src/main/cpp/task_source.cc:60-62 | true exactly if nothing is visible |
| `TaskSources.TaskSource.Top` | app/src/main/cpp/task_source.cc:64-93 | the result precedes everything visible and heads the heap that its own grade selects |
| `TaskSources.TaskSource.PauseSecondary` | app/src/main/cpp/task_source.cc:95-97 | one more pause, same heaps |
| `TaskSources.TaskSource.ResumeSecondary` | app/src/main/cpp/task_source.cc:99-102 | one pause fewer, same heaps |
| `Dispatcher.MessageLoopTaskQueues.constructor` | app/src/main/cpp/message_loop_task_queues.cc:72-76 | starts as the empty dispatcher, with the invariant |
| `Dispatcher.MessageLoopTaskQueues.CreateTaskQueue` | app/src/main/cpp/message_loop_task_queues.cc:64-70 | a fresh id gets a new, unmerged, empty entry; the invariant is kept |
| `Dispatcher.MessageLoopTaskQueues.HasPendingTasksUnlocked` | app/src/main/cpp/message_loop_task_queues.cc:358-375 | true exactly if the queue is unsubsumed and its flat queue is not empty |
| `Dispatcher.MessageLoopTaskQueues.PeekFamily` | app/src/main/cpp/message_loop_task_queues.cc:391-414 | folding the sources in any order gives a head that precedes all the family shows, and the queue that holds it |
| `Dispatcher.MessageLoopTaskQueues.PeekNextTaskUnlocked` | app/src/main/cpp/message_loop_task_queues.cc:382-415 | the result is the head of the flat priority queue; no check inside fails |
| `Dispatcher.HeadIsEarliest` | app/src/main/cpp/message_loop_task_queues.cc:391-414 | a head that leads every source of the family is the unique head of the flat queue |
| `Dispatcher.MessageLoopTaskQueues.GetNumPendingTasks` | app/src/main/cpp/message_loop_task_queues.cc:169-185 | 0 if subsumed, else the size of the flat queue: no task is counted twice |
| `Dispatcher.MessageLoopTaskQueues.CountFamily` | app/src/main/cpp/message_loop_task_queues.cc:176-184 | the sum over the family's sources is the size of their union |
| `Dispatcher.MessageLoopTaskQueues.WakeUpUnlocked` | app/src/main/cpp/message_loop_task_queues.cc:162-167 | records the armed time if there is a wakeable, nothing else |
| `Dispatcher.MessageLoopTaskQueues.WakeIfPending` | app/src/main/cpp/message_loop_task_queues.cc:123-126 | arms the queue at the head of its flat queue if there is one |
| `Dispatcher.MessageLoopTaskQueues.RegisterTask` | app/src/main/cpp/message_loop_task_queues.cc:108-127 | is the register step: a new order number, the named queue's source, the loop that serves it re-armed |
| `Dispatcher.MessageLoopTaskQueues.GetNextTaskToRun` | app/src/main/cpp/message_loop_task_queues.cc:134-160 | hands out the head of the flat queue exactly if one is visible and due, removes that task and no other, re-arms |
| `Dispatcher.MessageLoopTaskQueues.PopFromSource` | app/src/main/cpp/message_loop_task_queues.cc:151-153 | popping by queue id and grade removes exactly the peeked task from the whole state |
| `Dispatcher.MessageLoopTaskQueues.SetWakeable` | app/src/main/cpp/message_loop_task_queues.cc:224-230 | the queue gets a wakeable, nothing else changes |
| `Dispatcher.MessageLoopTaskQueues.PauseSecondarySource` | app/src/main/cpp/message_loop_task_queues.cc:342-345 | is the pause step |
| `Dispatcher.MessageLoopTaskQueues.ResumeSecondarySource` | app/src/main/cpp/message_loop_task_queues.cc:347-354 | is the resume step: re-arms the queue itself, never its owner |
| `Dispatcher.MessageLoopTaskQueues.Merge` | app/src/main/cpp/message_loop_task_queues.cc:232-281 | succeeds exactly in the specified cases, links both copies of the relation and re-arms the owner, or changes nothing |
| `Dispatcher.MessageLoopTaskQueues.Unmerge` | app/src/main/cpp/message_loop_task_queues.cc:283-324 | succeeds exactly in the specified cases, cuts both copies and re-arms both queues, or changes nothing |
| `Dispatcher.MessageLoopTaskQueues.DisposeTasks` | app/src/main/cpp/message_loop_task_queues.cc:92-101 | the sources of the queue and of all it subsumed are empty, all else is as before |
| `Dispatcher.MessageLoopTaskQueues.Dispose` | app/src/main/cpp/message_loop_task_queues.cc:80-90 | exactly the queue and those it subsumed are gone |
| `Dispatcher.MessageLoopTaskQueues.Owns` | app/src/main/cpp/message_loop_task_queues.cc:326-334 | true exactly if both ids are proper and the second is in the first's owned set |
| `Ownership.StepKeepsInv` | app/src/main/cpp/message_loop_task_queues.h:109-122 | every operation keeps the ownership forest, the identity of tasks by order number and the grading of heaps |
| `Ownership.RunKeepsInv` | app/src/main/cpp/message_loop_task_queues.h:109-122 | so does every run |
| `Ownership.ReachableInv` | app/src/main/cpp/message_loop_task_queues.h:109-122 | in every reachable state owner_of and subsumed_by agree, name live queues only, and no queue both owns and is owned |
| `Ownership.LinkKeepsForest` | app/src/main/cpp/message_loop_task_queues.cc:272-274 | linking after the checks keeps the forest |
| `Ownership.UnlinkKeepsForest` | app/src/main/cpp/message_loop_task_queues.cc:312-313 | cutting keeps the forest |
| `Ownership.DisposeKeepsInv` | app/src/main/cpp/message_loop_task_queues.cc:80-90 | disposing an unsubsumed queue with its subsumed ones leaves no dangling id |
| `Ownership.RegisteredKeepsInv` | app/src/main/cpp/message_loop_task_queues.cc:114-117 | a fresh order number keeps pending tasks distinct across all heaps |
| `Ownership.UnmergeIffOwned` | app/src/main/cpp/message_loop_task_queues.cc:283-334 | in every reachable state Unmerge succeeds if and only if Owns holds, although it tests four conditions |
| `Ownership.MergeThenUnmerge` | app/src/main/cpp/message_loop_task_queues.cc:232-324 | when a fresh merge succeeds, exactly; then Unmerge succeeds and restores all but armed times |
| `Ownership.MergeIff` | app/src/main/cpp/message_loop_task_queues.cc:232-281 | when Merge answers true, a queue with itself and queues merged already included; for two queues exactly when the first owns the second afterwards |
| `Ownership.OwnsIffSubsumed` | app/src/main/cpp/message_loop_task_queues.cc:326-334 | Owns agrees with the other copy of the relation |
| `Observations.QueuesAre` | app/src/main/cpp/message_loop_task_queues.cc:64-90 | which queues live after each operation, and both counters |
| `Observations.FamilyIsServed` | app/src/main/cpp/message_loop_task_queues.h:109-122 | an owner's family is itself and the queues that say they are subsumed by it |
| `Observations.WakeableIff` | app/src/main/cpp/message_loop_task_queues.cc:224-230 | a queue has a wakeable after an operation exactly if it had one or the operation set it |
| `Observations.WakeableRun` | app/src/main/cpp/message_loop_task_queues.cc:224-230 | over every run a live queue has a wakeable exactly if one was set on it |
| `Observations.PausesAre` | app/src/main/cpp/message_loop_task_queues.cc:342-354 | how often each queue is paused after each operation |
| `Observations.OwnershipIs` | app/src/main/cpp/message_loop_task_queues.cc:232-324 | who owns whom after each operation: begins with a merge under its exact condition, ends with the unmerging |
| `Observations.PendingIs` | app/src/main/cpp/message_loop_task_queues.cc:80-160 | what is pending where after each operation, task by task |
| `Observations.VisibleIff` | app/src/main/cpp/task_source.cc:52-93 | a loop sees exactly what is pending in its own queue and in those that say they are subsumed by it, micro tasks only where no pause is in force |
| `Observations.ArmedIs` | app/src/main/cpp/message_loop_task_queues.cc:123-167 | who is armed anew by each operation and for exactly which time, a hand-out included; nobody else is |
| `Observations.RegisterArms` | app/src/main/cpp/message_loop_task_queues.cc:118-126 | after a registration the serving loop keeps its wakeable and is armed at its earliest visible task |
| `Wakeups.RegisterHeard` | app/src/main/cpp/message_loop_task_queues.cc:118-126 | registering loses no wake-up, on subsumed queues too |
| `Wakeups.MergeHeard` | app/src/main/cpp/message_loop_task_queues.cc:272-280 | merging loses no wake-up |
| `Wakeups.UnmergeHeard` | app/src/main/cpp/message_loop_task_queues.cc:312-323 | unmerging loses none, for owner and released queue |
| `Wakeups.PopHeard` | app/src/main/cpp/message_loop_task_queues.cc:134-160 | popping loses none although it arms before it removes |
| `Wakeups.SetWakeableIff` | app/src/main/cpp/message_loop_task_queues.cc:224-230 | setting a wakeable loses a wake-up if and only if a task is already visible |
| `Wakeups.ResumeUnsubsumed` | app/src/main/cpp/message_loop_task_queues.cc:347-354 | resuming an unsubsumed queue loses none |
| `Wakeups.ResumeSubsumedIff` | app/src/main/cpp/message_loop_task_queues.cc:347-364 | resuming a subsumed queue keeps all wake-ups if and only if its owner is armed for what appears |
| `Wakeups.StepWakesIff` | app/src/main/cpp/message_loop_task_queues.cc:80-354 | for every operation: no wake-up is lost if and only if a condition on the state before the call holds |
| `Wakeups.RunWakes` | app/src/main/cpp/message_loop_task_queues.cc:80-354 | over every run of such steps each unsubsumed queue with a wakeable is armed no later than its earliest visible task |
| `Wakeups.ReachableWakes` | app/src/main/cpp/message_loop_task_queues.cc:80-354 | the same from the empty dispatcher |
| `Wakeups.WokenInTime` | app/src/main/cpp/message_loop_task_queues.cc:80-354 | told by the calls: over every heard run a live, unsubsumed queue on which a wakeable was set and which sees a task is armed no later than any of them |
| `Wakeups.LostWakeupExample` | app/src/main/cpp/message_loop_task_queues.cc:347-364 | a run from the empty dispatcher after which an owner sees a task and was never armed |
| `Wakeups.LateWakeableExample` | app/src/main/cpp/message_loop_task_queues.cc:224-230 | a run of three calls after which a queue with a wakeable sees a task and was never armed |
| `Conservation.MovesNothing` | app/src/main/cpp/message_loop_task_queues.cc:224-354 | create, set-wakeable, merge, unmerge, pause and resume move no task between heaps |
| `Conservation.StepConserves` | app/src/main/cpp/message_loop_task_queues.cc:80-160 | each step keeps every registered task in exactly one place |
| `Conservation.RunConserves` | app/src/main/cpp/message_loop_task_queues.cc:80-354 | over every run each registered task is pending where it was registered, or was handed out once, or was dropped, exclusively |
| `Conservation.AheadIsDone` | app/src/main/cpp/message_loop_task_queues.cc:134-160 | in every reachable state, when any task is handed out, every task of the family scheduled ahead of it was handed out or dropped or is held by a pause |
| `Conservation.PlacedStays` | app/src/main/cpp/message_loop_task_queues.cc:108-117 | a task stays recorded at the queue it was registered to, over every run |
| `Conservation.JoinDrains` | app/src/main/cpp/thread.cc:58-65 | when the task that Join posted is handed out, after any run in between, every task registered to the family before the join and due by then is out of the way |
| `Threads.Thread.Join` | app/src/main/cpp/thread.cc:58-65 | the first call registers exactly the terminate closure, for now, with the thread's queue; later calls do nothing |
| `MessageLoops.MessageLoopImpl.constructor` | app/src/main/cpp/message_loop_impl.cc:22-27 | creates a queue and sets its wakeable while the queue is still empty |
| `MessageLoops.MessageLoopImpl.PostTask` | app/src/main/cpp/message_loop_impl.cc:33-42 | a new task with exactly the given closure and time is pending in the queue posted to and nothing else changes hands; or nothing at all happens if the loop posted to is terminated, be it this one or another |
| `MessageLoops.MessageLoopImpl.DoTerminate` | app/src/main/cpp/message_loop_impl.cc:90-93 | this loop is terminated afterwards and no other changes |
| `MessageLoops.MessageLoopImpl.RunClosure` | app/src/main/cpp/message_loop_impl.cc:103-108 | the whole closure runs: all its posts that no terminated loop drops are pending afterwards, numbered in order, and its termination has happened |
| `MessageLoops.ActMeans` | app/src/main/cpp/message_loop_impl.cc:33-42 | what one post or termination changes, task by task |
| `MessageLoops.EffectPerforms` | app/src/main/cpp/message_loop_impl.cc:103-108 | running a closure adds exactly its posts, in order, and terminates the loop exactly if it says so |
| `MessageLoops.MessageLoopImpl.FlushOne` | app/src/main/cpp/message_loop_impl.cc:98-108 | one turn of the loop is one round of the specification |
| `MessageLoops.MessageLoopImpl.FlushTasks` | app/src/main/cpp/message_loop_impl.cc:95-113 | ends in the state and with the tasks that the rounds give, for both flush types; terminates if the closures that run post for later, and always for a single task |
| `MessageLoops.RoundTakesOne` | app/src/main/cpp/message_loop_impl.cc:98-112 | a round whose own closure posts for later takes exactly the head out of the due tasks |
| `MessageLoops.RoundsFlush` | app/src/main/cpp/message_loop_impl.cc:95-113 | if the closures due at a fixed now post for later, flushing runs exactly the visible tasks due at now, each once, in (time, order), leaves the others, and ends armed exactly at the next one |
| `MessageLoops.RoundsPerform` | app/src/main/cpp/message_loop_impl.cc:95-113 | flushing performs the closures of exactly the tasks it runs, in that order: over all queues exactly those tasks are gone and exactly their posts have come |
| `MessageLoops.RoundPerforms` | app/src/main/cpp/message_loop_impl.cc:98-108 | the same of a single round |
| `MessageLoops.SingleRunsFirst` | app/src/main/cpp/message_loop_impl.cc:109-111 | flushing a single task runs the first one due, if there is one |
| `MessageLoops.RepostingNeverEnds` | app/src/main/cpp/message_loop_impl.cc:98-112 | a task that posts again for now or earlier leaves a task due after its round, so flushing all need not end |
| `MessageLoops.TerminatedAccruesNothing` | app/src/main/cpp/message_loop_impl.cc:73-81 | while a terminated loop runs its last tasks nothing new is registered to its queue |
| `MessageLoops.MessageLoopImpl.FinishRun` | app/src/main/cpp/message_loop_impl.cc:73-88 | after Run: terminated, what was due ran in order, all sources of the family are empty, and other queues keep their tasks and have the posts made |
| `WorkerPool.InitialInv` | app/src/main/cpp/concurrent_message_loop.cc:17-30 | at least one worker, and the invariant at the start |
| `WorkerPool.PostKeeps` | app/src/main/cpp/concurrent_message_loop.cc:47-72 | a post keeps the invariant although its notification is still owed |
| `WorkerPool.GrabKeepsQueue` | app/src/main/cpp/concurrent_message_loop.cc:76-98 | a worker's critical section keeps FIFO order and the single ownership of tasks |
| `WorkerPool.GrabKeepsAwake` | app/src/main/cpp/concurrent_message_loop.cc:76-98 | it keeps the balance between queued tasks, awake workers and owed notifications |
| `WorkerPool.GrabKeepsHeard` | app/src/main/cpp/concurrent_message_loop.cc:91-94 | it takes all of the worker's own broadcasts and no other worker's |
| `WorkerPool.GrabKeepsDraining` | app/src/main/cpp/concurrent_message_loop.cc:81-89 | after shutdown it is the worker's last, and takes the front task if there is one |
| `WorkerPool.BroadcastKeeps` | app/src/main/cpp/concurrent_message_loop.cc:123-133 | a broadcast is appended for every worker and leaves nobody asleep |
| `WorkerPool.TerminateKeeps` | app/src/main/cpp/concurrent_message_loop.cc:117-121 | shutdown leaves nobody asleep and fixes the queue it found |
| `WorkerPool.StepKeeps` | app/src/main/cpp/concurrent_message_loop.cc:47-146 | every step of every thread keeps the invariant, spurious wake-ups included |
| `WorkerPool.NoLostNotification` | app/src/main/cpp/concurrent_message_loop.cc:52-79 | in every interleaving: while a worker sleeps, queued tasks never outnumber workers on their way plus owed notifications; a non-empty queue has an awake worker or an owed notification |
| `WorkerPool.DrainedAtExit` | app/src/main/cpp/concurrent_message_loop.cc:74-146 | when all workers have exited, the tasks taken are those taken before Terminate followed by the first min(n, w) of the n it found, the others are left queued; each taken task ran once; each worker ran every earlier broadcast once, in order |
| `WorkerPool.ShutdownStory` | app/src/main/cpp/concurrent_message_loop.cc:47-146 | told by the steps: of the tasks posted before Terminate those taken by then and the first min(n, w) left were taken and ran once, later posts ran on their callers, every worker ran all earlier broadcasts in order |
| `WorkerPool.RunTold` | app/src/main/cpp/concurrent_message_loop.cc:47-133 | in every interleaving the pool is shut down exactly from the first Terminate on, and until then accepts every post in order |
| `WorkerPool.CheckMeans` | app/src/main/cpp/concurrent_message_loop.cc:76-98 | a worker goes to sleep exactly if there is nothing for it; otherwise it takes the front task and all its own thread tasks |
| `WorkerPool.ShutdownNeverStuck` | app/src/main/cpp/concurrent_message_loop.cc:76-114 | after Terminate each worker that has not exited has a step of its own |
| `WorkerPool.WorkersExit` | app/src/main/cpp/concurrent_message_loop.cc:32-37 | after Terminate, in every interleaving without new broadcasts, the workers take a bounded number of steps, after which all have exited: the joins end if the closures do |
| `WorkerPool.PostsRunOnCaller` | app/src/main/cpp/concurrent_message_loop.cc:54-62 | after Terminate every later post runs on its caller, in order, and none is queued |
| `ConcurrentMessageLoops.ConcurrentMessageLoop.constructor` | app/src/main/cpp/concurrent_message_loop.cc:17-30 | the fields of the initial pool, at least one worker |
| `ConcurrentMessageLoops.ConcurrentMessageLoop.PostTask` | app/src/main/cpp/concurrent_message_loop.cc:52-69 | is the post step on the fields; the caller runs the task exactly if no notification becomes due |
| `ConcurrentMessageLoops.ConcurrentMessageLoop.WorkerSection` | app/src/main/cpp/concurrent_message_loop.cc:76-98 | is the worker's critical section: sleep, or take the front task and all own thread tasks |
| `ConcurrentMessageLoops.ConcurrentMessageLoop.GetThreadTasksLocked` | app/src/main/cpp/concurrent_message_loop.cc:139-146 | takes all of the worker's thread tasks and leaves the others' |
| `ConcurrentMessageLoops.ConcurrentMessageLoop.Terminate` | app/src/main/cpp/concurrent_message_loop.cc:117-121 | is the terminate step on the fields |
| `ConcurrentMessageLoops.ConcurrentMessageLoop.PostTaskToAllWorkers` | app/src/main/cpp/concurrent_message_loop.cc:123-133 | is the broadcast step: appended once for every worker |
| `Base32.BitConverter.constructor` | app/src/main/cpp/base32.h:45-46 | an empty bit queue |
| `Base32.BitConverter.Append` | app/src/main/cpp/base32.h:18-23 | enqueues the bits, most significant first |
| `Base32.BitConverter.Peek` | app/src/main/cpp/base32.h:33-33 | the first bits of the queue, zeros after them |
| `Base32.BitConverter.Extract` | app/src/main/cpp/base32.h:25-31 | dequeues from the front |
| `Base32.BitConverter.Aligned` | app/src/main/cpp/base32.h:38-47 | the buffer stays below 2^16 and all its free low bits are zero |
| `Base32.Symbol` | app/src/main/cpp/base32.cc:12-12 | the RFC alphabet in closed form |
| `Base32.Value` | app/src/main/cpp/base32.cc:45-62 | the decode map with its bounds tests, in closed form for every byte |
| `Base32.ValueIff` | app/src/main/cpp/base32.cc:12-62 | the decode map inverts the encoding table and knows no other character |
| `Base32.Base32Encode` | app/src/main/cpp/base32.cc:14-43 | the RFC encoding (bits padded to fives), no input unread, no converter check failing; fails exactly on oversized input |
| `Base32.EncodedBits` | app/src/main/cpp/base32.cc:24-42 | the symbols stand for exactly the padded bits; the length is (8n+4)/5 |
| `Base32.Base32Decode` | app/src/main/cpp/base32.cc:54-73 | succeeds exactly if the string's bits are whole bytes and fewer than eight zeros; returns the whole bytes read so far in every case |
| `Base32.DecodeIffEncoded` | app/src/main/cpp/base32.cc:14-73 | s decodes to b if and only if s is Encode(b), or that and one 'A' with length 1, 3 or 6 mod 8 |
| `Base32.RoundTrip` | app/src/main/cpp/base32.cc:14-73 | Encode(b) decodes to b and to nothing else |
| `Base32.DecodesToOne` | app/src/main/cpp/base32.cc:54-73 | decoding is a function of the string |
| `Base64.Symbol` | CheckEnv/src/main/cpp/base64.cc:24-27 | both alphabets in closed form |
| `Base64.Reverse` | CheckEnv/src/main/cpp/base64.cc:29-49 | the reverse table in closed form for all 256 bytes |
| `Base64.SymbolIff` | CheckEnv/src/main/cpp/base64.cc:24-49 | the characters the reverse table reads as a value are its symbols in the two alphabets and no others |
| `Base64.EncodeStream` | CheckEnv/src/main/cpp/base64.cc:75-90 | the shifts and masks give the four sextets of three bytes |
| `Base64.EncodeInto` | CheckEnv/src/main/cpp/base64.cc:71-91 | writes the padded encoding; the writes made are the indices of the presized buffer, each once and in order |
| `Base64.Base64EncodeInternal` | CheckEnv/src/main/cpp/base64.cc:58-125 | all four encoders, input and output possibly the same string: the specified encoding of the old input, or false on a null output; every index of the buffer is written once |
| `Base64.PaddedLength` | CheckEnv/src/main/cpp/base64.cc:127-130 | the size function is the length of the padded encoding |
| `Base64.SextetBits` | CheckEnv/src/main/cpp/base64.cc:71-90 | the four sextets of a group are its 24 bits, six at a time |
| `Base64.EncodedBits` | CheckEnv/src/main/cpp/base64.cc:71-103 | the symbols of an encoding stand for exactly the bits of the input and fewer than six zeros, as the RFC defines Base64 |
| `Base64.TrimGivesBare` | CheckEnv/src/main/cpp/base64.cc:92-103 | trimming one or two '=' turns the padded into the unpadded encoding, for every input |
| `Base64.DecodeStream` | CheckEnv/src/main/cpp/base64.cc:170-184 | the shifts and masks give the three bytes of four sextets |
| `Base64.GroupDecides` | CheckEnv/src/main/cpp/base64.cc:151-188 | the tests on characters and stale bits decide a group as its specification does |
| `Base64.RoomAt` | CheckEnv/src/main/cpp/base64.cc:196-219 | the decoded size leaves room for every group at its index |
| `Base64.LastRoomExact` | CheckEnv/src/main/cpp/base64.cc:203-218 | the room of an accepted last group is exact, one too many if it is half-padded |
| `Base64.DecodeGroup` | CheckEnv/src/main/cpp/base64.cc:150-189 | one turn: reads inside the input, writes inside the buffer, each index once; the group's bytes, or what a rejected group leaves |
| `Base64.DecodeInto` | CheckEnv/src/main/cpp/base64.cc:148-189 | accepts exactly the decodable strings; fills the buffer from the front, each index written once, up to the end or the point of rejection |
| `Base64.Base64Decode` | CheckEnv/src/main/cpp/base64.cc:132-194 | result, output and writes for every input, rejected ones included, in place too; a half-padded string leaves one stale byte |
| `Base64.WritingAdvances` | CheckEnv/src/main/cpp/base64.cc:176-188 | what the loop has written so far and what it will write for the rest make up what it writes in all, stale groups included |
| `Base64.LengthOneMod4` | CheckEnv/src/main/cpp/base64.cc:139-143 | no string of length 1 mod 4 is decodable |
| `Base64.AcceptedIffEncoding` | CheckEnv/src/main/cpp/base64.cc:135-194 | for every string: decodes to b if and only if it is, '-' and '_' read as '+' and '/', the padded, unpadded or half-padded encoding of b |
| `Base64.Canonical` | CheckEnv/src/main/cpp/base64.cc:135-194 | outside length 3 mod 4 ending in '=': the padded and unpadded encodings of b and no other string decode to b |
| `Base64.HalfPaddedExample` | CheckEnv/src/main/cpp/base64.cc:161-169 | "QQ=" is accepted although it is neither |
| `Base64.RoundTrip` | CheckEnv/src/main/cpp/base64.cc:110-194 | decoding the output of any of the four encoders gives the input back |
| `RefCounting.StepKeepsInv` | app/src/main/cpp/memory/ref_ptr.h:79-187 | every handle operation keeps counts equal to handles, and no debug check in it fails |
| `RefCounting.RunKeepsInv` | app/src/main/cpp/memory/ref_ptr.h:79-187 | so does every sequence of operations |
| `RefCounting.AssignmentMeans` | app/src/main/cpp/memory/ref_ptr.h:134-187 | what copy and move assignment do to all handles, self-assignment and self-move included |
| `RefCounting.StepMeans` | app/src/main/cpp/memory/ref_ptr.h:70-187 | where all handles point after each operation |
| `RefCounting.CountIsHandles` | app/src/main/cpp/memory/ref_counted_internal.h:23-78 | over every sequence of operations an object's count is the number of its handles, and it was freed once if there are none and not at all otherwise |
| `RefCounting.FreedWithLastHandle` | app/src/main/cpp/memory/ref_counted_internal.h:44-71 | an object is freed in exactly the step that takes its last handle away |
| `RefCounting.FreedForGood` | app/src/main/cpp/memory/ref_ptr.h:79-187 | after that, over every run, it is not freed again and no handle points to it |
| `RefPtrs.RefCounted.constructor` | app/src/main/cpp/memory/ref_counted_internal.h:94-102 | count one, adoption required |
| `RefPtrs.RefCounted.Adopt` | app/src/main/cpp/memory/ref_counted_internal.h:73-78 | adoption no longer required |
| `RefPtrs.RefCounted.AddRef` | app/src/main/cpp/memory/ref_counted_internal.h:23-30 | one reference more |
| `RefPtrs.RefCounted.Release` | app/src/main/cpp/memory/ref_counted_internal.h:44-71 | one fewer; deleted exactly when it was the last |
| `RefPtrs.RefPtr.Make` | app/src/main/cpp/memory/ref_ptr.h:229-235 | the handle takes over the creator's reference |
| `RefPtrs.RefPtr.Null` | app/src/main/cpp/memory/ref_ptr.h:70-72 | is the null-construction step on the abstract heap |
| `RefPtrs.RefPtr.Clear` | app/src/main/cpp/memory/weak_ptr.h:80-80 | assigning null lets go of the object and points nowhere |
| `RefPtrs.RefPtr.FromPointer` | app/src/main/cpp/memory/ref_ptr.h:79-84 | is the step from a plain pointer, with its AddRef, or the null step |
| `RefPtrs.RefPtr.Copy` | app/src/main/cpp/memory/ref_ptr.h:86-93 | is the copy step on the abstract heap |
| `RefPtrs.RefPtr.Move` | app/src/main/cpp/memory/ref_ptr.h:103-107 | is the move step |
| `RefPtrs.RefPtr.Destruct` | app/src/main/cpp/memory/ref_ptr.h:114-120 | is the destroy step |
| `RefPtrs.RefPtr.Swap` | app/src/main/cpp/memory/ref_ptr.h:183-187 | is the swap step |
| `RefPtrs.RefPtr.CopyAssign` | app/src/main/cpp/memory/ref_ptr.h:134-150 | is the copy-assignment step, aliased handles included |
| `RefPtrs.RefPtr.MoveAssign` | app/src/main/cpp/memory/ref_ptr.h:168-175 | is the move-assignment step through a temporary, self-move included |
| `WeakPtrs.NextHandles` | app/src/main/cpp/memory/weak_ptr.h:50-80 | which flag every weak pointer and factory holds after each operation |
| `WeakPtrs.NextKeepsInv` | app/src/main/cpp/memory/weak_ptr_internal.cc:10-21 | every operation keeps: a flag is valid exactly while its factory lives, and the checks of the flag's invalidation and destruction hold |
| `WeakPtrs.WeakIffAlive` | app/src/main/cpp/memory/weak_ptr.h:80-93 | over every run a weak pointer yields its factory's pointer exactly while it holds a flag and the factory is alive; a flag is invalidated at most once, and before it is freed |
| `WeakPtrs.FactoriesTold` | app/src/main/cpp/memory/weak_ptr.h:231-240 | over every run a factory points where it was made to point, and is alive exactly if it was made and not destroyed |
| `WeakPtrFlags.WeakPtrFlag.constructor` | app/src/main/cpp/memory/weak_ptr_internal.cc:10-10 | valid, never invalidated |
| `WeakPtrFlags.WeakPtrFlag.Invalidate` | app/src/main/cpp/memory/weak_ptr_internal.cc:17-21 | invalid, invalidated once more |
| `WeakPtrObjects.WeakPtrFactory.constructor` | app/src/main/cpp/memory/weak_ptr.h:231-235 | is the new-factory step: an adopted flag of its own |
| `WeakPtrObjects.WeakPtrFactory.GetWeakPtr` | app/src/main/cpp/memory/weak_ptr.h:246-248 | is the step: the factory's pointer and one more handle on its flag |
| `WeakPtrObjects.WeakPtrFactory.Destruct` | app/src/main/cpp/memory/weak_ptr.h:237-240 | is the step: the flag is invalidated, no other flag is, and then let go |
| `WeakPtrObjects.WeakPtr.Default` | app/src/main/cpp/memory/weak_ptr.h:50-50 | is the default-construction step |
| `WeakPtrObjects.WeakPtr.Copy` | app/src/main/cpp/memory/weak_ptr.h:52-54 | is the copy step |
| `WeakPtrObjects.WeakPtr.Move` | app/src/main/cpp/memory/weak_ptr.h:60-61 | is the move step; the plain pointer stays in the source |
| `WeakPtrObjects.WeakPtr.CopyAssign` | app/src/main/cpp/memory/weak_ptr.h:74-75 | is the copy-assignment step, aliasing included |
| `WeakPtrObjects.WeakPtr.MoveAssign` | app/src/main/cpp/memory/weak_ptr.h:77-78 | is the move-assignment step, self-move included |
| `WeakPtrObjects.WeakPtr.Reset` | app/src/main/cpp/memory/weak_ptr.h:80-80 | is the reset step |
| `WeakPtrObjects.WeakPtr.Destruct` | app/src/main/cpp/memory/weak_ptr.h:69-69 | is the destroy step |
| `WeakPtrObjects.WeakPtr.Get` | app/src/main/cpp/memory/weak_ptr.h:85-93 | what the in-place fields yield is what the state says, for every weak pointer |
| `ReferencePools.ReferencePool.Add` | app/src/main/java/com/mgg/environmentcheck/NativeObjectReference.java:53-60 | the list is the new reference followed by the old list, all links intact |
| `ReferencePools.ReferencePool.Remove` | app/src/main/java/com/mgg/environmentcheck/NativeObjectReference.java:62-75 | the list is the old one without the reference, wherever it stood; its own links are cleared |
| `ReferencePools.TraversalIsMembers` | app/src/main/java/com/mgg/environmentcheck/NativeObjectReference.java:50-51 | following next from head visits the members once each, in order, and ends |
| `ReferencePools.MembersAre` | app/src/main/java/com/mgg/environmentcheck/NativeObjectReference.java:50-76 | after any history the members are exactly the references added and not removed, without repetition |
| `ReferencePools.MembersInReverseOrder` | app/src/main/java/com/mgg/environmentcheck/NativeObjectReference.java:50-76 | and they stand in reverse order of adding |
| `WaitableEvents.ManualResetWaitableEvent.Signal` | app/src/main/cpp/synchronization/waitable_event.cc:126-131 | signaled, and the next 32-bit signal number |
| `WaitableEvents.ManualResetWaitableEvent.Reset` | app/src/main/cpp/synchronization/waitable_event.cc:133-136 | unsignaled, same signal number |
| `WaitableEvents.ManualResetWaitableEvent.BeginWait` | app/src/main/cpp/synchronization/waitable_event.cc:138-145 | returns at once exactly if signaled, which for a timed call is its whole condition |
| `WaitableEvents.StepKeepsInv` | app/src/main/cpp/synchronization/waitable_event.cc:126-168 | every step keeps: no call sleeps while its exit condition is true, and no call returns without a time-out before the first signal |
| `WaitableEvents.RunKeepsInv` | app/src/main/cpp/synchronization/waitable_event.cc:126-168 | the same over every interleaving |
| `WaitableEvents.SignaledIff` | app/src/main/cpp/synchronization/waitable_event.cc:126-149 | over every run the event is signaled exactly if a signal came after the last reset; a wait call returns at once exactly then and is blocked otherwise |
| `WaitableEvents.ReturnsIff` | app/src/main/cpp/synchronization/waitable_event.cc:39-54 | when exactly one step makes a blocked call return, with or without a time-out, or sleep |
| `WaitableEvents.ReturnedForAReason` | app/src/main/cpp/synchronization/waitable_event.cc:138-168 | over every run a blocked call returns only after a signal given since it blocked, or by a time-out if it is timed |
| `WaitableEvents.ReleasedIff` | app/src/main/cpp/synchronization/waitable_event.cc:138-168 | a blocked call may leave if and only if the number of signals since it blocked is not a multiple of 2^32 (or it is timed and the event is signaled); it is then awake and its next look lets it go |
| `WaitableEvents.SignalReleases` | app/src/main/cpp/synchronization/waitable_event.cc:126-149 | a call blocked at a signal keeps a true exit condition whatever resets and spurious wake-ups follow, for fewer than 2^32 signals |
| `WaitableEvents.WrapExample` | app/src/main/cpp/synchronization/waitable_event.cc:145-148 | after exactly 2^32 signals a waiting call goes back to sleep on a signaled event |
| `CountDownLatches.CountDownLatch.constructor` | app/src/main/cpp/synchronization/count_down_latch.cc:9-13 | the event is signaled from the start exactly for a zero count |
| `CountDownLatches.CountDownLatch.CountDown` | app/src/main/cpp/synchronization/count_down_latch.cc:21-25 | decrements modulo 2^64 and signals exactly on reaching zero |
| `CountDownLatches.CountDownOnce` | app/src/main/cpp/synchronization/count_down_latch.cc:21-25 | what the wrapping counter holds after any number of decrements, and how often it was zero |
| `CountDownLatches.RunKeepsLatchInv` | app/src/main/cpp/synchronization/count_down_latch.cc:9-25 | signals given plus signals under way are the zeros the counter passed, in every interleaving; once signaled, always signaled |
| `CountDownLatches.FinishedWaitMeansZero` | app/src/main/cpp/synchronization/count_down_latch.cc:17-25 | in every interleaving a finished Wait means that at least count decrements happened |
| `CountDownLatches.OpenIff` | app/src/main/cpp/synchronization/count_down_latch.cc:17-25 | with no signalling under way, a wait call can pass if and only if count decrements happened |
| `CountDownLatches.StaysOpen` | app/src/main/cpp/synchronization/count_down_latch.cc:17-25 | once the zeroing call has signalled, the latch is open forever |

## Left out

- Environment checks (root, emulator, hook, VPN, ROM, debugger), shell and /proc readers, JNI wrappers, Android services and UI: thin input and output with no hard property.
- Platform looper and timer: waking a loop is recorded as the time it is armed for, and time is an integer; the platform's own Run is not part of this model.
- Wrap-around of `order_` and of the queue id counter: fewer than 2^31 registrations and queues are assumed.
- Lookups of unknown ids with `at`, and the debug checks (unsubsumed disposal, balanced pauses, a wakeable set once, non-null closures), are obligations of the caller, as they are in the code.
- Heaps are sets with an abstract minimum: the inner working of `std::priority_queue` is not modelled; order numbers keep pending tasks distinct.
- Entries of the dispatcher are values in its map, which alone owns them; only the task sources are shared objects.
- Dispatcher.MessageLoopTaskQueues.GetNextTaskToRun: the second emptiness test repeats the first under the same lock, so its branch that arms at the latest possible time is dead and not modelled; the thread-local current grade is not modelled.
- Task observers: their effects are part of the effect of the closure that was run before them.
- MessageLoops.MessageLoopImpl.DoTerminate: the platform's own Terminate call, which makes Run return, is not part of this model.
- MessageLoops.MessageLoopImpl.PostTask: the `terminated_` flags of all loops are kept in one shared object, by queue, so that a closure can post to other loops; every post has the default grade, as in the repository's only call of RegisterTask.
- MessageLoops.MessageLoopImpl.FlushTasks: when flushing all, the closures that run must post to the loop's own family for later than the fixed now (or to a terminated loop); otherwise the code's loop need not end (MessageLoops.RepostingNeverEnds).
- MessageLoops.MessageLoopImpl.FinishRun: covers what follows the platform's Run, not Run itself or the early return of a loop that was terminated before.
- Thread creation and joining of the operating system's threads: only the terminate task that Join posts matters here.
- WorkerPool: each critical section of the mutex is one step, notifications and closures are steps of their own; the mutex and the condition variable themselves are not modelled. Null closures and the weak reference of the task runner are not modelled.
- Base32.Base32Encode: `size_t` is taken to be 64 bits wide.
- Base64.Base64Decode: characters are unsigned bytes and lengths fit an int.
- RefCounting: counts do not overflow 32 bits; each atomic operation is one step, memory orderings are not modelled; the templated conversions between pointer types behave like the plain forms.
- Weak pointers: thread checkers and the task-runner-affine variants are not modelled.
- ReferencePools.ReferencePool.Remove: the reference must be a member, as it is when its only cleanup removes it; the two methods are synchronized, hence atomic.
- WaitableEvents: a wait loop is modelled as steps of a state machine that may be interleaved wherever the mutex is free; how long a time-out lasts is left open. The auto-reset event is not modelled.
- The shared pointer, the ASCII trie, the Java looper thread, Snappy, number conversion and the hex codec are not modelled: they add no harder property.
