/** The concurrent message loop as an interleaving of steps.  A critical section of
    `tasks_mutex_` is one step; posters notify in a later step of their own, waiting workers
    may wake spuriously, and closures run outside the mutex. */
module WorkerPool {
  import opened Options

  type Task = nat

  /** Where a worker is: about to take the mutex and test its predicate, waiting on the
      condition variable, running what it took, or gone. */
  datatype Worker =
    | Ready
    | Blocked
    | Running(task: Option<Task>, threadTasks: seq<Task>, exiting: bool)
    | Exited

  /** `owed` counts the posters that have unlocked but not yet notified. */
  datatype Pool = Pool(tasks: seq<Task>, threadTasks: map<nat, seq<Task>>, shutdown: bool,
                       workers: seq<Worker>, owed: nat)

  /** What an observer records.  `takenBefore`, `left` and `announced` are the tasks taken, the
      queue and the number of broadcasts at the first `Terminate`. */
  datatype Log = Log(posted: seq<Task>, taken: seq<Task>, ran: seq<Task>, byCaller: seq<Task>,
                     broadcasts: seq<Task>, heard: seq<seq<Task>>,
                     takenBefore: seq<Task>, left: seq<Task>, announced: nat)

  datatype World = World(pool: Pool, log: Log)

  datatype Step =
    | Post(task: Task)
    | Notify(target: Option<nat>)
    | Spurious(w: nat)
    | Check(w: nat)
    | RunTask(w: nat)
    | RunThreadTask(w: nat)
    | Finish(w: nat)
    | Broadcast(task: Task)
    | Terminate

  ghost predicate IsReady(w: Worker) { w.Ready? }
  /** The worker has had its last critical section. */
  ghost predicate IsDone(w: Worker) { w.Exited? || (w.Running? && w.exiting) }

  ghost predicate SomeBlocked(ws: seq<Worker>) {
    exists i :: 0 <= i < |ws| && ws[i].Blocked?
  }

  ghost function Count(p: Worker -> bool, ws: seq<Worker>): (n: nat)
    ensures n <= |ws|
  {
    if ws == [] then 0 else (if p(ws[0]) then 1 else 0) + Count(p, ws[1..])
  }

  /** The worker holds queued task `t` and has not run it yet. */
  ghost function Holds(t: Task): Worker -> bool {
    (w: Worker) => w.Running? && w.task == Some(t)
  }

  /** `notify_all`. */
  ghost function Awake(ws: seq<Worker>): (r: seq<Worker>)
    ensures |r| == |ws|
    ensures forall i | 0 <= i < |ws| :: r[i] == if ws[i].Blocked? then Ready else ws[i]
  {
    seq(|ws|, i requires 0 <= i < |ws| => if ws[i].Blocked? then Ready else ws[i])
  }

  /** The constructor starts at least one worker. */
  ghost function Initial(workerCount: nat): World {
    var n := if workerCount > 1 then workerCount else 1;
    World(Pool([], map[], false, seq(n, i => Ready), 0),
          Log([], [], [], [], [], seq(n, i => []), [], [], 0))
  }

  ghost predicate Wanted(p: Pool, w: nat) {
    p.tasks != [] || p.shutdown || w in p.threadTasks
  }

  ghost predicate Enabled(p: Pool, step: Step) {
    match step
    case Post(_) => true
    case Notify(None) => p.owed > 0 && !SomeBlocked(p.workers)
    case Notify(Some(w)) => p.owed > 0 && w < |p.workers| && p.workers[w].Blocked?
    case Spurious(w) => w < |p.workers| && p.workers[w].Blocked?
    case Check(w) => w < |p.workers| && p.workers[w].Ready?
    case RunTask(w) => w < |p.workers| && p.workers[w].Running? && p.workers[w].task.Some?
    case RunThreadTask(w) =>
      w < |p.workers| && p.workers[w].Running? && p.workers[w].task.None? && p.workers[w].threadTasks != []
    case Finish(w) =>
      w < |p.workers| && p.workers[w].Running? && p.workers[w].task.None? && p.workers[w].threadTasks == []
    case Broadcast(_) => true
    case Terminate => true
  }

  /** What the critical section of worker `w` takes away. */
  ghost function Grab(p: Pool, w: nat): Worker {
    Running(if p.tasks == [] then None else Some(p.tasks[0]),
            if w in p.threadTasks then p.threadTasks[w] else [],
            p.shutdown)
  }

  ghost function NextPool(p: Pool, step: Step): Pool
    requires Enabled(p, step)
  {
    match step
    case Post(t) => if p.shutdown then p else p.(tasks := p.tasks + [t], owed := p.owed + 1)
    case Notify(None) => p.(owed := p.owed - 1)
    case Notify(Some(w)) => p.(owed := p.owed - 1, workers := p.workers[w := Ready])
    case Spurious(w) => p.(workers := p.workers[w := Ready])
    case Check(w) =>
      if Wanted(p, w) then
        p.(tasks := if p.tasks == [] then [] else p.tasks[1..],
           threadTasks := p.threadTasks - {w},
           workers := p.workers[w := Grab(p, w)])
      else p.(workers := p.workers[w := Blocked])
    case RunTask(w) => p.(workers := p.workers[w := p.workers[w].(task := None)])
    case RunThreadTask(w) =>
      p.(workers := p.workers[w := p.workers[w].(threadTasks := p.workers[w].threadTasks[1..])])
    case Finish(w) => p.(workers := p.workers[w := if p.workers[w].exiting then Exited else Ready])
    case Broadcast(t) =>
      p.(threadTasks := map w | 0 <= w < |p.workers| ::
           (if w in p.threadTasks then p.threadTasks[w] else []) + [t],
         workers := Awake(p.workers))
    case Terminate => p.(shutdown := true, workers := Awake(p.workers))
  }

  ghost function NextLog(p: Pool, log: Log, step: Step): Log
    requires Enabled(p, step) && |log.heard| == |p.workers|
  {
    match step
    case Post(t) =>
      if p.shutdown then log.(byCaller := log.byCaller + [t]) else log.(posted := log.posted + [t])
    case Check(w) => if p.tasks == [] then log else log.(taken := log.taken + [p.tasks[0]])
    case RunTask(w) => log.(ran := log.ran + [p.workers[w].task.value])
    case RunThreadTask(w) => log.(heard := log.heard[w := log.heard[w] + [p.workers[w].threadTasks[0]]])
    case Broadcast(t) => log.(broadcasts := log.broadcasts + [t])
    case Terminate => if p.shutdown then log else log.(takenBefore := log.taken, left := p.tasks, announced := |log.broadcasts|)
    case _ => log
  }

  ghost function Next(x: World, step: Step): World
    requires Enabled(x.pool, step) && |x.log.heard| == |x.pool.workers|
  {
    World(NextPool(x.pool, step), NextLog(x.pool, x.log, step))
  }

  // What every interleaving keeps

  /** While a worker sleeps, every queued task has a worker on its way or a poster that still
      owes its notification; nobody with work of his own sleeps, nor anybody after shutdown. */
  ghost predicate NoSleeper(p: Pool) {
    && (SomeBlocked(p.workers) ==> !p.shutdown && |p.tasks| <= p.owed + Count(IsReady, p.workers))
    && (forall w | 0 <= w < |p.workers| && p.workers[w].Blocked? :: w !in p.threadTasks)
  }

  /** Task `t` was run or is held as often as it was taken. */
  ghost predicate Accounted(x: World, t: Task) {
    multiset(x.log.taken)[t] == multiset(x.log.ran)[t] + Count(Holds(t), x.pool.workers)
  }

  /** Accepted tasks leave the queue in order, and each is held by one worker or has run. */
  ghost predicate Fifo(x: World) {
    && x.log.posted == x.log.taken + x.pool.tasks
    && forall t :: Accounted(x, t)
  }

  ghost function ThreadHeld(w: Worker): seq<Task> {
    if w.Running? then w.threadTasks else []
  }

  ghost function ThreadPending(p: Pool, w: nat): seq<Task> {
    if w in p.threadTasks then p.threadTasks[w] else []
  }

  /** Each worker hears every broadcast once and in order. */
  ghost predicate HeardInOrder(x: World, w: nat)
    requires w < |x.pool.workers| == |x.log.heard|
  {
    x.log.heard[w] + ThreadHeld(x.pool.workers[w]) + ThreadPending(x.pool, w) == x.log.broadcasts
  }

  /** After shutdown each worker has at most one more critical section. */
  ghost predicate Draining(x: World) {
    var done := Count(IsDone, x.pool.workers);
    if x.pool.shutdown then
      && x.log.posted == x.log.takenBefore + x.log.left
      && x.pool.tasks == x.log.left[if done < |x.log.left| then done else |x.log.left|..]
      && x.log.announced <= |x.log.broadcasts|
      && forall w | 0 <= w < |x.pool.workers| && w < |x.log.heard| && IsDone(x.pool.workers[w]) ::
           x.log.announced <= |x.log.heard[w]| + |ThreadHeld(x.pool.workers[w])|
    else done == 0
  }

  ghost predicate Inv(x: World) {
    && |x.log.heard| == |x.pool.workers| > 0
    && NoSleeper(x.pool)
    && Fifo(x)
    && (forall w | 0 <= w < |x.pool.workers| :: HeardInOrder(x, w))
    && Draining(x)
  }

  // Counting

  lemma {:induction false} CountUpdate(p: Worker -> bool, ws: seq<Worker>, i: nat, w: Worker)
    requires i < |ws|
    ensures Count(p, ws[i := w]) == Count(p, ws) - (if p(ws[i]) then 1 else 0) + (if p(w) then 1 else 0)
  {
    if i == 0 {
      assert ws[i := w][1..] == ws[1..];
    } else {
      assert ws[i := w][1..] == ws[1..][i - 1 := w];
      CountUpdate(p, ws[1..], i - 1, w);
    }
  }

  /** Waking sleepers does not change how many workers satisfy `p`, if neither state does. */
  lemma {:induction false} AwakeSame(p: Worker -> bool, ws: seq<Worker>)
    requires !p(Blocked) && !p(Ready)
    ensures Count(p, Awake(ws)) == Count(p, ws)
  {
    if ws != [] {
      assert Awake(ws)[1..] == Awake(ws[1..]);
      AwakeSame(p, ws[1..]);
    }
  }

  lemma AwakeKeepsFifo(x: World, y: World)
    requires Fifo(x) && y.pool.workers == Awake(x.pool.workers) && y.pool.tasks == x.pool.tasks
    requires (y.log.posted, y.log.taken, y.log.ran) == (x.log.posted, x.log.taken, x.log.ran)
    ensures Fifo(y)
  {
    forall t ensures Accounted(y, t) {
      assert Accounted(x, t);
      AwakeSame(Holds(t), x.pool.workers);
    }
  }

  lemma {:induction false} CountAll(p: Worker -> bool, ws: seq<Worker>)
    requires forall i | 0 <= i < |ws| :: p(ws[i])
    ensures Count(p, ws) == |ws|
  {
    if ws != [] {
      CountAll(p, ws[1..]);
    }
  }

  lemma {:induction false} CountNone(p: Worker -> bool, ws: seq<Worker>)
    requires forall i | 0 <= i < |ws| :: !p(ws[i])
    ensures Count(p, ws) == 0
  {
    if ws != [] {
      CountNone(p, ws[1..]);
    }
  }

  // Steps

  lemma PostKeeps(x: World, t: Task)
    requires Inv(x)
    ensures Inv(Next(x, Post(t)))
  {
    var y := Next(x, Post(t));
    if !x.pool.shutdown {
      assert x.log.posted + [t] == x.log.taken + (x.pool.tasks + [t]);
    }
    assert forall u :: Accounted(x, u) ==> Accounted(y, u);
    KeepHeard(x, y);
  }

  /** Steps that touch no thread task and no broadcast. */
  lemma KeepHeard(x: World, y: World)
    requires |x.log.heard| == |x.pool.workers| == |y.pool.workers| && x.log.heard == y.log.heard
    requires x.log.broadcasts == y.log.broadcasts && x.pool.threadTasks == y.pool.threadTasks
    requires forall w | 0 <= w < |x.pool.workers| ::
               ThreadHeld(y.pool.workers[w]) == ThreadHeld(x.pool.workers[w])
    requires forall w | 0 <= w < |x.pool.workers| :: HeardInOrder(x, w)
    ensures forall w | 0 <= w < |y.pool.workers| :: HeardInOrder(y, w)
  {
    forall w | 0 <= w < |y.pool.workers| ensures HeardInOrder(y, w) {
      assert HeardInOrder(x, w);
    }
  }

  /** Steps of one worker that take no task and run none. */
  lemma ReplaceKeepsFifo(x: World, y: World, w: nat, with: Worker)
    requires Fifo(x) && w < |x.pool.workers| && y.pool.workers == x.pool.workers[w := with]
    requires y.pool.tasks == x.pool.tasks
    requires (y.log.posted, y.log.taken, y.log.ran) == (x.log.posted, x.log.taken, x.log.ran)
    requires forall t :: Holds(t)(with) == Holds(t)(x.pool.workers[w])
    ensures Fifo(y)
  {
    forall t ensures Accounted(y, t) {
      assert Accounted(x, t);
      CountUpdate(Holds(t), x.pool.workers, w, with);
    }
  }

  /** A sleeping worker is woken, by a notification or spuriously. */
  lemma WakeKeeps(x: World, w: nat, owed: nat)
    requires Inv(x) && w < |x.pool.workers| && x.pool.workers[w].Blocked?
    requires owed <= x.pool.owed <= owed + 1
    ensures Inv(x.(pool := x.pool.(owed := owed, workers := x.pool.workers[w := Ready])))
  {
    var y := x.(pool := x.pool.(owed := owed, workers := x.pool.workers[w := Ready]));
    CountUpdate(IsReady, x.pool.workers, w, Ready);
    CountUpdate(IsDone, x.pool.workers, w, Ready);
    assert SomeBlocked(x.pool.workers);
    ReplaceKeepsFifo(x, y, w, Ready);
    KeepHeard(x, y);
  }

  lemma NotifyNobodyKeeps(x: World)
    requires Inv(x) && Enabled(x.pool, Notify(None))
    ensures Inv(Next(x, Notify(None)))
  {
    var y := Next(x, Notify(None));
    assert forall u :: Accounted(x, u) ==> Accounted(y, u);
    KeepHeard(x, y);
  }

  lemma BlockKeeps(x: World, w: nat)
    requires Inv(x) && Enabled(x.pool, Check(w)) && !Wanted(x.pool, w)
    ensures Inv(Next(x, Check(w)))
  {
    CountUpdate(IsReady, x.pool.workers, w, Blocked);
    CountUpdate(IsDone, x.pool.workers, w, Blocked);
    ReplaceKeepsFifo(x, Next(x, Check(w)), w, Blocked);
    KeepHeard(x, Next(x, Check(w)));
  }

  lemma GrabKeepsAwake(x: World, w: nat)
    requires Inv(x) && Enabled(x.pool, Check(w)) && Wanted(x.pool, w)
    ensures NoSleeper(Next(x, Check(w)).pool)
  {
    hide Fifo, HeardInOrder, Draining;
    var y := Next(x, Check(w));
    CountUpdate(IsReady, x.pool.workers, w, Grab(x.pool, w));
    assert SomeBlocked(y.pool.workers) ==> SomeBlocked(x.pool.workers);
  }

  lemma FrontMoves(taken: seq<Task>, tasks: seq<Task>)
    requires tasks != []
    ensures taken + tasks == taken + [tasks[0]] + tasks[1..]
    ensures multiset(taken + [tasks[0]]) == multiset(taken) + multiset{tasks[0]}
  {
    assert tasks == [tasks[0]] + tasks[1..];
  }

  lemma GrabAccounts(x: World, w: nat, t: Task)
    requires Enabled(x.pool, Check(w)) && Wanted(x.pool, w) && |x.log.heard| == |x.pool.workers|
    requires Accounted(x, t)
    ensures Accounted(Next(x, Check(w)), t)
  {
    CountUpdate(Holds(t), x.pool.workers, w, Grab(x.pool, w));
    hide Count;
    if x.pool.tasks != [] {
      FrontMoves(x.log.taken, x.pool.tasks);
    }
  }

  lemma GrabKeepsQueue(x: World, w: nat)
    requires Inv(x) && Enabled(x.pool, Check(w)) && Wanted(x.pool, w)
    ensures Fifo(Next(x, Check(w)))
  {
    hide NoSleeper, HeardInOrder, Draining, Accounted;
    if x.pool.tasks != [] {
      FrontMoves(x.log.taken, x.pool.tasks);
    }
    forall t ensures Accounted(Next(x, Check(w)), t) {
      GrabAccounts(x, w, t);
    }
  }

  lemma GrabKeepsHeard(x: World, w: nat)
    requires Inv(x) && Enabled(x.pool, Check(w)) && Wanted(x.pool, w)
    ensures forall v | 0 <= v < |x.pool.workers| :: HeardInOrder(Next(x, Check(w)), v)
  {
    var y := Next(x, Check(w));
    forall v | 0 <= v < |x.pool.workers| ensures HeardInOrder(y, v) {
      assert HeardInOrder(x, v);
    }
  }

  lemma GrabKeepsDraining(x: World, w: nat)
    requires Inv(x) && Enabled(x.pool, Check(w)) && Wanted(x.pool, w)
    ensures Draining(Next(x, Check(w)))
  {
    var y := Next(x, Check(w));
    CountUpdate(IsDone, x.pool.workers, w, Grab(x.pool, w));
    assert HeardInOrder(x, w);
    forall v | 0 <= v < |y.pool.workers| && y.pool.shutdown && IsDone(y.pool.workers[v])
      ensures y.log.announced <= |y.log.heard[v]| + |ThreadHeld(y.pool.workers[v])|
    {
      assert v != w ==> IsDone(x.pool.workers[v]);
    }
  }

  lemma RunTaskKeepsFifo(x: World, w: nat)
    requires Fifo(x) && Enabled(x.pool, RunTask(w)) && |x.log.heard| == |x.pool.workers|
    ensures Fifo(Next(x, RunTask(w)))
  {
    var y := Next(x, RunTask(w));
    forall t ensures Accounted(y, t) {
      assert Accounted(x, t);
      CountUpdate(Holds(t), x.pool.workers, w, y.pool.workers[w]);
    }
  }

  lemma RunTaskKeeps(x: World, w: nat)
    requires Inv(x) && Enabled(x.pool, RunTask(w))
    ensures Inv(Next(x, RunTask(w)))
  {
    var y := Next(x, RunTask(w));
    CountUpdate(IsReady, x.pool.workers, w, y.pool.workers[w]);
    CountUpdate(IsDone, x.pool.workers, w, y.pool.workers[w]);
    RunTaskKeepsFifo(x, w);
    hide Fifo;
    assert SomeBlocked(y.pool.workers) ==> SomeBlocked(x.pool.workers);
    KeepHeard(x, y);
    forall v | 0 <= v < |y.pool.workers| && IsDone(y.pool.workers[v]) ensures IsDone(x.pool.workers[v]) {}
  }

  lemma RunThreadTaskKeeps(x: World, w: nat)
    requires Inv(x) && Enabled(x.pool, RunThreadTask(w))
    ensures Inv(Next(x, RunThreadTask(w)))
  {
    var y := Next(x, RunThreadTask(w));
    CountUpdate(IsReady, x.pool.workers, w, y.pool.workers[w]);
    CountUpdate(IsDone, x.pool.workers, w, y.pool.workers[w]);
    ReplaceKeepsFifo(x, y, w, y.pool.workers[w]);
    assert SomeBlocked(y.pool.workers) ==> SomeBlocked(x.pool.workers);
    var held := x.pool.workers[w].threadTasks;
    assert held == [held[0]] + held[1..];
    forall v | 0 <= v < |y.pool.workers| ensures HeardInOrder(y, v) {
      assert HeardInOrder(x, v);
    }
    forall v | 0 <= v < |y.pool.workers| && IsDone(y.pool.workers[v]) ensures IsDone(x.pool.workers[v]) {}
  }

  lemma FinishKeeps(x: World, w: nat)
    requires Inv(x) && Enabled(x.pool, Finish(w))
    ensures Inv(Next(x, Finish(w)))
  {
    var y := Next(x, Finish(w));
    CountUpdate(IsReady, x.pool.workers, w, y.pool.workers[w]);
    CountUpdate(IsDone, x.pool.workers, w, y.pool.workers[w]);
    ReplaceKeepsFifo(x, y, w, y.pool.workers[w]);
    assert SomeBlocked(y.pool.workers) ==> SomeBlocked(x.pool.workers);
    KeepHeard(x, y);
    forall v | 0 <= v < |y.pool.workers| && IsDone(y.pool.workers[v]) ensures IsDone(x.pool.workers[v]) {}
  }

  lemma BroadcastKeeps(x: World, t: Task)
    requires Inv(x)
    ensures Inv(Next(x, Broadcast(t)))
  {
    var y := Next(x, Broadcast(t));
    AwakeSame(IsDone, x.pool.workers);
    AwakeKeepsFifo(x, y);
    forall v | 0 <= v < |y.pool.workers| ensures HeardInOrder(y, v) {
      assert HeardInOrder(x, v);
      assert ThreadPending(y.pool, v) == ThreadPending(x.pool, v) + [t];
    }
    forall v | 0 <= v < |y.pool.workers| && IsDone(y.pool.workers[v]) ensures IsDone(x.pool.workers[v]) {}
  }

  lemma TerminateKeeps(x: World)
    requires Inv(x)
    ensures Inv(Next(x, Terminate))
  {
    var y := Next(x, Terminate);
    AwakeSame(IsDone, x.pool.workers);
    AwakeKeepsFifo(x, y);
    KeepHeard(x, y);
    if !x.pool.shutdown {
      NoneDone(x.pool.workers);
    }
    forall v | 0 <= v < |y.pool.workers| && IsDone(y.pool.workers[v]) ensures IsDone(x.pool.workers[v]) {}
  }

  lemma {:induction false} NoneDone(ws: seq<Worker>)
    requires Count(IsDone, ws) == 0
    ensures forall i | 0 <= i < |ws| :: !IsDone(ws[i])
  {
    if ws != [] {
      NoneDone(ws[1..]);
      forall i | 0 <= i < |ws| ensures !IsDone(ws[i]) {
        assert i > 0 ==> ws[i] == ws[1..][i - 1];
      }
    }
  }

  /** Each step of any thread keeps the invariant. */
  lemma StepKeeps(x: World, step: Step)
    requires Inv(x) && Enabled(x.pool, step)
    ensures Inv(Next(x, step))
  {
    match step
    case Post(t) => PostKeeps(x, t);
    case Notify(None) => NotifyNobodyKeeps(x);
    case Notify(Some(w)) => WakeKeeps(x, w, x.pool.owed - 1);
    case Spurious(w) => WakeKeeps(x, w, x.pool.owed);
    case Check(w) =>
      if Wanted(x.pool, w) {
        GrabKeepsAwake(x, w);
        GrabKeepsQueue(x, w);
        GrabKeepsHeard(x, w);
        GrabKeepsDraining(x, w);
      } else {
        BlockKeeps(x, w);
      }
    case RunTask(w) => RunTaskKeeps(x, w);
    case RunThreadTask(w) => RunThreadTaskKeeps(x, w);
    case Finish(w) => FinishKeeps(x, w);
    case Broadcast(t) => BroadcastKeeps(x, t);
    case Terminate => TerminateKeeps(x);
  }

  // Interleavings

  ghost predicate ValidRun(x: World, steps: seq<Step>)
    requires Inv(x)
    decreases |steps|
  {
    steps == [] ||
    (Enabled(x.pool, steps[0]) && (StepKeeps(x, steps[0]); ValidRun(Next(x, steps[0]), steps[1..])))
  }

  ghost function Run(x: World, steps: seq<Step>): (y: World)
    requires Inv(x) && ValidRun(x, steps)
    ensures Inv(y) && |y.pool.workers| == |x.pool.workers|
    decreases |steps|
  {
    if steps == [] then x else
      StepKeeps(x, steps[0]);
      Run(Next(x, steps[0]), steps[1..])
  }

  lemma InitialInv(workerCount: nat)
    ensures Inv(Initial(workerCount))
  {
    var x := Initial(workerCount);
    CountNone(IsDone, x.pool.workers);
    forall t ensures Accounted(x, t) {
      CountNone(Holds(t), x.pool.workers);
    }
  }

  /** The interleavings from the start. */
  ghost predicate Possible(workerCount: nat, steps: seq<Step>) {
    InitialInv(workerCount);
    ValidRun(Initial(workerCount), steps)
  }

  ghost function Reached(workerCount: nat, steps: seq<Step>): (y: World)
    requires Possible(workerCount, steps)
    ensures Inv(y) && |y.pool.workers| == if workerCount > 1 then workerCount else 1
  {
    InitialInv(workerCount);
    Run(Initial(workerCount), steps)
  }

  /** In every interleaving, while some worker sleeps there are at least as many workers on
      their way to the queue, or notifications still to come, as there are queued tasks. */
  lemma NoLostNotification(workerCount: nat, steps: seq<Step>)
    requires Possible(workerCount, steps)
    ensures var p := Reached(workerCount, steps).pool;
            && (SomeBlocked(p.workers) ==> |p.tasks| <= p.owed + Count(IsReady, p.workers))
            && (p.tasks != [] && !p.shutdown ==>
                  p.owed > 0 || exists w :: 0 <= w < |p.workers| && !p.workers[w].Blocked?)
            && (forall w | 0 <= w < |p.workers| && p.workers[w].Blocked? :: !Wanted(p, w) || p.tasks != [])
  {
    var p := Reached(workerCount, steps).pool;
    if p.tasks != [] && p.owed == 0 && forall w | 0 <= w < |p.workers| :: p.workers[w].Blocked? {
      CountNone(IsReady, p.workers);
    }
  }

  ghost predicate AllExited(p: Pool) {
    forall w | 0 <= w < |p.workers| :: p.workers[w].Exited?
  }

  ghost function Min(a: nat, b: nat): nat { if a < b then a else b }

  lemma SameTail(taken: seq<Task>, before: seq<Task>, left: seq<Task>, m: nat)
    requires m <= |left| && taken + left[m..] == before + left
    ensures taken == before + left[..m]
  {
    assert before + left == before + left[..m] + left[m..];
    assert taken == (taken + left[m..])[..|taken|];
    assert before + left[..m] == (before + left[..m] + left[m..])[..|before| + m];
  }

  /** What all workers together have taken and run once they have exited. */
  lemma ExitedTook(y: World)
    requires Inv(y) && AllExited(y.pool)
    ensures y.pool.shutdown
    ensures var m := Min(|y.log.left|, |y.pool.workers|);
            y.log.taken == y.log.takenBefore + y.log.left[..m] && y.pool.tasks == y.log.left[m..]
    ensures y.log.posted == y.log.taken + y.pool.tasks && multiset(y.log.ran) == multiset(y.log.taken)
  {
    hide NoSleeper, HeardInOrder;
    CountAll(IsDone, y.pool.workers);
    var m := Min(|y.log.left|, |y.pool.workers|);
    SameTail(y.log.taken, y.log.takenBefore, y.log.left, m);
    forall t ensures multiset(y.log.ran)[t] == multiset(y.log.taken)[t] {
      assert Accounted(y, t);
      CountNone(Holds(t), y.pool.workers);
    }
  }

  /** What one worker has heard once it has exited. */
  lemma ExitedHeard(y: World, v: nat)
    requires Inv(y) && v < |y.pool.workers| && y.pool.workers[v].Exited? && y.pool.shutdown
    ensures y.log.heard[v] <= y.log.broadcasts
    ensures y.log.announced <= |y.log.heard[v]| && y.log.broadcasts[..y.log.announced] <= y.log.heard[v]
  {
    hide NoSleeper, Fifo;
    assert HeardInOrder(y, v);
    assert IsDone(y.pool.workers[v]);
  }

  /** When all workers have exited, exactly min(n, w) of the n tasks found by `Terminate` were
      taken, from the front; every accepted task was run once or is still queued; and every
      worker ran every broadcast made before `Terminate`, once and in order. */
  lemma DrainedAtExit(workerCount: nat, steps: seq<Step>)
    requires Possible(workerCount, steps)
    requires AllExited(Reached(workerCount, steps).pool)
    ensures var y := Reached(workerCount, steps);
            var w := |y.pool.workers|;
            var m := Min(|y.log.left|, w);
            && y.pool.shutdown && w == (if workerCount > 1 then workerCount else 1)
            && y.log.taken == y.log.takenBefore + y.log.left[..m]
            && y.pool.tasks == y.log.left[m..]
            && y.log.posted == y.log.taken + y.pool.tasks
            && multiset(y.log.ran) == multiset(y.log.taken)
            && (forall v | 0 <= v < w ::
                  && y.log.heard[v] <= y.log.broadcasts
                  && y.log.broadcasts[..y.log.announced] <= y.log.heard[v])
  {
    var y := Reached(workerCount, steps);
    hide NoSleeper, Fifo, HeardInOrder, Draining;
    ExitedTook(y);
    forall v | 0 <= v < |y.pool.workers|
      ensures y.log.heard[v] <= y.log.broadcasts
      ensures y.log.announced <= |y.log.broadcasts| && y.log.broadcasts[..y.log.announced] <= y.log.heard[v]
    {
      ExitedHeard(y, v);
    }
  }

  /** After `Terminate` no worker waits, so each one left can always take a step of its own. */
  lemma ShutdownNeverStuck(x: World, w: nat)
    requires Inv(x) && x.pool.shutdown && w < |x.pool.workers| && !x.pool.workers[w].Exited?
    ensures Enabled(x.pool, Check(w)) || Enabled(x.pool, RunTask(w))
         || Enabled(x.pool, RunThreadTask(w)) || Enabled(x.pool, Finish(w))
  {
    assert !x.pool.workers[w].Blocked?;
  }

  // After shutdown all workers exit

  /** The steps worker `w` still has before it, if nothing is broadcast any more. */
  ghost function StepsLeft(p: Pool, w: nat): nat
    requires w < |p.workers|
  {
    match p.workers[w]
    case Exited => 0
    case Running(task, held, exiting) =>
      Listed(task) + |held| + (if exiting then 1 else 4 + |ThreadPending(p, w)|)
    case _ => 3 + |ThreadPending(p, w)|
  }

  ghost function Listed(task: Option<Task>): nat { if task.Some? then 1 else 0 }

  ghost function TotalLeft(p: Pool, n: nat): nat
    requires n <= |p.workers|
  {
    if n == 0 then 0 else TotalLeft(p, n - 1) + StepsLeft(p, n - 1)
  }

  ghost predicate IsWorkerStep(step: Step) {
    step.Check? || step.RunTask? || step.RunThreadTask? || step.Finish?
  }

  lemma {:induction false} TotalFalls(p: Pool, r: Pool, n: nat, w: nat)
    requires |r.workers| == |p.workers| && n <= |p.workers|
    requires forall v | 0 <= v < n :: StepsLeft(r, v) <= StepsLeft(p, v)
    ensures TotalLeft(r, n) <= TotalLeft(p, n)
    ensures w < n && StepsLeft(r, w) < StepsLeft(p, w) ==> TotalLeft(r, n) < TotalLeft(p, n)
  {
    if n > 0 {
      TotalFalls(p, r, n - 1, w);
    }
  }

  lemma StepFalls(p: Pool, step: Step)
    requires p.shutdown && NoSleeper(p) && Enabled(p, step) && !step.Broadcast?
    ensures |NextPool(p, step).workers| == |p.workers|
    ensures forall v | 0 <= v < |p.workers| :: StepsLeft(NextPool(p, step), v) <= StepsLeft(p, v)
    ensures IsWorkerStep(step) ==> StepsLeft(NextPool(p, step), step.w) < StepsLeft(p, step.w)
  {
  }

  lemma {:induction false} NoneLeft(p: Pool, n: nat, w: nat)
    requires w < n <= |p.workers| && TotalLeft(p, n) == 0
    ensures p.workers[w].Exited?
  {
    if w < n - 1 {
      NoneLeft(p, n - 1, w);
    }
  }

  ghost function WorkerSteps(steps: seq<Step>): nat {
    if steps == [] then 0 else (if IsWorkerStep(steps[0]) then 1 else 0) + WorkerSteps(steps[1..])
  }

  /** After `Terminate`, in every interleaving without new broadcasts the workers together take
      a bounded number of steps, and when these are used up all of them have exited: joining
      them ends if every closure does. */
  lemma {:induction false} WorkersExit(x: World, steps: seq<Step>)
    requires Inv(x) && x.pool.shutdown && ValidRun(x, steps)
    requires forall i | 0 <= i < |steps| :: !steps[i].Broadcast?
    ensures var total, y := TotalLeft(x.pool, |x.pool.workers|), Run(x, steps);
            && WorkerSteps(steps) + TotalLeft(y.pool, |y.pool.workers|) <= total
            && (WorkerSteps(steps) == total ==> AllExited(y.pool))
    decreases |steps|
  {
    hide Fifo, HeardInOrder, Draining, NextPool, NextLog, StepsLeft;
    var n := |x.pool.workers|;
    if steps == [] {
      forall w | 0 <= w < n && TotalLeft(x.pool, n) == 0 ensures x.pool.workers[w].Exited? {
        NoneLeft(x.pool, n, w);
      }
    } else {
      var next := Next(x, steps[0]);
      StepKeeps(x, steps[0]);
      PostRunsOnCaller(x, steps[0]);
      StepFalls(x.pool, steps[0]);
      TotalFalls(x.pool, next.pool, n, if IsWorkerStep(steps[0]) then steps[0].w else 0);
      WorkersExit(next, steps[1..]);
    }
  }

  /** The tasks posted along a run, in order. */
  ghost function PostsOf(steps: seq<Step>): seq<Task> {
    if steps == [] then [] else
      (match steps[0] case Post(t) => [t] case _ => []) + PostsOf(steps[1..])
  }

  /** Once shut down, the pool stays so, accepts nothing more, and every post runs on its caller. */
  lemma {:induction false} PostsRunOnCaller(x: World, steps: seq<Step>)
    requires Inv(x) && x.pool.shutdown && ValidRun(x, steps)
    ensures var y := Run(x, steps);
            && y.pool.shutdown && y.log.posted == x.log.posted
            && y.log.left == x.log.left && y.log.takenBefore == x.log.takenBefore
            && y.log.announced == x.log.announced
            && y.log.byCaller == x.log.byCaller + PostsOf(steps)
    decreases |steps|
  {
    hide NoSleeper, Fifo, HeardInOrder, Draining, NextPool, NextLog, Enabled;
    if steps == [] {
      assert x.log.byCaller + [] == x.log.byCaller;
    } else {
      StepKeeps(x, steps[0]);
      PostRunsOnCaller(x, steps[0]);
      var next := Next(x, steps[0]);
      PostsRunOnCaller(next, steps[1..]);
      assert Run(x, steps) == Run(next, steps[1..]);
      var first := match steps[0] case Post(t) => [t] case _ => [];
      assert PostsOf(steps) == first + PostsOf(steps[1..]);
    }
  }

  lemma PostRunsOnCaller(x: World, step: Step)
    requires x.pool.shutdown && Enabled(x.pool, step) && |x.log.heard| == |x.pool.workers|
    ensures var y := Next(x, step);
            && y.pool.shutdown && y.log.posted == x.log.posted
            && y.log.left == x.log.left && y.log.takenBefore == x.log.takenBefore
            && y.log.announced == x.log.announced
            && y.log.byCaller == x.log.byCaller + (match step case Post(t) => [t] case _ => [])
  {
  }

  // Told by the steps alone

  /** A worker that holds the mutex goes to sleep exactly if there is nothing for it; if there
      is, it takes the front task and all its own thread tasks, and leaves the rest. */
  lemma CheckMeans(p: Pool, w: nat)
    requires Enabled(p, Check(w))
    ensures var r := NextPool(p, Check(w));
            && |r.workers| == |p.workers| && r.shutdown == p.shutdown && r.owed == p.owed
            && (r.workers[w].Blocked? <==> p.tasks == [] && !p.shutdown && w !in p.threadTasks)
            && (r.workers[w].Blocked? || r.workers[w].Running?)
            && (r.workers[w].Running? ==>
                  && (match r.workers[w].task case None => p.tasks == [] case Some(t) => p.tasks == [t] + r.tasks)
                  && r.workers[w].threadTasks == ThreadPending(p, w)
                  && r.workers[w].exiting == p.shutdown)
            && (forall v | 0 <= v < |p.workers| && v != w ::
                  r.workers[v] == p.workers[v] && ThreadPending(r, v) == ThreadPending(p, v))
  {
  }

  ghost function BroadcastsOf(steps: seq<Step>): seq<Task> {
    if steps == [] then [] else
      (match steps[0] case Broadcast(t) => [t] case _ => []) + BroadcastsOf(steps[1..])
  }

  ghost function PostOf(step: Step): seq<Task> { match step case Post(t) => [t] case _ => [] }
  ghost function BroadcastOf(step: Step): seq<Task> { match step case Broadcast(t) => [t] case _ => [] }

  /** One step: who terminates, who accepts, who announces. */
  lemma StepTold(x: World, step: Step)
    requires Enabled(x.pool, step) && |x.log.heard| == |x.pool.workers|
    ensures var y := Next(x, step);
            && (y.pool.shutdown <==> x.pool.shutdown || step == Terminate)
            && y.log.broadcasts == x.log.broadcasts + BroadcastOf(step)
            && (!x.pool.shutdown ==> y.log.posted == x.log.posted + PostOf(step) && y.log.byCaller == x.log.byCaller)
  {
  }

  /** The pool is shut down exactly from the first `Terminate` on; until then every post is
      accepted, in order; and every broadcast is announced. */
  lemma {:induction false} RunTold(x: World, steps: seq<Step>)
    requires Inv(x) && ValidRun(x, steps)
    ensures var y := Run(x, steps);
            && (y.pool.shutdown <==> x.pool.shutdown || Terminate in steps)
            && y.log.broadcasts == x.log.broadcasts + BroadcastsOf(steps)
            && (!y.pool.shutdown ==>
                  y.log.posted == x.log.posted + PostsOf(steps) && y.log.byCaller == x.log.byCaller)
    decreases |steps|
  {
    hide NoSleeper, Fifo, HeardInOrder, Draining, NextPool, NextLog, Enabled;
    if steps == [] {
      assert x.log.broadcasts + [] == x.log.broadcasts && x.log.posted + [] == x.log.posted;
    } else {
      StepKeeps(x, steps[0]);
      StepTold(x, steps[0]);
      var next, rest := Next(x, steps[0]), steps[1..];
      RunTold(next, rest);
      assert Run(x, steps) == Run(next, rest);
      assert steps == [steps[0]] + rest;
      Appended(x.log.broadcasts, BroadcastOf(steps[0]), BroadcastsOf(rest));
      Appended(x.log.posted, PostOf(steps[0]), PostsOf(rest));
    }
  }

  lemma Appended(a: seq<Task>, b: seq<Task>, c: seq<Task>)
    ensures a + b + c == a + (b + c)
  {
  }

  lemma {:induction false} RunSplits(x: World, a: seq<Step>, b: seq<Step>)
    requires Inv(x) && ValidRun(x, a + b)
    ensures ValidRun(x, a) && ValidRun(Run(x, a), b) && Run(x, a + b) == Run(Run(x, a), b)
    decreases |a|
  {
    hide NoSleeper, Fifo, HeardInOrder, Draining, NextPool, NextLog, Enabled;
    if a == [] {
      assert a + b == b;
    } else {
      assert (a + b)[1..] == a[1..] + b && (a + b)[0] == a[0];
      StepKeeps(x, a[0]);
      RunSplits(Next(x, a[0]), a[1..], b);
    }
  }

  /** Shutdown, told by the steps: `before` happens, then `Terminate`, then `after`, until all
      workers have exited.  Of the tasks posted before, those taken by then and the first
      min(n, w) of the n left were taken, each ran once, the others stay queued; what was posted
      after ran on its callers; every worker ran all broadcasts made before, in order. */
  lemma ShutdownStory(workerCount: nat, before: seq<Step>, after: seq<Step>)
    requires Possible(workerCount, before + [Terminate] + after) && Terminate !in before
    requires AllExited(Reached(workerCount, before + [Terminate] + after).pool)
    ensures Possible(workerCount, before)
    ensures var x, y := Reached(workerCount, before), Reached(workerCount, before + [Terminate] + after);
            var m := Min(|x.pool.tasks|, |y.pool.workers|);
            && x.log.taken + x.pool.tasks == PostsOf(before)
            && y.log.taken == x.log.taken + x.pool.tasks[..m] && y.pool.tasks == x.pool.tasks[m..]
            && multiset(y.log.ran) == multiset(y.log.taken) && y.log.byCaller == PostsOf(after)
            && (forall v | 0 <= v < |y.pool.workers| ::
                  BroadcastsOf(before) <= y.log.heard[v] && y.log.heard[v] <= y.log.broadcasts)
            && y.log.broadcasts == BroadcastsOf(before + [Terminate] + after)
  {
    InitialInv(workerCount);
    var start, all := Initial(workerCount), before + [Terminate] + after;
    hide Run, ValidRun, NoSleeper, Fifo, HeardInOrder, Draining;
    StoryRuns(start, before, after, all);
    DrainedAtExit(workerCount, all);
    var x, y := Run(start, before), Run(start, all);
    FifoSays(x);
    assert PostsOf(before) == [] + PostsOf(before) && BroadcastsOf(before) == [] + BroadcastsOf(before);
    assert PostsOf(after) == [] + PostsOf(after) && BroadcastsOf(all) == [] + BroadcastsOf(all);
    forall v | 0 <= v < |y.pool.workers| ensures BroadcastsOf(before) <= y.log.heard[v] {
      assert y.log.broadcasts[..y.log.announced] == x.log.broadcasts;
    }
  }

  lemma StoryRuns(start: World, before: seq<Step>, after: seq<Step>, all: seq<Step>)
    requires Inv(start) && !start.pool.shutdown && all == before + [Terminate] + after && Terminate !in before
    requires ValidRun(start, all)
    ensures ValidRun(start, before)
    ensures var x, y := Run(start, before), Run(start, all);
            && x.log.posted == start.log.posted + PostsOf(before) && x.log.byCaller == start.log.byCaller
            && x.log.broadcasts == start.log.broadcasts + BroadcastsOf(before)
            && y.log.takenBefore == x.log.taken && y.log.left == x.pool.tasks
            && y.log.announced == |x.log.broadcasts| && x.log.broadcasts <= y.log.broadcasts
            && y.log.byCaller == start.log.byCaller + PostsOf(after)
            && y.log.broadcasts == start.log.broadcasts + BroadcastsOf(all)
  {
    hide Run, ValidRun, NoSleeper, Fifo, HeardInOrder, Draining, PostsOf, BroadcastsOf, Next;
    RunSplits(start, before + [Terminate], after);
    RunSplits(start, before, [Terminate]);
    var x := Run(start, before);
    RunTold(start, before);
    RunTold(start, all);
    FixedAtTerminate(x);
    PostsRunOnCaller(Next(x, Terminate), after);
    RunTold(Next(x, Terminate), after);
  }

  lemma FifoSays(x: World)
    requires Inv(x)
    ensures Fifo(x) && x.log.posted == x.log.taken + x.pool.tasks
  {
  }

  lemma FixedAtTerminate(x: World)
    requires Inv(x) && !x.pool.shutdown && ValidRun(x, [Terminate])
    ensures Inv(Next(x, Terminate)) && Run(x, [Terminate]) == Next(x, Terminate)
    ensures var y := Next(x, Terminate);
            && y.pool.shutdown && y.log.takenBefore == x.log.taken && y.log.left == x.pool.tasks
            && y.log.announced == |x.log.broadcasts| && y.log.byCaller == x.log.byCaller
            && y.log.broadcasts == x.log.broadcasts
  {
    StepKeeps(x, Terminate);
    assert [Step.Terminate][1..] == [];
  }
}
