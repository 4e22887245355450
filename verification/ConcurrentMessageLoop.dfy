/** The fields of the concurrent message loop and the code that runs under its mutex.  Each
    method is proved to do to these fields what the step of the worker pool does; `p` is the
    pool of which they are a part. */
module ConcurrentMessageLoops {
  import opened Options
  import opened WorkerPool

  class ConcurrentMessageLoop {
    const workerCount: nat
    var tasks: seq<Task>
    var threadTasks: map<nat, seq<Task>>
    var shutdown: bool

    /** Thread tasks are kept for the loop's own workers only. */
    ghost predicate Valid()
      reads this
    {
      forall w | w in threadTasks :: w < workerCount
    }

    ghost predicate PartOf(p: Pool)
      reads this
    {
      && tasks == p.tasks && threadTasks == p.threadTasks && shutdown == p.shutdown
      && workerCount == |p.workers|
    }

    constructor (count: nat)
      ensures Valid() && PartOf(Initial(count).pool) && workerCount > 0
    {
      workerCount := if count > 1 then count else 1;
      tasks, threadTasks, shutdown := [], map[], false;
    }

    /** Says whether the caller must run the task himself; if not, he owes a notification. */
    method PostTask(task: Task, ghost p: Pool) returns (onCaller: bool)
      requires Valid() && PartOf(p)
      modifies this
      ensures Valid() && PartOf(NextPool(p, Post(task)))
      ensures onCaller <==> NextPool(p, Post(task)).owed == p.owed
    {
      if shutdown {
        return true;
      }
      tasks := tasks + [task];
      return false;
    }

    predicate HasThreadTasksLocked(w: nat)
      reads this
    {
      w in threadTasks
    }

    method GetThreadTasksLocked(w: nat) returns (pending: seq<Task>)
      requires HasThreadTasksLocked(w)
      modifies this`threadTasks
      ensures pending == old(threadTasks[w]) && threadTasks == old(threadTasks) - {w}
      ensures !HasThreadTasksLocked(w)
    {
      pending := threadTasks[w];
      threadTasks := threadTasks - {w};
    }

    /** A worker that holds the mutex: it sleeps again, or takes what it is to run. */
    method WorkerSection(w: nat, ghost p: Pool) returns (next: Worker)
      requires Valid() && PartOf(p) && Enabled(p, Check(w))
      modifies this
      ensures Valid() && PartOf(NextPool(p, Check(w)))
      ensures NextPool(p, Check(w)).workers == p.workers[w := next]
    {
      if !(tasks != [] || shutdown || HasThreadTasksLocked(w)) {
        return Blocked;
      }
      var shutdownNow := shutdown;
      var task := None;
      var taken := [];
      if tasks != [] {
        task := Some(tasks[0]);
        tasks := tasks[1..];
      }
      if HasThreadTasksLocked(w) {
        taken := GetThreadTasksLocked(w);
      }
      assert threadTasks == p.threadTasks - {w};
      return Running(task, taken, shutdownNow);
    }

    method Terminate(ghost p: Pool)
      requires Valid() && PartOf(p)
      modifies this
      ensures Valid() && PartOf(NextPool(p, Step.Terminate))
    {
      shutdown := true;
    }

    method PostTaskToAllWorkers(task: Task, ghost p: Pool)
      requires Valid() && PartOf(p)
      modifies this
      ensures Valid() && PartOf(NextPool(p, Broadcast(task)))
    {
      ghost var was := threadTasks;
      var w := 0;
      while w < workerCount
        invariant 0 <= w <= workerCount && Valid()
        invariant tasks == p.tasks && shutdown == p.shutdown
        invariant forall v | 0 <= v < w :: v in threadTasks && threadTasks[v] == ThreadPending(p, v) + [task]
        invariant forall v | w <= v < workerCount ::
                    (v in threadTasks <==> v in was) && (v in was ==> threadTasks[v] == was[v])
      {
        var before := if w in threadTasks then threadTasks[w] else [];
        threadTasks := threadTasks[w := before + [task]];
        w := w + 1;
      }
      assert threadTasks == NextPool(p, Broadcast(task)).threadTasks;
    }
  }
}
