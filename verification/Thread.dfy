/** A thread that owns a message loop: joining it posts, once, the closure that terminates it. */
module Threads {
  import opened TaskQueues
  import opened Ownership
  import opened DelayedTasks
  import opened MessageLoops

  class Thread {
    const loop: MessageLoopImpl
    const terminate: Closure
    var joined: bool

    constructor (l: MessageLoopImpl, closure: Closure)
      ensures loop == l && terminate == closure && !joined
    {
      loop, terminate, joined := l, closure, false;
    }

    /** `now` is when the runner posts; the wait for the platform's thread is left out. */
    method Join(now: int)
      requires loop.Valid()
      modifies this, loop.taskQueue, loop.taskQueue.Sources()
      ensures loop.Valid() && joined
      ensures var l, q := old(loop.State()), loop.queueId;
              && Inv(l.queues) && KnownAction(l, Posting(q, terminate, now))
              && loop.State() == (if old(joined) then l else Act(l, q, Posting(q, terminate, now)))
              && (!old(joined) && q !in l.terminated ==>
                    RegistersOne(l.queues, loop.State().queues, q,
                                 DelayedTask(l.queues.order, terminate, now, Unspecified)))
    {
      hide Inv, Act, RegistersOne;
      if joined {
        return;
      }
      joined := true;
      loop.PostTask(loop.queueId, terminate, now);
    }
  }
}
