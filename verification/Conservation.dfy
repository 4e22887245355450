/** Where tasks go: over every run each registered task is in exactly one place, and whatever
    is handed out comes after everything scheduled ahead of it. */
module Conservation {
  import opened Options
  import opened DelayedTasks
  import opened TaskSources
  import opened TaskQueues
  import opened Ownership

  /** What an observer of the calls records: the queue each task was registered to, the tasks
      handed out in order, and the tasks destroyed by disposal. */
  datatype History = History(placed: map<DelayedTask, Id>, handed: seq<DelayedTask>, dropped: set<DelayedTask>)

  const NO_HISTORY := History(map[], [], {})

  /** Everything pending in the queues `qs`. */
  ghost function PendingIn(s: Queues, qs: set<Id>): set<DelayedTask> {
    set q, t | q in qs && q in s.entries && t in s.entries[q].source.Pending() :: t
  }

  ghost function Record(h: History, s: Queues, op: Op): History
    requires Enabled(s, op)
  {
    match op
    case OpRegister(q, closure, time, grade) =>
      h.(placed := h.placed[DelayedTask(s.order, closure, time, grade) := q])
    case OpPop(q, now) =>
      (match Handed(s, q, now) case None => h case Some(t) => h.(handed := h.handed + [t]))
    case OpDispose(q) => h.(dropped := h.dropped + PendingIn(s, Family(s, q)))
    case OpDisposeTasks(q) => h.(dropped := h.dropped + PendingIn(s, Family(s, q)))
    case _ => h
  }

  ghost function RecordRun(h: History, s: Queues, ops: seq<Op>): History
    requires ValidRun(s, ops)
    decreases |ops|
  {
    if ops == [] then h else RecordRun(Record(h, s, ops[0]), Step(s, ops[0]), ops[1..])
  }

  /** Task `t` is in exactly one of the three places. */
  ghost predicate OnePlace(s: Queues, h: History, t: DelayedTask)
    requires t in h.placed
  {
    || (PendingAt(s, h.placed[t], t) && t !in h.handed && t !in h.dropped)
    || (!PendingAt(s, h.placed[t], t) && t in h.handed && t !in h.dropped)
    || (!PendingAt(s, h.placed[t], t) && t !in h.handed && t in h.dropped)
  }

  ghost predicate Conserved(s: Queues, h: History) {
    && (forall q, t | PendingAt(s, q, t) :: t in h.placed && h.placed[t] == q)
    && (forall t | t in h.placed :: OnePlace(s, h, t) && t.order < s.order)
    && (forall t | t in h.dropped :: t in h.placed)
    && (forall i | 0 <= i < |h.handed| :: h.handed[i] in h.placed)
    && (forall i, j | 0 <= i < j < |h.handed| :: h.handed[i] != h.handed[j])
  }

  ghost predicate MovesTasks(op: Op) {
    op.OpRegister? || op.OpPop? || op.OpDispose? || op.OpDisposeTasks?
  }

  lemma RearmMovesNothing(s: Queues, q: Id)
    requires q in s.entries
    ensures forall p, t :: PendingAt(Rearm(s, q), p, t) <==> PendingAt(s, p, t)
  {
  }

  lemma UnmergeMovesNothing(s: Queues, o: Id, q: Id)
    requires UnmergeDefined(s, o, q)
    ensures forall p, t :: PendingAt(Unmerge(s, o, q), p, t) <==> PendingAt(s, p, t)
  {
    if UnmergeResult(s, o, q) {
      RearmMovesNothing(Unlink(s, o, q), o);
      RearmMovesNothing(Rearm(Unlink(s, o, q), o), q);
    }
  }

  /** Create, merge, unmerge, pause, resume and set-wakeable move no task. */
  lemma MovesNothing(s: Queues, op: Op)
    requires Inv(s) && Enabled(s, op) && !MovesTasks(op)
    ensures Step(s, op).order == s.order
    ensures forall q, t :: PendingAt(Step(s, op), q, t) <==> PendingAt(s, q, t)
  {
    match op
    case OpCreate =>
    case OpSetWakeable(q) =>
    case OpMerge(o, q) => if Merge(s, o, q) != s { RearmMovesNothing(Link(s, o, q), o); }
    case OpUnmerge(o, q) => UnmergeMovesNothing(s, o, q);
    case OpPause(q) =>
    case OpResume(q) => RearmMovesNothing(Resumed(s, q), q);
  }

  lemma RegisterConserves(s: Queues, h: History, op: Op)
    requires Inv(s) && Conserved(s, h) && Enabled(s, op) && op.OpRegister?
    ensures Conserved(Step(s, op), Record(h, s, op))
  {
    var t := DelayedTask(s.order, op.closure, op.time, op.grade);
    var added := Registered(s, op.q, t);
    RearmMovesNothing(added, LoopToWake(s, op.q));
    assert forall q, u :: PendingAt(added, q, u) <==> PendingAt(s, q, u) || (q == op.q && u == t);
    assert t !in h.placed;
  }

  lemma HandedIsPending(s: Queues, q: Id, now: int) returns (p: Id)
    requires q in s.entries && Handed(s, q, now).Some?
    ensures p in Family(s, q) && PendingAt(s, p, Handed(s, q, now).value)
  {
    var t := Handed(s, q, now).value;
    assert t in VisibleTasks(s, q);
    p :| p in Family(s, q) && p in s.entries && t in s.entries[p].source.Visible();
  }

  lemma PopConserves(s: Queues, h: History, q: Id, now: int)
    requires Inv(s) && Conserved(s, h) && q in s.entries
    ensures Conserved(Pop(s, q, now), Record(h, s, OpPop(q, now)))
  {
    hide Inv;
    RearmMovesNothing(s, q);
    match Handed(s, q, now)
    case None =>
    case Some(t) =>
      var p := HandedIsPending(s, q, now);
      var r := Pop(s, q, now);
      assert forall a, u :: PendingAt(r, a, u) <==> PendingAt(s, a, u) && u != t;
      assert h.placed[t] == p && t !in h.handed;
      var h' := Record(h, s, OpPop(q, now));
      forall u | u in h'.placed ensures OnePlace(r, h', u) {
        assert OnePlace(s, h, u);
        assert u in h'.handed <==> u in h.handed || u == t;
      }
  }

  lemma DropConserves(s: Queues, h: History, q: Id, r: Queues)
    requires Inv(s) && Conserved(s, h) && q in s.entries && r.order == s.order
    requires forall p, t :: PendingAt(r, p, t) <==> PendingAt(s, p, t) && p !in Family(s, q)
    ensures Conserved(r, h.(dropped := h.dropped + PendingIn(s, Family(s, q))))
  {
    var gone := PendingIn(s, Family(s, q));
    var h' := h.(dropped := h.dropped + gone);
    forall t ensures t in gone <==> exists p :: p in Family(s, q) && PendingAt(s, p, t) {
      if t in gone {
        var p :| p in Family(s, q) && p in s.entries && t in s.entries[p].source.Pending();
        assert PendingAt(s, p, t);
      }
    }
    forall t | t in h'.placed ensures OnePlace(r, h', t) {
      assert OnePlace(s, h, t);
    }
  }

  lemma DisposeDrops(s: Queues, q: Id)
    requires q in s.entries
    ensures forall p, t :: PendingAt(Dispose(s, q), p, t) <==> PendingAt(s, p, t) && p !in Family(s, q)
    ensures forall p, t :: PendingAt(DisposeTasks(s, q), p, t) <==> PendingAt(s, p, t) && p !in Family(s, q)
  {
  }

  /** Each step keeps every task in exactly one place. */
  lemma StepConserves(s: Queues, h: History, op: Op)
    requires Inv(s) && Conserved(s, h) && Enabled(s, op)
    ensures Conserved(Step(s, op), Record(h, s, op))
  {
    if !MovesTasks(op) {
      MovesNothing(s, op);
      assert forall t | t in h.placed :: OnePlace(s, h, t);
    } else {
      match op
      case OpRegister(_, _, _, _) => RegisterConserves(s, h, op);
      case OpPop(q, now) => PopConserves(s, h, q, now);
      case OpDispose(q) => DisposeDrops(s, q); DropConserves(s, h, q, Dispose(s, q));
      case OpDisposeTasks(q) => DisposeDrops(s, q); DropConserves(s, h, q, DisposeTasks(s, q));
    }
  }

  /** Over every run each registered task is pending where it was registered, was handed out
      once, or was dropped: exactly one of these. */
  lemma {:induction false} RunConserves(s: Queues, h: History, ops: seq<Op>)
    requires Inv(s) && Conserved(s, h) && ValidRun(s, ops)
    ensures Inv(Run(s, ops)) && Conserved(Run(s, ops), RecordRun(h, s, ops))
    decreases |ops|
  {
    if ops != [] {
      StepKeepsInv(s, ops[0]);
      StepConserves(s, h, ops[0]);
      RunConserves(Step(s, ops[0]), Record(h, s, ops[0]), ops[1..]);
    }
  }

  /** Task `t` is out of the way of its queue's loop: handed out, dropped, or held back by a
      pause of its secondary heap. */
  ghost predicate OutOfTheWay(s: Queues, h: History, t: DelayedTask)
    requires t in h.placed
  {
    || t in h.handed
    || t in h.dropped
    || (PendingAt(s, h.placed[t], t) && t.grade == DartMicroTasks && s.entries[h.placed[t]].source.pauses > 0)
  }

  lemma AheadIsDoneAt(s: Queues, h: History, q: Id, now: int, t: DelayedTask)
    requires Inv(s) && Conserved(s, h) && q in s.entries && Handed(s, q, now).Some?
    requires t in h.placed && h.placed[t] in Family(s, q)
    requires Before(t, Handed(s, q, now).value)
    ensures OutOfTheWay(s, h, t)
  {
    var p := h.placed[t];
    assert OnePlace(s, h, t);
    assert IsTop(Handed(s, q, now).value, VisibleTasks(s, q));
    assert t !in VisibleTasks(s, q);
    assert p in s.entries ==> s.entries[p].source.Graded() && t !in s.entries[p].source.Visible();
  }

  /** The run theorem behind `Thread::Join`: when a task is handed out (the terminate task, say),
      every task registered to the queue's family and scheduled ahead of it is out of the way. */
  lemma AheadIsDone(ops: seq<Op>, q: Id, now: int, t: DelayedTask)
    requires ValidRun(EMPTY_QUEUES, ops)
    requires q in Run(EMPTY_QUEUES, ops).entries
    requires Handed(Run(EMPTY_QUEUES, ops), q, now).Some?
    requires t in RecordRun(NO_HISTORY, EMPTY_QUEUES, ops).placed
    requires RecordRun(NO_HISTORY, EMPTY_QUEUES, ops).placed[t] in Family(Run(EMPTY_QUEUES, ops), q)
    requires Before(t, Handed(Run(EMPTY_QUEUES, ops), q, now).value)
    ensures OutOfTheWay(Run(EMPTY_QUEUES, ops), RecordRun(NO_HISTORY, EMPTY_QUEUES, ops), t)
  {
    RunConserves(EMPTY_QUEUES, NO_HISTORY, ops);
    AheadIsDoneAt(Run(EMPTY_QUEUES, ops), RecordRun(NO_HISTORY, EMPTY_QUEUES, ops), q, now, t);
  }

  /** Recording only adds to what was placed. */
  lemma {:induction false} PlacedStays(h: History, s: Queues, ops: seq<Op>, t: DelayedTask)
    requires Inv(s) && Conserved(s, h) && ValidRun(s, ops) && t in h.placed
    ensures var r := RecordRun(h, s, ops);
            t in r.placed && r.placed[t] == h.placed[t]
    decreases |ops|
  {
    hide Inv;
    if ops != [] {
      StepKeepsInv(s, ops[0]);
      StepConserves(s, h, ops[0]);
      PlacedStays(Record(h, s, ops[0]), Step(s, ops[0]), ops[1..], t);
    }
  }

  /** `Thread::Join` drains: it posts its closure at `joinTime` to queue `q`, after a run `before`;
      when that task is handed out, after any run `between`, every task registered before the
      join to a queue of the family and due by `joinTime` is out of the way. */
  lemma JoinDrains(before: seq<Op>, q: Id, closure: Closure, joinTime: int, between: seq<Op>, now: int, t: DelayedTask)
    requires ValidRun(EMPTY_QUEUES, before)
    requires Enabled(Run(EMPTY_QUEUES, before), OpRegister(q, closure, joinTime, Unspecified))
    requires var joined := Step(Run(EMPTY_QUEUES, before), OpRegister(q, closure, joinTime, Unspecified));
             && ValidRun(joined, between) && q in Run(joined, between).entries
             && Handed(Run(joined, between), q, now) ==
                  Some(DelayedTask(Run(EMPTY_QUEUES, before).order, closure, joinTime, Unspecified))
    requires t in RecordRun(NO_HISTORY, EMPTY_QUEUES, before).placed && t.time <= joinTime
    requires var joined := Step(Run(EMPTY_QUEUES, before), OpRegister(q, closure, joinTime, Unspecified));
             RecordRun(NO_HISTORY, EMPTY_QUEUES, before).placed[t] in Family(Run(joined, between), q)
    ensures var s, h := Run(EMPTY_QUEUES, before), RecordRun(NO_HISTORY, EMPTY_QUEUES, before);
            var join := OpRegister(q, closure, joinTime, Unspecified);
            var last := RecordRun(Record(h, s, join), Step(s, join), between);
            t in last.placed && OutOfTheWay(Run(Step(s, join), between), last, t)
  {
    var s, h := Run(EMPTY_QUEUES, before), RecordRun(NO_HISTORY, EMPTY_QUEUES, before);
    var join := OpRegister(q, closure, joinTime, Unspecified);
    RunConserves(EMPTY_QUEUES, NO_HISTORY, before);
    StepKeepsInv(s, join);
    StepConserves(s, h, join);
    hide Inv, Step;
    var joined, h' := Step(s, join), Record(h, s, join);
    assert t.order < s.order;
    RunConserves(joined, h', between);
    PlacedStays(h', joined, between, t);
    AheadIsDoneAt(Run(joined, between), RecordRun(h', joined, between), q, now, t);
  }
}
