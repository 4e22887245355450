/** What each operation of the dispatcher does, told by what can be observed before and after
    it: which queues live, who owns whom, what is pending, paused, visible and armed.  None of
    this names the operation's own definition, and together it leaves nothing open. */
module Observations {
  import opened Options
  import opened DelayedTasks
  import opened TaskSources
  import opened TaskQueues
  import opened Ownership

  /** The loop of `o` serves `q`: its own queue, or one that says it is subsumed by `o`. */
  ghost predicate Serves(s: Queues, o: Id, q: Id) {
    q in s.entries && (q == o || s.entries[q].subsumedBy == Queue(o))
  }

  lemma FamilyIsServed(s: Queues, o: Id, q: Id)
    requires Inv(s) && o in s.entries
    ensures q in Family(s, o) <==> Serves(s, o, q)
  {
    hide Unique, Graded;
  }

  /** Queues come with `OpCreate` and go with the queue whose loop serves them. */
  lemma QueuesAre(s: Queues, op: Op)
    requires Inv(s) && Enabled(s, op)
    ensures Step(s, op).entries.Keys ==
            match op
            case OpCreate => s.entries.Keys + {s.nextId}
            case OpDispose(o) => set q | q in s.entries && !Serves(s, o, q)
            case _ => s.entries.Keys
    ensures Step(s, op).nextId == s.nextId + (if op.OpCreate? then 1 else 0)
    ensures Step(s, op).order == s.order + (if op.OpRegister? then 1 else 0)
  {
    hide Inv;
    if op.OpDispose? {
      forall q | q in s.entries ensures q in Family(s, op.q) <==> Serves(s, op.q, q) {
        FamilyIsServed(s, op.q, q);
      }
      hide Serves;
    }
  }

  /** A queue has a wakeable exactly from the call that sets it on. */
  lemma WakeableIff(s: Queues, op: Op, q: Id)
    requires Inv(s) && Enabled(s, op) && q in Step(s, op).entries
    ensures Step(s, op).entries[q].wakeable <==>
            (q in s.entries && s.entries[q].wakeable) || op == OpSetWakeable(q)
  {
    hide Forest, Unique, Graded;
  }

  lemma PausesAre(s: Queues, op: Op, q: Id)
    requires Inv(s) && Enabled(s, op) && q in Step(s, op).entries
    ensures var before := if q in s.entries then s.entries[q].source.pauses else 0;
            Step(s, op).entries[q].source.pauses ==
              if op == OpPause(q) then before + 1 else if op == OpResume(q) then before - 1 else before
  {
    hide Forest, Unique, Graded;
  }

  /** Ownership begins with a merge of two queues of which neither is owned and the second owns
      nothing, and ends with their unmerging. */
  lemma OwnershipAfterMerge(s: Queues, o: Id, q: Id, a: Id, b: Id)
    requires Inv(s) && Enabled(s, OpMerge(o, q)) && a in s.entries
    ensures a in Merge(s, o, q).entries
    ensures b in Merge(s, o, q).entries[a].ownerOf <==>
            || (o == a && q == b && a != b && s.entries[a].subsumedBy == s.entries[b].subsumedBy == Unmerged
                && s.entries[b].ownerOf == {})
            || b in s.entries[a].ownerOf
  {
    hide Unique, Graded, Rearm;
    if o != q {
      RearmSame(Link(s, o, q), o);
    }
  }

  lemma OwnershipAfterUnmerge(s: Queues, o: Id, q: Id, a: Id, b: Id)
    requires Inv(s) && UnmergeDefined(s, o, q) && a in s.entries
    ensures a in Unmerge(s, o, q).entries
    ensures b in Unmerge(s, o, q).entries[a].ownerOf <==> b in s.entries[a].ownerOf && !(o == a && q == b)
  {
    hide Unique, Graded, Rearm;
    if UnmergeResult(s, o, q) {
      var cut := Unlink(s, o, q);
      RearmSame(cut, o);
      RearmSame(Rearm(cut, o), q);
    }
  }

  lemma OwnershipIs(s: Queues, op: Op, a: Id, b: Id)
    requires Inv(s) && Enabled(s, op) && a in Step(s, op).entries
    ensures b in Step(s, op).entries[a].ownerOf <==>
            || (op == OpMerge(a, b) && a != b && a in s.entries && b in s.entries
                && s.entries[a].subsumedBy == s.entries[b].subsumedBy == Unmerged && s.entries[b].ownerOf == {})
            || (a in s.entries && b in s.entries[a].ownerOf && op != OpUnmerge(a, b))
  {
    hide Forest, Unique, Graded;
    match op
    case OpMerge(o, q) => QueuesAre(s, op); OwnershipAfterMerge(s, o, q, a, b);
    case OpUnmerge(o, q) => QueuesAre(s, op); OwnershipAfterUnmerge(s, o, q, a, b);
    case _ =>
  }

  /** Registering adds one task to one queue, popping takes what is handed out, disposing takes
      what the queues served hold; nothing else moves. */
  lemma PendingIs(s: Queues, op: Op, q: Id, t: DelayedTask)
    requires Inv(s) && Enabled(s, op)
    ensures PendingAt(Step(s, op), q, t) <==>
            match op
            case OpRegister(p, closure, time, grade) =>
              PendingAt(s, q, t) || (q == p && t == DelayedTask(s.order, closure, time, grade))
            case OpPop(p, now) => PendingAt(s, q, t) && Handed(s, p, now) != Some(t)
            case OpDispose(o) => PendingAt(s, q, t) && !Serves(s, o, q)
            case OpDisposeTasks(o) => PendingAt(s, q, t) && !Serves(s, o, q)
            case _ => PendingAt(s, q, t)
  {
    hide Forest, Unique, Graded, Serves;
    if op.OpDispose? || op.OpDisposeTasks? {
      FamilyIsServed(s, op.q, q);
    }
  }

  /** A loop sees what is pending in the queues it serves, micro tasks only where no pause is in
      force. */
  lemma VisibleIff(s: Queues, o: Id, t: DelayedTask)
    requires Inv(s) && o in s.entries
    ensures t in VisibleTasks(s, o) <==>
            exists q :: Serves(s, o, q) && PendingAt(s, q, t)
                        && (t.grade == DartMicroTasks ==> s.entries[q].source.pauses == 0)
  {
    hide Unique, Forest;
    if t in VisibleTasks(s, o) {
      var q :| q in Family(s, o) && q in s.entries && t in s.entries[q].source.Visible();
      assert s.entries[q].source.Graded();
      FamilyIsServed(s, o, q);
      assert PendingAt(s, q, t);
    }
    if q :| Serves(s, o, q) && PendingAt(s, q, t)
            && (t.grade == DartMicroTasks ==> s.entries[q].source.pauses == 0) {
      assert s.entries[q].source.Graded();
      FamilyIsServed(s, o, q);
      assert t in s.entries[q].source.Visible();
    }
  }

  /** The queues whose wakeable an operation tells about their next task. */
  ghost function Told(s: Queues, op: Op): set<Id>
    requires Enabled(s, op)
  {
    match op
    case OpRegister(q, _, _, _) => {match s.entries[q].subsumedBy case Unmerged => q case Queue(o) => o}
    case OpPop(q, _) => {q}
    case OpMerge(o, q) => if MergeResult(s, o, q) && o != q && q !in s.entries[o].ownerOf then {o} else {}
    case OpUnmerge(o, q) => if UnmergeResult(s, o, q) then {o, q} else {}
    case OpResume(q) => {q}
    case _ => {}
  }

  /** Such a queue, if it has a wakeable and a visible task, is armed at its earliest one; a pop
      tells what it saw before it took the task.  Nobody else is armed anew. */
  lemma ArmedIs(s: Queues, op: Op, q: Id)
    requires Inv(s) && Enabled(s, op) && q in s.entries && q in Step(s, op).entries
    ensures var seen := if op.OpPop? then s else Step(s, op);
            Step(s, op).entries[q].armed ==
              if q in Told(s, op) && HasPending(seen, q) && s.entries[q].wakeable
              then Some(Earliest(VisibleTasks(seen, q)).time) else s.entries[q].armed
  {
    hide Forest, Unique, Graded, Rearm;
    match op
    case OpRegister(p, closure, time, grade) =>
      var added := Registered(s, p, DelayedTask(s.order, closure, time, grade));
      RearmTells(added, LoopToWake(s, p), q);
    case OpPop(p, now) => RearmTells(s, p, q);
    case OpMerge(o, p) =>
      if o != p && p !in s.entries[o].ownerOf && CanMerge(s, o, p) {
        RearmTells(Link(s, o, p), o, q);
      }
    case OpUnmerge(o, p) =>
      if UnmergeResult(s, o, p) {
        UnmergeTells(s, o, p, q);
      }
    case OpResume(p) => RearmTells(Resumed(s, p), p, q);
    case _ =>
  }

  /** In particular a registration arms the loop that serves the queue, its own or its owner's,
      at that loop's earliest visible task. */
  lemma RegisterArms(s: Queues, q: Id, closure: Closure, time: int, grade: Grade)
    requires Inv(s) && Enabled(s, OpRegister(q, closure, time, grade))
    ensures var o := match s.entries[q].subsumedBy case Unmerged => q case Queue(p) => p;
            var r := Step(s, OpRegister(q, closure, time, grade));
            && o in s.entries && o in r.entries
            && (s.entries[o].wakeable && HasPending(r, o) ==>
                  r.entries[o].wakeable && r.entries[o].armed == Some(Earliest(VisibleTasks(r, o)).time))
  {
    var op := OpRegister(q, closure, time, grade);
    QueuesAre(s, op);
    WakeableIff(s, op, LoopToWake(s, q));
    ArmedIs(s, op, LoopToWake(s, q));
  }

  lemma UnmergeTells(s: Queues, o: Id, p: Id, q: Id)
    requires Inv(s) && UnmergeDefined(s, o, p) && UnmergeResult(s, o, p) && q in s.entries
    ensures var r := Unmerge(s, o, p);
            r.entries[q].armed ==
              if q in {o, p} && HasPending(r, q) && s.entries[q].wakeable
              then Some(Earliest(VisibleTasks(r, q)).time) else s.entries[q].armed
  {
    assert o != p;
    hide Inv, Rearm;
    var cut := Unlink(s, o, p);
    RearmTells(cut, o, q);
    RearmTells(Rearm(cut, o), p, q);
  }

  /** Re-arming tells one queue, and changes nothing that anybody sees. */
  lemma RearmTells(s: Queues, o: Id, q: Id)
    requires o in s.entries && q in s.entries
    ensures var r := Rearm(s, o);
            && q in r.entries && LooksSame(s, r, q)
            && r.entries[q].armed ==
                 if q == o && HasPending(s, q) && s.entries[q].wakeable
                 then Some(Earliest(VisibleTasks(s, q)).time) else s.entries[q].armed
  {
    RearmSame(s, o);
    SameVisible(s, Rearm(s, o), q);
  }

  ghost predicate LooksSame(s: Queues, r: Queues, q: Id)
    requires q in s.entries && q in r.entries
  {
    && (HasPending(r, q) <==> HasPending(s, q)) && VisibleTasks(r, q) == VisibleTasks(s, q)
    && r.entries[q].wakeable == s.entries[q].wakeable && r.entries.Keys == s.entries.Keys
  }

  // Whole runs

  /** Ids are never used again, so over every run a live queue has a wakeable exactly if one was
      set on it. */
  lemma {:induction false} WakeableRun(s: Queues, ops: seq<Op>, q: Id)
    requires Inv(s) && ValidRun(s, ops) && q in Run(s, ops).entries
    ensures q in s.entries || s.nextId <= q
    ensures Run(s, ops).entries[q].wakeable <==>
            (q in s.entries && s.entries[q].wakeable) || OpSetWakeable(q) in ops
    decreases |ops|
  {
    hide Forest, Unique, Graded, Step;
    if ops != [] {
      var r := Step(s, ops[0]);
      StepKeepsInv(s, ops[0]);
      WakeableRun(r, ops[1..], q);
      QueuesAre(s, ops[0]);
      if q in r.entries {
        WakeableIff(s, ops[0], q);
      } else {
        SetOnLiveQueues(s, ops[0], q);
      }
      assert ops == [ops[0]] + ops[1..];
    }
  }

  lemma SetOnLiveQueues(s: Queues, op: Op, q: Id)
    requires Inv(s) && Enabled(s, op) && q !in Step(s, op).entries
    ensures op != OpSetWakeable(q)
    ensures q in s.entries ==> op.OpDispose?
  {
    hide Inv;
    QueuesAre(s, op);
  }
}
