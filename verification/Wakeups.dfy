/** No lost wake-up: whenever an unsubsumed queue has a wakeable and a visible task, the
    wakeable was last armed no later than the earliest visible task.  The code keeps this
    exactly unless a wakeable is set on a queue that already has visible tasks, or the last
    pause of a subsumed queue is lifted over a task its owner is not armed for. */
module Wakeups {
  import opened Options
  import opened DelayedTasks
  import opened TaskSources
  import opened TaskQueues
  import opened Ownership
  import Observations

  ghost predicate Covered(s: Queues, q: Id)
    requires q in s.entries
  {
    var e := s.entries[q];
    HasPending(s, q) && e.wakeable ==>
      e.armed.Some? && forall t | t in VisibleTasks(s, q) :: e.armed.value <= t.time
  }

  ghost predicate NoLostWakeup(s: Queues) {
    && (forall q | q in s.entries :: Covered(s, q))
    && (forall q | q in s.entries && !s.entries[q].wakeable :: s.entries[q].armed == None)
  }

  /** A condition on the state before the call, under which no wake-up is lost. */
  ghost predicate Heard(s: Queues, op: Op)
    requires Enabled(s, op)
  {
    match op
    case OpSetWakeable(q) => !HasPending(s, q)
    case OpResume(q) =>
      (match s.entries[q].subsumedBy
       case Unmerged => true
       case Queue(o) =>
         o in s.entries && s.entries[o].wakeable && s.entries[q].source.pauses == 1 ==>
           forall t | t in s.entries[q].source.secondary ::
             s.entries[o].armed.Some? && s.entries[o].armed.value <= t.time)
    case _ => true
  }

  lemma CoveredBySubset(s: Queues, r: Queues, q: Id)
    requires q in s.entries && q in r.entries && Covered(s, q)
    requires Subsumed(s, q) ==> Subsumed(r, q)
    requires r.entries[q].wakeable == s.entries[q].wakeable
    requires r.entries[q].armed == s.entries[q].armed
    requires !Subsumed(r, q) ==> VisibleTasks(r, q) <= VisibleTasks(s, q)
    ensures Covered(r, q)
  {
  }

  /** Re-arming covers its queue and leaves the others as covered as they were, those in
      `later` aside, which are yet to be re-armed. */
  lemma RearmCovers(s: Queues, q: Id, later: set<Id>)
    requires q in s.entries
    requires forall p | p in s.entries && p != q && p !in later :: Covered(s, p)
    requires forall p | p in s.entries && !s.entries[p].wakeable :: s.entries[p].armed == None
    ensures forall p | p in Rearm(s, q).entries && p !in later :: Covered(Rearm(s, q), p)
    ensures forall p | p in Rearm(s, q).entries && !Rearm(s, q).entries[p].wakeable ::
              Rearm(s, q).entries[p].armed == None
  {
    var r := Rearm(s, q);
    RearmSame(s, q);
    forall p | p in r.entries && p !in later ensures Covered(r, p) {
      SameVisible(s, r, p);
      if p == q && HasPending(s, q) {
        var top := Earliest(VisibleTasks(s, q));
        assert forall t | t in VisibleTasks(s, q) :: !After(top, t);
      }
    }
  }

  /** What a queue sees depends only on its family's sources. */
  lemma VisibleWithin(s: Queues, r: Queues, p: Id)
    requires p in s.entries && p in r.entries
    requires Family(r, p) <= Family(s, p)
    requires forall q | q in Family(r, p) && q in r.entries ::
               q in s.entries && r.entries[q].source.Visible() <= s.entries[q].source.Visible()
    ensures VisibleTasks(r, p) <= VisibleTasks(s, p)
  {
    forall t | t in VisibleTasks(r, p) ensures t in VisibleTasks(s, p) {
      var q :| q in Family(r, p) && q in r.entries && t in r.entries[q].source.Visible();
      assert q in Family(s, p) && q in s.entries && t in s.entries[q].source.Visible();
    }
  }

  lemma RegisterHeard(s: Queues, q: Id, closure: Closure, time: int, grade: Grade)
    requires Inv(s) && NoLostWakeup(s) && Enabled(s, OpRegister(q, closure, time, grade))
    ensures NoLostWakeup(Register(s, q, closure, time, grade))
  {
    var r := Registered(s, q, DelayedTask(s.order, closure, time, grade));
    var loop := LoopToWake(s, q);
    forall p | p in r.entries && p != loop ensures Covered(r, p) {
      if !Subsumed(r, p) {
        assert q !in Family(s, p);
        VisibleWithin(s, r, p);
      }
      CoveredBySubset(s, r, p);
    }
    RearmCovers(r, loop, {});
  }

  lemma MergeHeard(s: Queues, o: Id, q: Id)
    requires Inv(s) && NoLostWakeup(s) && Enabled(s, OpMerge(o, q))
    ensures NoLostWakeup(Merge(s, o, q))
  {
    if Merge(s, o, q) != s {
      var r := Link(s, o, q);
      forall p | p in r.entries && p != o ensures Covered(r, p) {
        VisibleWithin(s, r, p);
        CoveredBySubset(s, r, p);
      }
      RearmCovers(r, o, {});
    }
  }

  lemma UnmergeHeard(s: Queues, o: Id, q: Id)
    requires Inv(s) && NoLostWakeup(s) && UnmergeDefined(s, o, q)
    ensures NoLostWakeup(Unmerge(s, o, q))
  {
    if UnmergeResult(s, o, q) {
      var r := Unlink(s, o, q);
      assert o != q;
      forall p | p in r.entries && p != q ensures Covered(r, p) {
        VisibleWithin(s, r, p);
        CoveredBySubset(s, r, p);
      }
      RearmCovers(r, o, {q});
      RearmCovers(Rearm(r, o), q, {});
    }
  }

  /** Fewer visible tasks, same armed times. */
  lemma ShrinkHeard(s: Queues, r: Queues)
    requires NoLostWakeup(s) && r.entries.Keys <= s.entries.Keys
    requires forall q | q in r.entries ::
               && r.entries[q] == s.entries[q].(source := r.entries[q].source)
               && r.entries[q].source.Visible() <= s.entries[q].source.Visible()
    ensures NoLostWakeup(r)
  {
    forall p | p in r.entries ensures Covered(r, p) {
      VisibleWithin(s, r, p);
      CoveredBySubset(s, r, p);
    }
  }

  lemma PopHeard(s: Queues, q: Id, now: int)
    requires NoLostWakeup(s) && q in s.entries
    ensures NoLostWakeup(Pop(s, q, now))
  {
    RearmCovers(s, q, {});
    match Handed(s, q, now)
    case None =>
    case Some(t) => ShrinkHeard(Rearm(s, q), Remove(Rearm(s, q), t));
  }

  lemma CreateHeard(s: Queues)
    requires Inv(s) && NoLostWakeup(s)
    ensures NoLostWakeup(Create(s))
  {
    var r := Create(s);
    assert s.nextId !in s.entries;
    forall p | p in r.entries ensures Covered(r, p) {
      if p != s.nextId {
        VisibleWithin(s, r, p);
        CoveredBySubset(s, r, p);
      }
    }
  }

  /** Setting a wakeable loses a wake-up exactly when tasks are already visible. */
  lemma SetWakeableIff(s: Queues, q: Id)
    requires Inv(s) && NoLostWakeup(s) && Enabled(s, OpSetWakeable(q))
    ensures NoLostWakeup(SetWakeable(s, q)) <==> !HasPending(s, q)
  {
    var r := SetWakeable(s, q);
    forall p | p in r.entries
      ensures VisibleTasks(r, p) == VisibleTasks(s, p)
    {
      VisibleWithin(s, r, p);
      VisibleWithin(r, s, p);
    }
    assert Covered(r, q) <==> !HasPending(s, q);
    forall p | p in r.entries && p != q ensures Covered(r, p) {
      CoveredBySubset(s, r, p);
    }
  }

  lemma ResumeUnsubsumed(s: Queues, q: Id)
    requires Inv(s) && NoLostWakeup(s) && Enabled(s, OpResume(q)) && !Subsumed(s, q)
    ensures NoLostWakeup(Resume(s, q))
  {
    var r := Resumed(s, q);
    forall p | p in r.entries && p != q ensures Covered(r, p) {
      if !Subsumed(r, p) {
        VisibleWithin(s, r, p);
      }
      CoveredBySubset(s, r, p);
    }
    RearmCovers(r, q, {});
  }

  /** A resume on a subsumed queue re-arms nobody; the owner stays covered exactly when it is
      armed for whatever became visible. */
  lemma ResumeSubsumedIff(s: Queues, q: Id)
    requires Inv(s) && NoLostWakeup(s) && Enabled(s, OpResume(q)) && Subsumed(s, q)
    ensures NoLostWakeup(Resume(s, q)) <==> Heard(s, OpResume(q))
  {
    var r := Resumed(s, q);
    var o := s.entries[q].subsumedBy.id;
    assert Resume(s, q) == r;
    forall p | p in r.entries && p != o ensures Covered(r, p) {
      if !Subsumed(r, p) {
        assert q !in Family(s, p);
        VisibleWithin(s, r, p);
      }
      CoveredBySubset(s, r, p);
    }
    OwnerSees(s, q, o);
  }

  lemma OwnerSees(s: Queues, q: Id, o: Id)
    requires Inv(s) && NoLostWakeup(s) && Enabled(s, OpResume(q))
    requires s.entries[q].subsumedBy == Queue(o)
    ensures Covered(Resumed(s, q), o) <==> Heard(s, OpResume(q))
  {
    var r := Resumed(s, q);
    var extra := if s.entries[q].source.pauses == 1 then s.entries[q].source.secondary else {};
    assert q in Family(s, o) && o != q && !Subsumed(s, o);
    forall t ensures t in VisibleTasks(r, o) <==> t in VisibleTasks(s, o) || t in extra {
      if t in VisibleTasks(r, o) {
        var p :| p in Family(r, o) && p in r.entries && t in r.entries[p].source.Visible();
        assert p != q ==> t in s.entries[p].source.Visible();
        assert p == q ==> t in s.entries[q].source.Visible() || t in extra;
      }
      if t in extra {
        assert t in r.entries[q].source.Visible();
      }
      if t in VisibleTasks(s, o) {
        var p :| p in Family(s, o) && p in s.entries && t in s.entries[p].source.Visible();
        assert p in r.entries && t in r.entries[p].source.Visible();
      }
    }
  }

  /** One step keeps every wake-up if and only if it is heard. */
  lemma StepWakesIff(s: Queues, op: Op)
    requires Inv(s) && NoLostWakeup(s) && Enabled(s, op)
    ensures NoLostWakeup(Step(s, op)) <==> Heard(s, op)
  {
    match op
    case OpCreate => CreateHeard(s);
    case OpDispose(q) => ShrinkHeard(s, Dispose(s, q));
    case OpDisposeTasks(q) => ShrinkHeard(s, DisposeTasks(s, q));
    case OpRegister(q, closure, time, grade) => RegisterHeard(s, q, closure, time, grade);
    case OpPop(q, now) => PopHeard(s, q, now);
    case OpSetWakeable(q) => SetWakeableIff(s, q);
    case OpMerge(o, q) => MergeHeard(s, o, q);
    case OpUnmerge(o, q) => UnmergeHeard(s, o, q);
    case OpPause(q) => ShrinkHeard(s, Pause(s, q));
    case OpResume(q) => if Subsumed(s, q) { ResumeSubsumedIff(s, q); } else { ResumeUnsubsumed(s, q); }
  }

  ghost predicate HeardRun(s: Queues, ops: seq<Op>)
    requires ValidRun(s, ops)
    decreases |ops|
  {
    ops == [] || (Heard(s, ops[0]) && HeardRun(Step(s, ops[0]), ops[1..]))
  }

  /** No wake-up is ever lost, over every run whose steps are heard. */
  lemma {:induction false} RunWakes(s: Queues, ops: seq<Op>)
    requires Inv(s) && NoLostWakeup(s) && ValidRun(s, ops) && HeardRun(s, ops)
    ensures NoLostWakeup(Run(s, ops))
    decreases |ops|
  {
    if ops != [] {
      StepKeepsInv(s, ops[0]);
      StepWakesIff(s, ops[0]);
      RunWakes(Step(s, ops[0]), ops[1..]);
    }
  }

  lemma ReachableWakes(ops: seq<Op>)
    requires ValidRun(EMPTY_QUEUES, ops) && HeardRun(EMPTY_QUEUES, ops)
    ensures NoLostWakeup(Run(EMPTY_QUEUES, ops))
  {
    RunWakes(EMPTY_QUEUES, ops);
  }

  lemma LateWakeableLoses(s: Queues)
    requires Inv(s) && NoLostWakeup(s) && 0 in s.entries && s.entries[0] == NewEntry()
    ensures var r := Register(s, 0, 7, 5, Unspecified);
            Enabled(r, OpSetWakeable(0)) && !NoLostWakeup(SetWakeable(r, 0))
  {
    hide Inv, NoLostWakeup;
    var t := DelayedTask(s.order, 7, 5, Unspecified);
    var r := Register(s, 0, 7, 5, Unspecified);
    RegisterKeepsInv(s, 0, 7, 5, Unspecified);
    RegisterHeard(s, 0, 7, 5, Unspecified);
    RearmSame(Registered(s, 0, t), 0);
    assert t in r.entries[0].source.Visible();
    assert t in VisibleTasks(r, 0);
    SetWakeableIff(r, 0);
  }

  /** Told by the calls alone: over every heard run, a live queue on which a wakeable was set, which
      is not subsumed and sees a task, has been armed for no later than any task it sees. */
  lemma WokenInTime(ops: seq<Op>, q: Id)
    requires ValidRun(EMPTY_QUEUES, ops) && HeardRun(EMPTY_QUEUES, ops)
    requires q in Run(EMPTY_QUEUES, ops).entries && OpSetWakeable(q) in ops
    ensures var r := Run(EMPTY_QUEUES, ops);
            HasPending(r, q) ==>
              r.entries[q].armed.Some? && forall t | t in VisibleTasks(r, q) :: r.entries[q].armed.value <= t.time
  {
    ReachableWakes(ops);
    Observations.WakeableRun(EMPTY_QUEUES, ops, q);
  }

  /** A reachable loss: a task is registered before its queue gets a wakeable. */
  lemma LateWakeableExample()
    ensures var ops := [OpCreate, OpRegister(0, 7, 5, Unspecified), OpSetWakeable(0)];
            ValidRun(EMPTY_QUEUES, ops) && !NoLostWakeup(Run(EMPTY_QUEUES, ops))
  {
    var ops := [OpCreate, OpRegister(0, 7, 5, Unspecified), OpSetWakeable(0)];
    var created := Create(EMPTY_QUEUES);
    CreateKeepsInv(EMPTY_QUEUES);
    CreateHeard(EMPTY_QUEUES);
    hide Inv, NoLostWakeup;
    LateWakeableLoses(created);
    assert ops[1..] == [ops[1], ops[2]] && ops[1..][1..] == [ops[2]] && [ops[2]][1..] == [];
  }

  /** A reachable loss: a micro task registered on a paused queue 1, which queue 0 subsumes
      before the pause is lifted.  Queue 0 sees the task but was never armed. */
  lemma LostWakeupExample() returns (ops: seq<Op>)
    ensures ValidRun(EMPTY_QUEUES, ops) && !NoLostWakeup(Run(EMPTY_QUEUES, ops))
  {
    var t := DelayedTask(0, 7, 5, DartMicroTasks);
    var source := Source({}, {t}, 1);
    var owner := Entry(EMPTY_SOURCE, {}, Unmerged, true, None);
    var paused := Entry(source, {}, Unmerged, false, None);
    var s := Queues(map[0 := owner, 1 := paused], 2, 1);
    var setup := [OpCreate, OpCreate, OpSetWakeable(0), OpPause(1), OpRegister(1, 7, 5, DartMicroTasks)];
    SetupRun(setup, t, s);
    var last := ResumeLoses(s, t);
    ops := setup + [OpMerge(0, 1), OpResume(1)];
    RunAppend(EMPTY_QUEUES, setup, [OpMerge(0, 1), OpResume(1)]);
  }

  lemma ResumeLoses(s: Queues, t: DelayedTask) returns (last: Queues)
    requires t == DelayedTask(0, 7, 5, DartMicroTasks)
    requires s == Queues(map[0 := Entry(EMPTY_SOURCE, {}, Unmerged, true, None),
                             1 := Entry(Source({}, {t}, 1), {}, Unmerged, false, None)], 2, 1)
    ensures ValidRun(s, [OpMerge(0, 1), OpResume(1)])
    ensures last == Run(s, [OpMerge(0, 1), OpResume(1)]) && !NoLostWakeup(last)
  {
    var merged := Link(s, 0, 1);
    assert VisibleTasks(merged, 0) == {};
    assert Merge(s, 0, 1) == merged;
    last := Resumed(merged, 1);
    assert Resume(merged, 1) == last;
    assert last.entries[1].source.Visible() == {t};
    assert t in VisibleTasks(last, 0);
    assert !Covered(last, 0);
    assert [OpMerge(0, 1), OpResume(1)][1..] == [OpResume(1)];
    assert [OpResume(1)][1..] == [];
  }

  lemma SetupRun(ops: seq<Op>, t: DelayedTask, s: Queues)
    requires t == DelayedTask(0, 7, 5, DartMicroTasks)
    requires ops == [OpCreate, OpCreate, OpSetWakeable(0), OpPause(1), OpRegister(1, 7, 5, DartMicroTasks)]
    requires s == Queues(map[0 := Entry(EMPTY_SOURCE, {}, Unmerged, true, None),
                             1 := Entry(Source({}, {t}, 1), {}, Unmerged, false, None)], 2, 1)
    ensures ValidRun(EMPTY_QUEUES, ops) && Run(EMPTY_QUEUES, ops) == s
  {
    var s1 := Create(EMPTY_QUEUES);
    var s2 := Create(s1);
    var s3 := SetWakeable(s2, 0);
    var s4 := Pause(s3, 1);
    var s5 := Registered(s4, 1, t);
    assert {} + {t} == {t};
    assert s5.entries == s.entries;
    assert Register(s4, 1, 7, 5, DartMicroTasks) == s5;
    assert [ops[4]][1..] == [];
    assert ValidRun(s4, [ops[4]]) && Run(s4, [ops[4]]) == s;
    assert ops[3..][1..] == [ops[4]];
    assert ValidRun(s3, ops[3..]) && Run(s3, ops[3..]) == s;
    assert ops[2..][1..] == ops[3..];
    assert ValidRun(s2, ops[2..]) && Run(s2, ops[2..]) == s;
    assert ops[1..][1..] == ops[2..];
    assert ValidRun(s1, ops[1..]) && Run(s1, ops[1..]) == s;
  }

  lemma {:induction false} RunAppend(s: Queues, a: seq<Op>, b: seq<Op>)
    requires ValidRun(s, a)
    ensures ValidRun(s, a + b) <==> ValidRun(Run(s, a), b)
    ensures ValidRun(s, a + b) ==> Run(s, a + b) == Run(Run(s, a), b)
    decreases |a|
  {
    if a == [] {
      assert a + b == b;
    } else {
      assert (a + b)[1..] == a[1..] + b;
      RunAppend(Step(s, a[0]), a[1..], b);
    }
  }
}
