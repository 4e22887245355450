/** Every run keeps the ownership forest and the identity of tasks; hence unmerging
    succeeds exactly on owned queues and undoes a merge. */
module Ownership {
  import opened Options
  import opened DelayedTasks
  import opened TaskSources
  import opened TaskQueues

  /** Same queues, same sources, same relation: only armed times may differ. */
  ghost predicate SameButArmed(s: Queues, r: Queues) {
    && s.entries.Keys == r.entries.Keys
    && s.nextId == r.nextId && s.order == r.order
    && (forall q | q in s.entries :: r.entries[q] == s.entries[q].(armed := r.entries[q].armed))
  }

  lemma RearmSame(s: Queues, q: Id)
    requires q in s.entries
    ensures SameButArmed(s, Rearm(s, q))
  {
  }

  lemma SameVisible(s: Queues, r: Queues, o: Id)
    requires SameButArmed(s, r) && o in s.entries
    ensures VisibleTasks(s, o) == VisibleTasks(r, o)
  {
    assert Family(s, o) == Family(r, o);
    forall t ensures t in VisibleTasks(s, o) <==> t in VisibleTasks(r, o) {
      if t in VisibleTasks(s, o) {
        var q :| q in Family(s, o) && q in s.entries && t in s.entries[q].source.Visible();
        assert q in r.entries && t in r.entries[q].source.Visible();
      }
      if t in VisibleTasks(r, o) {
        var q :| q in Family(r, o) && q in r.entries && t in r.entries[q].source.Visible();
        assert q in s.entries && t in s.entries[q].source.Visible();
      }
    }
  }

  lemma SameKeepsInv(s: Queues, r: Queues)
    requires SameButArmed(s, r) && Inv(s)
    ensures Inv(r)
  {
    hide Unique;
    FewerStayUnique(s, r);
  }

  lemma RearmKeepsInv(s: Queues, q: Id)
    requires q in s.entries && Inv(s)
    ensures Inv(Rearm(s, q))
  {
    RearmSame(s, q);
    SameKeepsInv(s, Rearm(s, q));
  }

  /** Fewer tasks in fewer queues stay identified by their order numbers. */
  lemma FewerStayUnique(s: Queues, r: Queues)
    requires Unique(s) && s.order <= r.order
    requires forall q, t | PendingAt(r, q, t) :: PendingAt(s, q, t)
    ensures Unique(r)
  {
  }

  lemma DisposeKeepsForest(s: Queues, q: Id)
    requires Forest(s) && Enabled(s, OpDispose(q))
    ensures Forest(Dispose(s, q))
  {
    var r := Dispose(s, q);
    forall p | p in r.entries && r.entries[p].subsumedBy.Queue?
      ensures r.entries[p].subsumedBy.id in r.entries
    {
      var o := s.entries[p].subsumedBy.id;
      assert p in s.entries[o].ownerOf;
      assert o !in s.entries[q].ownerOf;
    }
    forall o, p | o in r.entries && p in r.entries[o].ownerOf
      ensures p in r.entries && r.entries[p].subsumedBy == Queue(o)
    {
      assert s.entries[p].subsumedBy == Queue(o);
    }
  }

  lemma DisposeKeepsInv(s: Queues, q: Id)
    requires Inv(s) && Enabled(s, OpDispose(q))
    ensures Inv(Dispose(s, q))
  {
    hide Forest, Unique;
    DisposeKeepsForest(s, q);
    FewerStayUnique(s, Dispose(s, q));
  }

  lemma DropKeepsInv(s: Queues, r: Queues)
    requires Inv(s)
    requires s.entries.Keys == r.entries.Keys && s.nextId == r.nextId && s.order == r.order
    requires forall q | q in s.entries ::
               && r.entries[q] == s.entries[q].(source := r.entries[q].source)
               && r.entries[q].source.primary <= s.entries[q].source.primary
               && r.entries[q].source.secondary <= s.entries[q].source.secondary
    ensures Inv(r)
  {
    hide Unique;
    FewerStayUnique(s, r);
    assert forall q | q in r.entries :: s.entries[q].source.Graded();
  }

  lemma RegisteredStayUnique(s: Queues, q: Id, t: DelayedTask)
    requires Unique(s) && q in s.entries && t.order == s.order
    ensures Unique(Registered(s, q, t))
  {
    var r := Registered(s, q, t);
    assert forall p, u | PendingAt(r, p, u) :: PendingAt(s, p, u) || (p == q && u == t);
  }

  lemma RegisteredKeepsInv(s: Queues, q: Id, t: DelayedTask)
    requires Inv(s) && q in s.entries && t.order == s.order
    ensures Inv(Registered(s, q, t))
  {
    hide Unique;
    RegisteredStayUnique(s, q, t);
    var r := Registered(s, q, t);
    assert forall p | p in r.entries && p != q :: s.entries[p].source.Graded();
    assert s.entries[q].source.Graded();
  }

  lemma SameHeapsKeepTasks(s: Queues, r: Queues)
    requires Inv(s)
    requires s.entries.Keys == r.entries.Keys && s.order == r.order
    requires forall q | q in s.entries ::
               r.entries[q].source == s.entries[q].source.(pauses := r.entries[q].source.pauses)
    ensures Unique(r) && Graded(r)
  {
    hide Unique, Forest;
    FewerStayUnique(s, r);
    assert forall q | q in r.entries :: s.entries[q].source.Graded();
  }

  lemma LinkKeepsInv(s: Queues, o: Id, q: Id)
    requires Inv(s) && o in s.entries && q in s.entries && o != q && CanMerge(s, o, q)
    ensures Inv(Link(s, o, q))
  {
    hide Unique, Forest, Graded;
    SameHeapsKeepTasks(s, Link(s, o, q));
    LinkKeepsForest(s, o, q);
  }

  lemma LinkKeepsForest(s: Queues, o: Id, q: Id)
    requires Forest(s) && o in s.entries && q in s.entries && o != q && CanMerge(s, o, q)
    ensures Forest(Link(s, o, q))
  {
    var r := Link(s, o, q);
    forall a, b | a in r.entries && b in r.entries[a].ownerOf
      ensures b in r.entries && r.entries[b].subsumedBy == Queue(a)
    {
      assert b != q ==> b in s.entries[a].ownerOf;
    }
    forall b | b in r.entries && r.entries[b].subsumedBy.Queue?
      ensures r.entries[b].subsumedBy.id in r.entries
      ensures b in r.entries[r.entries[b].subsumedBy.id].ownerOf && r.entries[b].ownerOf == {}
    {
      assert b != q ==> s.entries[b].subsumedBy == r.entries[b].subsumedBy;
    }
  }

  lemma UnlinkKeepsInv(s: Queues, o: Id, q: Id)
    requires Inv(s) && UnmergeDefined(s, o, q) && UnmergeResult(s, o, q)
    ensures Inv(Unlink(s, o, q))
  {
    hide Unique, Forest, Graded;
    SameHeapsKeepTasks(s, Unlink(s, o, q));
    UnlinkKeepsForest(s, o, q);
  }

  lemma UnlinkKeepsForest(s: Queues, o: Id, q: Id)
    requires Forest(s) && UnmergeDefined(s, o, q) && UnmergeResult(s, o, q)
    ensures Forest(Unlink(s, o, q))
  {
    var r := Unlink(s, o, q);
    assert o != q;
    forall a, b | a in r.entries && b in r.entries[a].ownerOf
      ensures b in r.entries && r.entries[b].subsumedBy == Queue(a)
    {
      assert b in s.entries[a].ownerOf;
    }
    forall b | b in r.entries && r.entries[b].subsumedBy.Queue?
      ensures r.entries[b].subsumedBy.id in r.entries
      ensures b in r.entries[r.entries[b].subsumedBy.id].ownerOf && r.entries[b].ownerOf == {}
    {
      assert s.entries[b].subsumedBy == r.entries[b].subsumedBy;
    }
  }

  lemma PausesKeepInv(s: Queues, q: Id, n: nat)
    requires Inv(s) && q in s.entries
    ensures Inv(WithSource(s, q, s.entries[q].source.(pauses := n)))
  {
    hide Unique, Graded;
    SameHeapsKeepTasks(s, WithSource(s, q, s.entries[q].source.(pauses := n)));
  }

  lemma PopKeepsInv(s: Queues, q: Id, now: int)
    requires Inv(s) && q in s.entries
    ensures Inv(Pop(s, q, now))
  {
    RearmKeepsInv(s, q);
    match Handed(s, q, now)
    case None =>
    case Some(t) => DropKeepsInv(Rearm(s, q), Remove(Rearm(s, q), t));
  }

  lemma CreateKeepsInv(s: Queues)
    requires Inv(s)
    ensures Inv(Create(s))
  {
    hide Unique;
    var r := Create(s);
    assert s.nextId !in s.entries;
    FewerStayUnique(s, r);
    assert forall q | q in r.entries && q != s.nextId :: s.entries[q].source.Graded();
  }

  lemma RegisterKeepsInv(s: Queues, q: Id, closure: Closure, time: int, grade: Grade)
    requires Inv(s) && q in s.entries && LoopToWake(s, q) in s.entries
    ensures Inv(Register(s, q, closure, time, grade))
  {
    var t := DelayedTask(s.order, closure, time, grade);
    RegisteredKeepsInv(s, q, t);
    RearmKeepsInv(Registered(s, q, t), LoopToWake(s, q));
  }

  lemma MergeKeepsInv(s: Queues, o: Id, q: Id)
    requires Inv(s) && Enabled(s, OpMerge(o, q))
    ensures Inv(Merge(s, o, q))
  {
    if Merge(s, o, q) != s {
      LinkKeepsInv(s, o, q);
      RearmKeepsInv(Link(s, o, q), o);
    }
  }

  lemma UnmergeKeepsInv(s: Queues, o: Id, q: Id)
    requires Inv(s) && UnmergeDefined(s, o, q)
    ensures Inv(Unmerge(s, o, q))
  {
    if UnmergeResult(s, o, q) {
      UnlinkKeepsInv(s, o, q);
      RearmKeepsInv(Unlink(s, o, q), o);
      RearmKeepsInv(Rearm(Unlink(s, o, q), o), q);
    }
  }

  lemma ResumeKeepsInv(s: Queues, q: Id)
    requires Inv(s) && Enabled(s, OpResume(q))
    ensures Inv(Resume(s, q))
  {
    PausesKeepInv(s, q, s.entries[q].source.pauses - 1);
    RearmKeepsInv(Resumed(s, q), q);
  }

  lemma SetWakeableKeepsInv(s: Queues, q: Id)
    requires Inv(s) && q in s.entries
    ensures Inv(SetWakeable(s, q))
  {
    hide Unique, Graded;
    SameHeapsKeepTasks(s, SetWakeable(s, q));
  }

  /** Each operation keeps the invariant. */
  lemma StepKeepsInv(s: Queues, op: Op)
    requires Inv(s) && Enabled(s, op)
    ensures Inv(Step(s, op))
  {
    match op
    case OpCreate => CreateKeepsInv(s);
    case OpDispose(q) => DisposeKeepsInv(s, q);
    case OpDisposeTasks(q) => DropKeepsInv(s, DisposeTasks(s, q));
    case OpRegister(q, closure, time, grade) => RegisterKeepsInv(s, q, closure, time, grade);
    case OpPop(q, now) => PopKeepsInv(s, q, now);
    case OpSetWakeable(q) => SetWakeableKeepsInv(s, q);
    case OpMerge(o, q) => MergeKeepsInv(s, o, q);
    case OpUnmerge(o, q) => UnmergeKeepsInv(s, o, q);
    case OpPause(q) => PausesKeepInv(s, q, s.entries[q].source.pauses + 1);
    case OpResume(q) => ResumeKeepsInv(s, q);
  }

  /** Every run from the empty dispatcher keeps the invariant. */
  lemma {:induction false} RunKeepsInv(s: Queues, ops: seq<Op>)
    requires Inv(s) && ValidRun(s, ops)
    ensures Inv(Run(s, ops))
    decreases |ops|
  {
    if ops != [] {
      StepKeepsInv(s, ops[0]);
      RunKeepsInv(Step(s, ops[0]), ops[1..]);
    }
  }

  lemma ReachableInv(ops: seq<Op>)
    requires ValidRun(EMPTY_QUEUES, ops)
    ensures Inv(Run(EMPTY_QUEUES, ops))
    ensures Forest(Run(EMPTY_QUEUES, ops))
  {
    RunKeepsInv(EMPTY_QUEUES, ops);
  }

  /** In every reachable state `Unmerge` returns true exactly on owned queues, although it
      tests four conditions. */
  lemma UnmergeIffOwned(ops: seq<Op>, o: Id, q: Id)
    requires ValidRun(EMPTY_QUEUES, ops)
    requires UnmergeDefined(Run(EMPTY_QUEUES, ops), o, q)
    ensures UnmergeResult(Run(EMPTY_QUEUES, ops), o, q)
       <==> Owns(Run(EMPTY_QUEUES, ops), Queue(o), Queue(q))
  {
    ReachableInv(ops);
  }

  /** A merge of two queues not merged before succeeds exactly when both are unsubsumed and
      the second owns nothing; then unmerging restores everything but armed times. */
  lemma MergeThenUnmerge(s: Queues, o: Id, q: Id)
    requires Inv(s) && o in s.entries && q in s.entries && o != q && q !in s.entries[o].ownerOf
    ensures MergeResult(s, o, q) <==>
            s.entries[o].subsumedBy == s.entries[q].subsumedBy == Unmerged && s.entries[q].ownerOf == {}
    ensures MergeResult(s, o, q) ==>
            && Owns(Merge(s, o, q), Queue(o), Queue(q))
            && UnmergeDefined(Merge(s, o, q), o, q)
            && UnmergeResult(Merge(s, o, q), o, q)
            && SameButArmed(s, Unmerge(Merge(s, o, q), o, q))
    ensures !MergeResult(s, o, q) ==> Merge(s, o, q) == s
  {
    hide Unique, Graded;
    if MergeResult(s, o, q) {
      RearmSame(Link(s, o, q), o);
      CutRestores(s, Merge(s, o, q), o, q);
    }
  }

  /** When `Merge` answers true: for one queue with itself, for queues merged already (both change
      nothing), and for a merge that takes place.  For two queues that is exactly when the first
      owns the second afterwards. */
  lemma MergeIff(s: Queues, o: Id, q: Id)
    requires Inv(s) && Enabled(s, OpMerge(o, q))
    ensures o == q ==> MergeResult(s, o, q) && Merge(s, o, q) == s
    ensures o != q && Owns(s, Queue(o), Queue(q)) ==> MergeResult(s, o, q) && Merge(s, o, q) == s
    ensures o != q ==> o in Merge(s, o, q).entries
                       && (MergeResult(s, o, q) <==> Owns(Merge(s, o, q), Queue(o), Queue(q)))
  {
    if o != q && q !in s.entries[o].ownerOf {
      MergeThenUnmerge(s, o, q);
    }
  }

  /** Ownership read from the other copy of the relation. */
  lemma OwnsIffSubsumed(s: Queues, o: QueueRef, q: QueueRef)
    requires Inv(s) && (o.Queue? && q.Queue? ==> o.id in s.entries)
    ensures Owns(s, o, q) <==>
            o.Queue? && q.Queue? && q.id in s.entries && s.entries[q.id].subsumedBy == o
  {
  }

  /** Unlinking undoes linking, whatever was armed in between. */
  lemma CutRestores(s: Queues, merged: Queues, o: Id, q: Id)
    requires o in s.entries && q in s.entries && o != q && CanMerge(s, o, q) && q !in s.entries[o].ownerOf
    requires SameButArmed(Link(s, o, q), merged)
    ensures UnmergeDefined(merged, o, q) && UnmergeResult(merged, o, q)
    ensures SameButArmed(s, Unmerge(merged, o, q))
  {
    hide Rearm;
    assert merged.entries[o] == Link(s, o, q).entries[o].(armed := merged.entries[o].armed);
    assert merged.entries[q] == Link(s, o, q).entries[q].(armed := merged.entries[q].armed);
    var cut := Unlink(merged, o, q);
    assert s.entries[o].ownerOf + {q} - {q} == s.entries[o].ownerOf;
    assert SameButArmed(s, cut);
    RearmSame(cut, o);
    RearmSame(Rearm(cut, o), q);
  }
}
