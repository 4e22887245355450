/** The dispatcher itself: entries in a map, tasks in the sources they were registered to,
    popping by queue and grade.  Each method is proved to be the step of the same name on the
    flat specification, so a merged owner behaves as one priority queue. */
module Dispatcher {
  import opened Options
  import opened DelayedTasks
  import opened TaskSources
  import opened TaskQueues
  import opened Ownership

  /** An entry is owned by the map alone; only its source is a shared object. */
  datatype QueueEntry = QueueEntry(source: TaskSource, ownerOf: set<Id>, subsumedBy: QueueRef,
                                   wakeable: bool, armed: Option<int>)

  class MessageLoopTaskQueues {
    var entries: map<Id, QueueEntry>
    var nextId: Id
    var order: nat

    ghost function Sources(): set<TaskSource>
      reads this
    {
      set q | q in entries :: entries[q].source
    }

    ghost function EntryModel(e: QueueEntry): Entry
      reads e.source
    {
      Entry(e.source.Model(), e.ownerOf, e.subsumedBy, e.wakeable, e.armed)
    }

    ghost function State(): Queues
      reads this, Sources()
    {
      Queues(map q | q in entries :: EntryModel(entries[q]), nextId, order)
    }

    /** Every source knows its queue, so no two queues share one. */
    ghost predicate Valid()
      reads this, Sources()
    {
      OwnSources() && Inv(State())
    }

    ghost predicate OwnSources()
      reads this
    {
      forall q | q in entries :: entries[q].source.queueId == q
    }

    constructor ()
      ensures Valid() && fresh(Sources()) && State() == EMPTY_QUEUES
    {
      entries, nextId, order := map[], 0, 0;
    }

    method CreateTaskQueue() returns (id: Id)
      requires Valid()
      modifies this
      ensures Valid() && fresh(Sources() - old(Sources()))
      ensures id == old(nextId) && id !in old(entries) && State() == Create(old(State()))
      ensures id in entries && !entries[id].wakeable
    {
      hide Forest, Unique, Graded;
      id := nextId;
      nextId := nextId + 1;
      assert id !in State().entries;
      var source := new TaskSource(id);
      CreateKeepsInv(old(State()));
      entries := entries[id := QueueEntry(source, {}, Unmerged, false, None)];
      assert State() == Create(old(State()));
    }

    // Reads

    method HasPendingTasksUnlocked(q: Id) returns (pending: bool)
      requires Valid() && q in entries
      ensures pending <==> HasPending(State(), q)
    {
      ghost var s := State();
      var entry := entries[q];
      if entry.subsumedBy != Unmerged {
        return false;
      }
      InFamily(q);
      var empty := entry.source.IsEmpty();
      if !empty {
        return true;
      }
      var rest := entry.ownerOf;
      while rest != {}
        invariant rest <= entry.ownerOf
        invariant forall p | p in Family(s, q) - rest :: s.entries[p].source.Visible() == {}
        decreases |rest|
      {
        var p :| p in rest;
        empty := entries[p].source.IsEmpty();
        if !empty {
          return true;
        }
        rest := rest - {p};
      }
      return false;
    }

    /** Family members are live, graded and visible to the owner. */
    lemma InFamily(q: Id)
      requires Valid() && q in entries
      ensures forall p | p in Family(State(), q) :: p in entries && entries[p].source.Model().Graded()
      ensures forall p | p in Family(State(), q) ::
                entries[p].source.Model().Visible() <= VisibleTasks(State(), q)
    {
      forall p | p in Family(State(), q)
        ensures p in entries && entries[p].source.Model().Graded()
        ensures entries[p].source.Model().Visible() <= VisibleTasks(State(), q)
      {
        assert p in State().entries && State().entries[p].source.Graded();
        assert State().entries[p].source == entries[p].source.Model();
      }
    }

    /** `s` describes the sources of `q`'s family. */
    ghost predicate Mirrors(s: Queues, q: Id)
      reads this, Sources()
    {
      && q in entries && q in s.entries && entries[q].ownerOf == s.entries[q].ownerOf
      && forall p | p in Family(s, q) ::
           && p in entries && p in s.entries
           && entries[p].source.Model() == s.entries[p].source
           && s.entries[p].source.Graded()
    }

    lemma StateMirrors(q: Id)
      requires Valid() && q in entries
      ensures Mirrors(State(), q)
    {
      InFamily(q);
    }

    /** One source of the family updates the best head so far. */
    method PeekSource(p: Id, id: Id, top: Option<DelayedTask>, ghost s: Queues)
      returns (newId: Id, newTop: Option<DelayedTask>)
      requires p in entries && p in s.entries && entries[p].source.Model() == s.entries[p].source
      requires s.entries[p].source.Graded() && (top.Some? ==> IsHead(s, id, top.value))
      ensures newTop.Some? ==> IsHead(s, newId, newTop.value)
      ensures newId == id || newId == p
      ensures Leads(newTop, s, p) && forall a | Leads(top, s, a) :: Leads(newTop, s, a)
    {
      newId, newTop := id, top;
      var empty := entries[p].source.IsEmpty();
      if !empty {
        var head := entries[p].source.Top();
        if top == None || After(top.value, head) {
          newId, newTop := p, Some(head);
        }
      }
    }

    /** Folds the heads of the family's sources, in whatever order the set yields them. */
    method PeekFamily(q: Id, ghost s: Queues) returns (id: Id, top: Option<DelayedTask>)
      requires Mirrors(s, q)
      ensures id in Family(s, q) && id in entries
      ensures top.Some? ==> IsHead(s, id, top.value)
      ensures forall p | p in Family(s, q) :: Leads(top, s, p)
    {
      hide IsHead, Leads;
      id, top := PeekSource(q, q, None, s);
      var rest := entries[q].ownerOf;
      while rest != {}
        invariant rest <= entries[q].ownerOf
        invariant id in Family(s, q)
        invariant top.Some? ==> IsHead(s, id, top.value)
        invariant forall p | p in Family(s, q) && p !in rest :: Leads(top, s, p)
        decreases |rest|
      {
        var p :| p in rest;
        id, top := PeekSource(p, id, top, s);
        rest := rest - {p};
      }
    }

    method PeekNextTaskUnlocked(q: Id) returns (id: Id, t: DelayedTask)
      requires Valid() && q in entries && HasPending(State(), q)
      ensures id in Family(State(), q) && IsHead(State(), id, t)
      ensures t == Earliest(VisibleTasks(State(), q))
    {
      hide Inv;
      ghost var s := State();
      StateMirrors(q);
      if entries[q].ownerOf == {} {
        HeadOfLoner(s, q);
        t := entries[q].source.Top();
        HeadIsEarliest(s, q, q, Some(t));
        assert State() == s;
        return q, t;
      }
      var top: Option<DelayedTask>;
      id, top := PeekFamily(q, s);
      HeadIsEarliest(s, q, id, top);
      t := top.value;
      assert State() == s;
    }

    method CountFamily(q: Id, ghost s: Queues) returns (total: nat)
      requires Mirrors(s, q) && Inv(s)
      ensures total == |VisibleTasks(s, q)|
    {
      hide Inv, SeenFrom, VisibleTasks;
      total := entries[q].source.GetNumPendingTasks();
      ghost var seen := s.entries[q].source.Visible();
      var rest := entries[q].ownerOf;
      OwnerFirst(s, q);
      while rest != {}
        invariant rest <= entries[q].ownerOf && q !in rest
        invariant total == |seen|
        invariant SeenFrom(s, Family(s, q) - rest, seen)
        decreases |rest|
      {
        var p :| p in rest;
        var more := entries[p].source.GetNumPendingTasks();
        total := total + more;
        SeenGrows(s, q, rest, p, seen);
        seen := seen + s.entries[p].source.Visible();
        rest := rest - {p};
      }
      assert Family(s, q) - rest == Family(s, q);
      SeenAll(s, q, seen);
    }

    method GetNumPendingTasks(q: Id) returns (total: nat)
      requires Valid() && q in entries
      ensures total == if Subsumed(State(), q) then 0 else |VisibleTasks(State(), q)|
    {
      hide Inv;
      if entries[q].subsumedBy != Unmerged {
        return 0;
      }
      StateMirrors(q);
      ghost var s := State();
      total := CountFamily(q, s);
      assert State() == s;
    }

    // Writes.  Each one restates its effect on `State()` and nothing else.

    method WakeUpUnlocked(q: Id, time: int)
      requires q in entries && OwnSources()
      modifies this`entries
      ensures Sources() == old(Sources()) && OwnSources() && entries.Keys == old(entries).Keys
      ensures State() == ArmAt(old(State()), q, time)
    {
      if entries[q].wakeable {
        UpdateEntry(q, entries[q].(armed := Some(time)));
      }
    }

    method UpdateEntry(q: Id, e: QueueEntry)
      requires q in entries && e.source == entries[q].source && OwnSources()
      modifies this`entries
      ensures Sources() == old(Sources()) && OwnSources() && entries == old(entries)[q := e]
      ensures State() == old(State()).(entries := old(State()).entries[q := EntryModel(e)])
    {
      ghost var s := State();
      entries := entries[q := e];
      assert forall p | p in old(entries) :: entries[p].source == old(entries)[p].source;
      assert forall p | p in entries :: entries[p].source == old(entries)[p].source;
      assert State().entries == s.entries[q := EntryModel(e)];
    }

    /** The pattern shared by six operations: wake the queue at its next task, if any. */
    method WakeIfPending(q: Id)
      requires Valid() && q in entries
      modifies this`entries
      ensures Valid() && Sources() == old(Sources()) && entries.Keys == old(entries).Keys
      ensures State() == Rearm(old(State()), q)
    {
      hide Inv;
      ghost var s := State();
      RearmKeepsInv(s, q);
      var pending := HasPendingTasksUnlocked(q);
      assert State() == s;
      if pending {
        var id, t := PeekNextTaskUnlocked(q);
        assert State() == s;
        WakeUpUnlocked(q, t.time);
      }
    }

    method AddToSource(q: Id, t: DelayedTask)
      requires q in entries && OwnSources()
      modifies this`order, entries[q].source
      ensures order == old(order) + 1
      ensures Sources() == old(Sources()) && State() == Registered(old(State()), q, t)
    {
      order := order + 1;
      entries[q].source.RegisterTask(t);
      assert State().entries == Registered(old(State()), q, t).entries;
    }

    method RegisterTask(q: Id, closure: Closure, time: int, grade: Grade)
      requires Valid() && q in entries
      modifies this, Sources()
      ensures Valid() && Sources() == old(Sources()) && entries.Keys == old(entries).Keys
      ensures q in old(State()).entries && LoopToWake(old(State()), q) in old(State()).entries
      ensures State() == Register(old(State()), q, closure, time, grade)
    {
      hide Inv;
      ghost var s := State();
      LoopIsLive(s, q);
      var t := DelayedTask(order, closure, time, grade);
      RegisteredKeepsInv(s, q, t);
      AddToSource(q, t);
      assert State() == Registered(s, q, t);
      var loopToWake := if entries[q].subsumedBy != Unmerged then entries[q].subsumedBy.id else q;
      assert loopToWake == LoopToWake(s, q);
      WakeIfPending(loopToWake);
    }

    /** Hands out the head of the flat queue if it is due.  The code's second emptiness test
        repeats the first under the same lock, so only its else branch is left here. */
    method GetNextTaskToRun(q: Id, now: int) returns (r: Option<DelayedTask>)
      requires Valid() && q in entries
      modifies this, Sources()
      ensures Valid() && Sources() == old(Sources()) && entries.Keys == old(entries).Keys
      ensures q in old(State()).entries
      ensures r == Handed(old(State()), q, now) && State() == Pop(old(State()), q, now)
    {
      hide Inv;
      ghost var s := State();
      var pending := HasPendingTasksUnlocked(q);
      assert State() == s;
      if !pending {
        return None;
      }
      var id, t := PeekNextTaskUnlocked(q);
      assert State() == s;
      WakeUpUnlocked(q, t.time);
      assert State() == Rearm(s, q);
      RearmKeepsInv(s, q);
      if t.time > now {
        return None;
      }
      RearmKeepsHead(s, q, id, t);
      PopKeepsInv(s, q, now);
      PopFromSource(id, t);
      return Some(t);
    }

    /** Popping by queue and grade removes exactly the peeked task from the whole state. */
    method PopFromSource(id: Id, t: DelayedTask)
      requires Valid() && IsHead(State(), id, t)
      modifies entries[id].source
      ensures Sources() == old(Sources()) && State() == Remove(old(State()), t)
    {
      hide Inv;
      ghost var s := State();
      PopPreconditions(s, id, t);
      assert entries[id].source.Model() == s.entries[id].source;
      entries[id].source.PopTask(t.grade, t);
      assert State().entries == Remove(s, t).entries;
    }

    method SetWakeable(q: Id)
      requires Valid() && q in entries && !entries[q].wakeable
      modifies this`entries
      ensures Valid() && Sources() == old(Sources()) && entries.Keys == old(entries).Keys
      ensures q in old(State()).entries && State() == TaskQueues.SetWakeable(old(State()), q)
    {
      hide Inv;
      ghost var s := State();
      SetWakeableKeepsInv(s, q);
      UpdateEntry(q, entries[q].(wakeable := true));
    }

    method PauseSecondarySource(q: Id)
      requires Valid() && q in entries
      modifies entries[q].source
      ensures Valid() && Sources() == old(Sources())
      ensures q in old(State()).entries && State() == Pause(old(State()), q)
    {
      hide Inv;
      ghost var s := State();
      PausesKeepInv(s, q, s.entries[q].source.pauses + 1);
      entries[q].source.PauseSecondary();
      assert State().entries == Pause(s, q).entries;
    }

    method ResumeSecondarySource(q: Id)
      requires Valid() && q in entries && entries[q].source.pauses > 0
      modifies this, entries[q].source
      ensures Valid() && Sources() == old(Sources())
      ensures q in old(State()).entries && old(State()).entries[q].source.pauses > 0
      ensures State() == Resume(old(State()), q)
    {
      hide Inv;
      ghost var s := State();
      PausesKeepInv(s, q, s.entries[q].source.pauses - 1);
      entries[q].source.ResumeSecondary();
      assert State().entries == Resumed(s, q).entries;
      assert State() == Resumed(s, q);
      WakeIfPending(q);
    }

    method Merge(o: Id, q: Id) returns (ok: bool)
      requires Valid() && (o == q || (o in entries && q in entries))
      modifies this`entries
      ensures Valid() && Sources() == old(Sources())
      ensures Enabled(old(State()), OpMerge(o, q))
      ensures ok == MergeResult(old(State()), o, q) && State() == TaskQueues.Merge(old(State()), o, q)
    {
      hide Inv;
      if o == q {
        return true;
      }
      ghost var s := State();
      if q in entries[o].ownerOf {
        return true;
      }
      if entries[o].subsumedBy != Unmerged {
        return false;
      }
      if entries[q].ownerOf != {} {
        return false;
      }
      if entries[q].subsumedBy != Unmerged {
        return false;
      }
      LinkKeepsInv(s, o, q);
      LinkEntries(o, q);
      WakeIfPending(o);
      return true;
    }

    method LinkEntries(o: Id, q: Id)
      requires o in entries && q in entries && o != q && OwnSources()
      modifies this`entries
      ensures Sources() == old(Sources()) && OwnSources() && entries.Keys == old(entries).Keys
      ensures State() == Link(old(State()), o, q)
    {
      UpdateEntry(o, entries[o].(ownerOf := entries[o].ownerOf + {q}));
      UpdateEntry(q, entries[q].(subsumedBy := Queue(o)));
    }

    method Unmerge(o: Id, q: Id) returns (ok: bool)
      requires Valid() && UnmergeDefined(State(), o, q)
      modifies this`entries
      ensures Valid() && Sources() == old(Sources())
      ensures ok == UnmergeResult(old(State()), o, q) && State() == TaskQueues.Unmerge(old(State()), o, q)
    {
      hide Inv;
      ghost var s := State();
      if entries[o].ownerOf == {} {
        return false;
      }
      if entries[o].subsumedBy != Unmerged {
        return false;
      }
      if entries[q].subsumedBy == Unmerged {
        return false;
      }
      if q !in entries[o].ownerOf {
        return false;
      }
      UnlinkAndWake(o, q);
      return true;
    }

    method UnlinkAndWake(o: Id, q: Id)
      requires Valid() && o in entries && q in entries && UnmergeResult(State(), o, q)
      modifies this`entries
      ensures Valid() && Sources() == old(Sources())
      ensures State() == Rearm(Rearm(Unlink(old(State()), o, q), o), q)
    {
      hide Inv;
      ghost var cut := Unlink(State(), o, q);
      UnlinkKeepsInv(State(), o, q);
      UnlinkEntries(o, q);
      assert State() == cut;
      WakeIfPending(o);
      assert State() == Rearm(cut, o);
      assert q in State().entries;
      WakeIfPending(q);
    }

    method UnlinkEntries(o: Id, q: Id)
      requires o in entries && q in entries && OwnSources()
      modifies this`entries
      ensures Sources() == old(Sources()) && OwnSources() && entries.Keys == old(entries).Keys
      ensures State() == Unlink(old(State()), o, q)
    {
      UpdateEntry(q, entries[q].(subsumedBy := Unmerged));
      UpdateEntry(o, entries[o].(ownerOf := entries[o].ownerOf - {q}));
    }

    method DisposeTasks(q: Id)
      requires Valid() && q in entries && entries[q].subsumedBy == Unmerged
      modifies Sources()
      ensures Valid() && Sources() == old(Sources()) && entries.Keys == old(entries).Keys
      ensures q in old(State()).entries && State() == TaskQueues.DisposeTasks(old(State()), q)
    {
      hide Inv;
      ghost var s := State();
      DropKeepsInv(s, TaskQueues.DisposeTasks(s, q));
      InFamily(q);
      ShutDownSource(q);
      assert State() == Cleared(s, {q}) && OwnSources();
      ShutDownAll(entries[q].ownerOf);
      ClearedTwice(s, q);
    }

    method ShutDownAll(qs: set<Id>)
      requires qs <= entries.Keys && OwnSources()
      modifies Sources()
      ensures Sources() == old(Sources()) && State() == Cleared(old(State()), qs)
    {
      ghost var s := State();
      assert Cleared(s, {}).entries == s.entries;
      var rest := qs;
      while rest != {}
        invariant rest <= qs
        invariant Sources() == old(Sources()) && entries == old(entries)
        invariant State() == Cleared(s, qs - rest)
        decreases |rest|
      {
        var p :| p in rest;
        ShutDownSource(p);
        assert Cleared(Cleared(s, qs - rest), {p}).entries == Cleared(s, qs - (rest - {p})).entries;
        rest := rest - {p};
      }
      assert qs - rest == qs;
    }

    method ShutDownSource(q: Id)
      requires q in entries && OwnSources()
      modifies entries[q].source
      ensures Sources() == old(Sources()) && State() == Cleared(old(State()), {q})
    {
      entries[q].source.ShutDown();
      assert State().entries == Cleared(old(State()), {q}).entries;
    }

    method Dispose(q: Id)
      requires Valid() && q in entries && entries[q].subsumedBy == Unmerged
      modifies this`entries
      ensures Valid() && Sources() <= old(Sources())
      ensures q in old(State()).entries && State() == TaskQueues.Dispose(old(State()), q)
    {
      hide Inv;
      ghost var s := State();
      DisposeKeepsInv(s, q);
      EraseAll(entries[q].ownerOf);
      entries := entries - {q};
      assert State().entries == TaskQueues.Dispose(s, q).entries;
    }

    method EraseAll(qs: set<Id>)
      modifies this`entries
      ensures entries == old(entries) - qs
    {
      var rest := qs;
      while rest != {}
        invariant rest <= qs && entries == old(entries) - (qs - rest)
        decreases |rest|
      {
        var p :| p in rest;
        entries := entries - {p};
        rest := rest - {p};
      }
    }

    method Owns(o: QueueRef, q: QueueRef) returns (owned: bool)
      requires Valid()
      requires o.Queue? && q.Queue? ==> o.id in entries
      ensures owned <==> TaskQueues.Owns(State(), o, q)
    {
      if o == Unmerged || q == Unmerged {
        return false;
      }
      return q.id in entries[o.id].ownerOf;
    }
  }

  /** `t` is the head of what queue `id` shows and of the heap its grade selects. */
  ghost predicate IsHead(s: Queues, id: Id, t: DelayedTask) {
    && id in s.entries
    && t in s.entries[id].source.Visible()
    && IsTop(t, if t.grade == DartMicroTasks then s.entries[id].source.secondary
                else s.entries[id].source.primary)
  }

  lemma RearmKeepsHead(s: Queues, q: Id, id: Id, t: DelayedTask)
    requires q in s.entries && IsHead(s, id, t)
    ensures IsHead(Rearm(s, q), id, t)
  {
    RearmSame(s, q);
  }

  lemma ClearedTwice(s: Queues, q: Id)
    requires q in s.entries
    ensures Cleared(Cleared(s, {q}), s.entries[q].ownerOf) == DisposeTasks(s, q)
  {
    assert Cleared(Cleared(s, {q}), s.entries[q].ownerOf).entries == DisposeTasks(s, q).entries;
  }

  lemma PopPreconditions(s: Queues, id: Id, t: DelayedTask)
    requires Inv(s) && IsHead(s, id, t)
    ensures s.entries[id].source.Graded() && DistinctOrders(s.entries[id].source.Pending())
    ensures forall p | p in s.entries && p != id :: s.entries[p].source.Without(t) == s.entries[p].source
  {
    assert PendingAt(s, id, t);
    forall u, v | u in s.entries[id].source.Pending() && v in s.entries[id].source.Pending() && u.order == v.order
      ensures u == v
    {
      assert PendingAt(s, id, u) && PendingAt(s, id, v);
    }
    forall p | p in s.entries && p != id ensures s.entries[p].source.Without(t) == s.entries[p].source {
      assert !PendingAt(s, p, t);
    }
  }

  /** Nothing queue `p` shows is scheduled before `top`. */
  ghost predicate Leads(top: Option<DelayedTask>, s: Queues, p: Id) {
    p in s.entries ==>
      forall u | u in s.entries[p].source.Visible() :: top.Some? && !After(top.value, u)
  }

  /** All visible tasks of a family have distinct order numbers. */
  lemma VisibleDistinct(s: Queues, q: Id)
    requires Inv(s) && q in s.entries
    ensures DistinctOrders(VisibleTasks(s, q))
  {
    forall t, u | t in VisibleTasks(s, q) && u in VisibleTasks(s, q) && t.order == u.order
      ensures t == u
    {
      var p :| p in Family(s, q) && p in s.entries && t in s.entries[p].source.Visible();
      var r :| r in Family(s, q) && r in s.entries && u in s.entries[r].source.Visible();
      assert PendingAt(s, p, t) && PendingAt(s, r, u);
    }
  }

  lemma HeadOfLoner(s: Queues, q: Id)
    requires q in s.entries && s.entries[q].ownerOf == {} && VisibleTasks(s, q) != {}
    ensures s.entries[q].source.Visible() != {}
  {
    assert Family(s, q) == {q};
    var t :| t in VisibleTasks(s, q);
  }

  lemma HeadIsEarliest(s: Queues, q: Id, id: Id, top: Option<DelayedTask>)
    requires Inv(s) && q in s.entries && VisibleTasks(s, q) != {}
    requires id in Family(s, q)
    requires top.Some? ==> IsHead(s, id, top.value)
    requires forall p | p in Family(s, q) :: Leads(top, s, p)
    ensures top.Some? && top.value == Earliest(VisibleTasks(s, q))
  {
    var t :| t in VisibleTasks(s, q);
    var p :| p in Family(s, q) && p in s.entries && t in s.entries[p].source.Visible();
    assert top.Some?;
    assert IsTop(top.value, VisibleTasks(s, q));
    VisibleDistinct(s, q);
    TopIsUnique(VisibleTasks(s, q), top.value, Earliest(VisibleTasks(s, q)));
  }

  lemma LoopIsLive(s: Queues, q: Id)
    requires Inv(s) && q in s.entries
    ensures LoopToWake(s, q) in s.entries
  {
  }

  lemma OwnerFirst(s: Queues, q: Id)
    requires Inv(s) && q in s.entries
    ensures q !in s.entries[q].ownerOf
    ensures SeenFrom(s, Family(s, q) - s.entries[q].ownerOf, s.entries[q].source.Visible())
  {
    assert Family(s, q) - s.entries[q].ownerOf == {q};
  }

  /** `seen` is exactly what the queues in `qs` show. */
  ghost predicate SeenFrom(s: Queues, qs: set<Id>, seen: set<DelayedTask>) {
    && (forall p | p in qs && p in s.entries :: s.entries[p].source.Visible() <= seen)
    && (forall u | u in seen :: exists p :: p in qs && p in s.entries && u in s.entries[p].source.Visible())
  }

  lemma NowhereElse(s: Queues, r: Id, p: Id, u: DelayedTask)
    requires Inv(s) && PendingAt(s, r, u) && p != r
    ensures !PendingAt(s, p, u)
  {
  }

  /** A subsumed queue contributes only tasks not seen before. */
  lemma SeenGrows(s: Queues, q: Id, rest: set<Id>, p: Id, seen: set<DelayedTask>)
    requires Inv(s) && q in s.entries && p in rest && p in s.entries && p in Family(s, q)
    requires SeenFrom(s, Family(s, q) - rest, seen)
    ensures |seen + s.entries[p].source.Visible()| == |seen| + |s.entries[p].source.Visible()|
    ensures SeenFrom(s, Family(s, q) - (rest - {p}), seen + s.entries[p].source.Visible())
  {
    hide Inv;
    var next := s.entries[p].source.Visible();
    var qs := Family(s, q) - rest;
    forall u | u in seen ensures u !in next {
      var r :| r in qs && r in s.entries && u in s.entries[r].source.Visible();
      assert PendingAt(s, r, u);
      NowhereElse(s, r, p, u);
    }
    assert seen !! next;
    assert Family(s, q) - (rest - {p}) == qs + {p};
    SeenWith(s, qs, p, seen);
  }

  lemma SeenWith(s: Queues, qs: set<Id>, p: Id, seen: set<DelayedTask>)
    requires p in s.entries && SeenFrom(s, qs, seen)
    ensures SeenFrom(s, qs + {p}, seen + s.entries[p].source.Visible())
  {
    var next := s.entries[p].source.Visible();
    forall u | u in seen + next
      ensures exists r :: r in qs + {p} && r in s.entries && u in s.entries[r].source.Visible()
    {
      if u !in next {
        var r :| r in qs && r in s.entries && u in s.entries[r].source.Visible();
        assert r in qs + {p};
      }
    }
  }

  lemma SeenAll(s: Queues, q: Id, seen: set<DelayedTask>)
    requires q in s.entries && SeenFrom(s, Family(s, q), seen)
    ensures seen == VisibleTasks(s, q)
  {
    assert forall u | u in seen :: u in VisibleTasks(s, q);
  }
}
