/** The dispatcher as a state machine: every public operation holds the queue mutex, so
    it is one atomic step.  The owner of merged queues is specified as ONE flat priority
    queue over everything visible in its family. */
module TaskQueues {
  import opened Options
  import opened DelayedTasks
  import opened TaskSources

  type Id = nat

  datatype QueueRef = Unmerged | Queue(id: Id)

  /** `armed` is the last time passed to the wakeable, if any. */
  datatype Entry = Entry(source: Source, ownerOf: set<Id>, subsumedBy: QueueRef,
                         wakeable: bool, armed: Option<int>)

  datatype Queues = Queues(entries: map<Id, Entry>, nextId: Id, order: nat)

  const EMPTY_QUEUES := Queues(map[], 0, 0)

  ghost function NewEntry(): Entry {
    Entry(EMPTY_SOURCE, {}, Unmerged, false, None)
  }

  ghost predicate Subsumed(s: Queues, q: Id)
    requires q in s.entries
  {
    s.entries[q].subsumedBy != Unmerged
  }

  /** An owner together with the queues it has subsumed. */
  ghost function Family(s: Queues, o: Id): set<Id>
    requires o in s.entries
  {
    {o} + s.entries[o].ownerOf
  }

  /** All tasks the owner may be handed: the contents of the flat priority queue. */
  ghost function VisibleTasks(s: Queues, o: Id): set<DelayedTask>
    requires o in s.entries
  {
    set q, t | q in Family(s, o) && q in s.entries && t in s.entries[q].source.Visible() :: t
  }

  ghost predicate HasPending(s: Queues, q: Id)
    requires q in s.entries
  {
    !Subsumed(s, q) && VisibleTasks(s, q) != {}
  }

  /** Task `t` is pending in the heap of queue `q`, paused or not. */
  ghost predicate PendingAt(s: Queues, q: Id, t: DelayedTask) {
    q in s.entries && t in s.entries[q].source.Pending()
  }

  // Building blocks of the steps

  /** The wakeable of `q`, if it has one, is told to wake up at `time`. */
  ghost function ArmAt(s: Queues, q: Id, time: int): Queues
    requires q in s.entries
  {
    if s.entries[q].wakeable then s.(entries := s.entries[q := s.entries[q].(armed := Some(time))]) else s
  }

  ghost function Rearm(s: Queues, q: Id): Queues
    requires q in s.entries
  {
    if HasPending(s, q) then ArmAt(s, q, Earliest(VisibleTasks(s, q)).time) else s
  }

  ghost function WithSource(s: Queues, q: Id, source: Source): Queues
    requires q in s.entries
  {
    s.(entries := s.entries[q := s.entries[q].(source := source)])
  }

  /** The state in which `t` is pending nowhere, and nothing else has changed. */
  ghost function Remove(s: Queues, t: DelayedTask): Queues {
    s.(entries := map q | q in s.entries :: s.entries[q].(source := s.entries[q].source.Without(t)))
  }

  ghost function Cleared(s: Queues, qs: set<Id>): Queues {
    s.(entries := map q | q in s.entries ::
         if q in qs then s.entries[q].(source := s.entries[q].source.(primary := {}, secondary := {}))
         else s.entries[q])
  }

  // The operations

  ghost function Create(s: Queues): Queues {
    s.(entries := s.entries[s.nextId := NewEntry()], nextId := s.nextId + 1)
  }

  ghost function Dispose(s: Queues, q: Id): Queues
    requires q in s.entries
  {
    s.(entries := s.entries - Family(s, q))
  }

  ghost function DisposeTasks(s: Queues, q: Id): Queues
    requires q in s.entries
  {
    Cleared(s, Family(s, q))
  }

  ghost function Registered(s: Queues, q: Id, t: DelayedTask): Queues
    requires q in s.entries
  {
    WithSource(s, q, s.entries[q].source.Add(t)).(order := s.order + 1)
  }

  /** The queue whose loop runs the tasks of `q`. */
  ghost function LoopToWake(s: Queues, q: Id): Id
    requires q in s.entries
  {
    match s.entries[q].subsumedBy case Unmerged => q case Queue(o) => o
  }

  ghost function Register(s: Queues, q: Id, closure: Closure, time: int, grade: Grade): Queues
    requires q in s.entries && LoopToWake(s, q) in s.entries
  {
    Rearm(Registered(s, q, DelayedTask(s.order, closure, time, grade)), LoopToWake(s, q))
  }

  /** What `GetNextTaskToRun` hands out. */
  ghost function Handed(s: Queues, q: Id, now: int): Option<DelayedTask>
    requires q in s.entries
  {
    if HasPending(s, q) && Earliest(VisibleTasks(s, q)).time <= now
    then Some(Earliest(VisibleTasks(s, q))) else None
  }

  ghost function Pop(s: Queues, q: Id, now: int): Queues
    requires q in s.entries
  {
    match Handed(s, q, now)
    case None => Rearm(s, q)
    case Some(t) => Remove(Rearm(s, q), t)
  }

  ghost function SetWakeable(s: Queues, q: Id): Queues
    requires q in s.entries
  {
    s.(entries := s.entries[q := s.entries[q].(wakeable := true)])
  }

  /** The checks of `Merge` on two different queues that are not merged together yet. */
  ghost predicate CanMerge(s: Queues, o: Id, q: Id)
    requires o in s.entries && q in s.entries
  {
    && !Subsumed(s, o)
    && s.entries[q].ownerOf == {}
    && !Subsumed(s, q)
  }

  ghost function Link(s: Queues, o: Id, q: Id): Queues
    requires o in s.entries && q in s.entries && o != q
  {
    s.(entries := s.entries[o := s.entries[o].(ownerOf := s.entries[o].ownerOf + {q})]
                           [q := s.entries[q].(subsumedBy := Queue(o))])
  }

  ghost function Merge(s: Queues, o: Id, q: Id): Queues
    requires o == q || (o in s.entries && q in s.entries)
  {
    if o == q || q in s.entries[o].ownerOf || !CanMerge(s, o, q) then s
    else Rearm(Link(s, o, q), o)
  }

  ghost predicate MergeResult(s: Queues, o: Id, q: Id)
    requires o == q || (o in s.entries && q in s.entries)
  {
    o == q || q in s.entries[o].ownerOf || CanMerge(s, o, q)
  }

  /** The lookups `Unmerge` performs before it may return false. */
  ghost predicate UnmergeDefined(s: Queues, o: Id, q: Id) {
    o in s.entries && (s.entries[o].ownerOf != {} && !Subsumed(s, o) ==> q in s.entries)
  }

  ghost predicate UnmergeResult(s: Queues, o: Id, q: Id)
    requires UnmergeDefined(s, o, q)
  {
    && s.entries[o].ownerOf != {}
    && !Subsumed(s, o)
    && Subsumed(s, q)
    && q in s.entries[o].ownerOf
  }

  ghost function Unlink(s: Queues, o: Id, q: Id): Queues
    requires o in s.entries && q in s.entries
  {
    var cut := s.entries[q := s.entries[q].(subsumedBy := Unmerged)];
    s.(entries := cut[o := cut[o].(ownerOf := cut[o].ownerOf - {q})])
  }

  ghost function Unmerge(s: Queues, o: Id, q: Id): Queues
    requires UnmergeDefined(s, o, q)
  {
    if UnmergeResult(s, o, q) then Rearm(Rearm(Unlink(s, o, q), o), q) else s
  }

  ghost predicate Owns(s: Queues, o: QueueRef, q: QueueRef)
    requires o.Queue? && q.Queue? ==> o.id in s.entries
  {
    o.Queue? && q.Queue? && q.id in s.entries[o.id].ownerOf
  }

  ghost function Pause(s: Queues, q: Id): Queues
    requires q in s.entries
  {
    WithSource(s, q, s.entries[q].source.(pauses := s.entries[q].source.pauses + 1))
  }

  ghost function Resumed(s: Queues, q: Id): Queues
    requires q in s.entries && s.entries[q].source.pauses > 0
  {
    WithSource(s, q, s.entries[q].source.(pauses := s.entries[q].source.pauses - 1))
  }

  ghost function Resume(s: Queues, q: Id): Queues
    requires q in s.entries && s.entries[q].source.pauses > 0
  {
    Rearm(Resumed(s, q), q)
  }

  // Runs

  datatype Op =
    | OpCreate
    | OpDispose(q: Id)
    | OpDisposeTasks(q: Id)
    | OpRegister(q: Id, closure: Closure, time: int, grade: Grade)
    | OpPop(q: Id, now: int)
    | OpSetWakeable(q: Id)
    | OpMerge(o: Id, q: Id)
    | OpUnmerge(o: Id, q: Id)
    | OpPause(q: Id)
    | OpResume(q: Id)

  /** What the code demands of its callers: ids are looked up with `at`, queues are disposed
      unsubsumed, a wakeable is set once, pauses and resumes are balanced. */
  ghost predicate Enabled(s: Queues, op: Op) {
    match op
    case OpCreate => true
    case OpDispose(q) => q in s.entries && !Subsumed(s, q)
    case OpDisposeTasks(q) => q in s.entries && !Subsumed(s, q)
    case OpRegister(q, _, _, _) => q in s.entries && LoopToWake(s, q) in s.entries
    case OpPop(q, _) => q in s.entries
    case OpSetWakeable(q) => q in s.entries && !s.entries[q].wakeable
    case OpMerge(o, q) => o == q || (o in s.entries && q in s.entries)
    case OpUnmerge(o, q) => UnmergeDefined(s, o, q)
    case OpPause(q) => q in s.entries
    case OpResume(q) => q in s.entries && s.entries[q].source.pauses > 0
  }

  ghost function Step(s: Queues, op: Op): Queues
    requires Enabled(s, op)
  {
    match op
    case OpCreate => Create(s)
    case OpDispose(q) => Dispose(s, q)
    case OpDisposeTasks(q) => DisposeTasks(s, q)
    case OpRegister(q, closure, time, grade) => Register(s, q, closure, time, grade)
    case OpPop(q, now) => Pop(s, q, now)
    case OpSetWakeable(q) => SetWakeable(s, q)
    case OpMerge(o, q) => Merge(s, o, q)
    case OpUnmerge(o, q) => Unmerge(s, o, q)
    case OpPause(q) => Pause(s, q)
    case OpResume(q) => Resume(s, q)
  }

  /** Every operation of the run meets its callers' obligations. */
  ghost predicate ValidRun(s: Queues, ops: seq<Op>)
    decreases |ops|
  {
    ops == [] || (Enabled(s, ops[0]) && ValidRun(Step(s, ops[0]), ops[1..]))
  }

  ghost function Run(s: Queues, ops: seq<Op>): Queues
    requires ValidRun(s, ops)
    decreases |ops|
  {
    if ops == [] then s else Run(Step(s, ops[0]), ops[1..])
  }

  // The invariant

  /** The two copies of the ownership relation agree, name live queues only, and no queue
      both owns and is owned. */
  ghost predicate Forest(s: Queues) {
    && (forall o, q | o in s.entries && q in s.entries[o].ownerOf ::
          q in s.entries && s.entries[q].subsumedBy == Queue(o))
    && (forall q | q in s.entries && s.entries[q].subsumedBy.Queue? ::
          && s.entries[q].subsumedBy.id in s.entries
          && q in s.entries[s.entries[q].subsumedBy.id].ownerOf
          && s.entries[q].ownerOf == {})
  }

  /** Order numbers identify pending tasks across all heaps of all queues. */
  ghost predicate Unique(s: Queues) {
    && (forall q, t | PendingAt(s, q, t) :: t.order < s.order)
    && (forall q, t, r, u | PendingAt(s, q, t) && PendingAt(s, r, u) && t.order == u.order ::
          q == r && t == u)
  }

  ghost predicate Graded(s: Queues) {
    forall q | q in s.entries :: s.entries[q].source.Graded()
  }

  ghost predicate Inv(s: Queues) {
    && Forest(s)
    && Unique(s)
    && Graded(s)
    && (forall q | q in s.entries :: q < s.nextId)
  }
}
