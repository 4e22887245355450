/** Intrusive reference counting: handles (`RefPtr`s) and the objects they count, with the
    debug flags. */
module RefCounting {
  import opened Options

  type ObjectId = nat

  /** Who holds a handle: a variable, a weak-pointer factory, a weak pointer, or the temporary
      of a move assignment. */
  datatype HandleId = Variable(n: nat) | OfFactory(f: nat) | OfWeak(w: nat) | Temporary

  /** A counted object; `frees` counts the times it was deleted. */
  datatype Counted = Counted(refCount: nat, adoptionRequired: bool, destructionStarted: bool, frees: nat)

  type Handles = map<HandleId, Option<ObjectId>>

  datatype Heap = Heap(objects: map<ObjectId, Counted>, handles: Handles)

  const EMPTY_HEAP := Heap(map[], map[])

  // The primitives, with their debug checks as preconditions

  ghost predicate Usable(heap: Heap, o: ObjectId) {
    && o in heap.objects
    && !heap.objects[o].adoptionRequired && !heap.objects[o].destructionStarted
  }

  ghost function AddRef(heap: Heap, o: ObjectId): Heap
    requires Usable(heap, o)
  {
    heap.(objects := heap.objects[o := heap.objects[o].(refCount := heap.objects[o].refCount + 1)])
  }

  /** Deletes the object when the count drops from one to zero. */
  ghost function Release(heap: Heap, o: ObjectId): Heap
    requires Usable(heap, o) && heap.objects[o].refCount != 0
  {
    var c := heap.objects[o];
    heap.(objects := heap.objects[o :=
      if c.refCount == 1 then c.(refCount := 0, destructionStarted := true, frees := c.frees + 1)
      else c.(refCount := c.refCount - 1)])
  }

  ghost function Adopt(heap: Heap, o: ObjectId): Heap
    requires o in heap.objects && heap.objects[o].adoptionRequired
  {
    heap.(objects := heap.objects[o := heap.objects[o].(adoptionRequired := false)])
  }

  ghost function Point(heap: Heap, h: HandleId, to: Option<ObjectId>): Heap {
    heap.(handles := heap.handles[h := to])
  }

  // The operations of `RefPtr`

  datatype Op =
    | MakeRefCounted(h: HandleId, o: ObjectId)
    | FromPointer(h: HandleId, o: ObjectId)
    | Null(h: HandleId)
    | CopyConstruct(h: HandleId, from: HandleId)
    | MoveConstruct(h: HandleId, from: HandleId)
    | CopyAssign(h: HandleId, from: HandleId)
    | MoveAssign(h: HandleId, from: HandleId)
    | Swap(h: HandleId, from: HandleId)
    | Destroy(h: HandleId)

  /** Handles exist when they are used and are new when they are constructed; a plain pointer
      must be to a live, adopted object. */
  ghost predicate Enabled(heap: Heap, op: Op) {
    match op
    case MakeRefCounted(h, o) => h !in heap.handles && o !in heap.objects
    case FromPointer(h, o) => h !in heap.handles && Usable(heap, o)
    case Null(h) => h !in heap.handles
    case CopyConstruct(h, from) => h !in heap.handles && from in heap.handles
    case MoveConstruct(h, from) => h !in heap.handles && from in heap.handles
    case CopyAssign(h, from) => h in heap.handles && from in heap.handles
    case MoveAssign(h, from) =>
      Temporary !in heap.handles && h in heap.handles && from in heap.handles
    case Swap(h, from) => h in heap.handles && from in heap.handles
    case Destroy(h) => h in heap.handles
  }

  /** Handles counted: the number of handles that point to `o`. */
  ghost function Pointing(handles: Handles, o: ObjectId): set<HandleId> {
    set h | h in handles && handles[h] == Some(o)
  }

  /** The count of a live object is the number of its handles, at least one; a dead one was
      freed once and has none; no handle points nowhere. */
  ghost predicate Inv(heap: Heap) {
    && (forall h | h in heap.handles && heap.handles[h].Some? :: heap.handles[h].value in heap.objects)
    && (forall o | o in heap.objects :: CountedRight(heap, o))
  }

  ghost predicate CountedRight(heap: Heap, o: ObjectId)
    requires o in heap.objects
  {
    var c := heap.objects[o];
    && !c.adoptionRequired
    && c.refCount == |Pointing(heap.handles, o)|
    && (if c.refCount == 0 then c.destructionStarted && c.frees == 1 else !c.destructionStarted && c.frees == 0)
  }

  lemma HandleIsUsable(heap: Heap, h: HandleId)
    requires Inv(heap) && h in heap.handles
    ensures heap.handles[h].Some? ==>
              Usable(heap, heap.handles[h].value) && heap.objects[heap.handles[h].value].refCount > 0
  {
    if heap.handles[h].Some? {
      var o := heap.handles[h].value;
      assert CountedRight(heap, o);
      assert h in Pointing(heap.handles, o);
    }
  }

  ghost function Made(heap: Heap, h: HandleId, o: ObjectId): Heap {
    var made := heap.(objects := heap.objects[o := Counted(1, true, false, 0)]);
    Point(Adopt(made, o), h, Some(o))
  }

  ghost function Copied(heap: Heap, h: HandleId, from: HandleId): Heap
    requires Inv(heap) && from in heap.handles
  {
    HandleIsUsable(heap, from);
    match heap.handles[from]
    case None => Point(heap, h, None)
    case Some(o) => AddRef(Point(heap, h, Some(o)), o)
  }

  ghost function Moved(heap: Heap, h: HandleId, from: HandleId): Heap
    requires from in heap.handles
  {
    Point(Point(heap, h, heap.handles[from]), from, None)
  }

  ghost function Swapped(heap: Heap, h: HandleId, with: HandleId): Heap
    requires h in heap.handles && with in heap.handles
  {
    Point(Point(heap, h, heap.handles[with]), with, heap.handles[h])
  }

  ghost function Destroyed(heap: Heap, h: HandleId): Heap
    requires Inv(heap) && h in heap.handles
  {
    HandleIsUsable(heap, h);
    var rest := heap.(handles := heap.handles - {h});
    match heap.handles[h] case None => rest case Some(o) => Release(rest, o)
  }

  /** Copy assignment: nothing on equal pointers, else the new object gains before the old one
      loses. */
  ghost function Assigned(heap: Heap, h: HandleId, from: HandleId): Heap
    requires Inv(heap) && h in heap.handles && from in heap.handles
  {
    HandleIsUsable(heap, h);
    HandleIsUsable(heap, from);
    if heap.handles[from] == heap.handles[h] then heap
    else
      var gained := match heap.handles[from] case None => heap case Some(o) => AddRef(heap, o);
      var repointed := Point(gained, h, heap.handles[from]);
      match heap.handles[h] case None => repointed case Some(o) => Release(repointed, o)
  }

  /** Move assignment: `RefPtr(std::move(from)).swap(*this)`, then the temporary dies. */
  ghost function MoveAssigned(heap: Heap, h: HandleId, from: HandleId): Heap
    requires Inv(heap) && Enabled(heap, MoveAssign(h, from))
  {
    var moved := Moved(heap, Temporary, from);
    MovedKeepsInv(heap, Temporary, from);
    SwappedKeepsInv(moved, Temporary, h);
    Destroyed(Swapped(moved, Temporary, h), Temporary)
  }

  ghost function Step(heap: Heap, op: Op): Heap
    requires Inv(heap) && Enabled(heap, op)
  {
    match op
    case MakeRefCounted(h, o) => Made(heap, h, o)
    case FromPointer(h, o) => AddRef(Point(heap, h, Some(o)), o)
    case Null(h) => Point(heap, h, None)
    case CopyConstruct(h, from) => Copied(heap, h, from)
    case MoveConstruct(h, from) => Moved(heap, h, from)
    case CopyAssign(h, from) => Assigned(heap, h, from)
    case MoveAssign(h, from) => MoveAssigned(heap, h, from)
    case Swap(h, from) => Swapped(heap, h, from)
    case Destroy(h) => Destroyed(heap, h)
  }

  // Counting handles

  ghost function Hits(p: Option<ObjectId>, o: ObjectId): nat { if p == Some(o) then 1 else 0 }

  ghost function Was(handles: Handles, h: HandleId): Option<ObjectId> {
    if h in handles then handles[h] else None
  }

  lemma CountAfter(handles: Handles, h: HandleId, x: Option<ObjectId>, o: ObjectId)
    ensures |Pointing(handles[h := x], o)| == |Pointing(handles, o)| - Hits(Was(handles, h), o) + Hits(x, o)
  {
    var rest := Pointing(handles, o) - {h};
    assert Pointing(handles, o) == if Was(handles, h) == Some(o) then rest + {h} else rest;
    assert Pointing(handles[h := x], o) == if x == Some(o) then rest + {h} else rest;
  }

  lemma CountWithout(handles: Handles, h: HandleId, o: ObjectId)
    ensures |Pointing(handles - {h}, o)| == |Pointing(handles, o)| - Hits(Was(handles, h), o)
  {
    var rest := Pointing(handles, o) - {h};
    assert Pointing(handles, o) == if Was(handles, h) == Some(o) then rest + {h} else rest;
    assert Pointing(handles - {h}, o) == rest;
  }

  lemma NobodyPoints(heap: Heap, o: ObjectId)
    requires Inv(heap) && o !in heap.objects
    ensures |Pointing(heap.handles, o)| == 0
  {
    assert Pointing(heap.handles, o) == {};
  }

  lemma MovedKeepsInv(heap: Heap, h: HandleId, from: HandleId)
    requires Inv(heap) && h !in heap.handles && from in heap.handles
    ensures Inv(Moved(heap, h, from))
  {
    var r := Moved(heap, h, from);
    forall o | o in r.objects ensures CountedRight(r, o) {
      assert CountedRight(heap, o);
      CountAfter(heap.handles, h, heap.handles[from], o);
      CountAfter(heap.handles[h := heap.handles[from]], from, None, o);
    }
  }

  lemma SwappedKeepsInv(heap: Heap, h: HandleId, with: HandleId)
    requires Inv(heap) && h in heap.handles && with in heap.handles
    ensures Inv(Swapped(heap, h, with))
  {
    var r := Swapped(heap, h, with);
    forall o | o in r.objects ensures CountedRight(r, o) {
      assert CountedRight(heap, o);
      CountAfter(heap.handles, h, heap.handles[with], o);
      CountAfter(heap.handles[h := heap.handles[with]], with, heap.handles[h], o);
    }
  }

  lemma MadeKeepsInv(heap: Heap, h: HandleId, o: ObjectId)
    requires Inv(heap) && h !in heap.handles && o !in heap.objects
    ensures Inv(Made(heap, h, o))
  {
    var r := Made(heap, h, o);
    NobodyPoints(heap, o);
    forall p | p in r.objects ensures CountedRight(r, p) {
      assert p != o ==> CountedRight(heap, p);
      CountAfter(heap.handles, h, Some(o), p);
    }
  }

  /** A new handle to a live object, or to nothing. */
  lemma PointedKeepsInv(heap: Heap, h: HandleId, to: Option<ObjectId>)
    requires Inv(heap) && h !in heap.handles && (to.Some? ==> Usable(heap, to.value))
    ensures Inv(match to case None => Point(heap, h, None) case Some(o) => AddRef(Point(heap, h, Some(o)), o))
  {
    var r := match to case None => Point(heap, h, None) case Some(o) => AddRef(Point(heap, h, Some(o)), o);
    forall p | p in r.objects ensures CountedRight(r, p) {
      assert CountedRight(heap, p);
      CountAfter(heap.handles, h, to, p);
    }
  }

  lemma DestroyedKeepsInv(heap: Heap, h: HandleId)
    requires Inv(heap) && h in heap.handles
    ensures Inv(Destroyed(heap, h))
  {
    var r := Destroyed(heap, h);
    HandleIsUsable(heap, h);
    forall p | p in r.objects ensures CountedRight(r, p) {
      assert CountedRight(heap, p);
      CountWithout(heap.handles, h, p);
    }
  }

  lemma AssignedKeepsInv(heap: Heap, h: HandleId, from: HandleId)
    requires Inv(heap) && h in heap.handles && from in heap.handles
    ensures Inv(Assigned(heap, h, from))
  {
    var r := Assigned(heap, h, from);
    HandleIsUsable(heap, h);
    HandleIsUsable(heap, from);
    if heap.handles[from] != heap.handles[h] {
      forall p | p in r.objects ensures CountedRight(r, p) {
        assert CountedRight(heap, p);
        CountAfter(heap.handles, h, heap.handles[from], p);
      }
    }
  }

  /** Each operation keeps counts equal to handles; no debug check in it fails. */
  lemma StepKeepsInv(heap: Heap, op: Op)
    requires Inv(heap) && Enabled(heap, op)
    ensures Inv(Step(heap, op))
  {
    match op
    case MakeRefCounted(h, o) => MadeKeepsInv(heap, h, o);
    case FromPointer(h, o) => PointedKeepsInv(heap, h, Some(o));
    case Null(h) => PointedKeepsInv(heap, h, None);
    case CopyConstruct(h, from) => HandleIsUsable(heap, from); PointedKeepsInv(heap, h, heap.handles[from]);
    case MoveConstruct(h, from) => MovedKeepsInv(heap, h, from);
    case CopyAssign(h, from) => AssignedKeepsInv(heap, h, from);
    case MoveAssign(h, from) =>
      var moved := Moved(heap, Temporary, from);
      MovedKeepsInv(heap, Temporary, from);
      SwappedKeepsInv(moved, Temporary, h);
      DestroyedKeepsInv(Swapped(moved, Temporary, h), Temporary);
    case Swap(h, from) => SwappedKeepsInv(heap, h, from);
    case Destroy(h) => DestroyedKeepsInv(heap, h);
  }

  lemma MoveAssignedHandles(heap: Heap, h: HandleId, from: HandleId)
    requires Inv(heap) && Enabled(heap, MoveAssign(h, from))
    ensures MoveAssigned(heap, h, from).handles ==
            if h == from then heap.handles else heap.handles[from := None][h := heap.handles[from]]
    ensures MoveAssigned(heap, h, from).objects.Keys == heap.objects.Keys
  {
    hide Inv;
    var moved := Moved(heap, Temporary, from);
    MovedKeepsInv(heap, Temporary, from);
    SwappedKeepsInv(moved, Temporary, h);
    DestroyedHandles(Swapped(moved, Temporary, h), Temporary);
    assert Swapped(moved, Temporary, h).handles - {Temporary} ==
           if h == from then heap.handles else heap.handles[from := None][h := heap.handles[from]];
  }

  lemma DestroyedHandles(heap: Heap, h: HandleId)
    requires Inv(heap) && h in heap.handles
    ensures Destroyed(heap, h).handles == heap.handles - {h}
    ensures Destroyed(heap, h).objects.Keys == heap.objects.Keys
  {
  }

  lemma CopiedObjects(heap: Heap, h: HandleId, from: HandleId)
    requires Inv(heap) && from in heap.handles
    ensures Copied(heap, h, from).objects.Keys == heap.objects.Keys
    ensures Copied(heap, h, from).handles == heap.handles[h := heap.handles[from]]
  {
  }

  lemma AssignedObjects(heap: Heap, h: HandleId, from: HandleId)
    requires Inv(heap) && h in heap.handles && from in heap.handles
    ensures Assigned(heap, h, from).objects.Keys == heap.objects.Keys
    ensures Assigned(heap, h, from).handles == heap.handles[h := heap.handles[from]]
  {
  }

  /** What an assignment means: the target takes over the source's pointer; a copy leaves the
      source alone and a move empties it, unless the two are the same handle. */
  lemma AssignmentMeans(heap: Heap, h: HandleId, from: HandleId)
    requires Inv(heap) && Enabled(heap, MoveAssign(h, from))
    ensures Step(heap, CopyAssign(h, from)).handles == heap.handles[h := heap.handles[from]]
    ensures Step(heap, MoveAssign(h, from)).handles ==
            if h == from then heap.handles else heap.handles[from := None][h := heap.handles[from]]
  {
    MoveAssignedHandles(heap, h, from);
    hide Inv, MoveAssigned;
  }

  /** Where all handles point after each operation; since counts are numbers of handles, this
      leaves nothing open. */
  lemma StepMeans(heap: Heap, op: Op)
    requires Inv(heap) && Enabled(heap, op)
    ensures var hs, r := heap.handles, Step(heap, op).handles;
            match op
            case MakeRefCounted(h, o) => r == hs[h := Some(o)]
            case FromPointer(h, o) => r == hs[h := Some(o)]
            case Null(h) => r == hs[h := None]
            case CopyConstruct(h, from) => r == hs[h := hs[from]]
            case MoveConstruct(h, from) => r == hs[h := hs[from]][from := None]
            case CopyAssign(h, from) => r == hs[h := hs[from]]
            case MoveAssign(h, from) => r == if h == from then hs else hs[from := None][h := hs[from]]
            case Swap(h, from) => r == hs[h := hs[from]][from := hs[h]]
            case Destroy(h) => r == hs - {h}
    ensures Step(heap, op).objects.Keys == heap.objects.Keys + (if op.MakeRefCounted? then {op.o} else {})
  {
    hide Inv, Copied, Assigned, MoveAssigned, Destroyed;
    match op
    case CopyConstruct(h, from) => CopiedObjects(heap, h, from);
    case CopyAssign(h, from) => AssignedObjects(heap, h, from);
    case MoveAssign(h, from) => MoveAssignedHandles(heap, h, from);
    case Destroy(h) => DestroyedHandles(heap, h);
    case _ =>
  }

  ghost predicate ValidRun(heap: Heap, ops: seq<Op>)
    requires Inv(heap)
    decreases |ops|
  {
    ops == [] || (Enabled(heap, ops[0]) && (StepKeepsInv(heap, ops[0]); ValidRun(Step(heap, ops[0]), ops[1..])))
  }

  ghost function Run(heap: Heap, ops: seq<Op>): Heap
    requires Inv(heap) && ValidRun(heap, ops)
    decreases |ops|
  {
    if ops == [] then heap else StepKeepsInv(heap, ops[0]); Run(Step(heap, ops[0]), ops[1..])
  }

  lemma {:induction false} RunKeepsInv(heap: Heap, ops: seq<Op>)
    requires Inv(heap) && ValidRun(heap, ops)
    ensures Inv(Run(heap, ops))
    decreases |ops|
  {
    hide Inv, Step;
    if ops != [] {
      StepKeepsInv(heap, ops[0]);
      RunKeepsInv(Step(heap, ops[0]), ops[1..]);
    }
  }

  /** Over every sequence of operations an object's count is its number of handles, and it has
      been freed exactly once if it has none left and not at all otherwise. */
  lemma CountIsHandles(ops: seq<Op>, o: ObjectId)
    requires ValidRun(EMPTY_HEAP, ops) && o in Run(EMPTY_HEAP, ops).objects
    ensures var r := Run(EMPTY_HEAP, ops);
            && r.objects[o].refCount == |Pointing(r.handles, o)|
            && r.objects[o].frees == if Pointing(r.handles, o) == {} then 1 else 0
  {
    RunKeepsInv(EMPTY_HEAP, ops);
    assert CountedRight(Run(EMPTY_HEAP, ops), o);
  }

  lemma FreesNeverFall(heap: Heap, op: Op, o: ObjectId)
    requires Inv(heap) && Enabled(heap, op) && o in heap.objects
    ensures o in Step(heap, op).objects && heap.objects[o].frees <= Step(heap, op).objects[o].frees
  {
  }

  /** An object is freed in exactly the step that takes its last handle away... */
  lemma FreedWithLastHandle(heap: Heap, op: Op, o: ObjectId)
    requires Inv(heap) && Enabled(heap, op) && o in heap.objects
    ensures var r := Step(heap, op);
            && o in r.objects
            && (Pointing(heap.handles, o) == {} ==> Pointing(r.handles, o) == {})
            && r.objects[o].frees == heap.objects[o].frees +
                 (if Pointing(heap.handles, o) != {} && Pointing(r.handles, o) == {} then 1 else 0)
  {
    FreesNeverFall(heap, op, o);
    StepKeepsInv(heap, op);
    assert CountedRight(heap, o) && CountedRight(Step(heap, op), o);
  }

  /** ... and never again, nor does any handle ever point to it again. */
  lemma {:induction false} FreedForGood(heap: Heap, ops: seq<Op>, o: ObjectId)
    requires Inv(heap) && ValidRun(heap, ops) && o in heap.objects && heap.objects[o].frees == 1
    ensures var r := Run(heap, ops);
            o in r.objects && r.objects[o].frees == 1 && Pointing(r.handles, o) == {}
    decreases |ops|
  {
    hide Step;
    assert CountedRight(heap, o);
    if ops != [] {
      StepKeepsInv(heap, ops[0]);
      FreedWithLastHandle(heap, ops[0], o);
      assert CountedRight(Step(heap, ops[0]), o);
      FreedForGood(Step(heap, ops[0]), ops[1..], o);
    }
  }
}
