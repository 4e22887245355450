/** Weak pointers: a factory owns a counted flag, weak pointers share it, and destroying the
    factory invalidates it.  The flag of factory `f` is object `f` of the counted heap. */
module WeakPtrs {
  import opened Options
  import opened RefCounting

  type Pointer = nat

  const NULL_POINTER: Pointer := 0

  /** `pointers[w]` is the plain pointer a weak pointer stores, whether it is still valid or not. */
  datatype State = State(heap: Heap, isValid: map<ObjectId, bool>, invalidations: map<ObjectId, nat>,
                         alive: set<nat>, targets: map<nat, Pointer>, pointers: map<nat, Pointer>)

  const EMPTY_STATE := State(EMPTY_HEAP, map[], map[], {}, map[], map[])

  datatype WeakOp =
    | NewFactory(f: nat, target: Pointer)
    | GetWeakPtr(f: nat, w: nat)
    | DefaultConstruct(w: nat)
    | Copy(w: nat, from: nat)
    | Move(w: nat, from: nat)
    | Assign(w: nat, from: nat)
    | AssignMove(w: nat, from: nat)
    | Reset(w: nat)
    | DestroyWeak(w: nat)
    | DestroyFactory(f: nat)

  ghost predicate CanDo(s: State, op: WeakOp) {
    match op
    case NewFactory(f, _) => f !in s.heap.objects
    case GetWeakPtr(f, w) => f in s.alive && w !in s.pointers
    case DefaultConstruct(w) => w !in s.pointers
    case Copy(w, from) => w !in s.pointers && from in s.pointers
    case Move(w, from) => w !in s.pointers && from in s.pointers
    case Assign(w, from) => w in s.pointers && from in s.pointers
    case AssignMove(w, from) => w in s.pointers && from in s.pointers
    case Reset(w) => w in s.pointers
    case DestroyWeak(w) => w in s.pointers
    case DestroyFactory(f) => f in s.alive
  }

  /** A live factory holds its own valid flag; a dead one's flag was invalidated once. */
  ghost predicate FlagsRight(s: State) {
    && (forall f | f in s.heap.objects :: f in s.isValid && f in s.invalidations && f in s.targets)
    && (forall f | f in s.heap.objects ::
          s.isValid[f] == (f in s.alive) && s.invalidations[f] == if f in s.alive then 0 else 1)
    && (forall f :: f in s.alive <==> OfFactory(f) in s.heap.handles)
    && (forall f | f in s.alive :: s.heap.handles[OfFactory(f)] == Some(f))
  }

  /** A weak pointer that holds a flag points where its factory points. */
  ghost predicate PointersRight(s: State) {
    && (forall w :: w in s.pointers <==> OfWeak(w) in s.heap.handles)
    && (forall w | w in s.pointers && s.heap.handles[OfWeak(w)].Some? ::
          s.heap.handles[OfWeak(w)].value in s.targets
          && s.pointers[w] == s.targets[s.heap.handles[OfWeak(w)].value])
  }

  ghost predicate WeakInv(s: State) {
    Inv(s.heap) && Temporary !in s.heap.handles && FlagsRight(s) && PointersRight(s)
  }

  /** `WeakPtr::get`. */
  ghost function Get(s: State, w: nat): Option<Pointer>
    requires WeakInv(s) && w in s.pointers
  {
    match s.heap.handles[OfWeak(w)]
    case None => None
    case Some(f) => if s.isValid[f] then Some(s.pointers[w]) else None
  }

  ghost function Released(heap: Heap, h: HandleId): Heap
    requires Inv(heap) && h in heap.handles
  {
    Point(Destroyed(heap, h), h, None)
  }

  /** What the operation does to the counted handles. */
  ghost function NextHeap(s: State, op: WeakOp): Heap
    requires WeakInv(s) && CanDo(s, op)
  {
    match op
    case NewFactory(f, _) => Made(s.heap, OfFactory(f), f)
    case GetWeakPtr(f, w) => Copied(s.heap, OfWeak(w), OfFactory(f))
    case DefaultConstruct(w) => Point(s.heap, OfWeak(w), None)
    case Copy(w, from) => Copied(s.heap, OfWeak(w), OfWeak(from))
    case Move(w, from) => Moved(s.heap, OfWeak(w), OfWeak(from))
    case Assign(w, from) => Assigned(s.heap, OfWeak(w), OfWeak(from))
    case AssignMove(w, from) => MoveAssigned(s.heap, OfWeak(w), OfWeak(from))
    case Reset(w) => Released(s.heap, OfWeak(w))
    case DestroyWeak(w) => Destroyed(s.heap, OfWeak(w))
    case DestroyFactory(f) => Destroyed(s.heap, OfFactory(f))
  }

  ghost function Next(s: State, op: WeakOp): State
    requires WeakInv(s) && CanDo(s, op)
  {
    var t := s.(heap := NextHeap(s, op));
    match op
    case NewFactory(f, target) =>
      t.(isValid := s.isValid[f := true], invalidations := s.invalidations[f := 0],
         alive := s.alive + {f}, targets := s.targets[f := target])
    case GetWeakPtr(f, w) =>
      FactoryHoldsFlag(s, f);
      t.(pointers := s.pointers[w := s.targets[f]])
    case DefaultConstruct(w) => t.(pointers := s.pointers[w := NULL_POINTER])
    case Copy(w, from) => t.(pointers := s.pointers[w := s.pointers[from]])
    case Move(w, from) => t.(pointers := s.pointers[w := s.pointers[from]])
    case Assign(w, from) => t.(pointers := s.pointers[w := s.pointers[from]])
    case AssignMove(w, from) => t.(pointers := s.pointers[w := s.pointers[from]])
    case Reset(w) => t
    case DestroyWeak(w) => t.(pointers := s.pointers - {w})
    case DestroyFactory(f) =>
      FactoryHoldsFlag(s, f);
      t.(isValid := s.isValid[f := false], invalidations := s.invalidations[f := s.invalidations[f] + 1],
         alive := s.alive - {f})
  }

  lemma FactoryHoldsFlag(s: State, f: nat)
    requires WeakInv(s) && f in s.alive
    ensures f in s.heap.objects && f in s.targets && s.isValid[f] && s.invalidations[f] == 0
  {
    assert s.heap.handles[OfFactory(f)] == Some(f);
  }

  lemma NextHeapKeys(s: State, op: WeakOp)
    requires WeakInv(s) && CanDo(s, op)
    ensures NextHeap(s, op).objects.Keys == s.heap.objects.Keys + (if op.NewFactory? then {op.f} else {})
  {
    hide Inv, Copied, Assigned, MoveAssigned, Destroyed;
    match op
    case NewFactory(f, _) =>
    case GetWeakPtr(f, w) => CopiedObjects(s.heap, OfWeak(w), OfFactory(f));
    case DefaultConstruct(_) =>
    case Copy(w, from) => CopiedObjects(s.heap, OfWeak(w), OfWeak(from));
    case Move(_, _) =>
    case Assign(w, from) => AssignedObjects(s.heap, OfWeak(w), OfWeak(from));
    case AssignMove(w, from) => MoveAssignedHandles(s.heap, OfWeak(w), OfWeak(from));
    case Reset(w) => DestroyedHandles(s.heap, OfWeak(w));
    case DestroyWeak(w) => DestroyedHandles(s.heap, OfWeak(w));
    case DestroyFactory(f) => DestroyedHandles(s.heap, OfFactory(f));
  }

  lemma NextHeapKeeps(s: State, op: WeakOp)
    requires WeakInv(s) && CanDo(s, op)
    ensures Inv(NextHeap(s, op))
    ensures NextHeap(s, op).objects.Keys == s.heap.objects.Keys + (if op.NewFactory? then {op.f} else {})
  {
    NextHeapKeys(s, op);
    hide Inv, FlagsRight, PointersRight;
    match op
    case NewFactory(f, _) => MadeKeepsInv(s.heap, OfFactory(f), f);
    case GetWeakPtr(f, w) => StepKeepsInv(s.heap, CopyConstruct(OfWeak(w), OfFactory(f)));
    case DefaultConstruct(w) => StepKeepsInv(s.heap, Null(OfWeak(w)));
    case Copy(w, from) => StepKeepsInv(s.heap, CopyConstruct(OfWeak(w), OfWeak(from)));
    case Move(w, from) => MovedKeepsInv(s.heap, OfWeak(w), OfWeak(from));
    case Assign(w, from) => AssignedKeepsInv(s.heap, OfWeak(w), OfWeak(from));
    case AssignMove(w, from) => StepKeepsInv(s.heap, MoveAssign(OfWeak(w), OfWeak(from)));
    case Reset(w) => DestroyedKeepsInv(s.heap, OfWeak(w)); PointedKeepsInv(Destroyed(s.heap, OfWeak(w)), OfWeak(w), None);
    case DestroyWeak(w) => DestroyedKeepsInv(s.heap, OfWeak(w));
    case DestroyFactory(f) => DestroyedKeepsInv(s.heap, OfFactory(f));
  }

  /** Where the handles point afterwards. */
  lemma NextHandles(s: State, op: WeakOp)
    requires WeakInv(s) && CanDo(s, op)
    ensures var hs, r := s.heap.handles, NextHeap(s, op).handles;
            match op
            case NewFactory(f, _) => r == hs[OfFactory(f) := Some(f)]
            case GetWeakPtr(f, w) => r == hs[OfWeak(w) := Some(f)]
            case DefaultConstruct(w) => r == hs[OfWeak(w) := None]
            case Copy(w, from) => r == hs[OfWeak(w) := hs[OfWeak(from)]]
            case Move(w, from) => r == hs[OfWeak(w) := hs[OfWeak(from)]][OfWeak(from) := None]
            case Assign(w, from) => r == hs[OfWeak(w) := hs[OfWeak(from)]]
            case AssignMove(w, from) =>
              r == if w == from then hs else hs[OfWeak(from) := None][OfWeak(w) := hs[OfWeak(from)]]
            case Reset(w) => r == hs[OfWeak(w) := None]
            case DestroyWeak(w) => r == hs - {OfWeak(w)}
            case DestroyFactory(f) => r == hs - {OfFactory(f)}
  {
    match op
    case Assign(w, from) => AssignmentMeans(s.heap, OfWeak(w), OfWeak(from));
    case AssignMove(w, from) => AssignmentMeans(s.heap, OfWeak(w), OfWeak(from));
    case _ =>
  }

  /** Only weak pointers' handles differ. */
  ghost predicate SameBesidesWeak(hs: Handles, r: Handles) {
    && (forall h: HandleId | !h.OfWeak? :: h in r <==> h in hs)
    && (forall h: HandleId | !h.OfWeak? && h in hs :: r[h] == hs[h])
  }

  ghost predicate SameFactories(s: State, t: State) {
    && t.isValid == s.isValid && t.invalidations == s.invalidations
    && t.alive == s.alive && t.targets == s.targets
    && t.heap.objects.Keys == s.heap.objects.Keys
    && SameBesidesWeak(s.heap.handles, t.heap.handles)
  }

  lemma SameFactoriesKeepFlags(s: State, t: State)
    requires FlagsRight(s) && SameFactories(s, t)
    ensures FlagsRight(t)
  {
    forall f | f in t.heap.objects
      ensures f in t.isValid && f in t.invalidations && f in t.targets
      ensures t.isValid[f] == (f in t.alive) && t.invalidations[f] == if f in t.alive then 0 else 1
    {
      assert f in s.heap.objects.Keys;
    }
  }

  lemma NextSameBesidesWeak(s: State, op: WeakOp)
    requires WeakInv(s) && CanDo(s, op) && !op.NewFactory? && !op.DestroyFactory?
    ensures SameBesidesWeak(s.heap.handles, NextHeap(s, op).handles)
  {
    NextHandles(s, op);
    hide NextHeap, WeakInv;
  }

  lemma NextSameFactories(s: State, op: WeakOp)
    requires WeakInv(s) && CanDo(s, op) && !op.NewFactory? && !op.DestroyFactory?
    ensures SameFactories(s, Next(s, op)) && Temporary !in Next(s, op).heap.handles
  {
    NextHeapKeeps(s, op);
    NextSameBesidesWeak(s, op);
    hide Inv, NextHeap, FlagsRight, PointersRight;
  }

  lemma NewFactoryFlags(s: State, op: WeakOp)
    requires WeakInv(s) && CanDo(s, op) && op.NewFactory?
    ensures FlagsRight(Next(s, op)) && Temporary !in Next(s, op).heap.handles
  {
    hide FlagsRight, PointersRight, Inv, NextHeap;
    NextHeapKeeps(s, op);
    NextHandles(s, op);
    FlaggedFlags(s, Next(s, op), op.f);
  }

  lemma FlaggedFlags(s: State, t: State, f: nat)
    requires FlagsRight(s) && t.heap.objects.Keys == s.heap.objects.Keys + {f} && f in t.targets
    requires t.heap.handles == s.heap.handles[OfFactory(f) := Some(f)] && t.alive == s.alive + {f}
    requires t.isValid == s.isValid[f := true] && t.invalidations == s.invalidations[f := 0]
    requires s.targets.Keys <= t.targets.Keys
    ensures FlagsRight(t)
  {
    forall g | g in t.heap.objects
      ensures g in t.isValid && g in t.invalidations && g in t.targets
      ensures t.isValid[g] == (g in t.alive) && t.invalidations[g] == if g in t.alive then 0 else 1
    {
      assert g != f ==> g in s.heap.objects.Keys;
    }
  }

  lemma DestroyFactoryFlags(s: State, op: WeakOp)
    requires WeakInv(s) && CanDo(s, op) && op.DestroyFactory?
    ensures FlagsRight(Next(s, op)) && Temporary !in Next(s, op).heap.handles
  {
    hide FlagsRight, PointersRight, Inv, NextHeap;
    NextHeapKeeps(s, op);
    NextHandles(s, op);
    FactoryHoldsFlag(s, op.f);
    UnflaggedFlags(s, Next(s, op), op.f);
  }

  lemma UnflaggedFlags(s: State, t: State, f: nat)
    requires FlagsRight(s) && f in s.heap.objects && t.heap.objects.Keys == s.heap.objects.Keys
    requires t.heap.handles == s.heap.handles - {OfFactory(f)} && t.alive == s.alive - {f}
    requires t.targets == s.targets && t.isValid == s.isValid[f := false] && t.invalidations == s.invalidations[f := 1]
    ensures FlagsRight(t)
  {
    forall g | g in t.heap.objects
      ensures g in t.isValid && g in t.invalidations && g in t.targets
      ensures t.isValid[g] == (g in t.alive) && t.invalidations[g] == if g in t.alive then 0 else 1
    {
      assert g in s.heap.objects.Keys;
    }
  }

  lemma NextFlags(s: State, op: WeakOp)
    requires WeakInv(s) && CanDo(s, op)
    ensures FlagsRight(Next(s, op)) && Temporary !in Next(s, op).heap.handles
  {
    if op.NewFactory? {
      NewFactoryFlags(s, op);
    } else if op.DestroyFactory? {
      DestroyFactoryFlags(s, op);
    } else {
      NextSameFactories(s, op);
      SameFactoriesKeepFlags(s, Next(s, op));
    }
  }

  lemma NextPointers(s: State, op: WeakOp)
    requires WeakInv(s) && CanDo(s, op)
    ensures PointersRight(Next(s, op))
  {
    hide Inv, NextHeap;
    NextHandles(s, op);
    if op.GetWeakPtr? {
      FactoryHoldsFlag(s, op.f);
    }
    if op.NewFactory? {
      FlagIsNew(s, op.f);
    }
    hide FlagsRight;
  }

  /** No weak pointer holds the flag of a factory that does not exist yet. */
  lemma FlagIsNew(s: State, f: nat)
    requires WeakInv(s) && f !in s.heap.objects
    ensures forall w | w in s.pointers :: s.heap.handles[OfWeak(w)] != Some(f)
  {
  }

  lemma NextKeepsInv(s: State, op: WeakOp)
    requires WeakInv(s) && CanDo(s, op)
    ensures WeakInv(Next(s, op))
  {
    NextHeapKeeps(s, op);
    NextFlags(s, op);
    NextPointers(s, op);
  }

  ghost predicate ValidRun(s: State, ops: seq<WeakOp>)
    requires WeakInv(s)
    decreases |ops|
  {
    ops == [] || (CanDo(s, ops[0]) && (NextKeepsInv(s, ops[0]); ValidRun(Next(s, ops[0]), ops[1..])))
  }

  ghost function Run(s: State, ops: seq<WeakOp>): (r: State)
    requires WeakInv(s) && ValidRun(s, ops)
    ensures WeakInv(r)
    decreases |ops|
  {
    if ops == [] then s else NextKeepsInv(s, ops[0]); Run(Next(s, ops[0]), ops[1..])
  }

  /** Over every run a weak pointer yields its factory's pointer exactly while it holds a flag
      and that factory is alive; a flag is invalidated at most once, and before it is freed. */
  lemma WeakIffAlive(ops: seq<WeakOp>, w: nat, f: nat)
    requires ValidRun(EMPTY_STATE, ops)
    ensures var s := Run(EMPTY_STATE, ops);
            && (w in s.pointers && s.heap.handles[OfWeak(w)] == Some(f) ==>
                  f in s.targets && Get(s, w) == if f in s.alive then Some(s.targets[f]) else None)
            && (w in s.pointers && s.heap.handles[OfWeak(w)] == None ==> Get(s, w) == None)
            && (f in s.heap.objects ==>
                  && s.invalidations[f] <= 1
                  && (s.heap.objects[f].frees > 0 ==> s.invalidations[f] == 1 && !s.isValid[f]))
  {
    var s := Run(EMPTY_STATE, ops);
    if f in s.heap.objects && f in s.alive {
      HandleIsUsable(s.heap, OfFactory(f));
      assert CountedRight(s.heap, f);
    }
  }

  // Told by the operations alone

  /** One operation on the factories, and on the plain pointers. */
  lemma NextTold(s: State, op: WeakOp)
    requires WeakInv(s) && CanDo(s, op)
    ensures var n := Next(s, op);
            && n.targets == (if op.NewFactory? then s.targets[op.f := op.target] else s.targets)
            && n.alive == (if op.NewFactory? then s.alive + {op.f} else if op.DestroyFactory? then s.alive - {op.f}
                           else s.alive)
            && (op.NewFactory? ==> op.f !in s.heap.objects)
            && n.heap.objects.Keys == s.heap.objects.Keys + (if op.NewFactory? then {op.f} else {})
  {
    NextHeapKeys(s, op);
    hide Inv, NextHeap;
  }

  /** Over every run a factory points where it was made to point for good, and is alive exactly if
      it was made and not destroyed. */
  lemma {:induction false} FactoriesTold(s: State, ops: seq<WeakOp>, f: nat, target: Pointer)
    requires WeakInv(s) && ValidRun(s, ops) && f !in s.heap.objects
    ensures var r := Run(s, ops);
            && (NewFactory(f, target) in ops ==> f in r.targets && r.targets[f] == target)
            && (f in r.alive <==> (exists p :: NewFactory(f, p) in ops) && DestroyFactory(f) !in ops)
    decreases |ops|
  {
    hide Inv, FlagsRight, PointersRight, Next, NextHeap;
    if ops != [] {
      var op, rest := ops[0], ops[1..];
      assert ops == [op] + rest;
      NextTold(s, op);
      NextKeepsInv(s, op);
      UnmadeIsDead(s, f);
      if op.NewFactory? && op.f == f {
        MadeOnce(Next(s, op), rest, f);
        assert NewFactory(f, op.target) in ops;
      } else {
        FactoriesTold(Next(s, op), rest, f, target);
        assert op != DestroyFactory(f);
        assert forall p :: NewFactory(f, p) in ops <==> NewFactory(f, p) in rest;
      }
    } else {
      UnmadeIsDead(s, f);
    }
  }

  lemma UnmadeIsDead(s: State, f: nat)
    requires WeakInv(s) && f !in s.heap.objects
    ensures f !in s.alive
  {
    if f in s.alive {
      FactoryHoldsFlag(s, f);
    }
  }

  lemma {:induction false} MadeOnce(s: State, ops: seq<WeakOp>, f: nat)
    requires WeakInv(s) && ValidRun(s, ops) && f in s.heap.objects && f in s.targets
    ensures var r := Run(s, ops);
            && f in r.targets && r.targets[f] == s.targets[f]
            && (f in r.alive <==> f in s.alive && DestroyFactory(f) !in ops)
            && (forall p :: NewFactory(f, p) !in ops)
    decreases |ops|
  {
    hide Inv, FlagsRight, PointersRight, Next, NextHeap;
    if ops != [] {
      assert ops == [ops[0]] + ops[1..];
      NextTold(s, ops[0]);
      NextKeepsInv(s, ops[0]);
      MadeOnce(Next(s, ops[0]), ops[1..], f);
    }
  }
}
