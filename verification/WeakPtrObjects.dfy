/** Weak pointers and their factory as they are: a pointer and a counted handle on a shared
    flag, changed in place.  Each operation is proved to be the step of the same name, `g` being
    all the objects there are and `s` their state. */
module WeakPtrObjects {
  import opened Options
  import opened RefCounting
  import opened WeakPtrFlags
  import opened RefPtrs
  import opened WeakPtrs

  datatype Objects = Objects(hs: HandleMap, os: ObjectMap, ws: map<nat, WeakPtr>, fs: map<nat, WeakPtrFactory>)

  ghost function Flags(os: ObjectMap): set<WeakPtrFlag> {
    set o | o in os && os[o].flag != null :: os[o].flag
  }

  ghost predicate FlagsApart(os: ObjectMap) {
    forall o, p | o in os && p in os && os[o].flag == os[p].flag :: o == p
  }

  /** The flags are as the state says, and no two objects share one. */
  ghost predicate FlagsAre(isValid: map<ObjectId, bool>, invalidations: map<ObjectId, nat>, os: ObjectMap)
    reads Flags(os)
  {
    && (forall o | o in os :: os[o].flag != null && os[o].flag in Flags(os))
    && FlagsApart(os)
    && (forall o | o in os :: o in isValid && os[o].flag.isValid == isValid[o])
    && (forall o | o in os :: o in invalidations && os[o].flag.invalidations == invalidations[o])
  }

  ghost predicate WeaksAre(pointers: map<nat, Pointer>, ws: map<nat, WeakPtr>, hs: HandleMap)
    reads ws.Values
  {
    && ws.Keys == pointers.Keys
    && (forall w | w in ws ::
          ws[w].id == w && ws[w].ptr == pointers[w] && OfWeak(w) in hs && hs[OfWeak(w)] == ws[w].flag)
  }

  ghost predicate FactoriesAre(alive: set<nat>, targets: map<nat, Pointer>,
                               fs: map<nat, WeakPtrFactory>, hs: HandleMap)
  {
    && fs.Keys == alive
    && (forall f | f in fs ::
          && fs[f].id == f && f in targets && fs[f].ptr == targets[f]
          && OfFactory(f) in hs && hs[OfFactory(f)] == fs[f].flag)
  }

  ghost predicate Describes(s: State, g: Objects)
    reads g.hs.Values, g.os.Values, g.ws.Values, Flags(g.os)
  {
    && WeakInv(s) && Named(g.hs, g.os) && Abstract(g.hs, g.os) == s.heap
    && FlagsAre(s.isValid, s.invalidations, g.os)
    && WeaksAre(s.pointers, g.ws, g.hs) && FactoriesAre(s.alive, s.targets, g.fs, g.hs)
  }

  /** The steps of weak pointers, taken apart. */
  lemma NextIs(s: State, op: WeakOp)
    requires WeakInv(s) && CanDo(s, op) && !op.NewFactory? && !op.DestroyFactory?
    ensures var n := Next(s, op);
            && WeakInv(n) && n == s.(heap := n.heap, pointers := n.pointers)
            && match op
               case GetWeakPtr(f, w) =>
                 && n.heap == Copied(s.heap, OfWeak(w), OfFactory(f))
                 && f in s.targets && n.pointers == s.pointers[w := s.targets[f]]
               case DefaultConstruct(w) =>
                 n.heap == Point(s.heap, OfWeak(w), None) && n.pointers == s.pointers[w := NULL_POINTER]
               case Copy(w, from) =>
                 n.heap == Copied(s.heap, OfWeak(w), OfWeak(from)) && n.pointers == s.pointers[w := s.pointers[from]]
               case Move(w, from) =>
                 n.heap == Moved(s.heap, OfWeak(w), OfWeak(from)) && n.pointers == s.pointers[w := s.pointers[from]]
               case Assign(w, from) =>
                 n.heap == Assigned(s.heap, OfWeak(w), OfWeak(from)) && n.pointers == s.pointers[w := s.pointers[from]]
               case AssignMove(w, from) =>
                 n.heap == MoveAssigned(s.heap, OfWeak(w), OfWeak(from)) && n.pointers == s.pointers[w := s.pointers[from]]
               case Reset(w) => n.heap == Released(s.heap, OfWeak(w)) && n.pointers == s.pointers
               case DestroyWeak(w) => n.heap == Destroyed(s.heap, OfWeak(w)) && n.pointers == s.pointers - {w}
  {
    NextKeepsInv(s, op);
    if op.GetWeakPtr? {
      FactoryHoldsFlag(s, op.f);
    }
  }

  lemma AssignIs(s: State, w: nat, from: nat)
    requires WeakInv(s) && w in s.pointers && from in s.pointers
    ensures OfWeak(w) in s.heap.handles && OfWeak(from) in s.heap.handles
    ensures WeakInv(Next(s, Assign(w, from))) && WeakInv(Next(s, AssignMove(w, from)))
    ensures Next(s, Assign(w, from)) ==
            s.(heap := Assigned(s.heap, OfWeak(w), OfWeak(from)), pointers := s.pointers[w := s.pointers[from]])
    ensures Next(s, AssignMove(w, from)) ==
            s.(heap := MoveAssigned(s.heap, OfWeak(w), OfWeak(from)), pointers := s.pointers[w := s.pointers[from]])
  {
    NextIs(s, Assign(w, from));
    NextIs(s, AssignMove(w, from));
    hide Next, NextHeap;
  }

  lemma NewFactoryIs(s: State, f: nat, target: Pointer)
    requires WeakInv(s) && f !in s.heap.objects
    ensures Next(s, NewFactory(f, target)) ==
            State(Made(s.heap, OfFactory(f), f), s.isValid[f := true], s.invalidations[f := 0],
                  s.alive + {f}, s.targets[f := target], s.pointers)
    ensures WeakInv(Next(s, NewFactory(f, target)))
  {
    NextKeepsInv(s, NewFactory(f, target));
  }

  lemma DestroyFactoryIs(s: State, f: nat)
    requires WeakInv(s) && f in s.alive
    ensures OfFactory(f) in s.heap.handles && f in s.invalidations
    ensures Next(s, DestroyFactory(f)) ==
            s.(heap := Destroyed(s.heap, OfFactory(f)), isValid := s.isValid[f := false],
               invalidations := s.invalidations[f := s.invalidations[f] + 1], alive := s.alive - {f})
    ensures WeakInv(Next(s, DestroyFactory(f)))
  {
    FactoryHoldsFlag(s, f);
    NextKeepsInv(s, DestroyFactory(f));
  }

  lemma NoHandleYet(s: State, g: Objects, w: nat)
    requires Describes(s, g) && w !in g.ws
    ensures World(g.hs, g.os) && OfWeak(w) !in g.hs && w !in s.pointers
  {
    hide Inv, FlagsAre, FactoriesAre;
    assert OfWeak(w) in g.hs ==> OfWeak(w) in Abstract(g.hs, g.os).handles;
  }

  /** What the handle of a weak pointer needs for an operation of its own. */
  lemma HandleReady(s: State, g: Objects, w: nat)
    requires Describes(s, g) && w in g.ws
    ensures World(g.hs, g.os) && OfWeak(w) in g.hs && g.hs[OfWeak(w)] == g.ws[w].flag
    ensures OfWeak(w) in s.heap.handles && Temporary !in g.hs
    ensures g.ws[w].flag.id == OfWeak(w) && w in s.pointers && s.pointers[w] == g.ws[w].ptr
  {
    hide Inv, Abstract, FlagsAre, FactoriesAre;
    HandleSeen(g.hs, g.os, OfWeak(w));
    if Temporary in g.hs {
      HandleSeen(g.hs, g.os, Temporary);
    }
  }

  lemma FactoryReady(s: State, g: Objects, f: nat)
    requires Describes(s, g) && f in g.fs
    ensures World(g.hs, g.os) && OfFactory(f) in g.hs && g.hs[OfFactory(f)] == g.fs[f].flag
    ensures f in s.alive && f in s.targets && s.targets[f] == g.fs[f].ptr && g.fs[f].flag.id == OfFactory(f)
    ensures OfFactory(f) in s.heap.handles && s.heap.handles[OfFactory(f)] == Some(f)
    ensures f in g.os && g.fs[f].flag.ptr == g.os[f] && g.os[f].flag != null
    ensures g.os[f].flag.isValid && g.os[f].flag.invalidations == 0 && g.os[f].id == f && f in s.invalidations
  {
    hide Inv, Abstract, FlagsApart;
    HandleSeen(g.hs, g.os, OfFactory(f));
    FactoryHoldsFlag(s, f);
  }

  lemma NotYet(s: State, g: Objects, f: nat)
    requires Describes(s, g) && f !in g.os
    ensures f !in s.heap.objects && OfFactory(f) !in g.hs && f !in g.fs
  {
    hide Inv, FlagsApart;
    assert s.heap.objects.Keys == g.os.Keys;
    assert OfFactory(f) in g.hs ==> OfFactory(f) in Abstract(g.hs, g.os).handles;
    if f in s.alive {
      FactoryHoldsFlag(s, f);
    }
  }

  lemma FlagAdded(isValid: map<ObjectId, bool>, invalidations: map<ObjectId, nat>, os: ObjectMap, c: RefCounted)
    requires FlagsAre(isValid, invalidations, os) && c.id !in os
    requires c.flag != null && c.flag !in Flags(os) && c.flag.isValid && c.flag.invalidations == 0
    ensures FlagsAre(isValid[c.id := true], invalidations[c.id := 0], os[c.id := c])
  {
    var more := os[c.id := c];
    assert c.flag in Flags(more) by {
      assert more[c.id].flag == c.flag;
    }
    forall o | o in os ensures more[o].flag in Flags(more) {
      assert more[o] == os[o];
    }
    assert FlagsApart(more);
  }

  lemma WeakAdded(s: State, g: Objects, weak: WeakPtr)
    requires WeaksAre(s.pointers, g.ws, g.hs) && FactoriesAre(s.alive, s.targets, g.fs, g.hs)
    ensures WeaksAre(s.pointers[weak.id := weak.ptr], g.ws[weak.id := weak], g.hs[OfWeak(weak.id) := weak.flag])
    ensures FactoriesAre(s.alive, s.targets, g.fs, g.hs[OfWeak(weak.id) := weak.flag])
  {
  }

  lemma FactoryAdded(s: State, g: Objects, factory: WeakPtrFactory)
    requires WeaksAre(s.pointers, g.ws, g.hs) && FactoriesAre(s.alive, s.targets, g.fs, g.hs)
    ensures WeaksAre(s.pointers, g.ws, g.hs[OfFactory(factory.id) := factory.flag])
    ensures FactoriesAre(s.alive + {factory.id}, s.targets[factory.id := factory.ptr],
                         g.fs[factory.id := factory], g.hs[OfFactory(factory.id) := factory.flag])
  {
  }

  lemma FactoryGone(s: State, g: Objects, f: nat)
    requires WeaksAre(s.pointers, g.ws, g.hs) && FactoriesAre(s.alive, s.targets, g.fs, g.hs)
    ensures WeaksAre(s.pointers, g.ws, g.hs - {OfFactory(f)})
    ensures FactoriesAre(s.alive - {f}, s.targets, g.fs - {f}, g.hs - {OfFactory(f)})
  {
  }

  /** `MakeRefCounted<WeakPtrFlag>()`. */
  method MakeFlag(ghost f: nat, ghost isValid: map<ObjectId, bool>, ghost invalidations: map<ObjectId, nat>,
                  ghost hs: HandleMap, ghost os: ObjectMap) returns (handle: RefPtr)
    requires Named(hs, os) && FlagsAre(isValid, invalidations, os) && f !in os
    ensures handle.id == OfFactory(f) && handle.ptr != null
    ensures var hs', os' := hs[OfFactory(f) := handle], os[f := handle.ptr];
            && Named(hs', os') && Abstract(hs', os') == Made(old(Abstract(hs, os)), OfFactory(f), f)
            && FlagsAre(isValid[f := true], invalidations[f := 0], os')
  {
    hide Named, Abstract, Made, FlagsAre;
    assert forall fl | fl in Flags(os) :: allocated(fl);
    var shared := new WeakPtrFlag();
    var counted := new RefCounted(f, shared);
    handle := new RefPtr.Make(OfFactory(f), counted);
    ObjectAdded(hs, os, handle, counted);
    FlagAdded(isValid, invalidations, os, counted);
  }

  /** Invalidating one flag leaves the others. */
  method InvalidateFlag(c: RefCounted, ghost isValid: map<ObjectId, bool>, ghost invalidations: map<ObjectId, nat>,
                        ghost os: ObjectMap)
    requires FlagsAre(isValid, invalidations, os) && c.id in os && os[c.id] == c
    requires c.flag != null && c.flag.isValid && c.id in invalidations
    modifies c.flag
    ensures FlagsAre(isValid[c.id := false], invalidations[c.id := invalidations[c.id] + 1], os)
  {
    c.flag.Invalidate();
  }

  class WeakPtr {
    ghost const id: nat
    var ptr: Pointer
    const flag: RefPtr

    /** From a factory: its pointer, and a handle on its flag. */
    constructor Of(ghost w: nat, p: Pointer, handle: RefPtr)
      ensures id == w && ptr == p && flag == handle
    {
      id, ptr, flag := w, p, handle;
    }

    constructor Default(ghost w: nat, ghost s: State, ghost g: Objects)
      requires Describes(s, g) && w !in g.ws
      ensures id == w && ptr == NULL_POINTER && flag.ptr == null && CanDo(s, DefaultConstruct(w))
      ensures Describes(Next(s, DefaultConstruct(w)), g.(hs := g.hs[OfWeak(w) := flag], ws := g.ws[w := this]))
    {
      hide Inv, WeakInv, Next, NextHeap, FlagsAre, WeaksAre, FactoriesAre, Named, Abstract, Point;
      assert forall fl | fl in Flags(g.os) :: allocated(fl);
      NoHandleYet(s, g, w);
      NextIs(s, DefaultConstruct(w));
      var handle := new RefPtr.Null(OfWeak(w), g.hs, g.os);
      id, ptr, flag := w, NULL_POINTER, handle;
      new;
      assert Named(g.hs[OfWeak(w) := flag], g.os);
      WeakAdded(s, g, this);
    }

    constructor Copy(ghost w: nat, r: WeakPtr, ghost s: State, ghost g: Objects)
      requires Describes(s, g) && w !in g.ws && r.id in g.ws && g.ws[r.id] == r
      modifies g.os.Values
      ensures id == w && ptr == r.ptr && flag.ptr == r.flag.ptr && CanDo(s, WeakOp.Copy(w, r.id))
      ensures Describes(Next(s, WeakOp.Copy(w, r.id)), g.(hs := g.hs[OfWeak(w) := flag], ws := g.ws[w := this]))
    {
      hide Inv, WeakInv, Next, NextHeap, FlagsAre, WeaksAre, FactoriesAre, Named, Abstract, Copied;
      assert forall fl | fl in Flags(g.os) :: allocated(fl);
      HandleReady(s, g, r.id);
      NoHandleYet(s, g, w);
      NextIs(s, WeakOp.Copy(w, r.id));
      var handle := new RefPtr.Copy(OfWeak(w), r.flag, g.hs, g.os);
      id, ptr, flag := w, r.ptr, handle;
      new;
      assert Named(g.hs[OfWeak(w) := flag], g.os);
      WeakAdded(s, g, this);
    }

    constructor Move(ghost w: nat, r: WeakPtr, ghost s: State, ghost g: Objects)
      requires Describes(s, g) && w !in g.ws && r.id in g.ws && g.ws[r.id] == r
      modifies r.flag
      ensures id == w && ptr == r.ptr && flag.ptr == old(r.flag.ptr) && CanDo(s, WeakOp.Move(w, r.id))
      ensures Describes(Next(s, WeakOp.Move(w, r.id)), g.(hs := g.hs[OfWeak(w) := flag], ws := g.ws[w := this]))
    {
      hide Inv, WeakInv, Next, NextHeap, FlagsAre, WeaksAre, FactoriesAre, Named, Abstract, Moved;
      assert forall fl | fl in Flags(g.os) :: allocated(fl);
      HandleReady(s, g, r.id);
      NoHandleYet(s, g, w);
      NextIs(s, WeakOp.Move(w, r.id));
      var handle := new RefPtr.Move(OfWeak(w), r.flag, g.hs, g.os);
      id, ptr, flag := w, r.ptr, handle;
      new;
      assert Named(g.hs[OfWeak(w) := flag], g.os);
      WeakAdded(s, g, this);
    }

    method Get(ghost s: State, ghost g: Objects) returns (p: Option<Pointer>)
      requires Describes(s, g) && id in g.ws && g.ws[id] == this
      ensures p == WeakPtrs.Get(s, id)
    {
      hide WeakInv;
      HandleSeen(g.hs, g.os, OfWeak(id));
      if flag.ptr != null && flag.ptr.flag.isValid {
        return Some(ptr);
      }
      return None;
    }

    method SetPointer(p: Pointer, ghost pointers: map<nat, Pointer>, ghost g: Objects)
      requires WeaksAre(pointers, g.ws, g.hs) && id in g.ws && g.ws[id] == this
      modifies this
      ensures ptr == p && WeaksAre(pointers[id := p], g.ws, g.hs)
    {
      ptr := p;
    }

    method CopyAssign(r: WeakPtr, ghost s: State, ghost g: Objects)
      requires Describes(s, g) && id in g.ws && g.ws[id] == this && r.id in g.ws && g.ws[r.id] == r
      modifies this, flag, g.os.Values
      ensures ptr == old(r.ptr) && CanDo(s, Assign(id, r.id)) && Describes(Next(s, Assign(id, r.id)), g)
    {
      hide Inv, WeakInv, Next, NextHeap, FlagsAre, WeaksAre, FactoriesAre, Named, Abstract, Assigned;
      HandleReady(s, g, id);
      HandleReady(s, g, r.id);
      AssignIs(s, id, r.id);
      assert forall fl | fl in Flags(g.os) :: allocated(fl);
      SetPointer(r.ptr, s.pointers, g);
      assert Named(g.hs, g.os) && Abstract(g.hs, g.os) == s.heap && FlagsAre(s.isValid, s.invalidations, g.os);
      flag.CopyAssign(r.flag, g.hs, g.os);
    }

    method MoveAssign(r: WeakPtr, ghost s: State, ghost g: Objects)
      requires Describes(s, g) && id in g.ws && g.ws[id] == this && r.id in g.ws && g.ws[r.id] == r
      modifies this, flag, r.flag, g.os.Values
      ensures ptr == old(r.ptr) && CanDo(s, AssignMove(id, r.id)) && Describes(Next(s, AssignMove(id, r.id)), g)
    {
      hide Inv, WeakInv, Next, NextHeap, FlagsAre, WeaksAre, FactoriesAre, Named, Abstract, MoveAssigned;
      HandleReady(s, g, id);
      HandleReady(s, g, r.id);
      AssignIs(s, id, r.id);
      assert forall fl | fl in Flags(g.os) :: allocated(fl);
      SetPointer(r.ptr, s.pointers, g);
      assert Named(g.hs, g.os) && Abstract(g.hs, g.os) == s.heap && FlagsAre(s.isValid, s.invalidations, g.os);
      flag.MoveAssign(r.flag, g.hs, g.os);
    }

    method Reset(ghost s: State, ghost g: Objects)
      requires Describes(s, g) && id in g.ws && g.ws[id] == this
      modifies flag, g.os.Values
      ensures CanDo(s, WeakOp.Reset(id)) && Describes(Next(s, WeakOp.Reset(id)), g)
    {
      hide Inv, WeakInv, Next, NextHeap, FlagsApart, Named, Abstract, Destroyed;
      HandleReady(s, g, id);
      NextIs(s, WeakOp.Reset(id));
      flag.Clear(g.hs, g.os);
    }

    method Destruct(ghost s: State, ghost g: Objects)
      requires Describes(s, g) && id in g.ws && g.ws[id] == this
      modifies g.os.Values
      ensures CanDo(s, DestroyWeak(id))
      ensures Describes(Next(s, DestroyWeak(id)), g.(hs := g.hs - {OfWeak(id)}, ws := g.ws - {id}))
    {
      hide Inv, WeakInv, Next, NextHeap, FlagsApart, Named, Abstract, Destroyed;
      HandleReady(s, g, id);
      NextIs(s, DestroyWeak(id));
      flag.Destruct(g.hs, g.os);
    }
  }

  class WeakPtrFactory {
    ghost const id: nat
    const ptr: Pointer
    const flag: RefPtr

    constructor (ghost f: nat, target: Pointer, ghost s: State, ghost g: Objects)
      requires Describes(s, g) && f !in g.os
      ensures id == f && ptr == target && CanDo(s, NewFactory(f, target)) && flag.ptr != null
      ensures Describes(Next(s, NewFactory(f, target)),
                        g.(hs := g.hs[OfFactory(f) := flag], os := g.os[f := flag.ptr], fs := g.fs[f := this]))
    {
      hide Inv, WeakInv, Next, NextHeap, FlagsAre, WeaksAre, FactoriesAre, Named, Abstract, Made;
      NotYet(s, g, f);
      NewFactoryIs(s, f, target);
      var handle := MakeFlag(f, s.isValid, s.invalidations, g.hs, g.os);
      ghost var more := g.os[f := handle.ptr];
      assert forall fl | fl in Flags(more) :: allocated(fl);
      id, ptr, flag := f, target, handle;
      new;
      FactoryAdded(s, g, this);
    }

    method GetWeakPtr(ghost w: nat, ghost s: State, ghost g: Objects) returns (weak: WeakPtr)
      requires Describes(s, g) && id in g.fs && g.fs[id] == this && w !in g.ws
      modifies g.os.Values
      ensures weak.id == w && weak.ptr == ptr && weak.flag.ptr == flag.ptr && CanDo(s, WeakOp.GetWeakPtr(id, w))
      ensures Describes(Next(s, WeakOp.GetWeakPtr(id, w)),
                        g.(hs := g.hs[OfWeak(w) := weak.flag], ws := g.ws[w := weak]))
    {
      hide Inv, WeakInv, Next, NextHeap, FlagsApart, Named, Abstract, Copied;
      FactoryReady(s, g, id);
      NextIs(s, WeakOp.GetWeakPtr(id, w));
      NoHandleYet(s, g, w);
      var handle := new RefPtr.Copy(OfWeak(w), flag, g.hs, g.os);
      weak := new WeakPtr.Of(w, ptr, handle);
    }

    method Destruct(ghost s: State, ghost g: Objects)
      requires Describes(s, g) && id in g.fs && g.fs[id] == this
      modifies g.os.Values, Flags(g.os)
      ensures CanDo(s, DestroyFactory(id))
      ensures Describes(Next(s, DestroyFactory(id)), g.(hs := g.hs - {OfFactory(id)}, fs := g.fs - {id}))
    {
      hide Inv, WeakInv, Next, NextHeap, FlagsAre, WeaksAre, FactoriesAre, Named, Abstract, Destroyed;
      FactoryReady(s, g, id);
      DestroyFactoryIs(s, id);
      FactoryGone(s, g, id);
      assert forall fl | fl in Flags(g.os) :: allocated(fl);
      InvalidateFlag(flag.ptr, s.isValid, s.invalidations, g.os);
      assert Named(g.hs, g.os) && Abstract(g.hs, g.os) == s.heap;
      flag.Destruct(g.hs, g.os);
    }
  }
}
