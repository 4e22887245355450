/** `RefPtr` and the counted base class as they are: pointer fields and counts changed in
    place.  Each operation is proved to be the step of the same name on the abstract heap of
    all handles `hs` and all objects `os`. */
module RefPtrs {
  import opened Options
  import opened RefCounting
  import opened WeakPtrFlags

  /** A counted object; `flag` is its derived part if it is a weak-pointer flag. */
  class RefCounted {
    ghost const id: ObjectId
    const flag: WeakPtrFlag?
    var refCount: nat
    var adoptionRequired: bool
    var destructionStarted: bool
    ghost var frees: nat

    ghost function Model(): Counted
      reads this
    {
      Counted(refCount, adoptionRequired, destructionStarted, frees)
    }

    constructor (ghost name: ObjectId, f: WeakPtrFlag?)
      ensures id == name && flag == f && Model() == Counted(1, true, false, 0)
    {
      id, flag := name, f;
      refCount, adoptionRequired, destructionStarted, frees := 1, true, false, 0;
    }

    method Adopt()
      requires adoptionRequired
      modifies this
      ensures Model() == old(Model()).(adoptionRequired := false)
    {
      adoptionRequired := false;
    }

    method AddRef()
      requires !adoptionRequired && !destructionStarted
      modifies this
      ensures Model() == old(Model()).(refCount := old(refCount) + 1)
    {
      refCount := refCount + 1;
    }

    /** Deletes the object when this was the last reference. */
    method Release()
      requires !adoptionRequired && !destructionStarted && refCount != 0
      modifies this
      ensures Model() == if old(refCount) == 1
                         then old(Model()).(refCount := 0, destructionStarted := true, frees := old(frees) + 1)
                         else old(Model()).(refCount := old(refCount) - 1)
    {
      refCount := refCount - 1;
      if refCount == 0 {
        destructionStarted := true;
        frees := frees + 1;
      }
    }
  }

  type HandleMap = map<HandleId, RefPtr>
  type ObjectMap = map<ObjectId, RefCounted>

  ghost function Target(p: RefCounted?): Option<ObjectId> {
    if p == null then None else Some(p.id)
  }

  ghost function Abstract(hs: HandleMap, os: ObjectMap): Heap
    reads hs.Values, os.Values
  {
    Heap(map o | o in os :: os[o].Model(), map h | h in hs :: Target(hs[h].ptr))
  }

  /** Names are faithful and every pointer is to a known object. */
  ghost predicate Named(hs: HandleMap, os: ObjectMap)
    reads hs.Values
  {
    && (forall o | o in os :: os[o].id == o)
    && (forall h | h in hs :: hs[h].id == h)
    && (forall h | h in hs && hs[h].ptr != null :: hs[h].ptr.id in os && os[hs[h].ptr.id] == hs[h].ptr)
  }

  ghost predicate World(hs: HandleMap, os: ObjectMap)
    reads hs.Values, os.Values
  {
    Named(hs, os) && Inv(Abstract(hs, os))
  }

  /** A handle seen on the abstract heap. */
  lemma HandleSeen(hs: HandleMap, os: ObjectMap, h: HandleId)
    requires Named(hs, os) && h in hs
    ensures h in Abstract(hs, os).handles && Abstract(hs, os).handles[h] == Target(hs[h].ptr)
    ensures hs[h].ptr != null ==> hs[h].ptr.id in os && os[hs[h].ptr.id] == hs[h].ptr
  {
  }

  lemma NoHandle(hs: HandleMap, os: ObjectMap, h: HandleId)
    requires h !in hs
    ensures h !in Abstract(hs, os).handles
  {
  }

  lemma HandleAdded(hs: HandleMap, os: ObjectMap, name: HandleId, r: RefPtr)
    requires Named(hs, os) && r.id == name && (r.ptr != null ==> r.ptr.id in os && os[r.ptr.id] == r.ptr)
    ensures Named(hs[name := r], os)
    ensures Abstract(hs[name := r], os) == Point(Abstract(hs, os), name, Target(r.ptr))
  {
    assert Abstract(hs[name := r], os).objects == Abstract(hs, os).objects;
    assert Abstract(hs[name := r], os).handles == Abstract(hs, os).handles[name := Target(r.ptr)];
  }

  lemma HandleRemoved(hs: HandleMap, os: ObjectMap, name: HandleId)
    requires Named(hs, os)
    ensures Named(hs - {name}, os)
    ensures Abstract(hs - {name}, os) == Abstract(hs, os).(handles := Abstract(hs, os).handles - {name})
  {
    assert Abstract(hs - {name}, os).objects == Abstract(hs, os).objects;
    assert Abstract(hs - {name}, os).handles == Abstract(hs, os).handles - {name};
  }

  /** A new object and its first handle, after adoption. */
  lemma ObjectAdded(hs: HandleMap, os: ObjectMap, r: RefPtr, c: RefCounted)
    requires Named(hs, os) && c.id !in os && r.ptr == c && c.Model() == Counted(1, false, false, 0)
    ensures Named(hs[r.id := r], os[c.id := c])
    ensures Abstract(hs[r.id := r], os[c.id := c]) == Made(Abstract(hs, os), r.id, c.id)
  {
    var after := Made(Abstract(hs, os), r.id, c.id);
    assert Abstract(hs[r.id := r], os[c.id := c]).objects == after.objects;
    assert Abstract(hs[r.id := r], os[c.id := c]).handles == after.handles;
  }

  /** `AddRef` seen on the abstract heap. */
  method Retain(p: RefCounted, ghost hs: HandleMap, ghost os: ObjectMap)
    requires Named(hs, os) && p.id in os && os[p.id] == p && Usable(Abstract(hs, os), p.id)
    modifies p
    ensures Usable(old(Abstract(hs, os)), p.id) && Abstract(hs, os) == AddRef(old(Abstract(hs, os)), p.id)
  {
    assert Abstract(hs, os).objects[p.id] == p.Model();
    p.AddRef();
    assert Abstract(hs, os).objects == AddRef(old(Abstract(hs, os)), p.id).objects;
  }

  /** `Release` seen on the abstract heap. */
  method Drop(p: RefCounted, ghost hs: HandleMap, ghost os: ObjectMap)
    requires Named(hs, os) && p.id in os && os[p.id] == p
    requires Usable(Abstract(hs, os), p.id) && Abstract(hs, os).objects[p.id].refCount != 0
    modifies p
    ensures Usable(old(Abstract(hs, os)), p.id) && old(Abstract(hs, os)).objects[p.id].refCount != 0
    ensures Abstract(hs, os) == Release(old(Abstract(hs, os)), p.id)
  {
    assert Abstract(hs, os).objects[p.id] == p.Model();
    p.Release();
    assert Abstract(hs, os).objects == Release(old(Abstract(hs, os)), p.id).objects;
  }

  class RefPtr {
    ghost const id: HandleId
    var ptr: RefCounted?

    /** `AdoptRef(new T)`. */
    constructor Make(ghost name: HandleId, p: RefCounted)
      requires p.adoptionRequired
      modifies p
      ensures id == name && ptr == p && p.Model() == old(p.Model()).(adoptionRequired := false)
    {
      id := name;
      ptr := p;
      new;
      p.Adopt();
    }

    constructor Null(ghost name: HandleId, ghost hs: HandleMap, ghost os: ObjectMap)
      requires Named(hs, os) && name !in hs
      ensures id == name && ptr == null && Named(hs[name := this], os)
      ensures Abstract(hs[name := this], os) == Point(old(Abstract(hs, os)), name, None)
    {
      id := name;
      ptr := null;
      new;
      HandleAdded(hs, os, name, this);
    }

    /** From a plain pointer, to an adopted object or null. */
    constructor FromPointer(ghost name: HandleId, p: RefCounted?, ghost hs: HandleMap, ghost os: ObjectMap)
      requires World(hs, os) && name !in hs
      requires p != null ==> p.id in os && os[p.id] == p && Usable(Abstract(hs, os), p.id)
      modifies if p == null then {} else {p}
      ensures id == name && ptr == p && Named(hs[name := this], os)
      ensures var op := if p == null then RefCounting.Null(name) else RefCounting.FromPointer(name, p.id);
              && Inv(old(Abstract(hs, os))) && Enabled(old(Abstract(hs, os)), op)
              && Abstract(hs[name := this], os) == Step(old(Abstract(hs, os)), op)
    {
      hide Inv, Abstract;
      NoHandle(hs, os, name);
      id := name;
      ptr := p;
      new;
      HandleAdded(hs, os, name, this);
      if ptr != null {
        Retain(ptr, hs[name := this], os);
      }
    }

    constructor Copy(ghost name: HandleId, r: RefPtr, ghost hs: HandleMap, ghost os: ObjectMap)
      requires World(hs, os) && r.id in hs && hs[r.id] == r && name !in hs
      modifies os.Values
      ensures id == name && ptr == r.ptr && Named(hs[name := this], os)
      ensures Inv(old(Abstract(hs, os))) && r.id in old(Abstract(hs, os)).handles
      ensures Abstract(hs[name := this], os) == Copied(old(Abstract(hs, os)), name, r.id)
    {
      hide Inv, Abstract;
      ghost var heap := Abstract(hs, os);
      HandleSeen(hs, os, r.id);
      HandleIsUsable(heap, r.id);
      id := name;
      ptr := r.ptr;
      new;
      HandleAdded(hs, os, name, this);
      if ptr != null {
        Retain(ptr, hs[name := this], os);
      }
    }

    constructor Move(ghost name: HandleId, r: RefPtr, ghost hs: HandleMap, ghost os: ObjectMap)
      requires Named(hs, os) && r.id in hs && hs[r.id] == r && name !in hs
      modifies r
      ensures id == name && ptr == old(r.ptr) && r.ptr == null && Named(hs[name := this], os)
      ensures r.id in old(Abstract(hs, os)).handles
      ensures Abstract(hs[name := this], os) == Moved(old(Abstract(hs, os)), name, r.id)
    {
      hide Inv, Abstract;
      HandleSeen(hs, os, r.id);
      id := name;
      ptr := r.ptr;
      new;
      HandleAdded(hs, os, name, this);
      r.Repoint(null, hs[name := this], os);
    }

    /** The destructor: the handle itself is gone afterwards. */
    method Destruct(ghost hs: HandleMap, ghost os: ObjectMap)
      requires World(hs, os) && id in hs && hs[id] == this
      modifies os.Values
      ensures Named(hs - {id}, os)
      ensures Inv(old(Abstract(hs, os))) && id in old(Abstract(hs, os)).handles
      ensures Abstract(hs - {id}, os) == Destroyed(old(Abstract(hs, os)), id)
    {
      hide Inv, Abstract;
      HandleSeen(hs, os, id);
      HandleIsUsable(Abstract(hs, os), id);
      HandleRemoved(hs, os, id);
      if ptr != null {
        Drop(ptr, hs - {id}, os);
      }
    }

    /** Assigning null: the handle lets go of its object and points nowhere. */
    method Clear(ghost hs: HandleMap, ghost os: ObjectMap)
      requires World(hs, os) && id in hs && hs[id] == this
      modifies this, os.Values
      ensures Named(hs, os) && ptr == null
      ensures Inv(old(Abstract(hs, os))) && id in old(Abstract(hs, os)).handles
      ensures Abstract(hs, os) == Point(Destroyed(old(Abstract(hs, os)), id), id, None)
    {
      hide Inv, Abstract;
      ghost var heap := Abstract(hs, os);
      HandleSeen(hs, os, id);
      HandleIsUsable(heap, id);
      var oldPtr := ptr;
      Repoint(null, hs, os);
      assert (heap.handles - {id})[id := None] == heap.handles[id := None];
      if oldPtr != null {
        Drop(oldPtr, hs, os);
      }
    }

    method Swap(r: RefPtr, ghost hs: HandleMap, ghost os: ObjectMap)
      requires Named(hs, os) && id in hs && hs[id] == this && r.id in hs && hs[r.id] == r
      modifies this, r
      ensures Named(hs, os) && ptr == old(r.ptr) && r.ptr == old(ptr)
      ensures id in old(Abstract(hs, os)).handles && r.id in old(Abstract(hs, os)).handles
      ensures Abstract(hs, os) == Swapped(old(Abstract(hs, os)), id, r.id)
    {
      var p := ptr;
      ptr := r.ptr;
      r.ptr := p;
      ghost var after := Swapped(old(Abstract(hs, os)), id, r.id);
      assert Abstract(hs, os).objects == after.objects;
      assert Abstract(hs, os).handles == after.handles;
    }

    method CopyAssign(r: RefPtr, ghost hs: HandleMap, ghost os: ObjectMap)
      requires World(hs, os) && id in hs && hs[id] == this && r.id in hs && hs[r.id] == r
      modifies this, os.Values
      ensures Named(hs, os) && ptr == r.ptr
      ensures Inv(old(Abstract(hs, os))) && id in old(Abstract(hs, os)).handles && r.id in old(Abstract(hs, os)).handles
      ensures Abstract(hs, os) == Assigned(old(Abstract(hs, os)), id, r.id)
    {
      hide Inv, Abstract;
      ghost var heap := Abstract(hs, os);
      HandleSeen(hs, os, id);
      HandleSeen(hs, os, r.id);
      HandleIsUsable(heap, id);
      HandleIsUsable(heap, r.id);
      if r.ptr == ptr {
        return;
      }
      if r.ptr != null {
        Retain(r.ptr, hs, os);
      }
      var oldPtr := ptr;
      Repoint(r.ptr, hs, os);
      if oldPtr != null {
        Drop(oldPtr, hs, os);
      }
    }

    method Repoint(p: RefCounted?, ghost hs: HandleMap, ghost os: ObjectMap)
      requires Named(hs, os) && id in hs && hs[id] == this && (p != null ==> p.id in os && os[p.id] == p)
      modifies this
      ensures Named(hs, os) && ptr == p && Abstract(hs, os) == Point(old(Abstract(hs, os)), id, Target(p))
    {
      ptr := p;
      assert Abstract(hs, os).objects == old(Abstract(hs, os)).objects;
      assert Abstract(hs, os).handles == old(Abstract(hs, os)).handles[id := Target(p)];
    }

    /** `RefPtr(std::move(r)).swap(*this)`; self-move included. */
    method MoveAssign(r: RefPtr, ghost hs: HandleMap, ghost os: ObjectMap)
      requires World(hs, os) && id in hs && hs[id] == this && r.id in hs && hs[r.id] == r && Temporary !in hs
      modifies this, r, os.Values
      ensures Named(hs, os)
      ensures Inv(old(Abstract(hs, os))) && Enabled(old(Abstract(hs, os)), RefCounting.MoveAssign(id, r.id))
      ensures Abstract(hs, os) == MoveAssigned(old(Abstract(hs, os)), id, r.id)
    {
      ghost var heap := Abstract(hs, os);
      MovedKeepsInv(heap, Temporary, r.id);
      var temp := new RefPtr.Move(Temporary, r, hs, os);
      ghost var all := hs[Temporary := temp];
      SwappedKeepsInv(Abstract(all, os), Temporary, id);
      temp.Swap(this, all, os);
      temp.Destruct(all, os);
      assert all - {Temporary} == hs;
    }
  }
}
