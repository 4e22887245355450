/** The doubly linked pool that keeps phantom references reachable
    (NativeObjectReference.ReferencePool). */
module ReferencePools {

  class NativeObjectReference {
    var prev: NativeObjectReference?
    var next: NativeObjectReference?

    constructor ()
      ensures prev == null && next == null
    {
      prev, next := null, null;
    }
  }

  type Chain = seq<NativeObjectReference>

  ghost predicate Distinct(s: Chain) {
    forall i, j | 0 <= i < j < |s| :: s[i] != s[j]
  }

  lemma Apart(s: Chain, k: nat, j: nat)
    requires Distinct(s) && j < |s|
    ensures j != k ==> At(s, k) != s[j]
    ensures j != k - 1 ==> At(s, k - 1) != s[j]
    ensures j != k + 1 ==> At(s, k + 1) != s[j]
  {
  }

  ghost function Refs(s: Chain): set<NativeObjectReference> {
    set r | r in s
  }

  ghost function At(s: Chain, i: int): NativeObjectReference? {
    if 0 <= i < |s| then s[i] else null
  }

  ghost function Without(s: Chain, ref: NativeObjectReference): (r: Chain)
    ensures ref !in r
    ensures ref !in s ==> r == s
  {
    if s == [] then [] else if s[0] == ref then Without(s[1..], ref) else [s[0]] + Without(s[1..], ref)
  }

  /** An element after the first is an element of the tail, and the tail's slices are the
      whole's. */
  lemma TailSlices(s: Chain, k: nat)
    requires 0 < k < |s|
    ensures s[1..][k - 1] == s[k] && [s[0]] + s[1..][..k - 1] == s[..k] && s[1..][k..] == s[k + 1..]
  {
  }

  lemma TailDistinct(s: Chain)
    requires Distinct(s) && s != []
    ensures Distinct(s[1..]) && s[0] !in s[1..]
  {
  }

  lemma {:induction false} WithoutAt(s: Chain, k: nat)
    requires Distinct(s) && k < |s|
    ensures Without(s, s[k]) == s[..k] + s[k + 1..]
  {
    hide Distinct;
    TailDistinct(s);
    if k > 0 {
      TailSlices(s, k);
      assert s[0] != s[k];
      WithoutAt(s[1..], k - 1);
      assert Without(s, s[k]) == [s[0]] + (s[1..][..k - 1] + s[1..][k..]);
    }
  }

  /** Where the elements around a removed one come from. */
  ghost function Source(k: nat, i: int): int { if i < k then i else i + 1 }

  lemma WithoutIndex(s: Chain, k: nat, i: int)
    requires Distinct(s) && k < |s|
    ensures |Without(s, s[k])| == |s| - 1
    ensures At(Without(s, s[k]), i) == if 0 <= i < |s| - 1 then At(s, Source(k, i)) else null
  {
    WithoutAt(s, k);
  }

  lemma {:induction false} WithoutKeeps(s: Chain, ref: NativeObjectReference)
    ensures forall x :: x in Without(s, ref) <==> x in s && x != ref
    ensures Distinct(s) ==> Distinct(Without(s, ref))
  {
    if s != [] {
      WithoutKeeps(s[1..], ref);
      if Distinct(s) {
        assert Distinct(s[1..]);
        assert s[0] !in s[1..];
      }
    }
  }

  /** Link number `i`, in both directions; null stands at both ends. */
  ghost predicate LinkedAt(s: Chain, i: nat)
    requires i < |s|
    reads s[i]
  {
    s[i].next == At(s, i + 1) && s[i].prev == At(s, i - 1)
  }

  /** The list that `head`, `next` and `prev` form is exactly `s`. */
  ghost predicate Linked(head: NativeObjectReference?, s: Chain)
    reads Refs(s)
  {
    head == At(s, 0) && forall i | 0 <= i < |s| :: LinkedAt(s, i)
  }

  class ReferencePool {
    var head: NativeObjectReference?
    /** What the list holds, from the head. */
    ghost var members: Chain

    ghost predicate Valid()
      reads this, Refs(members)
    {
      Distinct(members) && Linked(head, members)
    }

    constructor ()
      ensures Valid() && members == []
    {
      head, members := null, [];
    }

    method Add(ref: NativeObjectReference)
      requires Valid() && ref !in members
      modifies this, ref, head
      ensures Valid() && members == Apply(old(members), Added(ref))
    {
      ghost var was := members;
      ref.prev := null;
      ref.next := head;
      if head != null {
        head.prev := ref;
      }
      head := ref;
      members := [ref] + was;
      forall i | 0 <= i < |members| ensures LinkedAt(members, i) {
        if i > 0 {
          assert old(LinkedAt(was, i - 1)) && members[i] == was[i - 1];
        }
      }
    }

    /** Unlinks a member at any position. */
    method Remove(ref: NativeObjectReference)
      requires Valid() && ref in members
      modifies this, ref, ref.prev, ref.next
      ensures Valid() && members == Apply(old(members), Removed(ref))
      ensures ref.prev == null && ref.next == null
    {
      ghost var was := members;
      ghost var k :| 0 <= k < |was| && was[k] == ref;
      assert LinkedAt(was, k);
      var next := ref.next;
      var prev := ref.prev;
      ref.next := null;
      ref.prev := null;
      if prev != null {
        prev.next := next;
      } else {
        head := next;
      }
      if next != null {
        next.prev := prev;
      }
      members := Without(was, ref);
      WithoutKeeps(was, ref);
      WithoutIndex(was, k, 0);
      hide Without, Distinct;
      forall i | 0 <= i < |members| ensures LinkedAt(members, i) {
        WithoutIndex(was, k, i - 1);
        WithoutIndex(was, k, i);
        WithoutIndex(was, k, i + 1);
        assert old(LinkedAt(was, Source(k, i))) && members[i] == was[Source(k, i)];
        Apart(was, k, Source(k, i));
      }
    }
  }

  datatype PoolOp = Added(ref: NativeObjectReference) | Removed(ref: NativeObjectReference)

  ghost function Apply(s: Chain, op: PoolOp): Chain {
    match op case Added(ref) => [ref] + s case Removed(ref) => Without(s, ref)
  }

  /** Following `next` from `r` for as long as it leads to an unvisited reference of `s`. */
  ghost function Walk(r: NativeObjectReference?, s: set<NativeObjectReference>): Chain
    reads s
    decreases s
  {
    if r == null || r !in s then [] else [r] + Walk(r.next, s - {r})
  }

  lemma {:induction false} WalkFrom(head: NativeObjectReference?, s: Chain, k: nat)
    requires Distinct(s) && Linked(head, s) && k <= |s|
    ensures Walk(At(s, k), Refs(s[k..])) == s[k..]
    decreases |s| - k
  {
    if k < |s| {
      assert LinkedAt(s, k);
      assert s[k] == s[k..][0];
      assert Refs(s[k..]) - {s[k]} == Refs(s[k + 1..]) by {
        assert s[k..] == [s[k]] + s[k + 1..];
        assert s[k] !in s[k + 1..];
      }
      WalkFrom(head, s, k + 1);
    }
  }

  /** Traversing a valid pool visits its members once each, in order, and ends. */
  lemma TraversalIsMembers(pool: ReferencePool)
    requires pool.Valid()
    ensures Walk(pool.head, Refs(pool.members)) == pool.members
  {
    WalkFrom(pool.head, pool.members, 0);
    assert pool.members[0..] == pool.members;
  }

  // Whole histories

  ghost function After(ops: seq<PoolOp>): Chain {
    if ops == [] then [] else Apply(After(ops[..|ops| - 1]), ops[|ops| - 1])
  }

  /** Every reference is added at most once, by its constructor, and only members are removed. */
  ghost predicate ValidOps(ops: seq<PoolOp>) {
    ops == [] ||
    (var before, op := ops[..|ops| - 1], ops[|ops| - 1];
     ValidOps(before) && (op.Added? ==> op !in before) && (op.Removed? ==> op.ref in After(before)))
  }

  /** The members are the references added and not removed... */
  lemma {:induction false} MembersAre(ops: seq<PoolOp>)
    requires ValidOps(ops)
    ensures forall r :: r in After(ops) <==> Added(r) in ops && Removed(r) !in ops
    ensures forall r :: Removed(r) in ops ==> Added(r) in ops
    ensures Distinct(After(ops))
  {
    if ops != [] {
      var before, op := ops[..|ops| - 1], ops[|ops| - 1];
      MembersAre(before);
      assert ops == before + [op];
      WithoutKeeps(After(before), op.ref);
    }
  }

  /** ... in reverse order of adding. */
  lemma {:induction false} MembersInReverseOrder(ops: seq<PoolOp>, i: nat, j: nat, a: nat, b: nat)
    requires ValidOps(ops) && i < j < |After(ops)| && a < |ops| && b < |ops|
    requires ops[a] == Added(After(ops)[i]) && ops[b] == Added(After(ops)[j])
    ensures b < a
  {
    var before, op := ops[..|ops| - 1], ops[|ops| - 1];
    assert ops == before + [op];
    MembersAre(before);
    match op
    case Added(ref) =>
      if i > 0 {
        MembersInReverseOrder(before, i - 1, j - 1, a, b);
      }
    case Removed(ref) =>
      var s := After(before);
      var k :| 0 <= k < |s| && s[k] == ref;
      WithoutIndex(s, k, i);
      WithoutIndex(s, k, j);
      hide Without, Distinct, ValidOps;
      MembersInReverseOrder(before, Source(k, i), Source(k, j), a, b);
  }
}
