/** Delayed tasks and the scheduling order: earlier target time first, and among equal
    times the task registered first.  A heap of tasks is treated as a set: order numbers
    are never reused, so two pending tasks never coincide (see `TaskQueues.Unique`). */
module DelayedTasks {

  /** The categories of work; only `DartMicroTasks` goes to the pausable heap. */
  datatype Grade = UserInteraction | DartMicroTasks | Unspecified

  /** The identity of a closure; what it does when it runs is given separately. */
  type Closure = nat

  datatype DelayedTask = DelayedTask(order: nat, closure: Closure, time: int, grade: Grade)

  /** `operator>`: `a` is scheduled after `b`. */
  predicate After(a: DelayedTask, b: DelayedTask) {
    if a.time == b.time then a.order > b.order else a.time > b.time
  }

  /** `t` is what `top()` may return on a heap holding exactly `heap`. */
  predicate IsTop(t: DelayedTask, heap: set<DelayedTask>) {
    t in heap && forall u | u in heap :: !After(t, u)
  }

  /** No two tasks share an order number. */
  ghost predicate DistinctOrders(tasks: set<DelayedTask>) {
    forall t, u | t in tasks && u in tasks && t.order == u.order :: t == u
  }

  lemma {:induction false} TopExists(heap: set<DelayedTask>)
    requires heap != {}
    ensures exists t :: IsTop(t, heap)
    decreases |heap|
  {
    var x :| x in heap;
    var rest := heap - {x};
    assert forall u | u in heap :: u == x || u in rest;
    if rest == {} {
      assert IsTop(x, heap);
    } else {
      TopExists(rest);
      var t :| IsTop(t, rest);
      assert IsTop(if After(t, x) then x else t, heap);
    }
  }

  lemma TopIsUnique(heap: set<DelayedTask>, t: DelayedTask, u: DelayedTask)
    requires DistinctOrders(heap) && IsTop(t, heap) && IsTop(u, heap)
    ensures t == u
  {
    assert !After(t, u) && !After(u, t);
  }

  /** The head of a flat priority queue holding `heap`. */
  ghost function Earliest(heap: set<DelayedTask>): (t: DelayedTask)
    requires heap != {}
    ensures IsTop(t, heap)
  {
    TopExists(heap);
    var t :| IsTop(t, heap);
    t
  }

  /** The scheduling order as promised: earlier time first, then first registered. */
  ghost predicate Before(a: DelayedTask, b: DelayedTask) {
    a.time < b.time || (a.time == b.time && a.order < b.order)
  }

  /** `ts` lists tasks strictly in scheduling order. */
  ghost predicate Ascending(ts: seq<DelayedTask>) {
    forall i, j | 0 <= i < j < |ts| :: Before(ts[i], ts[j])
  }
}
