/** A source of tasks: a primary heap and a secondary heap that can be paused. */
module TaskSources {
  import opened DelayedTasks

  /** The value of a task source. */
  datatype Source = Source(primary: set<DelayedTask>, secondary: set<DelayedTask>, pauses: nat) {

    /** Everything pending, paused or not. */
    ghost function Pending(): set<DelayedTask> { primary + secondary }

    /** What the dispatcher may see. */
    ghost function Visible(): set<DelayedTask> {
      if pauses == 0 then primary + secondary else primary
    }

    ghost function Add(t: DelayedTask): Source {
      if t.grade == DartMicroTasks then this.(secondary := secondary + {t})
      else this.(primary := primary + {t})
    }

    ghost function Without(t: DelayedTask): Source {
      this.(primary := primary - {t}, secondary := secondary - {t})
    }

    /** Each task sits in the heap its grade selects, so the heaps are disjoint. */
    ghost predicate Graded() {
      && (forall t | t in primary :: t.grade != DartMicroTasks)
      && (forall t | t in secondary :: t.grade == DartMicroTasks)
    }
  }

  const EMPTY_SOURCE := Source({}, {}, 0)

  class TaskSource {
    const queueId: nat
    var primary: set<DelayedTask>
    var secondary: set<DelayedTask>
    var pauses: nat

    ghost function Model(): Source
      reads this
    {
      Source(primary, secondary, pauses)
    }

    constructor (id: nat)
      ensures queueId == id && Model() == EMPTY_SOURCE
    {
      queueId := id;
      primary, secondary, pauses := {}, {}, 0;
    }

    method ShutDown()
      modifies this
      ensures Model() == old(Model()).(primary := {}, secondary := {})
    {
      primary := {};
      secondary := {};
    }

    method RegisterTask(t: DelayedTask)
      modifies this
      ensures Model() == old(Model()).Add(t)
    {
      match t.grade
      case UserInteraction => primary := primary + {t};
      case Unspecified => primary := primary + {t};
      case DartMicroTasks => secondary := secondary + {t};
    }

    /** Pops by grade alone; `t` is the heap's head, which is what the caller peeked. */
    method PopTask(grade: Grade, ghost t: DelayedTask)
      requires Model().Graded() && DistinctOrders(Model().Pending())
      requires t.grade == grade
      requires IsTop(t, if grade == DartMicroTasks then secondary else primary)
      modifies this
      ensures Model() == old(Model()).Without(t)
    {
      match grade {
        case DartMicroTasks =>
          TopExists(secondary);
          var top :| IsTop(top, secondary);
          TopIsUnique(secondary, t, top);
          secondary := secondary - {top};
        case _ =>
          TopExists(primary);
          var top :| IsTop(top, primary);
          TopIsUnique(primary, t, top);
          primary := primary - {top};
      }
    }

    method GetNumPendingTasks() returns (size: nat)
      requires Model().Graded()
      ensures size == |Model().Visible()|
    {
      size := |primary|;
      if pauses == 0 {
        size := size + |secondary|;
        assert primary !! secondary;
        assert |primary + secondary| == |primary| + |secondary|;
      }
    }

    method IsEmpty() returns (empty: bool)
      requires Model().Graded()
      ensures empty <==> Model().Visible() == {}
    {
      var size := GetNumPendingTasks();
      empty := size == 0;
    }

    /** The head of what is visible, and the head of the heap its grade selects. */
    method Top() returns (t: DelayedTask)
      requires Model().Graded() && Model().Visible() != {}
      ensures IsTop(t, Model().Visible())
      ensures IsTop(t, if t.grade == DartMicroTasks then secondary else primary)
    {
      if pauses > 0 || secondary == {} {
        assert primary != {};
        TopExists(primary);
        t :| IsTop(t, primary);
      } else if primary == {} {
        TopExists(secondary);
        t :| IsTop(t, secondary);
      } else {
        TopExists(primary);
        TopExists(secondary);
        var p :| IsTop(p, primary);
        var s :| IsTop(s, secondary);
        t := if After(p, s) then s else p;
      }
    }

    method PauseSecondary()
      modifies this
      ensures Model() == old(Model()).(pauses := old(pauses) + 1)
    {
      pauses := pauses + 1;
    }

    /** Pauses and resumes are balanced by the callers. */
    method ResumeSecondary()
      requires pauses > 0
      modifies this
      ensures Model() == old(Model()).(pauses := old(pauses) - 1)
    {
      pauses := pauses - 1;
    }
  }
}
