/** The message loop on top of the dispatcher: posting, flushing expired tasks, terminating. */
module MessageLoops {
  import opened Options
  import opened DelayedTasks
  import opened TaskSources
  import opened TaskQueues
  import opened Ownership
  import opened Dispatcher
  import Observations

  /** What a closure does to the loops: it posts to the loop of a queue, or terminates the loop
      it runs on (the closure posted by `Thread::Join` does). */
  datatype Action = Posting(q: Id, closure: Closure, time: int) | Terminating

  /** What running a closure does, step by step, the observers run after it included. */
  type Effect = seq<Action>

  type Script = Closure -> Effect

  /** The dispatcher, and the queues whose loops are terminated. */
  datatype Loop = Loop(queues: Queues, terminated: set<Id>)

  datatype FlushType = Single | All

  /** A post goes to a queue that exists, unless its loop drops it. */
  ghost predicate KnownAction(l: Loop, a: Action) {
    a.Posting? ==> a.q in l.terminated || a.q in l.queues.entries
  }

  ghost predicate Known(l: Loop, e: Effect) {
    forall a | a in e :: KnownAction(l, a)
  }

  /** One action of a closure that runs on the loop of `q`; a terminated loop drops posts. */
  ghost function Act(l: Loop, q: Id, a: Action): Loop
    requires Inv(l.queues) && KnownAction(l, a)
  {
    match a
    case Posting(p, closure, time) =>
      if p in l.terminated then l else l.(queues := Register(l.queues, p, closure, time, Unspecified))
    case Terminating => l.(terminated := l.terminated + {q})
  }

  /** The same queues in the same families. */
  ghost predicate SameFamilies(s: Queues, r: Queues) {
    && s.entries.Keys == r.entries.Keys
    && forall q | q in s.entries ::
         r.entries[q].ownerOf == s.entries[q].ownerOf && r.entries[q].subsumedBy == s.entries[q].subsumedBy
  }

  /** The visible tasks of the loop on queue `q` that are due at `now`. */
  ghost function Due(s: Queues, q: Id, now: int): set<DelayedTask>
    requires q in s.entries
  {
    if Subsumed(s, q) then {} else set t | t in VisibleTasks(s, q) && t.time <= now
  }

  /** A post to the queues this loop serves is for later than `now`, or dropped. */
  ghost predicate ActsLater(l: Loop, q: Id, now: int, a: Action)
    requires q in l.queues.entries
  {
    a.Posting? && a.q in Family(l.queues, q) ==> a.time > now || a.q in l.terminated
  }

  ghost predicate AllLater(l: Loop, q: Id, now: int, e: Effect)
    requires q in l.queues.entries
  {
    forall a | a in e :: ActsLater(l, q, now, a)
  }

  /** The closures that are due post to queues that exist... */
  ghost predicate KnownQueues(l: Loop, q: Id, now: int, script: Script)
    requires q in l.queues.entries
  {
    forall t | t in Due(l.queues, q, now) :: Known(l, script(t.closure))
  }

  /** ... and, to the queues this loop serves, for later than `now`. */
  ghost predicate Polite(l: Loop, q: Id, now: int, script: Script)
    requires q in l.queues.entries
  {
    forall t | t in Due(l.queues, q, now) :: AllLater(l, q, now, script(t.closure))
  }

  /** `r` shows what `s` shows and, besides, only tasks posted since for later than `now`. */
  ghost predicate GrewLater(s: Queues, r: Queues, q: Id, now: int)
    requires q in s.entries && q in r.entries
  {
    && VisibleTasks(s, q) <= VisibleTasks(r, q)
    && forall u | u in VisibleTasks(r, q) && u !in VisibleTasks(s, q) :: u.time > now
  }

  lemma RegisteredShows(s: Queues, p: Id, t: DelayedTask, q: Id)
    requires p in s.entries && q in s.entries && t.grade == Unspecified
    ensures VisibleTasks(Registered(s, p, t), q) == VisibleTasks(s, q) + (if p in Family(s, q) then {t} else {})
  {
    var r := Registered(s, p, t);
    assert Family(r, q) == Family(s, q);
    forall u ensures u in VisibleTasks(r, q) <==> u in VisibleTasks(s, q) || (u == t && p in Family(s, q)) {
      if u in VisibleTasks(r, q) {
        var a :| a in Family(r, q) && a in r.entries && u in r.entries[a].source.Visible();
        assert u in s.entries[a].source.Visible() || (a == p && u == t);
      }
      if u in VisibleTasks(s, q) {
        var a :| a in Family(s, q) && a in s.entries && u in s.entries[a].source.Visible();
        assert u in r.entries[a].source.Visible();
      }
      if u == t && p in Family(s, q) {
        assert u in r.entries[p].source.Visible();
      }
    }
  }

  lemma RegisterShows(s: Queues, p: Id, closure: Closure, time: int, q: Id)
    requires Inv(s) && p in s.entries && q in s.entries
    ensures var r := Register(s, p, closure, time, Unspecified);
            var t := DelayedTask(s.order, closure, time, Unspecified);
            && SameFamilies(s, r) && r.order == s.order + 1
            && VisibleTasks(r, q) == VisibleTasks(s, q) + (if p in Family(s, q) then {t} else {})
  {
    var t := DelayedTask(s.order, closure, time, Unspecified);
    var added := Registered(s, p, t);
    RearmSame(added, LoopToWake(s, p));
    SameVisible(added, Rearm(added, LoopToWake(s, p)), q);
    RegisteredShows(s, p, t, q);
  }

  lemma ActGrows(l: Loop, q: Id, now: int, a: Action)
    requires Inv(l.queues) && q in l.queues.entries && KnownAction(l, a) && ActsLater(l, q, now, a)
    ensures SameFamilies(l.queues, Act(l, q, a).queues)
    ensures GrewLater(l.queues, Act(l, q, a).queues, q, now)
  {
    if a.Posting? && a.q !in l.terminated {
      RegisterShows(l.queues, a.q, a.closure, a.time, q);
    }
  }

  lemma ActKeeps(l: Loop, q: Id, a: Action)
    requires Inv(l.queues) && KnownAction(l, a)
    ensures var r := Act(l, q, a);
            && Inv(r.queues) && r.queues.entries.Keys == l.queues.entries.Keys && l.terminated <= r.terminated
            && forall e :: Known(l, e) ==> Known(r, e)
  {
    if a.Posting? && a.q !in l.terminated {
      RegisterKeepsInv(l.queues, a.q, a.closure, a.time, Unspecified);
    }
    var r := Act(l, q, a);
    assert forall b :: KnownAction(l, b) ==> KnownAction(r, b);
  }

  /** Running a closure. */
  ghost function RunEffect(l: Loop, q: Id, e: Effect): (r: Loop)
    requires Inv(l.queues) && Known(l, e)
    ensures Inv(r.queues) && l.terminated <= r.terminated
    decreases |e|
  {
    if e == [] then l else
      ActKeeps(l, q, e[0]);
      RunEffect(Act(l, q, e[0]), q, e[1..])
  }

  lemma LaterStays(l: Loop, r: Loop, q: Id, now: int, e: Effect)
    requires q in l.queues.entries && AllLater(l, q, now, e)
    requires SameFamilies(l.queues, r.queues) && l.terminated <= r.terminated
    ensures AllLater(r, q, now, e)
  {
    forall a | a in e ensures ActsLater(r, q, now, a) {
      assert ActsLater(l, q, now, a);
    }
  }

  lemma KnownStays(l: Loop, r: Loop, e: Effect)
    requires Known(l, e) && l.queues.entries.Keys == r.queues.entries.Keys && l.terminated <= r.terminated
    ensures Known(r, e)
  {
    forall a | a in e ensures KnownAction(r, a) {
      assert KnownAction(l, a);
    }
  }

  lemma {:induction false} EffectGrows(l: Loop, q: Id, now: int, e: Effect)
    requires Inv(l.queues) && q in l.queues.entries
    requires Known(l, e) && AllLater(l, q, now, e)
    ensures SameFamilies(l.queues, RunEffect(l, q, e).queues)
    ensures GrewLater(l.queues, RunEffect(l, q, e).queues, q, now)
    decreases |e|
  {
    hide Inv;
    if e != [] {
      var next := Act(l, q, e[0]);
      ActKeeps(l, q, e[0]);
      ActGrows(l, q, now, e[0]);
      LaterStays(l, next, q, now, e[1..]);
      EffectGrows(next, q, now, e[1..]);
    }
  }

  lemma PopShows(s: Queues, q: Id, now: int)
    requires Inv(s) && q in s.entries
    ensures var r := Pop(s, q, now);
            && Inv(r) && SameFamilies(s, r) && r.order == s.order
            && VisibleTasks(r, q) ==
                 VisibleTasks(s, q) - (match Handed(s, q, now) case None => {} case Some(t) => {t})
  {
    var r := Pop(s, q, now);
    var armed := Rearm(s, q);
    PopKeepsInv(s, q, now);
    RearmSame(s, q);
    SameVisible(s, armed, q);
    match Handed(s, q, now)
    case None =>
    case Some(t) => RemoveShows(armed, t, q);
  }

  lemma RemoveShows(s: Queues, t: DelayedTask, q: Id)
    requires q in s.entries
    ensures VisibleTasks(Remove(s, t), q) == VisibleTasks(s, q) - {t}
  {
    var r := Remove(s, t);
    forall u ensures u in VisibleTasks(r, q) <==> u in VisibleTasks(s, q) && u != t {
      if u in VisibleTasks(r, q) {
        var a :| a in Family(r, q) && a in r.entries && u in r.entries[a].source.Visible();
        assert a in Family(s, q) && u in s.entries[a].source.Visible();
      }
      if u in VisibleTasks(s, q) && u != t {
        var a :| a in Family(s, q) && a in s.entries && u in s.entries[a].source.Visible();
        assert a in Family(r, q) && u in r.entries[a].source.Visible();
      }
    }
  }

  /** What the next task, if one is due, needs in order to run. */
  ghost predicate RoundDefined(l: Loop, q: Id, now: int, script: Script) {
    && Inv(l.queues) && q in l.queues.entries
    && (Handed(l.queues, q, now).Some? ==> Known(l, script(Handed(l.queues, q, now).value.closure)))
  }

  /** One round of the flush loop: pop the head and run it. */
  ghost function Round(l: Loop, q: Id, now: int, script: Script): (r: Loop)
    requires RoundDefined(l, q, now, script) && Handed(l.queues, q, now).Some?
  {
    PopShows(l.queues, q, now);
    var popped := l.(queues := Pop(l.queues, q, now));
    var e := script(Handed(l.queues, q, now).value.closure);
    KnownStays(l, popped, e);
    RunEffect(popped, q, e)
  }

  /** What flushing everything needs: of the closures that will run, and no others. */
  ghost predicate FlushDefined(l: Loop, q: Id, now: int, script: Script) {
    Inv(l.queues) && q in l.queues.entries && KnownQueues(l, q, now, script) && Polite(l, q, now, script)
  }

  lemma HandedIsDue(s: Queues, q: Id, now: int)
    requires q in s.entries
    ensures Handed(s, q, now).Some? ==> Handed(s, q, now).value in Due(s, q, now)
  {
  }

  /** A flush is defined round by round. */
  lemma RoundIsDefined(l: Loop, q: Id, now: int, script: Script)
    requires FlushDefined(l, q, now, script)
    ensures RoundDefined(l, q, now, script)
  {
    HandedIsDue(l.queues, q, now);
  }

  /** A round takes one task out of those due, and nothing else. */
  lemma RoundTakesOne(l: Loop, q: Id, now: int, script: Script)
    requires RoundDefined(l, q, now, script) && Handed(l.queues, q, now).Some?
    requires AllLater(l, q, now, script(Handed(l.queues, q, now).value.closure))
    ensures var t, r := Handed(l.queues, q, now).value, Round(l, q, now, script);
            && Inv(r.queues) && SameFamilies(l.queues, r.queues) && l.terminated <= r.terminated
            && TakesOne(l.queues, r.queues, q, now, t)
  {
    hide Inv;
    var t := Handed(l.queues, q, now).value;
    PopShows(l.queues, q, now);
    var popped := l.(queues := Pop(l.queues, q, now));
    var e := script(t.closure);
    KnownStays(l, popped, e);
    LaterStays(l, popped, q, now, e);
    EffectGrows(popped, q, now, e);
    GrewAfterPop(l.queues, popped.queues, RunEffect(popped, q, e).queues, q, now, t);
  }

  ghost predicate TakesOne(s: Queues, r: Queues, q: Id, now: int, t: DelayedTask)
    requires q in s.entries && q in r.entries
  {
    && t in Due(s, q, now)
    && Due(r, q, now) == Due(s, q, now) - {t}
    && (forall u | u in VisibleTasks(s, q) && u != t :: u in VisibleTasks(r, q))
    && (forall u | u in VisibleTasks(r, q) && u !in VisibleTasks(s, q) :: u.time > now)
  }

  lemma GrewAfterPop(s: Queues, popped: Queues, r: Queues, q: Id, now: int, t: DelayedTask)
    requires q in s.entries && q in popped.entries && q in r.entries
    requires !Subsumed(s, q) && !Subsumed(popped, q) && !Subsumed(r, q)
    requires t in VisibleTasks(s, q) && t.time <= now
    requires VisibleTasks(popped, q) == VisibleTasks(s, q) - {t}
    requires GrewLater(popped, r, q, now)
    ensures TakesOne(s, r, q, now, t)
  {
  }

  lemma DefinedStays(l: Loop, r: Loop, q: Id, now: int, script: Script)
    requires FlushDefined(l, q, now, script) && Inv(r.queues)
    requires SameFamilies(l.queues, r.queues) && l.terminated <= r.terminated
    requires Due(r.queues, q, now) <= Due(l.queues, q, now)
    ensures FlushDefined(r, q, now, script)
  {
    hide Inv;
    forall t | t in Due(r.queues, q, now)
      ensures AllLater(r, q, now, script(t.closure)) && Known(r, script(t.closure))
    {
      LaterStays(l, r, q, now, script(t.closure));
      KnownStays(l, r, script(t.closure));
    }
  }

  /** All rounds until nothing due is left: the final state and the tasks run, in order. */
  ghost function Rounds(l: Loop, q: Id, now: int, script: Script): (r: (Loop, seq<DelayedTask>))
    requires FlushDefined(l, q, now, script)
    decreases |Due(l.queues, q, now)|
  {
    match Handed(l.queues, q, now)
    case None => (l.(queues := Pop(l.queues, q, now)), [])
    case Some(t) =>
      RoundIsDefined(l, q, now, script);
      var next := Round(l, q, now, script);
      NextRound(l, q, now, script);
      var rest := Rounds(next, q, now, script);
      (rest.0, [t] + rest.1)
  }

  lemma NextRound(l: Loop, q: Id, now: int, script: Script)
    requires FlushDefined(l, q, now, script) && Handed(l.queues, q, now).Some?
    ensures RoundDefined(l, q, now, script)
    ensures var t, r := Handed(l.queues, q, now).value, Round(l, q, now, script);
            && FlushDefined(r, q, now, script) && |Due(r.queues, q, now)| < |Due(l.queues, q, now)|
            && SameFamilies(l.queues, r.queues) && l.terminated <= r.terminated
            && TakesOne(l.queues, r.queues, q, now, t)
  {
    hide Inv;
    HandedIsDue(l.queues, q, now);
    RoundIsDefined(l, q, now, script);
    RoundTakesOne(l, q, now, script);
    hide Round;
    var r := Round(l, q, now, script);
    assert Due(r.queues, q, now) <= Due(l.queues, q, now);
    DefinedStays(l, r, q, now, script);
  }

  ghost predicate ArmedAtNext(s: Queues, q: Id)
    requires q in s.entries
  {
    HasPending(s, q) && s.entries[q].wakeable ==>
      s.entries[q].armed == Some(Earliest(VisibleTasks(s, q)).time)
  }

  /** `ran` is exactly what was due in `s`, in scheduling order, and `r` is what is left. */
  ghost predicate Flushed(s: Queues, r: Queues, q: Id, now: int, ran: seq<DelayedTask>)
    requires q in s.entries && q in r.entries
  {
    && Ascending(ran)
    && (forall t :: t in ran <==> t in Due(s, q, now))
    && Due(r, q, now) == {}
    && (forall u | u in VisibleTasks(s, q) && u !in ran :: u in VisibleTasks(r, q))
    && (forall u | u in VisibleTasks(r, q) && u !in VisibleTasks(s, q) :: u.time > now)
    && ArmedAtNext(r, q)
  }

  lemma LastRound(s: Queues, q: Id, now: int)
    requires Inv(s) && q in s.entries && Handed(s, q, now) == None
    ensures Flushed(s, Pop(s, q, now), q, now, [])
  {
    hide Inv;
    PopShows(s, q, now);
    assert VisibleTasks(Pop(s, q, now), q) == VisibleTasks(s, q);
    if HasPending(s, q) {
      var top := Earliest(VisibleTasks(s, q));
      assert forall u | u in VisibleTasks(s, q) :: !After(top, u);
    }
  }

  lemma HeadFirst(s: Queues, r: Queues, last: Queues, q: Id, now: int, t: DelayedTask, rest: seq<DelayedTask>)
    requires q in s.entries && q in r.entries && q in last.entries
    requires DistinctOrders(VisibleTasks(s, q)) && IsTop(t, VisibleTasks(s, q))
    requires TakesOne(s, r, q, now, t) && Flushed(r, last, q, now, rest)
    ensures Flushed(s, last, q, now, [t] + rest)
  {
    var ran := [t] + rest;
    forall u | u in rest ensures Before(t, u) {
      assert u in Due(s, q, now) && u != t && !After(t, u);
    }
    forall u ensures u in ran <==> u in Due(s, q, now) {
      assert u in ran <==> u == t || u in rest;
    }
    forall i, j | 0 <= i < j < |ran| ensures Before(ran[i], ran[j]) {
      assert ran[j] == rest[j - 1] && rest[j - 1] in rest;
      assert i > 0 ==> ran[i] == rest[i - 1];
    }
  }

  /** Flushing at `now` runs exactly the visible tasks due at `now`, each once, in scheduling
      order; it leaves the others, and on exit the queue is armed at its next task.  Only the
      closures that run must post for later. */
  lemma {:induction false} RoundsFlush(l: Loop, q: Id, now: int, script: Script)
    requires FlushDefined(l, q, now, script)
    ensures var (r, ran) := Rounds(l, q, now, script);
            && Inv(r.queues) && SameFamilies(l.queues, r.queues) && l.terminated <= r.terminated
            && Flushed(l.queues, r.queues, q, now, ran)
    decreases |Due(l.queues, q, now)|
  {
    match Handed(l.queues, q, now)
    case None =>
      PopShows(l.queues, q, now);
      LastRound(l.queues, q, now);
    case Some(t) =>
      NextRound(l, q, now, script);
      VisibleDistinct(l.queues, q);
      hide Inv, Round, FlushDefined, RoundDefined;
      var next := Round(l, q, now, script);
      RoundsFlush(next, q, now, script);
      var rest := Rounds(next, q, now, script);
      HeadFirst(l.queues, next.queues, rest.0.queues, q, now, t, rest.1);
  }

  /** Why closures must post for later: a loop whose task posts again for `now` or earlier has a
      task due after every round. */
  lemma RepostingNeverEnds(l: Loop, q: Id, now: int, script: Script, c: Closure, time: int)
    requires RoundDefined(l, q, now, script) && Handed(l.queues, q, now).Some? && q !in l.terminated
    requires script(Handed(l.queues, q, now).value.closure) == [Posting(q, c, time)] && time <= now
    ensures var r := Round(l, q, now, script).queues; q in r.entries && Handed(r, q, now).Some?
  {
    hide Inv;
    PopShows(l.queues, q, now);
    var popped := l.(queues := Pop(l.queues, q, now));
    var a := Posting(q, c, time);
    KnownStays(l, popped, [a]);
    assert KnownAction(popped, a) by {
      assert a in [a];
    }
    ActKeeps(popped, q, a);
    RegisterShows(popped.queues, q, c, time, q);
    var r := Act(popped, q, a);
    assert [a][1..] == [];
    assert RunEffect(popped, q, [a]) == r;
    var t := DelayedTask(popped.queues.order, c, time, Unspecified);
    assert t in VisibleTasks(r.queues, q);
    assert !After(Earliest(VisibleTasks(r.queues, q)), t);
  }

  // What the closures that run do

  /** `r` holds what `s` holds and one task more, `t` in queue `q`, which is new. */
  ghost predicate RegistersOne(s: Queues, r: Queues, q: Id, t: DelayedTask) {
    && r.order == s.order + 1 && !PendingAt(s, q, t)
    && forall p, u :: PendingAt(r, p, u) <==> PendingAt(s, p, u) || (p == q && u == t)
  }

  /** A post to a loop that is not terminated registers exactly the closure posted, for the time
      given, with the loop's queue; a terminated loop drops it; terminating does just that. */
  lemma ActMeans(l: Loop, q: Id, a: Action)
    requires Inv(l.queues) && KnownAction(l, a)
    ensures var r := Act(l, q, a);
            match a
            case Posting(p, closure, time) =>
              && r.terminated == l.terminated
              && (p in l.terminated ==> r.queues == l.queues)
              && (p !in l.terminated ==>
                    RegistersOne(l.queues, r.queues, p, DelayedTask(l.queues.order, closure, time, Unspecified)))
            case Terminating => r.queues == l.queues && r.terminated == l.terminated + {q}
  {
    if a.Posting? && a.q !in l.terminated {
      var op := OpRegister(a.q, a.closure, a.time, Unspecified);
      Observations.QueuesAre(l.queues, op);
      forall p, u
        ensures PendingAt(Step(l.queues, op), p, u) <==>
                PendingAt(l.queues, p, u)
                || (p == a.q && u == DelayedTask(l.queues.order, a.closure, a.time, Unspecified))
      {
        Observations.PendingIs(l.queues, op, p, u);
      }
      assert Unique(l.queues);
    }
  }

  /** The posts of an effect that reach the dispatcher: those to loops not terminated by then. */
  ghost function Reaching(terminated: set<Id>, q: Id, e: Effect): (posts: seq<Action>)
    ensures forall i | 0 <= i < |posts| :: posts[i].Posting?
    decreases |e|
  {
    if e == [] then []
    else if e[0].Terminating? then Reaching(terminated + {q}, q, e[1..])
    else (if e[0].q in terminated then [] else [e[0]]) + Reaching(terminated, q, e[1..])
  }

  /** What is terminated after an effect. */
  ghost function TerminatedBy(terminated: set<Id>, q: Id, e: Effect): set<Id> {
    if Terminating in e then terminated + {q} else terminated
  }

  /** Task `t` of queue `p` is one of `posts`, numbered in their order from `n`. */
  ghost predicate IsPost(posts: seq<Action>, n: nat, p: Id, t: DelayedTask) {
    && n <= t.order < n + |posts|
    && posts[t.order - n] == Posting(p, t.closure, t.time) && t.grade == Unspecified
  }

  /** From `l` to `r`, exactly the tasks `gone` left and exactly the posts of `e` that reach the
      dispatcher came, in their order. */
  ghost predicate Performed(l: Loop, r: Loop, q: Id, gone: seq<DelayedTask>, e: Effect) {
    var posts, n := Reaching(l.terminated, q, e), l.queues.order;
    && r.terminated == TerminatedBy(l.terminated, q, e)
    && r.queues.order == n + |posts|
    && forall p, t :: PendingAt(r.queues, p, t) <==>
         (PendingAt(l.queues, p, t) && t !in gone) || IsPost(posts, n, p, t)
  }

  lemma ActPerforms(l: Loop, q: Id, a: Action)
    requires Inv(l.queues) && KnownAction(l, a)
    ensures Performed(l, Act(l, q, a), q, [], [a])
  {
    ActMeans(l, q, a);
    hide Inv, Act;
    assert [a][1..] == [] && Reaching(l.terminated, q, []) == [] && Reaching(l.terminated + {q}, q, []) == [];
    var posts := Reaching(l.terminated, q, [a]);
    assert posts == if a.Posting? && a.q !in l.terminated then [a] else [];
  }

  lemma {:induction false} ReachingSplits(terminated: set<Id>, q: Id, e: Effect, f: Effect)
    ensures Reaching(terminated, q, e + f) ==
            Reaching(terminated, q, e) + Reaching(TerminatedBy(terminated, q, e), q, f)
    ensures TerminatedBy(terminated, q, e + f) == TerminatedBy(TerminatedBy(terminated, q, e), q, f)
    decreases |e|
  {
    if e == [] {
      assert e + f == f;
    } else {
      assert (e + f)[1..] == e[1..] + f;
      assert e == [e[0]] + e[1..];
      assert terminated + {q} + {q} == terminated + {q};
      ReachingSplits(if e[0].Terminating? then terminated + {q} else terminated, q, e[1..], f);
    }
  }

  lemma PostsSplit(a: seq<Action>, b: seq<Action>, n: nat, p: Id, t: DelayedTask)
    ensures IsPost(a + b, n, p, t) <==> IsPost(a, n, p, t) || IsPost(b, n + |a|, p, t)
  {
  }

  /** One performance after another; what leaves in the second was there before the first. */
  lemma PerformedTwice(l: Loop, m: Loop, r: Loop, q: Id, gone: seq<DelayedTask>, later: seq<DelayedTask>,
                       e: Effect, f: Effect)
    requires Performed(l, m, q, gone, e) && Performed(m, r, q, later, f)
    requires forall t | t in later :: t.order < l.queues.order
    ensures Performed(l, r, q, gone + later, e + f)
  {
    ReachingSplits(l.terminated, q, e, f);
    var a, b, n := Reaching(l.terminated, q, e), Reaching(m.terminated, q, f), l.queues.order;
    hide Reaching, TerminatedBy;
    forall p, t
      ensures PendingAt(r.queues, p, t) <==>
              (PendingAt(l.queues, p, t) && t !in gone + later) || IsPost(a + b, n, p, t)
    {
      PostsSplit(a, b, n, p, t);
    }
  }

  /** The whole closure runs: every post of it that no terminated loop drops is pending
      afterwards, numbered in order, nothing else changes hands, and if it terminates the loop,
      the loop is terminated. */
  lemma {:induction false} EffectPerforms(l: Loop, q: Id, e: Effect)
    requires Inv(l.queues) && Known(l, e)
    ensures Performed(l, RunEffect(l, q, e), q, [], e)
    decreases |e|
  {
    if e != [] {
      var next := Act(l, q, e[0]);
      ActKeeps(l, q, e[0]);
      ActPerforms(l, q, e[0]);
      EffectPerforms(next, q, e[1..]);
      hide Inv, Act, Performed;
      PerformedTwice(l, next, RunEffect(next, q, e[1..]), q, [], [], [e[0]], e[1..]);
      var none: seq<DelayedTask> := [];
      assert [e[0]] + e[1..] == e && none + none == none;
    }
  }

  /** What the tasks `ran` do, one after another. */
  ghost function EffectsOf(script: Script, ran: seq<DelayedTask>): Effect {
    if ran == [] then [] else script(ran[0].closure) + EffectsOf(script, ran[1..])
  }

  lemma PopPerforms(l: Loop, q: Id, now: int)
    requires Inv(l.queues) && q in l.queues.entries
    ensures Performed(l, l.(queues := Pop(l.queues, q, now)), q, Listed(Handed(l.queues, q, now)), [])
  {
    var op := OpPop(q, now);
    Observations.QueuesAre(l.queues, op);
    forall p, t
      ensures PendingAt(Step(l.queues, op), p, t) <==> PendingAt(l.queues, p, t) && Handed(l.queues, q, now) != Some(t)
    {
      Observations.PendingIs(l.queues, op, p, t);
    }
  }

  lemma RoundPerforms(l: Loop, q: Id, now: int, script: Script)
    requires RoundDefined(l, q, now, script)
    ensures var (r, ran) := OneRound(l, q, now, script); Performed(l, r, q, ran, EffectsOf(script, ran))
  {
    hide Inv;
    PopPerforms(l, q, now);
    match Handed(l.queues, q, now)
    case None =>
    case Some(t) =>
      var e := script(t.closure);
      PopShows(l.queues, q, now);
      var popped := l.(queues := Pop(l.queues, q, now));
      KnownStays(l, popped, e);
      EffectPerforms(popped, q, e);
      hide Performed, Pop;
      PerformedTwice(l, popped, RunEffect(popped, q, e), q, [t], [], [], e);
      assert [t] + [] == [t] && [] + e == e && [t][1..] == [] && e + [] == e;
      assert EffectsOf(script, [t]) == e;
  }

  lemma DueIsOld(s: Queues, q: Id, now: int, t: DelayedTask)
    requires Inv(s) && q in s.entries && t in Due(s, q, now)
    ensures t.order < s.order
  {
    var p :| p in Family(s, q) && p in s.entries && t in s.entries[p].source.Visible();
    assert PendingAt(s, p, t);
  }

  /** Flushing performs the closures of exactly the tasks it runs, in the order it runs them: from
      all queues together exactly those tasks are gone and exactly their posts have come. */
  lemma {:induction false} RoundsPerform(l: Loop, q: Id, now: int, script: Script)
    requires FlushDefined(l, q, now, script)
    ensures var (r, ran) := Rounds(l, q, now, script); Performed(l, r, q, ran, EffectsOf(script, ran))
    decreases |Due(l.queues, q, now)|
  {
    hide Inv, Performed;
    RoundIsDefined(l, q, now, script);
    RoundPerforms(l, q, now, script);
    if Handed(l.queues, q, now).Some? {
      var t := Handed(l.queues, q, now).value;
      NextRound(l, q, now, script);
      var next := Round(l, q, now, script);
      RoundsPerform(next, q, now, script);
      RoundsFlush(next, q, now, script);
      var (r, rest) := Rounds(next, q, now, script);
      forall u | u in rest ensures u.order < l.queues.order {
        DueIsOld(l.queues, q, now, u);
      }
      var e := script(t.closure);
      assert [t][1..] == [] && e + [] == e && EffectsOf(script, [t]) == e;
      PerformedTwice(l, next, r, q, [t], rest, e, EffectsOf(script, rest));
      assert ([t] + rest)[1..] == rest;
    }
  }

  /** Flushing a single task runs the first one due, if there is one. */
  lemma SingleRunsFirst(l: Loop, q: Id, now: int, script: Script)
    requires RoundDefined(l, q, now, script)
    ensures var ran := FlushResult(Single, l, q, now, script).1;
            && (ran == [] <==> Due(l.queues, q, now) == {}) && |ran| <= 1
            && (ran != [] ==> ran[0] in Due(l.queues, q, now)
                              && forall t | t in VisibleTasks(l.queues, q) && t != ran[0] :: Before(ran[0], t))
  {
    HandedIsDue(l.queues, q, now);
    VisibleDistinct(l.queues, q);
    hide Inv;
    if HasPending(l.queues, q) {
      var top := Earliest(VisibleTasks(l.queues, q));
      assert forall u | u in VisibleTasks(l.queues, q) :: !After(top, u);
    }
  }

  // A terminated loop accrues nothing

  lemma ActDropped(l: Loop, q: Id, a: Action)
    requires Inv(l.queues) && KnownAction(l, a) && q in l.queues.entries && q in l.terminated
    ensures q in Act(l, q, a).queues.entries
    ensures Act(l, q, a).queues.entries[q].source == l.queues.entries[q].source
  {
    if a.Posting? && a.q !in l.terminated {
      var t := DelayedTask(l.queues.order, a.closure, a.time, Unspecified);
      RearmSame(Registered(l.queues, a.q, t), LoopToWake(l.queues, a.q));
    }
  }

  lemma {:induction false} EffectDropped(l: Loop, q: Id, e: Effect)
    requires Inv(l.queues) && Known(l, e) && q in l.queues.entries && q in l.terminated
    ensures q in RunEffect(l, q, e).queues.entries
    ensures RunEffect(l, q, e).queues.entries[q].source == l.queues.entries[q].source
    decreases |e|
  {
    hide Inv;
    if e != [] {
      ActKeeps(l, q, e[0]);
      ActDropped(l, q, e[0]);
      EffectDropped(Act(l, q, e[0]), q, e[1..]);
    }
  }

  lemma PopShrinks(s: Queues, q: Id, now: int)
    requires q in s.entries
    ensures q in Pop(s, q, now).entries
    ensures Pop(s, q, now).entries[q].source.Pending() <= s.entries[q].source.Pending()
  {
    RearmSame(s, q);
  }

  /** While a terminated loop runs its last tasks, whatever they post, nothing new is ever
      registered to its queue. */
  lemma {:induction false} TerminatedAccruesNothing(l: Loop, q: Id, now: int, script: Script)
    requires FlushDefined(l, q, now, script) && q in l.terminated
    ensures var r := Rounds(l, q, now, script).0;
            && q in r.terminated && q in r.queues.entries
            && r.queues.entries[q].source.Pending() <= l.queues.entries[q].source.Pending()
    decreases |Due(l.queues, q, now)|
  {
    hide Inv;
    PopShrinks(l.queues, q, now);
    match Handed(l.queues, q, now)
    case None =>
    case Some(t) =>
      NextRound(l, q, now, script);
      PopShows(l.queues, q, now);
      var popped := l.(queues := Pop(l.queues, q, now));
      KnownStays(l, popped, script(t.closure));
      EffectDropped(popped, q, script(t.closure));
      TerminatedAccruesNothing(Round(l, q, now, script), q, now, script);
  }

  /** A new queue that gets its wakeable before any task can arrive. */
  method NewLoopQueue(queues: MessageLoopTaskQueues) returns (id: Id)
    requires queues.Valid()
    modifies queues
    ensures queues.Valid() && id in queues.entries
    ensures id == old(queues.nextId) && fresh(queues.Sources() - old(queues.Sources()))
    ensures id in Create(old(queues.State())).entries
    ensures queues.State() == SetWakeable(Create(old(queues.State())), id)
  {
    hide Inv;
    id := queues.CreateTaskQueue();
    queues.SetWakeable(id);
  }

  /** The `terminated_` flags of all loops, by queue. */
  class LoopFlags {
    var terminated: set<Id>

    constructor ()
      ensures terminated == {}
    {
      terminated := {};
    }
  }

  class MessageLoopImpl {
    const taskQueue: MessageLoopTaskQueues
    const flags: LoopFlags
    const queueId: Id

    ghost function State(): Loop
      reads this, flags, taskQueue, taskQueue.Sources()
    {
      Loop(taskQueue.State(), flags.terminated)
    }

    ghost predicate Valid()
      reads this, taskQueue, taskQueue.Sources()
    {
      taskQueue.Valid() && queueId in taskQueue.entries
    }

    /** Creates a queue for the loop and makes the loop its wakeable before any task can arrive. */
    constructor (queues: MessageLoopTaskQueues, loops: LoopFlags)
      requires queues.Valid()
      modifies queues, loops
      ensures Valid() && taskQueue == queues && flags == loops
      ensures queueId == old(queues.nextId) && fresh(queues.Sources() - old(queues.Sources()))
      ensures queueId in Create(old(queues.State())).entries
      ensures queues.State() == SetWakeable(Create(old(queues.State())), queueId)
      ensures flags.terminated == old(loops.terminated) - {queueId}
    {
      hide Inv, Create, SetWakeable;
      var id := NewLoopQueue(queues);
      taskQueue, flags, queueId := queues, loops, id;
      new;
      flags.terminated := flags.terminated - {id};
    }

    /** The post of a closure that runs on this loop to the loop of `q`, this one or another. */
    method PostTask(q: Id, closure: Closure, time: int)
      requires Valid() && KnownAction(State(), Posting(q, closure, time))
      modifies taskQueue, taskQueue.Sources()
      ensures Valid() && taskQueue.Sources() == old(taskQueue.Sources())
      ensures Inv(old(State()).queues) && KnownAction(old(State()), Posting(q, closure, time))
      ensures State() == Act(old(State()), queueId, Posting(q, closure, time))
      ensures q in flags.terminated ==> State() == old(State())
      ensures q !in flags.terminated ==>
                RegistersOne(old(State()).queues, State().queues, q,
                             DelayedTask(old(State()).queues.order, closure, time, Unspecified))
    {
      hide Inv, RegistersOne;
      ActMeans(State(), queueId, Posting(q, closure, time));
      if q in flags.terminated {
        return;
      }
      taskQueue.RegisterTask(q, closure, time, Unspecified);
    }

    method DoTerminate()
      modifies flags
      ensures flags.terminated == old(flags.terminated) + {queueId}
    {
      flags.terminated := flags.terminated + {queueId};
    }

    method Perform(a: Action)
      requires Valid() && KnownAction(State(), a)
      modifies flags, taskQueue, taskQueue.Sources()
      ensures Valid() && taskQueue.Sources() == old(taskQueue.Sources())
      ensures Inv(old(State()).queues) && KnownAction(old(State()), a)
      ensures State() == Act(old(State()), queueId, a)
    {
      hide Inv;
      match a {
        case Posting(q, closure, time) => PostTask(q, closure, time);
        case Terminating => DoTerminate();
      }
    }

    /** Runs a closure, action by action. */
    method RunClosure(e: Effect)
      requires Valid() && Known(State(), e)
      modifies flags, taskQueue, taskQueue.Sources()
      ensures Valid() && taskQueue.Sources() == old(taskQueue.Sources())
      ensures Inv(old(State()).queues) && Known(old(State()), e)
      ensures State() == RunEffect(old(State()), queueId, e)
      ensures Performed(old(State()), State(), queueId, [], e)
    {
      hide Inv, Act, KnownAction, Performed;
      ghost var l := State();
      var i := 0;
      assert e[0..] == e;
      while i < |e|
        invariant 0 <= i <= |e|
        invariant Valid() && taskQueue.Sources() == old(taskQueue.Sources())
        invariant Known(State(), e[i..])
        invariant RunEffect(State(), queueId, e[i..]) == RunEffect(l, queueId, e)
      {
        ghost var before := State();
        assert e[i] in e[i..];
        ActKeeps(before, queueId, e[i]);
        Perform(e[i]);
        assert e[i..][1..] == e[i + 1..];
        i := i + 1;
      }
      EffectPerforms(l, queueId, e);
    }

    /** One turn of the flush loop: fetch the next task and run it. */
    method FlushOne(now: int, script: Script) returns (invocation: Option<DelayedTask>)
      requires Valid() && RoundDefined(State(), queueId, now, script)
      modifies flags, taskQueue, taskQueue.Sources()
      ensures Valid() && taskQueue.Sources() == old(taskQueue.Sources())
      ensures RoundDefined(old(State()), queueId, now, script)
      ensures invocation == Handed(old(State()).queues, queueId, now)
      ensures (State(), Listed(invocation)) == OneRound(old(State()), queueId, now, script)
    {
      hide Inv, Act;
      ghost var l := State();
      PopShows(l.queues, queueId, now);
      invocation := taskQueue.GetNextTaskToRun(queueId, now);
      if invocation != None {
        KnownStays(l, State(), script(invocation.value.closure));
        RunClosure(script(invocation.value.closure));
      }
    }

    /** The do-while loop: pop at a fixed `now`, run, stop after one round for `Single`. */
    method FlushTasks(kind: FlushType, now: int, script: Script) returns (ran: seq<DelayedTask>)
      requires Valid() && CanFlush(kind, State(), queueId, now, script)
      modifies flags, taskQueue, taskQueue.Sources()
      ensures Valid() && taskQueue.Sources() == old(taskQueue.Sources())
      ensures CanFlush(kind, old(State()), queueId, now, script)
      ensures (State(), ran) == FlushResult(kind, old(State()), queueId, now, script)
    {
      hide Inv, RoundDefined, FlushDefined;
      ghost var l := State();
      ran := [];
      var going := true;
      while going
        invariant Valid() && taskQueue.Sources() == old(taskQueue.Sources())
        invariant CanFlush(kind, l, queueId, now, script)
        invariant if going then FlushAhead(kind, l, State(), ran, queueId, now, script)
                  else (State(), ran) == FlushResult(kind, l, queueId, now, script)
        decreases going, if going then |Due(State().queues, queueId, now)| else 0
      {
        ghost var before := State();
        RoundAdvances(kind, l, before, ran, queueId, now, script);
        var invocation := FlushOne(now, script);
        ran := ran + Listed(invocation);
        going := invocation != None && kind == All;
      }
    }

    /** The part of `DoRun` after the platform's `Run`.  Once terminated, the loop's own posts
        are dropped, so only posts to the other queues of its family must be for later. */
    method FinishRun(now: int, script: Script) returns (ran: seq<DelayedTask>)
      requires Valid() && taskQueue.entries[queueId].subsumedBy == Unmerged
      requires FlushDefined(State().(terminated := flags.terminated + {queueId}), queueId, now, script)
      modifies flags, taskQueue, taskQueue.Sources()
      ensures Valid() && queueId in old(State()).queues.entries && queueId in State().queues.entries
      ensures RunFinished(old(State()), State(), queueId, now, script, ran)
    {
      hide Inv, FlushDefined, Rounds, RunFinished;
      ghost var started := State();
      ghost var l := started.(terminated := flags.terminated + {queueId});
      flags.terminated := flags.terminated + {queueId};
      assert State() == l;
      assert !Subsumed(l.queues, queueId);
      ran := FlushTasks(All, now, script);
      ghost var flushed := State();
      FinishedBy(started, flushed, queueId, now, script, ran);
      taskQueue.DisposeTasks(queueId);
      assert State() == flushed.(queues := DisposeTasks(flushed.queues, queueId));
    }
  }

  /** What `DoRun` does once the platform's `Run` has returned: refuse further posts, run what
      has expired, destroy the rest; other loops keep their tasks and get what was posted. */
  ghost predicate RunFinished(l: Loop, r: Loop, q: Id, now: int, script: Script, ran: seq<DelayedTask>)
    requires q in l.queues.entries && q in r.queues.entries
  {
    && q in r.terminated
    && Ascending(ran)
    && (forall t :: t in ran <==> t in Due(l.queues, q, now))
    && SameFamilies(l.queues, r.queues)
    && (forall p | p in Family(r.queues, q) && p in r.queues.entries ::
          r.queues.entries[p].source.Pending() == {})
    && (forall p, t | p !in Family(l.queues, q) ::
          (PendingAt(r.queues, p, t) <==>
           (PendingAt(l.queues, p, t) && t !in ran)
           || IsPost(Reaching(l.terminated + {q}, q, EffectsOf(script, ran)), l.queues.order, p, t)))
  }

  lemma FinishedBy(l: Loop, r: Loop, q: Id, now: int, script: Script, ran: seq<DelayedTask>)
    requires FlushDefined(l.(terminated := l.terminated + {q}), q, now, script) && !Subsumed(l.queues, q)
    requires (r, ran) == Rounds(l.(terminated := l.terminated + {q}), q, now, script)
    ensures q in r.queues.entries && !Subsumed(r.queues, q)
    ensures RunFinished(l, r.(queues := DisposeTasks(r.queues, q)), q, now, script, ran)
  {
    hide Inv, EffectsOf, Reaching;
    var last := l.(terminated := l.terminated + {q});
    RoundsFlush(last, q, now, script);
    RoundsPerform(last, q, now, script);
    DisposeOnly(r.queues, q);
  }

  lemma DisposeOnly(s: Queues, q: Id)
    requires q in s.entries
    ensures forall p, t | p !in Family(s, q) :: PendingAt(DisposeTasks(s, q), p, t) <==> PendingAt(s, p, t)
  {
  }

  function Listed(t: Option<DelayedTask>): seq<DelayedTask> {
    match t case None => [] case Some(u) => [u]
  }

  /** What flushing a single task does. */
  ghost function OneRound(l: Loop, q: Id, now: int, script: Script): (Loop, seq<DelayedTask>)
    requires RoundDefined(l, q, now, script)
  {
    match Handed(l.queues, q, now)
    case None => (l.(queues := Pop(l.queues, q, now)), [])
    case Some(t) => (Round(l, q, now, script), [t])
  }

  /** Flushing one task asks nothing about when its closure posts. */
  ghost predicate CanFlush(kind: FlushType, l: Loop, q: Id, now: int, script: Script) {
    match kind case All => FlushDefined(l, q, now, script) case Single => RoundDefined(l, q, now, script)
  }

  ghost function FlushResult(kind: FlushType, l: Loop, q: Id, now: int, script: Script): (Loop, seq<DelayedTask>)
    requires CanFlush(kind, l, q, now, script)
  {
    match kind case All => Rounds(l, q, now, script) case Single => OneRound(l, q, now, script)
  }

  /** From the current state `c`, with `ran` run so far, the flush still ends as promised. */
  ghost predicate FlushAhead(kind: FlushType, l: Loop, c: Loop, ran: seq<DelayedTask>, q: Id, now: int, script: Script)
    requires CanFlush(kind, l, q, now, script)
  {
    && CanFlush(kind, c, q, now, script)
    && FlushResult(kind, c, q, now, script).0 == FlushResult(kind, l, q, now, script).0
    && ran + FlushResult(kind, c, q, now, script).1 == FlushResult(kind, l, q, now, script).1
  }

  lemma RoundAdvances(kind: FlushType, l: Loop, c: Loop, ran: seq<DelayedTask>, q: Id, now: int, script: Script)
    requires CanFlush(kind, l, q, now, script) && FlushAhead(kind, l, c, ran, q, now, script)
    ensures RoundDefined(c, q, now, script) && q in c.queues.entries
    ensures var (next, listed) := OneRound(c, q, now, script);
            if Handed(c.queues, q, now) != None && kind == All then
              && FlushAhead(kind, l, next, ran + listed, q, now, script)
              && q in next.queues.entries
              && |Due(next.queues, q, now)| < |Due(c.queues, q, now)|
            else (next, ran + listed) == FlushResult(kind, l, q, now, script)
  {
    hide Inv, Polite, KnownQueues, Pop, Round, Known;
    if kind == All {
      RoundIsDefined(c, q, now, script);
      if Handed(c.queues, q, now) != None {
        var t := Handed(c.queues, q, now).value;
        NextRound(c, q, now, script);
        var next := Round(c, q, now, script);
        var rest := Rounds(next, q, now, script).1;
        assert ran + [t] + rest == ran + ([t] + rest);
      }
    }
  }
}
