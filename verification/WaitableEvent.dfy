/** The manual-reset event: any number of threads signal, reset and wait, interleaved at the
    points where the mutex is free, with spurious wake-ups and time-outs. */
module WaitableEvents {

  /** `signal_id_` is an unsigned 32-bit counter. */
  const ID_MODULUS: nat := 0x1_0000_0000

  datatype Event = Event(signaled: bool, signalId: nat)

  const NEW_EVENT := Event(false, 0)

  function Signalled(e: Event): Event {
    Event(true, (e.signalId + 1) % ID_MODULUS)
  }

  function Cleared(e: Event): Event {
    e.(signaled := false)
  }

  /** The condition under which a blocked call leaves its wait loop. */
  predicate Exit(e: Event, lastSignalId: nat, timed: bool) {
    e.signalId != lastSignalId || (timed && e.signaled)
  }

  /** The event's fields, and the stretches of its methods that run under the mutex. */
  class ManualResetWaitableEvent {
    var signaled: bool
    var signalId: nat

    function Model(): Event
      reads this
    {
      Event(signaled, signalId)
    }

    constructor ()
      ensures Model() == NEW_EVENT
    {
      signaled, signalId := false, 0;
    }

    method Signal()
      modifies this
      ensures Model() == Signalled(old(Model()))
      ensures signaled && signalId == (old(signalId) + 1) % ID_MODULUS
    {
      signaled := true;
      signalId := (signalId + 1) % ID_MODULUS;
    }

    method Reset()
      modifies this
      ensures Model() == Cleared(old(Model()))
      ensures !signaled && signalId == old(signalId)
    {
      signaled := false;
    }

    /** A wait call up to its first sleep: it returns at once, or remembers the signal number. */
    method BeginWait(timed: bool) returns (done: bool, lastSignalId: nat)
      ensures done == signaled && lastSignalId == signalId
      ensures done == (signaled || Exit(Model(), lastSignalId, timed))
    {
      if signaled {
        return true, signalId;
      }
      done, lastSignalId := false, signalId;
    }
  }

  // The protocol

  /** One call of a waiting method. `since` counts the signals given before it blocked. */
  datatype Call =
    | Blocked(lastSignalId: nat, timed: bool, asleep: bool, since: nat)
    | Returned(timedOut: bool)

  type CallId = nat

  /** `signals` counts every signal ever given. */
  datatype State = State(event: Event, calls: map<CallId, Call>, signals: nat)

  const NEW_STATE := State(NEW_EVENT, map[], 0)

  datatype Op =
    | Signal
    | Reset
    | Wait(c: CallId, timed: bool)
    /** Woken with no signal. */
    | Spurious(c: CallId)
    /** Awake and holding the mutex again; `elapsed` says whether the time is up. */
    | Recheck(c: CallId, elapsed: bool)
    /** The condition variable itself reports a time-out. */
    | Expire(c: CallId)

  predicate Enabled(s: State, op: Op) {
    match op
    case Signal => true
    case Reset => true
    case Wait(c, _) => c !in s.calls
    case Spurious(c) => c in s.calls && s.calls[c].Blocked? && s.calls[c].asleep
    case Recheck(c, _) => c in s.calls && s.calls[c].Blocked? && !s.calls[c].asleep
    case Expire(c) => c in s.calls && s.calls[c].Blocked? && s.calls[c].timed
  }

  function Woken(call: Call): Call {
    if call.Blocked? then call.(asleep := false) else call
  }

  /** What an awake call does once it has the mutex. */
  function Rechecked(e: Event, call: Call, elapsed: bool): Call
    requires call.Blocked?
  {
    if Exit(e, call.lastSignalId, call.timed) then Returned(false)
    else if call.timed && elapsed then Returned(true)
    else call.(asleep := true)
  }

  function Step(s: State, op: Op): State
    requires Enabled(s, op)
  {
    match op
    case Signal =>
      State(Signalled(s.event), map c | c in s.calls :: Woken(s.calls[c]), s.signals + 1)
    case Reset => s.(event := Cleared(s.event))
    case Wait(c, timed) =>
      s.(calls := s.calls[c := if s.event.signaled then Returned(false)
                               else Blocked(s.event.signalId, timed, true, s.signals)])
    case Spurious(c) => s.(calls := s.calls[c := Woken(s.calls[c])])
    case Recheck(c, elapsed) => s.(calls := s.calls[c := Rechecked(s.event, s.calls[c], elapsed)])
    case Expire(c) => s.(calls := s.calls[c := Returned(true)])
  }

  ghost predicate ValidRun(s: State, ops: seq<Op>)
    decreases |ops|
  {
    ops == [] || (Enabled(s, ops[0]) && ValidRun(Step(s, ops[0]), ops[1..]))
  }

  ghost function Run(s: State, ops: seq<Op>): State
    requires ValidRun(s, ops)
    decreases |ops|
  {
    if ops == [] then s else Run(Step(s, ops[0]), ops[1..])
  }

  ghost function SignalsIn(ops: seq<Op>): nat {
    if ops == [] then 0 else (if ops[0].Signal? then 1 else 0) + SignalsIn(ops[1..])
  }

  /** A call sleeps only while nothing has been signalled since it last looked, and its record
      of the signal number is the number of signals before it, truncated. */
  ghost predicate CallInv(s: State, call: Call) {
    match call
    case Blocked(lastSignalId, timed, asleep, since) =>
      && since <= s.signals
      && lastSignalId == since % ID_MODULUS
      && (s.event.signaled ==> since < s.signals)
      && (asleep ==> !Exit(s.event, lastSignalId, timed))
    case Returned(timedOut) => timedOut || s.signals > 0
  }

  ghost predicate Inv(s: State) {
    && s.event.signalId == s.signals % ID_MODULUS
    && (s.event.signaled ==> s.signals > 0)
    && (forall c | c in s.calls :: CallInv(s, s.calls[c]))
  }

  lemma StepKeepsInv(s: State, op: Op)
    requires Inv(s) && Enabled(s, op)
    ensures Inv(Step(s, op))
  {
    var r := Step(s, op);
    assert r.event.signalId == r.signals % ID_MODULUS;
    forall c | c in r.calls ensures CallInv(r, r.calls[c]) {
      assert c in s.calls ==> CallInv(s, s.calls[c]);
    }
  }

  lemma {:induction false} RunKeepsInv(s: State, ops: seq<Op>)
    requires Inv(s) && ValidRun(s, ops)
    ensures Inv(Run(s, ops)) && Run(s, ops).signals == s.signals + SignalsIn(ops)
    decreases |ops|
  {
    if ops != [] {
      StepKeepsInv(s, ops[0]);
      RunKeepsInv(Step(s, ops[0]), ops[1..]);
    }
  }

  /** A call that is blocked in the end was blocked throughout, with the same record. */
  lemma {:induction false} StillBlocked(s: State, ops: seq<Op>, c: CallId)
    requires ValidRun(s, ops) && c in s.calls
    ensures var r := Run(s, ops);
            && c in r.calls
            && (s.calls[c].Returned? ==> r.calls[c] == s.calls[c])
            && (r.calls[c].Blocked? ==> r.calls[c] == s.calls[c].(asleep := r.calls[c].asleep))
    decreases |ops|
  {
    if ops != [] {
      StillBlocked(Step(s, ops[0]), ops[1..], c);
    }
  }

  /** When a blocked call may leave: exactly when the number of signals since it blocked is
      not a multiple of 2^32 (or, for a timed call, the event is signaled now). Such a call is
      never asleep, so its next look at the event lets it go. Resets play no part. */
  lemma ReleasedIff(s: State, ops: seq<Op>, c: CallId)
    requires Inv(s) && ValidRun(s, ops)
    requires c in s.calls && c in Run(s, ops).calls && Run(s, ops).calls[c].Blocked?
    ensures s.calls[c].Blocked? && s.calls[c].since <= s.signals
    ensures var r, call := Run(s, ops), s.calls[c];
            && (Exit(r.event, call.lastSignalId, call.timed) <==>
                  (s.signals - call.since + SignalsIn(ops)) % ID_MODULUS != 0 || (call.timed && r.event.signaled))
            && (Exit(r.event, call.lastSignalId, call.timed) ==>
                  Enabled(r, Recheck(c, false)) && Step(r, Recheck(c, false)).calls[c] == Returned(false))
  {
    var r := Run(s, ops);
    RunKeepsInv(s, ops);
    StillBlocked(s, ops, c);
    assert CallInv(s, s.calls[c]) && CallInv(r, r.calls[c]);
    SameResidue(r.signals, s.calls[c].since);
  }

  lemma SameResidue(a: nat, b: nat)
    requires b <= a
    ensures a % ID_MODULUS == b % ID_MODULUS <==> (a - b) % ID_MODULUS == 0
  {
    var qa, qb, q := a / ID_MODULUS, b / ID_MODULUS, (a - b) / ID_MODULUS;
    assert a == qa * ID_MODULUS + a % ID_MODULUS && b == qb * ID_MODULUS + b % ID_MODULUS;
    assert a - b == q * ID_MODULUS + (a - b) % ID_MODULUS;
  }

  /** A call blocked when a signal is given can leave from then on, whatever resets, time-outs,
      other calls and spurious wake-ups follow, until 2^32 signals have been given since it
      blocked. */
  lemma SignalReleases(s: State, ops: seq<Op>, c: CallId)
    requires Inv(s) && c in s.calls && s.calls[c].Blocked?
    requires ValidRun(s, [Signal] + ops)
    requires s.signals - s.calls[c].since + 1 + SignalsIn(ops) < ID_MODULUS
    ensures var r := Run(s, [Signal] + ops);
            c in r.calls &&
            (r.calls[c].Blocked? ==>
               && Exit(r.event, r.calls[c].lastSignalId, r.calls[c].timed)
               && Enabled(r, Recheck(c, false))
               && Step(r, Recheck(c, false)).calls[c] == Returned(false))
  {
    StillBlocked(s, [Signal] + ops, c);
    assert ([Signal] + ops)[1..] == ops;
    assert SignalsIn([Signal] + ops) == 1 + SignalsIn(ops);
    assert CallInv(s, s.calls[c]);
    hide Run, ValidRun, Inv, SignalsIn;
    if Run(s, [Signal] + ops).calls[c].Blocked? {
      ReleasedIff(s, [Signal] + ops, c);
    }
  }

  // When the event is signaled, and how calls come to return

  /** The last signal or reset in `ops` is a signal; with neither, it is as it was. */
  ghost predicate LastIsSignal(ops: seq<Op>, before: bool) {
    if ops == [] then before
    else
      var op := ops[|ops| - 1];
      op.Signal? || (!op.Reset? && LastIsSignal(ops[..|ops| - 1], before))
  }

  lemma {:induction false} LastOfMore(op: Op, ops: seq<Op>, before: bool)
    ensures LastIsSignal([op] + ops, before) <==>
            LastIsSignal(ops, op.Signal? || (!op.Reset? && before))
  {
    var all := [op] + ops;
    if ops == [] {
      assert all[..|all| - 1] == [];
    } else {
      assert all[..|all| - 1] == [op] + ops[..|ops| - 1];
      LastOfMore(op, ops[..|ops| - 1], before);
    }
  }

  /** Over every run the event is signaled if and only if a signal came after the last reset, and
      a call of either waiting method returns at once exactly then and is blocked otherwise. */
  lemma {:induction false} SignaledIff(s: State, ops: seq<Op>, c: CallId, timed: bool)
    requires ValidRun(s, ops)
    ensures var r := Run(s, ops);
            && (r.event.signaled <==> LastIsSignal(ops, s.event.signaled))
            && (c !in r.calls ==>
                  var call := Step(r, Wait(c, timed)).calls[c];
                  if LastIsSignal(ops, s.event.signaled) then call == Returned(false)
                  else call == Blocked(r.event.signalId, timed, true, r.signals))
    decreases |ops|
  {
    if ops != [] {
      assert [ops[0]] + ops[1..] == ops;
      LastOfMore(ops[0], ops[1..], s.event.signaled);
      SignaledIff(Step(s, ops[0]), ops[1..], c, timed);
    }
  }

  /** One step and a blocked call: it returns without a time-out exactly when it looks and its
      exit condition holds, with one exactly when its time is up, and it is asleep afterwards
      exactly if it looked in vain or slept undisturbed. */
  lemma ReturnsIff(s: State, op: Op, c: CallId)
    requires Enabled(s, op) && c in s.calls && s.calls[c].Blocked?
    ensures var call := s.calls[c];
            var exit := Exit(s.event, call.lastSignalId, call.timed);
            var looks := op.Recheck? && op.c == c;
            var after := Step(s, op).calls[c];
            && (after == Returned(false) <==> looks && exit)
            && (after == Returned(true) <==> op == Expire(c) || (looks && !exit && call.timed && op.elapsed))
            && (after.Blocked? ==>
                  && (after.lastSignalId, after.timed, after.since) == (call.lastSignalId, call.timed, call.since)
                  && (after.asleep <==> looks || (call.asleep && op != Signal && op != Spurious(c))))
  {
  }

  /** A call that was blocked and returned did so for a reason: a signal given since it blocked,
      or a time-out if it is a timed call.  Spurious wake-ups alone release nobody. */
  lemma {:induction false} ReturnedForAReason(s: State, ops: seq<Op>, c: CallId)
    requires Inv(s) && ValidRun(s, ops) && c in s.calls && s.calls[c].Blocked?
    requires c in Run(s, ops).calls && Run(s, ops).calls[c].Returned?
    ensures if Run(s, ops).calls[c].timedOut then s.calls[c].timed
            else s.calls[c].since < s.signals + SignalsIn(ops)
    decreases |ops|
  {
    var next := Step(s, ops[0]);
    StepKeepsInv(s, ops[0]);
    assert CallInv(s, s.calls[c]);
    StillBlocked(next, ops[1..], c);
    RunKeepsInv(next, ops[1..]);
    if next.calls[c].Blocked? {
      ReturnedForAReason(next, ops[1..], c);
    }
  }

  // The bound is needed

  ghost function Signals(n: nat): seq<Op> {
    if n == 0 then [] else [Signal] + Signals(n - 1)
  }

  lemma {:induction false} OnlySignals(s: State, n: nat)
    ensures ValidRun(s, Signals(n)) && SignalsIn(Signals(n)) == n
    ensures n > 0 ==> Run(s, Signals(n)).event.signaled
    ensures forall c | c in s.calls && s.calls[c].Blocked? ::
              c in Run(s, Signals(n)).calls && Run(s, Signals(n)).calls[c].Blocked?
    decreases n
  {
    if n > 0 {
      assert Signals(n)[1..] == Signals(n - 1);
      OnlySignals(Step(s, Signal), n - 1);
    }
  }

  /** After exactly 2^32 signals the event is signaled and the waiting call goes back to sleep. */
  lemma WrapExample()
    ensures var waiting := Step(NEW_STATE, Wait(0, false));
            var ops := Signals(ID_MODULUS);
            && ValidRun(waiting, ops)
            && var r := Run(waiting, ops);
               && r.event.signaled && 0 in r.calls && r.calls[0].Blocked?
               && !Exit(r.event, r.calls[0].lastSignalId, false)
  {
    var waiting := Step(NEW_STATE, Wait(0, false));
    StepKeepsInv(NEW_STATE, Wait(0, false));
    OnlySignals(waiting, ID_MODULUS);
    StillBlocked(waiting, Signals(ID_MODULUS), 0);
    ReleasedIff(waiting, Signals(ID_MODULUS), 0);
  }
}
