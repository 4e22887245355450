/** The count-down latch over a manual-reset event: counting down is one atomic decrement, and
    signalling is a later step of the call that reached zero. */
module CountDownLatches {
  import opened WaitableEvents

  /** `count_` is an atomic 64-bit unsigned number. */
  const SIZE_MODULUS: nat := 0x1_0000_0000_0000_0000

  type Size = n: nat | n < SIZE_MODULUS

  function Decremented(count: Size): Size {
    if count == 0 then SIZE_MODULUS - 1 else count - 1
  }

  /** The latch as one thread sees it: its two fields, and whole calls. */
  class CountDownLatch {
    var count: Size
    const waitableEvent: ManualResetWaitableEvent

    constructor (n: Size)
      ensures count == n && fresh(waitableEvent)
      ensures waitableEvent.Model() == if n == 0 then Signalled(NEW_EVENT) else NEW_EVENT
    {
      count := n;
      var event := new ManualResetWaitableEvent();
      waitableEvent := event;
      new;
      if count == 0 {
        waitableEvent.Signal();
      }
    }

    method CountDown()
      modifies this, waitableEvent
      ensures count == Decremented(old(count)) == (old(count) + SIZE_MODULUS - 1) % SIZE_MODULUS
      ensures waitableEvent.Model() ==
              if old(count) == 1 then Signalled(old(waitableEvent.Model())) else old(waitableEvent.Model())
    {
      count := Decremented(count);
      if count == 0 {
        waitableEvent.Signal();
      }
    }
  }

  // All threads together

  /** `decrements` counts the decrements so far; `signalling` the calls of `CountDown` that
      reached zero and have not signalled yet. */
  datatype Latch = Latch(count: Size, waits: State, decrements: nat, signalling: nat)

  function NewLatch(n: Size): Latch {
    Latch(n, if n == 0 then Step(NEW_STATE, Signal) else NEW_STATE, 0, 0)
  }

  datatype LatchOp =
    | Decrement
    | SignalZero
    | Waiting(op: Op)

  /** Calls of `Wait` on the latch are untimed, and nobody else signals or resets its event. */
  predicate CanDo(l: Latch, op: LatchOp) {
    match op
    case Decrement => true
    case SignalZero => l.signalling > 0
    case Waiting(w) => !w.Signal? && !w.Reset? && (w.Wait? ==> !w.timed) && Enabled(l.waits, w)
  }

  function Next(l: Latch, op: LatchOp): Latch
    requires CanDo(l, op)
  {
    match op
    case Decrement =>
      var count := Decremented(l.count);
      l.(count := count, decrements := l.decrements + 1,
         signalling := if count == 0 then l.signalling + 1 else l.signalling)
    case SignalZero => l.(waits := Step(l.waits, Signal), signalling := l.signalling - 1)
    case Waiting(w) => l.(waits := Step(l.waits, w))
  }

  ghost predicate ValidLatchRun(l: Latch, ops: seq<LatchOp>)
    decreases |ops|
  {
    ops == [] || (CanDo(l, ops[0]) && ValidLatchRun(Next(l, ops[0]), ops[1..]))
  }

  ghost function LatchRun(l: Latch, ops: seq<LatchOp>): Latch
    requires ValidLatchRun(l, ops)
    decreases |ops|
  {
    if ops == [] then l else LatchRun(Next(l, ops[0]), ops[1..])
  }

  ghost function DecrementsIn(ops: seq<LatchOp>): nat {
    if ops == [] then 0 else (if ops[0].Decrement? then 1 else 0) + DecrementsIn(ops[1..])
  }

  /** How often a counter started at `n` is zero, counting the start, within `d` decrements. */
  ghost function Zeros(n: Size, d: nat): nat {
    if d < n then 0 else 1 + (d - n) / SIZE_MODULUS
  }

  /** What the counter holds after `d` decrements. */
  ghost function CountAfter(n: Size, d: nat): Size {
    if d <= n then n - d else (SIZE_MODULUS - (d - n) % SIZE_MODULUS) % SIZE_MODULUS
  }

  lemma CountDownOnce(n: Size, d: nat)
    ensures CountAfter(n, d + 1) == Decremented(CountAfter(n, d))
    ensures Zeros(n, d + 1) == Zeros(n, d) + if CountAfter(n, d + 1) == 0 then 1 else 0
  {
    if d >= n {
      var k := d - n;
      var q, r := k / SIZE_MODULUS, k % SIZE_MODULUS;
      assert k == q * SIZE_MODULUS + r;
      if r == SIZE_MODULUS - 1 {
        assert k + 1 == (q + 1) * SIZE_MODULUS;
      } else {
        assert k + 1 == q * SIZE_MODULUS + (r + 1);
      }
    }
  }

  ghost predicate LatchInv(n: Size, l: Latch) {
    && Inv(l.waits)
    && l.count == CountAfter(n, l.decrements)
    && l.waits.signals + l.signalling == Zeros(n, l.decrements)
    && (l.waits.event.signaled <==> l.waits.signals > 0)
    && (forall c | c in l.waits.calls :: Untimed(l.waits.calls[c]))
  }

  /** A waiting call of the latch blocked before any signal and never times out. */
  ghost predicate Untimed(call: Call) {
    match call
    case Blocked(_, timed, _, since) => !timed && since == 0
    case Returned(timedOut) => !timedOut
  }

  lemma NewLatchInv(n: Size)
    ensures LatchInv(n, NewLatch(n))
  {
    StepKeepsInv(NEW_STATE, Signal);
  }

  lemma NextKeepsInv(n: Size, l: Latch, op: LatchOp)
    requires LatchInv(n, l) && CanDo(l, op)
    ensures LatchInv(n, Next(l, op))
    ensures l.waits.event.signaled ==> Next(l, op).waits.event.signaled
  {
    var r := Next(l, op);
    match op
    case Decrement => CountDownOnce(n, l.decrements);
    case SignalZero => StepKeepsInv(l.waits, Signal);
    case Waiting(w) => StepKeepsInv(l.waits, w);
  }

  lemma {:induction false} RunKeepsLatchInv(n: Size, l: Latch, ops: seq<LatchOp>)
    requires LatchInv(n, l) && ValidLatchRun(l, ops)
    ensures LatchInv(n, LatchRun(l, ops))
    ensures LatchRun(l, ops).decrements == l.decrements + DecrementsIn(ops)
    ensures l.waits.event.signaled ==> LatchRun(l, ops).waits.event.signaled
    decreases |ops|
  {
    if ops != [] {
      NextKeepsInv(n, l, ops[0]);
      RunKeepsLatchInv(n, Next(l, ops[0]), ops[1..]);
    }
  }

  /** In every interleaving, a finished `Wait` means that at least `n` decrements happened; the
      counter may wrap. */
  lemma FinishedWaitMeansZero(n: Size, ops: seq<LatchOp>, c: CallId)
    requires ValidLatchRun(NewLatch(n), ops)
    requires var l := LatchRun(NewLatch(n), ops); c in l.waits.calls && l.waits.calls[c].Returned?
    ensures DecrementsIn(ops) >= n
  {
    NewLatchInv(n);
    RunKeepsLatchInv(n, NewLatch(n), ops);
    var l := LatchRun(NewLatch(n), ops);
    assert CallInv(l.waits, l.waits.calls[c]) && Untimed(l.waits.calls[c]);
  }

  /** A call of `Wait` made now returns at once; a blocked one leaves when it looks next. */
  ghost predicate Passes(l: Latch, c: CallId) {
    if c !in l.waits.calls then Next(l, Waiting(Wait(c, false))).waits.calls[c] == Returned(false)
    else l.waits.calls[c].Returned?
         || (CanDo(l, Waiting(Recheck(c, false)))
             && Next(l, Waiting(Recheck(c, false))).waits.calls[c] == Returned(false))
  }

  lemma PassesIffSignalled(n: Size, l: Latch, c: CallId)
    requires LatchInv(n, l) && Zeros(n, l.decrements) < ID_MODULUS
    ensures Passes(l, c) <==> l.waits.signals > 0
  {
    assert c in l.waits.calls ==> CallInv(l.waits, l.waits.calls[c]) && Untimed(l.waits.calls[c]);
  }

  /** When no call of `CountDown` is about to signal, a new `Wait` returns at once, and a blocked
      one can leave, exactly if there were at least `n` decrements (and the counter has not
      passed zero 2^32 times). */
  lemma OpenIff(n: Size, ops: seq<LatchOp>, c: CallId)
    requires ValidLatchRun(NewLatch(n), ops) && LatchRun(NewLatch(n), ops).signalling == 0
    requires Zeros(n, DecrementsIn(ops)) < ID_MODULUS
    ensures Passes(LatchRun(NewLatch(n), ops), c) <==> DecrementsIn(ops) >= n
  {
    NewLatchInv(n);
    RunKeepsLatchInv(n, NewLatch(n), ops);
    PassesIffSignalled(n, LatchRun(NewLatch(n), ops), c);
  }

  /** Once the zeroing call has signalled, the latch is open forever: no later decrement closes
      it again. */
  lemma StaysOpen(n: Size, ops: seq<LatchOp>, later: seq<LatchOp>, c: CallId)
    requires ValidLatchRun(NewLatch(n), ops)
    requires LatchRun(NewLatch(n), ops).signalling == 0 && DecrementsIn(ops) >= n
    requires ValidLatchRun(LatchRun(NewLatch(n), ops), later)
    requires Zeros(n, DecrementsIn(ops) + DecrementsIn(later)) < ID_MODULUS
    ensures Passes(LatchRun(LatchRun(NewLatch(n), ops), later), c)
  {
    var l := LatchRun(NewLatch(n), ops);
    NewLatchInv(n);
    RunKeepsLatchInv(n, NewLatch(n), ops);
    RunKeepsLatchInv(n, l, later);
    PassesIffSignalled(n, LatchRun(l, later), c);
  }
}
