/**
 * Governor's TokenBucket, as written. The bucket holds a capacity `Count`, the
 * tokens left `CurrentCount`, a semaphore `SyncRoot` taken by `WaitAsync`,
 * and a single `WaitForReset` completion source. A timer's Elapsed callback
 * refills the bucket and completes that source. That callback takes no lock;
 * this model runs it, like every other step, atomically.
 *
 * `WaitAsync(count)` is split only at its await on the tick (line 46); its
 * await on the semaphore (line 35) is modelled as Busy and retried. Enter
 * runs from the argument check to the point where the caller either returns
 * or awaits `WaitForReset` while still holding the semaphore; Resume is the
 * continuation after the tick has completed it. A caller that finds the
 * semaphore taken gets Busy and nothing changes: it waits for the semaphore
 * and enters again later.
 */
module RateLimit {
  import opened Int32

  /** The `WaitForReset` field: null, a source nobody has completed yet, or one already completed. */
  datatype Slot = NoSource | Pending | Completed

  /** `SyncRoot`: free, or held by the caller parked on the tick, whose own requested count is `request`. */
  datatype Lock = Free | Held(request: int32)

  /** The bucket's state: `Count`, `CurrentCount`, `SyncRoot` and `WaitForReset`. */
  datatype Bucket = Bucket(capacity: int32, current: int32, lock: Lock, slot: Slot)

  /**
   * What the bucket keeps when no request is negative: the tokens left lie in
   * [0, capacity]; the semaphore is held exactly while a caller is parked, and
   * that caller asked for no more than the capacity; while its source is still
   * pending it is short of tokens, and once completed the bucket is full.
   * The last two clauses hold only because every step here is atomic: the
   * tick takes no lock in the program, and one that runs between the test of
   * line 39 and the new source of line 45 leaves a caller parked on a pending
   * source with the bucket full.
   */
  predicate Valid(b: Bucket) {
    0 <= b.current <= b.capacity &&
    (b.slot == Pending ==> b.lock.Held?) &&
    (b.lock.Held? ==> b.slot != NoSource && 0 <= b.lock.request <= b.capacity) &&
    (b.lock.Held? && b.slot == Pending ==> b.current < b.lock.request) &&
    (b.lock.Held? && b.slot == Completed ==> b.current == b.capacity)
  }

  /** The constructor (TokenBucket.cs:5-8, 26): full, unlocked, no source. Nothing checks `count`. */
  function Create(count: int32): (b: Bucket)
    ensures b.current == b.capacity == count
    ensures b.lock == Free && b.slot == NoSource
    ensures Valid(b) <==> 0 <= count
  {
    Bucket(count, count, Free, NoSource)
  }

  datatype EnterOutcome =
    | Rejected  // ArgumentException: the request exceeds the capacity
    | Busy      // the semaphore is held; the caller waits for it
    | Acquired  // tokens deducted, semaphore released, WaitAsync returned
    | Parked    // short of tokens: awaiting a fresh WaitForReset, holding the semaphore

  datatype Entered = Entered(next: Bucket, outcome: EnterOutcome)

  /** `WaitAsync(n)` up to its return or its await on the tick (TokenBucket.cs:28-46). */
  function EnterStep(b: Bucket, n: int32): (r: Entered)
    ensures r.next.capacity == b.capacity
    ensures r.outcome == Rejected <==> n > b.capacity
    ensures r.outcome == Busy <==> n <= b.capacity && b.lock.Held?
    ensures r.outcome == Acquired <==> n <= b.capacity && b.lock == Free && n <= b.current
    ensures r.outcome == Rejected || r.outcome == Busy ==> r.next == b
    ensures r.outcome == Acquired ==> r.next == b.(current := Wrap(b.current as int - n as int))
    ensures r.outcome == Acquired && 0 <= n ==> r.next.current as int == b.current as int - n as int
    ensures r.outcome == Parked ==>
              r.next == b.(lock := Held(n), slot := Pending) && b.current < n
    ensures Valid(b) && 0 <= n ==> Valid(r.next)
  {
    if n > b.capacity then
      Entered(b, Rejected)
    else if b.lock.Held? then
      Entered(b, Busy)
    else if b.current >= n then
      Entered(b.(current := Wrap(b.current as int - n as int)), Acquired)
    else
      Entered(b.(lock := Held(n), slot := Pending), Parked)
  }

  datatype ResumeOutcome = NotReady | Returned

  datatype Resumed = Resumed(next: Bucket, outcome: ResumeOutcome)

  /**
   * The continuation after `await WaitForReset.Task` (TokenBucket.cs:46-51): it
   * runs once the source is completed, releases the semaphore and returns,
   * deducting nothing.
   */
  function ResumeStep(b: Bucket): (r: Resumed)
    ensures r.outcome == Returned <==> b.lock.Held? && b.slot == Completed
    ensures r.outcome == Returned ==> r.next.lock == Free && r.next.current == b.current
    ensures r.next.capacity == b.capacity && r.next.slot == b.slot
    ensures r.outcome == NotReady ==> r.next == b
    ensures Valid(b) ==> Valid(r.next)
  {
    if b.lock.Held? && b.slot == Completed then Resumed(b.(lock := Free), Returned)
    else Resumed(b, NotReady)
  }

  datatype TickOutcome =
    | ResetOnly          // no source to complete
    | ResetAndReleased   // the parked caller's source completed
    | ResetThenFault     // SetResult on a completed source throws InvalidOperationException

  datatype Ticked = Ticked(next: Bucket, outcome: TickOutcome)

  /**
   * The timer's Elapsed callback (TokenBucket.cs:11-16): refill, then complete
   * `WaitForReset` if there is one. The source is never cleared, so a tick
   * after it completed calls SetResult a second time; the refill has already
   * happened when that throws.
   */
  function ElapsedStep(b: Bucket): (r: Ticked)
    ensures r.next.current == r.next.capacity == b.capacity && r.next.lock == b.lock
    ensures b.slot == NoSource ==> r.outcome == ResetOnly && r.next.slot == NoSource
    ensures b.slot == Pending ==> r.outcome == ResetAndReleased && r.next.slot == Completed
    ensures b.slot == Completed ==> r.outcome == ResetThenFault && r.next.slot == Completed
    ensures Valid(b) ==> Valid(r.next)
  {
    var refilled := b.(current := b.capacity);
    match b.slot
    case NoSource => Ticked(refilled, ResetOnly)
    case Pending => Ticked(refilled.(slot := Completed), ResetAndReleased)
    case Completed => Ticked(refilled, ResetThenFault)
  }

  /** A new bucket admits a request for its whole capacity at once and is then empty, whatever the capacity. */
  lemma NewBucketAdmitsCapacity(count: int32)
    ensures var r := EnterStep(Create(count), count);
            r.outcome == Acquired && r.next.current == 0 && r.next.lock == Free
  {
  }

  /** While a caller is parked, no other caller can deduct: every request is rejected or waits for the semaphore. */
  lemma ParkedCallerExcludesOthers(b: Bucket, n: int32)
    requires b.lock.Held?
    ensures var r := EnterStep(b, n);
            (r.outcome == Rejected || r.outcome == Busy) && r.next == b
  {
  }

  // ---------------------------------------------------------------------------
  // Runs of several steps

  datatype Op = EnterOp(n: int32) | ResumeOp | TickOp

  datatype Event =
    | EnterEvent(n: int32, entered: EnterOutcome)
    | ResumeEvent(request: int32, resumed: ResumeOutcome)
    | TickEvent(ticked: TickOutcome)

  datatype Run = Run(final: Bucket, events: seq<Event>)

  function Step(b: Bucket, op: Op): (Bucket, Event) {
    match op
    case EnterOp(n) => var r := EnterStep(b, n); (r.next, EnterEvent(n, r.outcome))
    case ResumeOp =>
      var req := if b.lock.Held? then b.lock.request else 0;
      var r := ResumeStep(b); (r.next, ResumeEvent(req, r.outcome))
    case TickOp => var r := ElapsedStep(b); (r.next, TickEvent(r.outcome))
  }

  /** The steps `ops`, one after another, from bucket `b`. */
  function Execute(b: Bucket, ops: seq<Op>): (r: Run)
    ensures |r.events| == |ops|
    decreases |ops|
  {
    if ops == [] then Run(b, [])
    else
      var (b1, e) := Step(b, ops[0]);
      var rest := Execute(b1, ops[1..]);
      Run(rest.final, [e] + rest.events)
  }

  predicate NoNegativeRequest(ops: seq<Op>) {
    forall i :: 0 <= i < |ops| ==> (ops[i].EnterOp? ==> 0 <= ops[i].n)
  }

  predicate NoTick(ops: seq<Op>) {
    forall i :: 0 <= i < |ops| ==> !ops[i].TickOp?
  }

  /** Tokens handed out: the count of every WaitAsync that returned, on either path. */
  function Granted(events: seq<Event>): int {
    if events == [] then 0
    else
      (match events[0]
       case EnterEvent(n, Acquired) => n as int
       case ResumeEvent(req, Returned) => req as int
       case _ => 0) + Granted(events[1..])
  }

  /** Tokens handed out by the tick path, which deducts nothing. */
  function GrantedOnResume(events: seq<Event>): int {
    if events == [] then 0
    else
      (match events[0]
       case ResumeEvent(req, Returned) => req as int
       case _ => 0) + GrantedOnResume(events[1..])
  }

  /** With no negative request, the invariant holds after any run. */
  lemma {:induction false} ExecutePreservesValid(b: Bucket, ops: seq<Op>)
    requires Valid(b) && NoNegativeRequest(ops)
    ensures Valid(Execute(b, ops).final)
    decreases |ops|
  {
    if ops != [] {
      assert NoNegativeRequest(ops[1..]) by {
        forall i | 0 <= i < |ops| - 1 ensures ops[1..][i].EnterOp? ==> 0 <= ops[1..][i].n {
          assert ops[1..][i] == ops[i + 1];
        }
      }
      ExecutePreservesValid(Step(b, ops[0]).0, ops[1..]);
    }
  }

  /** The semaphore is free after every WaitAsync that returned, and held after one that parked. */
  lemma LockFreeWhenWaitAsyncReturns(b: Bucket, op: Op)
    ensures var (b1, e) := Step(b, op);
            ((e.EnterEvent? && e.entered == Acquired) || (e.ResumeEvent? && e.resumed == Returned) ==> b1.lock == Free) &&
            (e.EnterEvent? && e.entered == Parked ==> b1.lock == Held(e.n))
  {
  }

  /**
   * Between two ticks, the tokens handed out are those deducted from the count
   * plus the requests of the callers the tick woke: the tick path hands out
   * tokens nobody pays for.
   */
  lemma {:induction false} TickFreeAccounting(b: Bucket, ops: seq<Op>)
    requires NoNegativeRequest(ops) && NoTick(ops)
    ensures var r := Execute(b, ops);
            Granted(r.events) == b.current as int - r.final.current as int + GrantedOnResume(r.events)
    decreases |ops|
  {
    if ops != [] {
      var (b1, e) := Step(b, ops[0]);
      assert NoNegativeRequest(ops[1..]) && NoTick(ops[1..]) by {
        forall i | 0 <= i < |ops| - 1
          ensures ops[1..][i].EnterOp? ==> 0 <= ops[1..][i].n
          ensures !ops[1..][i].TickOp?
        {
          assert ops[1..][i] == ops[i + 1];
        }
      }
      TickFreeAccounting(b1, ops[1..]);
      var rest := Execute(b1, ops[1..]);
      assert ([e] + rest.events)[1..] == rest.events;
    }
  }

  /** Capacity 1: after one tick, two WaitAsync(1) calls return before the next tick. */
  lemma TickAdmitsMoreThanCapacity()
    ensures var ops := [EnterOp(1), EnterOp(1), TickOp, ResumeOp, EnterOp(1)];
            var r := Execute(Create(1), ops);
            NoTick(ops[3..]) &&
            r.events[3..] == [ResumeEvent(1, Returned), EnterEvent(1, Acquired)] &&
            Granted(r.events[3..]) == 2 > Create(1).capacity as int
  {
    var ops := [EnterOp(1), EnterOp(1), TickOp, ResumeOp, EnterOp(1)];
    var r := Execute(Create(1), ops);
    var tail := [ResumeEvent(1, Returned), EnterEvent(1, Acquired)];
    assert r.events == [EnterEvent(1, Acquired), EnterEvent(1, Parked), TickEvent(ResetAndReleased)] + tail;
    assert r.events[3..] == tail;
    assert tail[1..] == [EnterEvent(1, Acquired)];
    assert tail[1..][1..] == [];
  }

  /** Capacity 1: the tick after a woken caller returned calls SetResult on the completed source again. */
  lemma SecondTickFaults()
    ensures Execute(Create(1), [EnterOp(1), EnterOp(1), TickOp, ResumeOp, TickOp]).events[4]
            == TickEvent(ResetThenFault)
  {
  }

  /**
   * A negative request passes both checks and adds tokens; on a full bucket
   * the tokens left then exceed the capacity.
   */
  lemma NegativeRequestOverfills(b: Bucket, n: int32)
    requires Valid(b) && b.lock == Free && n < 0 && b.current as int - n as int <= MAX
    ensures var r := EnterStep(b, n);
            r.outcome == Acquired && r.next.current > b.current &&
            (b.current == b.capacity ==> r.next.current > r.next.capacity)
  {
    var x := b.current as int - n as int;
    assert MIN <= x <= MAX;
    assert EnterStep(b, n).next.current == Wrap(x);
  }

  /** A negative request large enough wraps the tokens left around to a negative count. */
  lemma NegativeRequestWraps()
    ensures EnterStep(Create(10), -0x7fff_fff8).next.current == -0x7fff_fffe
  {
  }

  // ---------------------------------------------------------------------------
  // Corrected definitions: what the three defects above evidently should do

  /** `WaitAsync(n)` entry that also rejects a negative request. */
  function EnterChecked(b: Bucket, n: int32): (r: Entered)
    ensures r.outcome == Rejected <==> n < 0 || n > b.capacity
    ensures r.outcome != Rejected ==> r == EnterStep(b, n)
    ensures Valid(b) ==> Valid(r.next)
  {
    if n < 0 then Entered(b, Rejected) else EnterStep(b, n)
  }

  /** The continuation that charges the woken caller its request from the refilled bucket. */
  function ResumeDeducting(b: Bucket): (r: Resumed)
    ensures r.outcome == Returned <==> b.lock.Held? && b.slot == Completed
    ensures Valid(b) && r.outcome == Returned ==>
              r.next.current as int == b.current as int - b.lock.request as int && r.next.lock == Free
    ensures r.outcome == NotReady ==> r.next == b
    ensures Valid(b) ==> Valid(r.next)
  {
    if b.lock.Held? && b.slot == Completed then
      Resumed(b.(current := Wrap(b.current as int - b.lock.request as int), lock := Free), Returned)
    else
      Resumed(b, NotReady)
  }

  /** The Elapsed callback completing the source with TrySetResult, a no-op on a completed source. */
  function ElapsedTrySet(b: Bucket): (r: Ticked)
    ensures r.outcome != ResetThenFault
    ensures r.next == ElapsedStep(b).next
    ensures Valid(b) ==> Valid(r.next)
  {
    var refilled := b.(current := b.capacity);
    match b.slot
    case NoSource => Ticked(refilled, ResetOnly)
    case Pending => Ticked(refilled.(slot := Completed), ResetAndReleased)
    case Completed => Ticked(refilled, ResetOnly)
  }

  function FixedStep(b: Bucket, op: Op): (Bucket, Event) {
    match op
    case EnterOp(n) => var r := EnterChecked(b, n); (r.next, EnterEvent(n, r.outcome))
    case ResumeOp =>
      var req := if b.lock.Held? then b.lock.request else 0;
      var r := ResumeDeducting(b); (r.next, ResumeEvent(req, r.outcome))
    case TickOp => var r := ElapsedTrySet(b); (r.next, TickEvent(r.outcome))
  }

  function ExecuteFixed(b: Bucket, ops: seq<Op>): (r: Run)
    ensures |r.events| == |ops|
    decreases |ops|
  {
    if ops == [] then Run(b, [])
    else
      var (b1, e) := FixedStep(b, ops[0]);
      var rest := ExecuteFixed(b1, ops[1..]);
      Run(rest.final, [e] + rest.events)
  }

  /** With the corrections the invariant holds after any run, whatever the requests. */
  lemma {:induction false} ExecuteFixedPreservesValid(b: Bucket, ops: seq<Op>)
    requires Valid(b)
    ensures Valid(ExecuteFixed(b, ops).final)
    decreases |ops|
  {
    if ops != [] {
      ExecuteFixedPreservesValid(FixedStep(b, ops[0]).0, ops[1..]);
    }
  }

  /** With the corrections, no tick ever completes a completed source. */
  lemma {:induction false} ExecuteFixedNeverFaults(b: Bucket, ops: seq<Op>)
    ensures forall i :: 0 <= i < |ops| ==> ExecuteFixed(b, ops).events[i] != TickEvent(ResetThenFault)
    decreases |ops|
  {
    if ops != [] {
      var (b1, e) := FixedStep(b, ops[0]);
      var rest := ExecuteFixed(b1, ops[1..]);
      ExecuteFixedNeverFaults(b1, ops[1..]);
      forall i | 0 <= i < |ops| ensures ExecuteFixed(b, ops).events[i] != TickEvent(ResetThenFault) {
        if i > 0 {
          assert ExecuteFixed(b, ops).events[i] == rest.events[i - 1];
        }
      }
    }
  }

  /** With the corrections, between two ticks every token handed out is deducted from the count. */
  lemma {:induction false} FixedTickFreeConservation(b: Bucket, ops: seq<Op>)
    requires Valid(b) && NoTick(ops)
    ensures var r := ExecuteFixed(b, ops);
            Granted(r.events) == b.current as int - r.final.current as int
    decreases |ops|
  {
    if ops != [] {
      var (b1, e) := FixedStep(b, ops[0]);
      assert NoTick(ops[1..]) by {
        forall i | 0 <= i < |ops| - 1 ensures !ops[1..][i].TickOp? {
          assert ops[1..][i] == ops[i + 1];
        }
      }
      FixedTickFreeConservation(b1, ops[1..]);
      var rest := ExecuteFixed(b1, ops[1..]);
      assert ([e] + rest.events)[1..] == rest.events;
    }
  }

  /** With the corrections, a tick and the steps up to the next tick hand out at most the capacity. */
  lemma {:induction false} FixedAdmitsAtMostCapacityPerTick(b: Bucket, ops: seq<Op>)
    requires Valid(b) && |ops| > 0 && ops[0] == TickOp && NoTick(ops[1..])
    ensures Granted(ExecuteFixed(b, ops).events) <= b.capacity as int
  {
    var (b1, e) := FixedStep(b, ops[0]);
    var rest := ExecuteFixed(b1, ops[1..]);
    FixedTickFreeConservation(b1, ops[1..]);
    ExecuteFixedPreservesValid(b1, ops[1..]);
    assert ([e] + rest.events)[1..] == rest.events;
  }

  // ---------------------------------------------------------------------------
  // The bucket object

  class TokenBucket {
    var count: int32
    var currentCount: int32
    var lockHeld: bool
    /** The request of the caller that holds the semaphore; it lives in that caller's suspended frame. */
    ghost var holderRequest: int32
    var waitForReset: Slot

    ghost function State(): Bucket
      reads this
    {
      Bucket(count, currentCount, if lockHeld then Held(holderRequest) else Free, waitForReset)
    }

    constructor (count: int32)
      ensures State() == Create(count)
    {
      this.count := count;
      currentCount := count;
      lockHeld := false;
      waitForReset := NoSource;
    }

    /** `WaitAsync(n)` up to its return or its await on the tick. */
    method Enter(n: int32) returns (outcome: EnterOutcome)
      modifies this
      ensures EnterStep(old(State()), n) == Entered(State(), outcome)
      ensures count == old(count)
      ensures n > count ==> outcome == Rejected && unchanged(this)
      ensures outcome == Acquired ==> !lockHeld
      ensures outcome == Parked ==> lockHeld && waitForReset == Pending && currentCount == old(currentCount)
    {
      if n > count {
        return Rejected;
      }
      if lockHeld {
        return Busy;
      }
      lockHeld, holderRequest := true, n;
      if currentCount >= n {
        currentCount := Wrap(currentCount as int - n as int);
        lockHeld := false;
        return Acquired;
      }
      waitForReset := Pending;
      outcome := Parked;
    }

    /** The continuation of a parked `WaitAsync` once the tick has completed its source. */
    method Resume()
      requires lockHeld && waitForReset == Completed
      modifies this
      ensures ResumeStep(old(State())) == Resumed(State(), Returned)
      ensures !lockHeld && currentCount == old(currentCount) && count == old(count)
      ensures waitForReset == Completed
    {
      lockHeld := false;
    }

    /** The timer's Elapsed callback. */
    method OnElapsed() returns (outcome: TickOutcome)
      modifies this
      ensures ElapsedStep(old(State())) == Ticked(State(), outcome)
      ensures currentCount == count == old(count) && lockHeld == old(lockHeld)
      ensures old(waitForReset) == Completed ==> outcome == ResetThenFault
    {
      currentCount := count;
      match waitForReset
      case NoSource => outcome := ResetOnly;
      case Pending =>
        waitForReset := Completed;
        outcome := ResetAndReleased;
      case Completed => outcome := ResetThenFault;
    }
  }

  /** Capacity 2: two WaitAsync(1) calls return at once and a third parks holding the semaphore. */
  method ThirdCallerParks() returns (first: EnterOutcome, second: EnterOutcome, third: EnterOutcome, fourth: EnterOutcome)
    ensures first == Acquired && second == Acquired && third == Parked && fourth == Busy
  {
    var bucket := new TokenBucket(2);
    first := bucket.Enter(1);
    second := bucket.Enter(1);
    third := bucket.Enter(1);
    fourth := bucket.Enter(1);
  }
}
