/**
 * Governor's AsyncAutoResetEvent: a single-slot wake signal. Its state is a
 * `Signaled` flag and a FIFO queue of pending waiters; `WaitAsync` consumes
 * the flag or parks a new waiter, `Set` releases the oldest waiter or sets
 * the flag, and a `Set` on an already signaled event with nobody waiting is
 * dropped, so notifications coalesce. `WaitAsync` runs under the event's
 * lock; `Set` dequeues the waiter under that lock and completes its task only
 * after leaving it. One call is one atomic step here, and a waiter counts as
 * released when `Set` dequeues it, so the FIFO lemmas below speak of dequeue
 * order, not of the order in which the waiters' tasks complete.
 *
 * A waiter's TaskCompletionSource is represented by a WaiterId; ids are
 * handed out in increasing order, which makes "oldest" observable.
 */
module AutoResetEvent {
  import opened Wrappers

  /** Identity of the completion source created for one parked `WaitAsync` call. */
  type WaiterId = nat

  /** What `WaitAsync` returns: an already completed task, or the task of a new waiter. */
  datatype WaitOutcome = Completed | Parked(id: WaiterId)

  /** The event's fields, plus the id the next parked waiter will receive. */
  datatype EventState = EventState(signaled: bool, waits: seq<WaiterId>, nextId: WaiterId)

  /** The event's invariant: a notification is never remembered while someone waits. */
  predicate NeverSignaledWithWaiters(s: EventState) {
    !(s.signaled && |s.waits| > 0)
  }

  /** The queue holds distinct ids in the order they were issued, all below `nextId`. */
  predicate QueueOrdered(s: EventState) {
    (forall i, j :: 0 <= i < j < |s.waits| ==> s.waits[i] < s.waits[j]) &&
    (forall i :: 0 <= i < |s.waits| ==> s.waits[i] < s.nextId)
  }

  predicate Valid(s: EventState) {
    NeverSignaledWithWaiters(s) && QueueOrdered(s)
  }

  /** A new event (AsyncAutoResetEvent.cs:7-8): not signaled, nobody waiting. */
  function Init(): (s: EventState)
    ensures Valid(s)
  {
    EventState(false, [], 0)
  }

  datatype Waited = Waited(next: EventState, outcome: WaitOutcome)

  /** One `WaitAsync` call (AsyncAutoResetEvent.cs:11-25). */
  function WaitStep(s: EventState): (r: Waited)
    ensures r.outcome.Completed? <==> s.signaled
    ensures !r.next.signaled
    ensures r.next.nextId >= s.nextId
    ensures r.outcome.Completed? ==> r.next.waits == s.waits
    ensures r.outcome.Parked? ==> r.next.waits == s.waits + [r.outcome.id]
    ensures Valid(s) && r.outcome.Parked? ==> r.outcome.id !in s.waits
    ensures Valid(s) ==> Valid(r.next)
  {
    if s.signaled then
      Waited(s.(signaled := false), Completed)
    else
      Waited(s.(waits := s.waits + [s.nextId], nextId := s.nextId + 1), Parked(s.nextId))
  }

  datatype Notified = Notified(next: EventState, released: Option<WaiterId>)

  /**
   * One `Set` call (AsyncAutoResetEvent.cs:27-40): the dequeue and flag update
   * done under the lock; `released` is the waiter whose task `Set` completes
   * afterwards, outside the lock.
   */
  function SetStep(s: EventState): (r: Notified)
    ensures |s.waits| > 0 ==> r.released == Some(s.waits[0]) && r.next.waits == s.waits[1..]
                              && r.next.signaled == s.signaled
    ensures |s.waits| == 0 ==> r.released == None && r.next.waits == [] && r.next.signaled
    ensures |s.waits| == 0 && s.signaled ==> r.next == s
    ensures r.next.nextId == s.nextId
    ensures Valid(s) ==> Valid(r.next)
  {
    if |s.waits| > 0 then
      Notified(s.(waits := s.waits[1..]), Some(s.waits[0]))
    else if !s.signaled then
      Notified(s.(signaled := true), None)
    else
      Notified(s, None)
  }

  /** Notify-before-wait is remembered: with nobody waiting, `Set` then `WaitAsync` does not park. */
  lemma SetThenWaitCompletes(s: EventState)
    requires Valid(s) && s.waits == []
    ensures WaitStep(SetStep(s).next).outcome == Completed
    ensures WaitStep(SetStep(s).next).next == s.(signaled := false)
  {
  }

  /** Two `Set`s with nobody waiting leave one notification: of the next two waits, the first completes and the second parks. */
  lemma SetsCoalesce(s: EventState)
    requires Valid(s) && s.waits == []
    ensures var s2 := SetStep(SetStep(s).next).next;
            WaitStep(s2).outcome == Completed &&
            WaitStep(WaitStep(s2).next).outcome == Parked(s.nextId)
  {
  }

  // ---------------------------------------------------------------------------
  // Runs of several calls

  datatype Op = WaitOp | SetOp

  datatype Event = Wait(outcome: WaitOutcome) | Notify(released: Option<WaiterId>)

  datatype Run = Run(final: EventState, events: seq<Event>)

  function Step(s: EventState, op: Op): (EventState, Event) {
    match op
    case WaitOp => var r := WaitStep(s); (r.next, Wait(r.outcome))
    case SetOp => var r := SetStep(s); (r.next, Notify(r.released))
  }

  /** The calls `ops`, one after another, from state `s`. */
  function Execute(s: EventState, ops: seq<Op>): (r: Run)
    ensures |r.events| == |ops|
    decreases |ops|
  {
    if ops == [] then Run(s, [])
    else
      var (s1, e) := Step(s, ops[0]);
      var rest := Execute(s1, ops[1..]);
      Run(rest.final, [e] + rest.events)
  }

  /** The ids handed to parked waiters, in the order they parked. */
  function ParkedIds(events: seq<Event>): seq<WaiterId> {
    if events == [] then []
    else (match events[0] case Wait(Parked(id)) => [id] case _ => []) + ParkedIds(events[1..])
  }

  /** The ids released by `Set`, in the order they were released. */
  function ReleasedIds(events: seq<Event>): seq<WaiterId> {
    if events == [] then []
    else (match events[0] case Notify(Some(id)) => [id] case _ => []) + ReleasedIds(events[1..])
  }

  /** Number of `Set` calls in `ops`. */
  function SetCount(ops: seq<Op>): nat {
    if ops == [] then 0 else (if ops[0] == SetOp then 1 else 0) + SetCount(ops[1..])
  }

  /** Number of callers woken: waits that completed at once plus waiters released by `Set`. */
  function Wakes(events: seq<Event>): nat {
    if events == [] then 0
    else (match events[0] case Wait(Completed) => 1 case Notify(Some(_)) => 1 case _ => 0) + Wakes(events[1..])
  }

  function Flag(b: bool): nat { if b then 1 else 0 }

  /** The integers lo, lo + 1, ..., hi - 1. */
  function Range(lo: nat, hi: nat): (r: seq<nat>)
    requires lo <= hi
    ensures |r| == hi - lo
    ensures forall i :: 0 <= i < |r| ==> r[i] == lo + i
    decreases hi - lo
  {
    if lo == hi then [] else [lo] + Range(lo + 1, hi)
  }

  /** The invariant holds after any sequence of calls. */
  lemma {:induction false} ExecutePreservesValid(s: EventState, ops: seq<Op>)
    requires Valid(s)
    ensures Valid(Execute(s, ops).final)
    decreases |ops|
  {
    if ops != [] {
      ExecutePreservesValid(Step(s, ops[0]).0, ops[1..]);
    }
  }

  /** Parked and released ids of a run split at its first event. */
  lemma {:induction false} IdsCons(e: Event, rest: seq<Event>)
    ensures ParkedIds([e] + rest) == ParkedIds([e]) + ParkedIds(rest)
    ensures ReleasedIds([e] + rest) == ReleasedIds([e]) + ReleasedIds(rest)
  {
    assert ([e] + rest)[1..] == rest;
    assert [e][1..] == [];
  }

  /** FIFO for one call: the queue before it plus the waiter it parks is the waiter it releases plus the queue after it. */
  lemma StepFifo(s: EventState, op: Op)
    ensures var (s1, e) := Step(s, op);
            s.waits + ParkedIds([e]) == ReleasedIds([e]) + s1.waits
  {
    var (s1, e) := Step(s, op);
    assert [e][1..] == [];
    if op == SetOp && |s.waits| > 0 {
      assert s.waits == [s.waits[0]] + s1.waits;
    }
  }

  /**
   * FIFO: the waiters queued at the start followed by those parked during the
   * run are exactly those released during the run followed by those still queued.
   */
  lemma {:induction false} ReleaseIsFifo(s: EventState, ops: seq<Op>)
    ensures var r := Execute(s, ops);
            s.waits + ParkedIds(r.events) == ReleasedIds(r.events) + r.final.waits
    decreases |ops|
  {
    if ops != [] {
      var (s1, e) := Step(s, ops[0]);
      var rest := Execute(s1, ops[1..]);
      ReleaseIsFifo(s1, ops[1..]);
      StepFifo(s, ops[0]);
      IdsCons(e, rest.events);
      calc {
        s.waits + ParkedIds([e] + rest.events);
        (s.waits + ParkedIds([e])) + ParkedIds(rest.events);
        ReleasedIds([e]) + (s1.waits + ParkedIds(rest.events));
        ReleasedIds([e]) + (ReleasedIds(rest.events) + rest.final.waits);
        ReleasedIds([e] + rest.events) + rest.final.waits;
      }
    }
  }

  /** Waiters are numbered consecutively in the order they park. */
  lemma {:induction false} ParkedIdsConsecutive(s: EventState, ops: seq<Op>)
    ensures var r := Execute(s, ops);
            s.nextId <= r.final.nextId && ParkedIds(r.events) == Range(s.nextId, r.final.nextId)
    decreases |ops|
  {
    if ops != [] {
      var (s1, e) := Step(s, ops[0]);
      ParkedIdsConsecutive(s1, ops[1..]);
      var rest := Execute(s1, ops[1..]);
      assert ([e] + rest.events)[1..] == rest.events;
      match ops[0]
      case WaitOp =>
        if !s.signaled {
          assert Range(s.nextId, rest.final.nextId) == [s.nextId] + Range(s1.nextId, rest.final.nextId);
        }
      case SetOp =>
    }
  }

  /**
   * From a new event, the released waiters are the first k to have parked, in
   * parking order, and the queue holds the rest: every waiter is released at
   * most once, and never ahead of one that parked before it.
   */
  lemma {:induction false} FromInitReleasedInParkingOrder(ops: seq<Op>)
    ensures var r := Execute(Init(), ops);
            var k := |ReleasedIds(r.events)|;
            k <= r.final.nextId &&
            ReleasedIds(r.events) == Range(0, k) &&
            r.final.waits == Range(k, r.final.nextId)
  {
    var r := Execute(Init(), ops);
    ReleaseIsFifo(Init(), ops);
    ParkedIdsConsecutive(Init(), ops);
    var all := Range(0, r.final.nextId);
    assert all == ReleasedIds(r.events) + r.final.waits;
    var k := |ReleasedIds(r.events)|;
    assert ReleasedIds(r.events) == all[..k];
    assert r.final.waits == all[k..];
  }

  /**
   * No spurious wake-up: every woken caller and a remembered notification are
   * each paid for by a distinct `Set`; surplus `Set`s are the coalesced ones.
   */
  lemma {:induction false} WakesPaidBySets(s: EventState, ops: seq<Op>)
    requires Valid(s)
    ensures var r := Execute(s, ops);
            Wakes(r.events) + Flag(r.final.signaled) <= SetCount(ops) + Flag(s.signaled)
    decreases |ops|
  {
    if ops != [] {
      var (s1, e) := Step(s, ops[0]);
      WakesPaidBySets(s1, ops[1..]);
      var rest := Execute(s1, ops[1..]);
      assert ([e] + rest.events)[1..] == rest.events;
    }
  }

  /**
   * The event object. Its methods are the source's two public operations;
   * each is proved to take exactly the step of WaitStep or SetStep.
   */
  class AsyncAutoResetEvent {
    var signaled: bool
    var waits: seq<WaiterId>
    var nextId: WaiterId

    function State(): EventState
      reads this
    {
      EventState(signaled, waits, nextId)
    }

    constructor ()
      ensures State() == Init()
    {
      signaled := false;
      waits := [];
      nextId := 0;
    }

    method WaitAsync() returns (outcome: WaitOutcome)
      modifies this
      ensures WaitStep(old(State())) == Waited(State(), outcome)
      ensures old(signaled) ==> outcome == Completed && !signaled && waits == old(waits)
      ensures !old(signaled) ==> outcome == Parked(old(nextId)) && !signaled
                                 && waits == old(waits) + [old(nextId)]
    {
      if signaled {
        signaled := false;
        return Completed;
      }
      outcome := Parked(nextId);
      waits := waits + [nextId];
      nextId := nextId + 1;
    }

    method Set() returns (released: Option<WaiterId>)
      modifies this
      ensures SetStep(old(State())) == Notified(State(), released)
      ensures old(waits) != [] ==> released == Some(old(waits)[0]) && waits == old(waits)[1..]
                                   && signaled == old(signaled)
      ensures old(waits) == [] ==> released == None && waits == [] && signaled
      ensures nextId == old(nextId)
    {
      released := None;
      if |waits| > 0 {
        released := Some(waits[0]);
        waits := waits[1..];
      } else if !signaled {
        signaled := true;
      }
    }
  }

  /** Two `Set`s on a new event, then two `WaitAsync`s: the first completes, the second parks. */
  method SetTwiceWaitTwice() returns (first: WaitOutcome, second: WaitOutcome)
    ensures first == Completed && second == Parked(0)
  {
    var e := new AsyncAutoResetEvent();
    var r1 := e.Set();
    var r2 := e.Set();
    first := e.WaitAsync();
    second := e.WaitAsync();
  }
}
