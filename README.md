# Governor: token bucket and auto-reset event, modelled in Dafny

Governor is a small C# rate limiter. Its core is two state machines. The
event's `WaitAsync` runs under the event's lock; its `Set` dequeues a waiter
under that lock and completes the waiter's task after releasing it. The
bucket's `WaitAsync` runs under its semaphore, and its timer tick takes no
lock at all. The model treats every operation, the tick included, as one
atomic step, and a waiter counts as released when `Set` dequeues it (see
"## Left out" for what that misses):

- `AsyncAutoResetEvent`, a single-slot wake signal: a `Signaled` flag and a
  FIFO queue of waiters. `WaitAsync` consumes the flag or parks a new waiter;
  `Set` dequeues the oldest waiter (and completes it after the lock), or sets the flag, or (flag already set,
  nobody waiting) does nothing, so notifications coalesce.
- `TokenBucket`, the admission control: a capacity `Count`, the tokens left
  `CurrentCount`, a semaphore `SyncRoot` and one `WaitForReset` completion
  source. `WaitAsync(count)` rejects requests above the capacity, takes the
  semaphore, and either deducts the tokens and returns or parks on a fresh
  source while still holding the semaphore. A timer tick refills the bucket
  and completes that source.

Files:

- `int32.dfy` (module `Int32`): C#'s 32-bit `int` and its wrap-around.
- `wrappers.dfy` (module `Wrappers`): `Option`.
- `auto_reset_event.dfy` (module `AutoResetEvent`): the event as specification
  functions over `EventState`, the class `AsyncAutoResetEvent` whose methods
  are proved to take exactly those steps, and lemmas about runs of calls
  (invariant, FIFO release order, no spurious wake-up).
- `token_bucket.dfy` (module `RateLimit`): the bucket as written, as
  specification functions over `Bucket` and as the class `TokenBucket`, with
  lemmas about runs of steps; then corrected versions of three defects (see
  "## Findings") and the properties they restore.

`WaitAsync(count)` of the bucket is split only at its await on the tick
(line 46); its await on the semaphore at line 35 is modelled as `Busy` and
retried. `Enter` runs lines 30-46 of TokenBucket.cs up to the return or the
await, and `Resume` is the continuation after the tick completed the source.
A caller that finds the semaphore taken gets `Busy` and nothing changes; it
enters again once the semaphore is free. The caller parked on the tick holds
the semaphore; the bucket's specification state records that caller's own
request (`Lock = Free | Held(request)`), which in the program lives in the
suspended caller's frame; the class keeps it in a ghost field.

The model follows the code as written, not an idealised token bucket: the
code throws `ArgumentException` for a request above the
capacity instead of clamping it; it parks when fewer than `count` tokens are
left, not only when none are; the woken caller neither refills the bucket nor
takes tokens; the constructor checks neither argument; and there is no
`return`, `setCapacity`, `dispose` or cancellation.

## Model

| member | source | states |
|---|---|---|
| `Int32.Wrap` | TokenBucket.cs:41 | the stored value equals the mathematical one when it fits in 32 bits, and differs from it by a multiple of 2^32 otherwise |
| `AutoResetEvent.Init` | AsyncAutoResetEvent.cs:7-8 | a new event satisfies the invariant: not signaled while waiters are queued, queue ordered by issue |
| `AutoResetEvent.WaitStep` | AsyncAutoResetEvent.cs:11-25 | completes at once iff signaled, and then clears the flag and leaves the queue; otherwise appends exactly one new waiter not already queued at the tail; the flag is false afterwards; the invariant is preserved |
| `AutoResetEvent.SetStep` | AsyncAutoResetEvent.cs:27-40 | with waiters, releases exactly the oldest and leaves the flag; with none, releases nobody and the flag is set; with none and the flag set, nothing changes; the invariant is preserved |
| `AutoResetEvent.SetThenWaitCompletes` | AsyncAutoResetEvent.cs:27-37 | notify-before-wait is remembered: with nobody waiting, `Set` then `WaitAsync` completes without parking and leaves the queue and the id counter as before, with the flag cleared |
| `AutoResetEvent.SetsCoalesce` | AsyncAutoResetEvent.cs:33-36 | two `Set`s with nobody waiting leave one notification: the next `WaitAsync` completes and the one after parks |
| `AutoResetEvent.ExecutePreservesValid` | AsyncAutoResetEvent.cs:11-40 | the invariant holds after any sequence of `WaitAsync` and `Set` calls |
| `AutoResetEvent.StepFifo` | AsyncAutoResetEvent.cs:21-33 | one call: the queue before it plus the waiter it parks equals the waiter it releases plus the queue after it |
| `AutoResetEvent.ReleaseIsFifo` | AsyncAutoResetEvent.cs:22-33 | over any run, waiters queued at the start followed by those parked equal those released (dequeued) followed by those still queued |
| `AutoResetEvent.ParkedIdsConsecutive` | AsyncAutoResetEvent.cs:21-23 | each `WaitAsync` that parks creates a new waiter, numbered consecutively in parking order |
| `AutoResetEvent.FromInitReleasedInParkingOrder` | AsyncAutoResetEvent.cs:21-39 | from a new event the released (dequeued) waiters are exactly the first k to park, in parking order, and the queue holds the rest: each released at most once |
| `AutoResetEvent.WakesPaidBySets` | AsyncAutoResetEvent.cs:15-36 | no spurious wake-up: woken callers plus a remembered notification never outnumber the `Set` calls (plus a flag already set) |
| `AutoResetEvent.AsyncAutoResetEvent.constructor` | AsyncAutoResetEvent.cs:7-8 | the new object's state is the initial state |
| `AutoResetEvent.AsyncAutoResetEvent.WaitAsync` | AsyncAutoResetEvent.cs:11-25 | updates the fields exactly as `WaitStep` does and returns its outcome |
| `AutoResetEvent.AsyncAutoResetEvent.Set` | AsyncAutoResetEvent.cs:27-40 | updates the fields exactly as `SetStep` does and returns the released waiter |
| `AutoResetEvent.SetTwiceWaitTwice` | AsyncAutoResetEvent.cs:15-36 | on a new object, `Set`, `Set`, `WaitAsync`, `WaitAsync` complete the first wait and park the second |
| `RateLimit.Create` | TokenBucket.cs:5-8 | a new bucket is full (`CurrentCount == Count == count`), unlocked and with no source; it satisfies the invariant exactly when `count` is not negative |
| `RateLimit.EnterStep` | TokenBucket.cs:28-46 | rejects exactly the requests above the capacity, changing nothing; waits for the semaphore without change while it is held; iff enough tokens are left, sets the count to `CurrentCount - n` (with 32-bit wrap-around, so a negative `n` adds tokens), leaves the semaphore free and the source as it was; otherwise keeps the count, holds the semaphore and parks on a fresh pending source; preserves the invariant for `n >= 0` |
| `RateLimit.ResumeStep` | TokenBucket.cs:46-51 | runs only once the source is completed; releases the semaphore and leaves the tokens unchanged; preserves the invariant |
| `RateLimit.ElapsedStep` | TokenBucket.cs:11-16 | refills to the capacity; completes a pending source, does nothing more without one, and faults on an already completed one; preserves the invariant |
| `RateLimit.NewBucketAdmitsCapacity` | TokenBucket.cs:5-8 | a new bucket admits a request for its whole capacity at once, without parking, and is then empty, whatever the capacity |
| `RateLimit.ParkedCallerExcludesOthers` | TokenBucket.cs:35-46 | while a caller is parked holding the semaphore, every other request is rejected or waits, and nothing changes |
| `RateLimit.ExecutePreservesValid` | TokenBucket.cs:11-51 | with no negative request, `0 <= CurrentCount <= Count` and the lock/source invariant hold after any run |
| `RateLimit.LockFreeWhenWaitAsyncReturns` | TokenBucket.cs:37-51 | the semaphore is free after a `WaitAsync` returns on either path and held by the caller after it parks |
| `RateLimit.TickFreeAccounting` | TokenBucket.cs:39-51 | between ticks, tokens handed out equal those deducted plus the requests of woken callers, which are never deducted |
| `RateLimit.TickAdmitsMoreThanCapacity` | TokenBucket.cs:46-51 | capacity 1: after one tick two `WaitAsync(1)` calls return before the next tick |
| `RateLimit.SecondTickFaults` | TokenBucket.cs:15 | the tick after a woken caller returned calls `SetResult` again on the completed source |
| `RateLimit.NegativeRequestOverfills` | TokenBucket.cs:30-41 | a negative request passes both checks and adds tokens; on a full bucket the count then exceeds the capacity |
| `RateLimit.NegativeRequestWraps` | TokenBucket.cs:41 | a large negative request wraps the tokens left around to a negative value |
| `RateLimit.EnterChecked` | TokenBucket.cs:30-46 | rejects exactly negative requests and those above the capacity, otherwise behaves as `EnterStep`, and preserves the invariant for every request |
| `RateLimit.ResumeDeducting` | TokenBucket.cs:46-51 | the woken caller is charged its request from the refilled bucket and releases the semaphore; preserves the invariant |
| `RateLimit.ElapsedTrySet` | TokenBucket.cs:11-16 | same new state as the tick as written, never faults |
| `RateLimit.ExecuteFixedPreservesValid` | TokenBucket.cs:28-51 | with the corrections, the invariant holds after any run whatever the requests |
| `RateLimit.ExecuteFixedNeverFaults` | TokenBucket.cs:11-16 | with the corrections, no tick ever faults |
| `RateLimit.FixedTickFreeConservation` | TokenBucket.cs:39-51 | with the corrections, between ticks every token handed out is deducted from the count |
| `RateLimit.FixedAdmitsAtMostCapacityPerTick` | TokenBucket.cs:11-51 | with the corrections, a tick and the steps up to the next one hand out at most the capacity |
| `RateLimit.TokenBucket.constructor` | TokenBucket.cs:5-19 | the new object's state is `Create(count)` |
| `RateLimit.TokenBucket.Enter` | TokenBucket.cs:28-46 | updates the fields exactly as `EnterStep` does; a rejected request changes nothing; the semaphore is free after `Acquired` and held after `Parked` |
| `RateLimit.TokenBucket.Resume` | TokenBucket.cs:46-51 | releases the semaphore, tokens unchanged, as `ResumeStep` |
| `RateLimit.TokenBucket.OnElapsed` | TokenBucket.cs:11-16 | refills and completes the source as `ElapsedStep`; faults on a completed source |
| `RateLimit.ThirdCallerParks` | TokenBucket.cs:30-46 | capacity 2: two `WaitAsync(1)` return at once, the third parks holding the semaphore, the fourth waits for it |

## Findings

| source | as written | input that shows it | evidently intended | confidence | as-written member | corrected member |
|---|---|---|---|---|---|---|
| TokenBucket.cs:46-51 | the caller woken by the tick returns without deducting its count | capacity 1: `WaitAsync(1)`, `WaitAsync(1)` parks, tick, it resumes, `WaitAsync(1)`: two grants after a refill of one | the woken caller is charged its count from the refilled bucket | medium, not executed | `RateLimit.TickAdmitsMoreThanCapacity` | `RateLimit.FixedAdmitsAtMostCapacityPerTick` |
| TokenBucket.cs:15 | `WaitForReset` is never cleared, so a later tick calls `SetResult` on a completed source, which throws `InvalidOperationException` | the same run followed by a second tick | complete each source once (`TrySetResult`, or clear the field) | high, not executed | `RateLimit.SecondTickFaults` | `RateLimit.ExecuteFixedNeverFaults` |
| TokenBucket.cs:30-41 | a negative count passes the capacity check and the `CurrentCount >= count` test and adds tokens | capacity 10, full bucket, `WaitAsync(-5)`: 15 tokens left | reject a negative count | medium, not executed | `RateLimit.NegativeRequestOverfills` | `RateLimit.ExecuteFixedPreservesValid` |

The class `RateLimit.TokenBucket` models the code as written; the corrected
functions are used by `ExecuteFixed` and the lemmas about it.

## Left out

- The timer (`System.Timers.Timer`) and its `interval`: a tick is an explicit step that may happen at any point, not a wall-clock event. The timer's own rejection of a non-positive interval is not part of this model.
- The `Report` callback of the tick: an opaque diagnostic action.
- Program.cs: a console demo; it calls a `GetAsync` that TokenBucket.cs does not define.
- `AutoResetEvent.SetStep`: `Set` dequeues the oldest waiter under `SyncRoot` (AsyncAutoResetEvent.cs:31-37) but calls `SetResult` on it after leaving the lock (line 39); the model's "released" is the dequeue. `ReleaseIsFifo` and `FromInitReleasedInParkingOrder` are about dequeue order: two concurrent `Set`s can complete their waiters' tasks in the reverse order.
- The locks themselves (`lock`, `SemaphoreSlim`, `ConcurrentQueue`): each operation is one atomic step. The tick (TokenBucket.cs:11-16) takes no lock, so in the program it can interleave with `WaitAsync`, and the model captures neither of two races this allows. (1) Its write of `CurrentCount` can fall inside the read-modify-write of line 41, losing the refill. (2) A missed wake-up: a tick between the failed test at line 39 and `WaitForReset = new TaskCompletionSource()` at line 45 refills the bucket and finds no source, or faults at line 15 on the old source, which is already completed because the previous holder of `SyncRoot` released it only after its source completed (lines 46-50); the caller then awaits the fresh source while holding `SyncRoot` with the bucket full, and every caller waits one extra interval. That state breaks `RateLimit.Valid`'s clause "pending source implies short of tokens", which therefore holds only because the model's steps are atomic.
- `RateLimit.TokenBucket.Enter`: a caller blocked on the semaphore is modelled as retrying (`Busy`), so the semaphore's first-come order among blocked callers is not modelled.
- Task continuations: `SetResult` runs the awaiting continuation inline; the model lets `Resume` happen at any later step, which includes that order.
- The faulting tick's exception is recorded as an outcome; what the timer does with an exception escaping its handler is not modelled.
- The argument exception's message, and the `Task` objects: waiters are ids and completions are outcomes.
