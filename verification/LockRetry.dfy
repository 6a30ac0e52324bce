/** The contention loop `TryAcquire`, in nanoseconds. */
module LockRetry {
  import opened Locks

  const MS := 1_000_000

  /** The pause after attempt `k`: it doubles until it is 500 ms or more. */
  function Delay(k: nat): (d: int)
    ensures d > 0
  {
    if k == 0 then 50 * MS
    else
      var before := Delay(k - 1);
      if before < 500 * MS then 2 * before else before
  }

  lemma {:induction false} DelayIs(k: nat)
    ensures Delay(0) == 50 * MS && Delay(1) == 100 * MS && Delay(2) == 200 * MS && Delay(3) == 400 * MS
    ensures k >= 4 ==> Delay(k) == 800 * MS
    ensures Delay(k) <= 800 * MS
  {
    if k > 4 {
      DelayIs(k - 1);
    } else {
      assert Delay(1) == 100 * MS && Delay(2) == 200 * MS;
      assert Delay(3) == 400 * MS && Delay(4) == 800 * MS;
    }
  }

  /** The pauses before attempt `k`, together. */
  function Slept(k: nat): int {
    if k == 0 then 0 else Slept(k - 1) + Delay(k - 1)
  }

  /** When attempt `k` starts if the ones before it find the lock taken: calls, pauses and oversleeping. */
  function Start(callTime: nat -> nat, oversleep: nat -> nat, k: nat): int {
    if k == 0 then 0 else Start(callTime, oversleep, k - 1) + callTime(k - 1) + Delay(k - 1) + oversleep(k - 1)
  }

  lemma {:induction false} StartIsLate(callTime: nat -> nat, oversleep: nat -> nat, k: nat)
    ensures Start(callTime, oversleep, k) >= Slept(k)
    ensures Exact(callTime, oversleep) ==> Start(callTime, oversleep, k) == Slept(k)
  {
    if k > 0 {
      StartIsLate(callTime, oversleep, k - 1);
    }
  }

  datatype TryResult = Got(lock: Handle) | Failed | CtxDone | TimedOut

  // ---------- how many attempts fit ----------

  /** `ns / 800 ms` of a positive `ns`, rounded up. */
  function Ceil800(ns: int): (r: nat)
    ensures if ns <= 0 then r == 0 else 800 * MS * (r - 1) < ns <= 800 * MS * r
    decreases ns
  {
    if ns <= 0 then 0 else 1 + Ceil800(ns - 800 * MS)
  }

  lemma {:induction false} SleptIs(k: nat)
    ensures k >= 4 ==> Slept(k) == 750 * MS + 800 * MS * (k - 4)
    ensures Slept(1) == 50 * MS && Slept(2) == 150 * MS && Slept(3) == 350 * MS && Slept(4) == 750 * MS
  {
    DelayIs(if k > 4 then k - 1 else 4);
    if k > 4 {
      SleptIs(k - 1);
    } else {
      assert Slept(1) == Slept(0) + Delay(0);
      assert Slept(2) == Slept(1) + Delay(1);
      assert Slept(3) == Slept(2) + Delay(2);
      assert Slept(4) == Slept(3) + Delay(3);
    }
  }

  lemma {:induction false} SleptGrows(j: nat, k: nat)
    requires j <= k
    ensures Slept(j) <= Slept(k)
    decreases k
  {
    if j < k {
      SleptGrows(j, k - 1);
    }
  }

  /**
   For a timeout beyond 750 ms attempt `n` can start, counting from 1, exactly when
   `n <= 4 + ceil((timeout - 750 ms) / 800 ms)`; the bound is met when nothing but the pauses
   takes time.
   */
  lemma AttemptBound(timeout: int, n: nat)
    requires timeout > 750 * MS && n > 0
    ensures Slept(n - 1) < timeout <==> n <= 4 + Ceil800(timeout - 750 * MS)
  {
    SleptIs(n - 1);
    if n < 5 {
      SleptIs(4);
      SleptGrows(n - 1, 4);
    }
  }

  /** Attempt `k` finds the lock taken, and the pause after it is not cancelled. */
  ghost predicate GoesOn(outcome: nat -> AcquireResult, cancelAt: int, k: nat) {
    outcome(k) == NotAcquired && cancelAt != k
  }

  /** Neither the calls nor the end of a pause takes time. */
  ghost predicate Exact(callTime: nat -> nat, oversleep: nat -> nat) {
    forall k: nat :: callTime(k) == 0 && oversleep(k) == 0
  }

  lemma {:induction false} StartGrows(callTime: nat -> nat, oversleep: nat -> nat, j: nat, k: nat)
    requires j <= k
    ensures Start(callTime, oversleep, j) <= Start(callTime, oversleep, k)
    decreases k
  {
    if j < k {
      StartGrows(callTime, oversleep, j, k - 1);
    }
  }

  /** All of the first `n` attempts start before the timeout, which bounds their number. */
  ghost predicate InTime(timeout: int, callTime: nat -> nat, oversleep: nat -> nat, n: nat) {
    && (forall k: nat | k < n :: Start(callTime, oversleep, k) < timeout)
    && (timeout > 750 * MS ==> n <= 4 + Ceil800(timeout - 750 * MS))
  }

  /** When the last of `n` attempts starts in time so do all. */
  lemma LastInTime(timeout: int, callTime: nat -> nat, oversleep: nat -> nat, n: nat)
    requires n > 0 ==> Start(callTime, oversleep, n - 1) < timeout
    ensures InTime(timeout, callTime, oversleep, n)
  {
    forall k: nat | k < n ensures Start(callTime, oversleep, k) < timeout {
      StartGrows(callTime, oversleep, k, n - 1);
    }
    if n > 0 {
      StartIsLate(callTime, oversleep, n - 1);
      if timeout > 750 * MS {
        AttemptBound(timeout, n);
      }
    }
  }

  /** Without overruns the loop ends soon after the timeout, and a contended lock is tried as often as possible. */
  ghost predicate OnTime(timeout: int, callTime: nat -> nat, oversleep: nat -> nat, n: nat, elapsed: int, timedOut: bool) {
    Exact(callTime, oversleep) && timeout > 0 ==>
      && elapsed < timeout + 800 * MS
      && (timedOut && timeout > 750 * MS ==> n == 4 + Ceil800(timeout - 750 * MS))
  }

  lemma EndsEarly(timeout: int, callTime: nat -> nat, oversleep: nat -> nat, k: nat)
    requires Start(callTime, oversleep, k) < timeout
    ensures OnTime(timeout, callTime, oversleep, k + 1, Start(callTime, oversleep, k) + callTime(k), false)
  {
  }

  lemma EndsLate(timeout: int, callTime: nat -> nat, oversleep: nat -> nat, n: nat)
    requires n > 0 ==> Start(callTime, oversleep, n - 1) < timeout
    requires timeout <= Start(callTime, oversleep, n)
    ensures OnTime(timeout, callTime, oversleep, n, Start(callTime, oversleep, n), true)
  {
    if n > 0 && Exact(callTime, oversleep) {
      StartIsLate(callTime, oversleep, n - 1);
      StartIsLate(callTime, oversleep, n);
      DelayIs(n - 1);
      if timeout > 750 * MS {
        AttemptBound(timeout, n);
        AttemptBound(timeout, n + 1);
      }
    }
  }

  // ---------- the code ----------

  /**
   `outcome(k)` and `callTime(k)` are the result and duration of attempt `k`, `oversleep(k)` is
   by how much the pause after it runs over, and the context is done in pause `cancelAt`.
   Returns also the number of attempts and the time taken, up to the pause when that is cut short.
   */
  method TryAcquire(timeout: int, outcome: nat -> AcquireResult, callTime: nat -> nat, oversleep: nat -> nat, cancelAt: int)
    returns (r: TryResult, attempts: nat, elapsed: int)
    ensures forall k: nat | k + 1 < attempts :: GoesOn(outcome, cancelAt, k)
    ensures match r
            case Got(lock) => attempts > 0 && outcome(attempts - 1) == Acquired(lock)
            case Failed => attempts > 0 && outcome(attempts - 1) == StoreError
            case CtxDone => attempts > 0 && outcome(attempts - 1) == NotAcquired && cancelAt == attempts - 1
            case TimedOut => attempts > 0 ==> GoesOn(outcome, cancelAt, attempts - 1)
    ensures InTime(timeout, callTime, oversleep, attempts)
    ensures if r == TimedOut then elapsed == Start(callTime, oversleep, attempts) >= timeout
            else elapsed == Start(callTime, oversleep, attempts - 1) + callTime(attempts - 1)
    ensures OnTime(timeout, callTime, oversleep, attempts, elapsed, r == TimedOut)
  {
    attempts, elapsed := 0, 0;
    var backoff := 50 * MS;
    while elapsed < timeout
      invariant backoff == Delay(attempts)
      invariant elapsed == Start(callTime, oversleep, attempts)
      invariant if attempts == 0 then elapsed == 0 else Start(callTime, oversleep, attempts - 1) < timeout
      invariant forall k: nat | k < attempts :: GoesOn(outcome, cancelAt, k)
      decreases timeout - elapsed
    {
      var result := outcome(attempts);
      elapsed := elapsed + callTime(attempts);
      if result.Acquired? {
        LastInTime(timeout, callTime, oversleep, attempts + 1);
        EndsEarly(timeout, callTime, oversleep, attempts);
        return Got(result.lock), attempts + 1, elapsed;
      }
      if result == StoreError {
        LastInTime(timeout, callTime, oversleep, attempts + 1);
        EndsEarly(timeout, callTime, oversleep, attempts);
        return Failed, attempts + 1, elapsed;
      }
      if cancelAt == attempts {
        LastInTime(timeout, callTime, oversleep, attempts + 1);
        EndsEarly(timeout, callTime, oversleep, attempts);
        return CtxDone, attempts + 1, elapsed;
      }
      assert GoesOn(outcome, cancelAt, attempts);
      elapsed := elapsed + backoff + oversleep(attempts);
      if backoff < 500 * MS {
        backoff := 2 * backoff;
      }
      attempts := attempts + 1;
    }
    r := TimedOut;
    LastInTime(timeout, callTime, oversleep, attempts);
    EndsLate(timeout, callTime, oversleep, attempts);
  }
}
