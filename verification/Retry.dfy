/**
 The client's retry loop.  Durations are int64 nanoseconds and their arithmetic wraps; the random
 source panics when it is asked for a number below zero or one.
 */
module Retry {

  import opened Wrappers

  const SECOND: int := 1_000_000_000
  const CAP: int := 30 * SECOND
  /** The default base wait; the options that the package offers leave it alone, one of the caller's need not. */
  const RETRY_WAIT: int := 500_000_000

  const TWO_63: int := 0x8000_0000_0000_0000
  const TWO_64: int := 0x1_0000_0000_0000_0000

  // ---------- int64 ----------

  /** The int64 that an arithmetic result wraps to. */
  function Wrap64(n: int): (r: int)
    ensures -TWO_63 <= r < TWO_63
    decreases if n < 0 then -n - 1 else n
  {
    if n < -TWO_63 then Wrap64(n + TWO_64) else if n >= TWO_63 then Wrap64(n - TWO_64) else n
  }

  /** Division as int64 does it: towards zero. */
  function Quotient(n: int, d: int): int
    requires d > 0
  {
    if n >= 0 then n / d else -(-n / d)
  }

  /** `base` times 2 to the power of `n`. */
  function Doubled(base: int, n: nat): int {
    if n == 0 then base else 2 * Doubled(base, n - 1)
  }

  /**
   `time.Duration(math.Pow(2, attempt)) * base` before it wraps.  From 63 on the power is no int64
   and what it converts to depends on the platform: any product is possible.
   */
  function Product(base: int, attempt: nat, conv: nat -> int): int {
    if attempt <= 62 then Doubled(base, attempt) else conv(attempt)
  }

  /** The wait before jitter. */
  function Exp(base: int, attempt: nat, conv: nat -> int): int {
    var exp := Wrap64(Product(base, attempt, conv));
    if exp > CAP then CAP else exp
  }

  /** `rand.Int63n(exp / 4)` panics: there is no quarter of a nanosecond. */
  predicate Panics(base: int, attempt: nat, conv: nat -> int) {
    Exp(base, attempt, conv) < 4
  }

  /** `rand.Int63n(n)` for a raw random number, which it reduces below `n`. */
  function Int63n(raw: nat, n: int): (r: int)
    requires n > 0
    ensures 0 <= r < n
  {
    if raw < n then raw else Int63n(raw - n, n)
  }

  function Wait(base: int, attempt: nat, conv: nat -> int, raw: nat): int
    requires !Panics(base, attempt, conv)
  {
    var e := Exp(base, attempt, conv);
    e + Int63n(raw, e / 4)
  }

  method Backoff(base: int, attempt: nat, conv: nat -> int, raw: nat) returns (wait: Option<int>)
    ensures wait.None? <==> Panics(base, attempt, conv)
    ensures wait.Some? ==> wait.value == Wait(base, attempt, conv, raw)
    ensures base >= 4 && Doubled(base, attempt) < TWO_63 ==>
              var exact := Doubled(base, attempt);
              var e := if exact <= 30 * SECOND then exact else 30 * SECOND;
              wait.Some? && e <= wait.value < e + e / 4
  {
    if base >= 4 && Doubled(base, attempt) < TWO_63 {
      InRangeWaits(base, attempt, conv);
    }
    var exp := Wrap64(Product(base, attempt, conv));
    if exp > CAP {
      exp := CAP;
    }
    var n := Quotient(exp, 4);
    if n <= 0 {
      return None;
    }
    var jitter := Int63n(raw, n);
    return Some(Wrap64(exp + jitter));
  }

  lemma {:induction false} DoubledGrows(base: int, a: nat, b: nat)
    requires base >= 0 && a <= b
    ensures 0 <= Doubled(base, a) <= Doubled(base, b)
    decreases b
  {
    if a < b {
      DoubledGrows(base, a, b - 1);
    } else if a > 0 {
      DoubledGrows(base, a - 1, b - 1);
    }
  }

  lemma DoubledBy5(base: int, n: nat)
    ensures Doubled(base, n + 5) == 32 * Doubled(base, n)
  {
    assert Doubled(base, n + 5) == 2 * Doubled(base, n + 4) == 4 * Doubled(base, n + 3);
    assert Doubled(base, n + 3) == 2 * Doubled(base, n + 2) == 4 * Doubled(base, n + 1);
  }

  lemma DoubledBy30(base: int, n: nat)
    ensures Doubled(base, n + 30) == 1_073_741_824 * Doubled(base, n)
  {
    DoubledBy5(base, n);
    DoubledBy5(base, n + 5);
    DoubledBy5(base, n + 10);
    DoubledBy5(base, n + 15);
    DoubledBy5(base, n + 20);
    DoubledBy5(base, n + 25);
  }

  lemma ShippedPowers()
    ensures Doubled(RETRY_WAIT, 5) == 32 * RETRY_WAIT
    ensures Doubled(RETRY_WAIT, 35) == 34_359_738_368 * RETRY_WAIT == 2 * Doubled(RETRY_WAIT, 34)
  {
    DoubledBy5(RETRY_WAIT, 0);
    DoubledBy30(RETRY_WAIT, 5);
  }

  /** The shipped base up to attempt 34: nothing wraps, so the wait doubles up to the cap. */
  lemma ShippedWaits(attempt: nat, conv: nat -> int)
    requires attempt <= 34
    ensures var exact := Doubled(RETRY_WAIT, attempt);
            && Exp(RETRY_WAIT, attempt, conv) == (if exact <= CAP then exact else CAP)
            && (attempt <= 5 <==> exact <= CAP)
    ensures !Panics(RETRY_WAIT, attempt, conv)
  {
    ShippedRange(attempt);
  }

  /** The shipped base doubled up to 34 times stays an int64, and reaches the cap after the fifth. */
  lemma ShippedRange(attempt: nat)
    requires attempt <= 34
    ensures RETRY_WAIT <= Doubled(RETRY_WAIT, attempt) < TWO_63
    ensures attempt <= 5 <==> Doubled(RETRY_WAIT, attempt) <= CAP
  {
    ShippedPowers();
    DoubledGrows(RETRY_WAIT, 0, attempt);
    DoubledGrows(RETRY_WAIT, attempt, 34);
    if attempt <= 5 {
      DoubledGrows(RETRY_WAIT, attempt, 5);
    } else {
      DoubledGrows(RETRY_WAIT, 6, attempt);
      assert Doubled(RETRY_WAIT, 6) == 2 * Doubled(RETRY_WAIT, 5);
    }
  }

  /** From a base of four or more, doubling 61 times leaves int64. */
  lemma Doubled61(base: int)
    requires base >= 4
    ensures Doubled(base, 61) >= TWO_63
  {
    DoubledBy30(base, 0);
    DoubledBy30(base, 30);
    assert Doubled(base, 61) == 2 * Doubled(base, 60);
  }

  /** As long as doubling stays inside int64 nothing wraps, and the wait has a quarter if the base has. */
  lemma InRangeWaits(base: int, attempt: nat, conv: nat -> int)
    requires base >= 4 && Doubled(base, attempt) < TWO_63
    ensures attempt <= 60 && !Panics(base, attempt, conv)
    ensures var exact := Doubled(base, attempt);
            Exp(base, attempt, conv) == if exact <= 30 * SECOND then exact else 30 * SECOND
  {
    Doubled61(base);
    DoubledGrows(base, 0, attempt);
    if attempt >= 61 {
      DoubledGrows(base, 61, attempt);
    }
  }

  /** The first product that leaves int64 wraps to a negative wait. */
  lemma FirstWrapPanics(base: int, attempt: nat, conv: nat -> int)
    requires base >= 4 && 0 < attempt && Doubled(base, attempt - 1) < TWO_63 <= Doubled(base, attempt)
    ensures Panics(base, attempt, conv)
  {
    InRangeWaits(base, attempt - 1, conv);
    var product := Doubled(base, attempt);
    assert Wrap64(product) == Wrap64(product - TWO_64) == product - TWO_64 < 0;
  }

  lemma {:induction false} FirstWrap(base: int, n: nat) returns (k: nat)
    requires 4 <= base < TWO_63 && Doubled(base, n) >= TWO_63
    ensures 0 < k <= n && Doubled(base, k - 1) < TWO_63 <= Doubled(base, k)
  {
    if Doubled(base, n - 1) < TWO_63 {
      k := n;
    } else {
      k := FirstWrap(base, n - 1);
    }
  }

  /** Attempt 35 wraps to a negative wait. */
  lemma Attempt35Panics(conv: nat -> int)
    ensures Panics(RETRY_WAIT, 35, conv)
  {
    ShippedPowers();
    FirstWrapPanics(RETRY_WAIT, 35, conv);
  }

  // ---------- do ----------

  datatype Error = ApiError(status: int) | OtherError(text: string) {
    predicate IsRetryable() {
      ApiError? && (status == 429 || status >= 500)
    }
  }

  datatype Run = Run(calls: nat, waits: seq<int>, outcome: Outcome) {

    /** This run after `before` earlier calls and their waits. */
    function After(before: nat, earlier: seq<int>): Run {
      Run(before + calls, earlier + waits, outcome)
    }
  }

  datatype Outcome = Success | Failure(error: Error) | Cancelled | Panicked

  /**
   Everything a run of `do` depends on: what the n-th call returns (None is success), whether the
   context is done during the wait after it, and the random numbers.
   */
  datatype World = World(fn: nat -> Option<Error>, done: nat -> bool, conv: nat -> int, raw: nat -> nat) {

    predicate Retries(k: nat) {
      fn(k).Some? && fn(k).value.IsRetryable()
    }

    /** Call `k` is followed by another one. */
    predicate GoesOn(base: int, k: nat) {
      Retries(k) && !Panics(base, k, conv) && !done(k)
    }

    /** `do` ends after call `k` with that outcome. */
    predicate EndsAfter(base: int, maxRetries: int, k: nat, r: Outcome) {
      match r
      case Success => fn(k).None?
      case Failure(error) => fn(k) == Some(error) && (!error.IsRetryable() || k == maxRetries)
      case Cancelled => Retries(k) && k < maxRetries && !Panics(base, k, conv) && done(k)
      case Panicked => Retries(k) && k < maxRetries && Panics(base, k, conv)
    }

    /** The calls, waits and outcome of `do` from attempt `k` on. */
    function Rest(base: int, maxRetries: nat, k: nat): Run
      requires k <= maxRetries
      decreases maxRetries - k
    {
      if fn(k).None? then Run(1, [], Success)
      else if !Retries(k) || k == maxRetries then Run(1, [], Failure(fn(k).value))
      else if Panics(base, k, conv) then Run(1, [], Panicked)
      else
        var wait := Wait(base, k, conv, raw(k));
        if done(k) then Run(1, [wait], Cancelled)
        else
          var more := Rest(base, maxRetries, k + 1);
          Run(1 + more.calls, [wait] + more.waits, more.outcome)
    }

    lemma RestEnds(base: int, maxRetries: nat, k: nat, before: nat, earlier: seq<int>, r: Outcome)
      requires k <= maxRetries && EndsAfter(base, maxRetries, k, r) && !r.Cancelled?
      ensures Rest(base, maxRetries, k).After(before, earlier) == Run(before + 1, earlier, r)
    {
      assert earlier + [] == earlier;
    }

    lemma RestGoesOn(base: int, maxRetries: nat, k: nat, before: nat, earlier: seq<int>)
      requires k < maxRetries && GoesOn(base, k)
      ensures Rest(base, maxRetries, k).After(before, earlier)
              == Rest(base, maxRetries, k + 1).After(before + 1, earlier + [Wait(base, k, conv, raw(k))])
    {
      var wait, more := Wait(base, k, conv, raw(k)), Rest(base, maxRetries, k + 1);
      assert earlier + ([wait] + more.waits) == (earlier + [wait]) + more.waits;
    }

    function Whole(base: int, maxRetries: int): Run {
      if maxRetries < 0 then Run(0, [], Success) else Rest(base, maxRetries, 0)
    }

    /** A wait for each attempt from `k` on, between its exponential part and a quarter more. */
    ghost predicate AreWaits(base: int, k: nat, waits: seq<int>) {
      forall i | 0 <= i < |waits| :: IsWait(base, k + i, waits[i])
    }

    ghost predicate IsWait(base: int, k: nat, wait: int) {
      var e := Exp(base, k, conv); e <= wait < e + e / 4
    }

    lemma AreWaitsCons(base: int, k: nat, wait: int, waits: seq<int>)
      requires IsWait(base, k, wait) && AreWaits(base, k + 1, waits)
      ensures AreWaits(base, k, [wait] + waits)
    {
      var all := [wait] + waits;
      forall i | 0 <= i < |all| ensures IsWait(base, k + i, all[i]) {
        if i > 0 {
          assert all[i] == waits[i - 1] && IsWait(base, k + 1 + (i - 1), waits[i - 1]);
        }
      }
    }

    /** What `do` promises from attempt `k` on. */
    ghost predicate IsDo(base: int, maxRetries: nat, k: nat, run: Run) {
      && 1 <= run.calls <= maxRetries + 1 - k
      && (forall i: nat | k <= i < k + run.calls - 1 :: GoesOn(base, i))
      && EndsAfter(base, maxRetries, k + run.calls - 1, run.outcome)
      && |run.waits| == (if run.outcome.Cancelled? then run.calls else run.calls - 1)
      && AreWaits(base, k, run.waits)
    }

    lemma {:induction false} RestIsDo(base: int, maxRetries: nat, k: nat)
      requires k <= maxRetries
      ensures IsDo(base, maxRetries, k, Rest(base, maxRetries, k))
      decreases maxRetries - k
    {
      if k < maxRetries && GoesOn(base, k) {
        RestIsDo(base, maxRetries, k + 1);
        AreWaitsCons(base, k, Wait(base, k, conv, raw(k)), Rest(base, maxRetries, k + 1).waits);
      }
    }

    /** The HTTP status of an error by which the server asks to be tried again: 429 and from 500 on. */
    predicate AsksForRetry(error: Error) {
      match error
      case ApiError(status) => status == 429 || status >= 500
      case OtherError(_) => false
    }

    /**
     What is retried and what ends a run: all calls but the last failed with status 429 or from 500 on; the
     last one succeeded, or failed in another way, or was the last allowed, or its wait ended the run.
     */
    lemma WhatIsRetried(base: int, maxRetries: nat)
      ensures var run := Whole(base, maxRetries);
              && (forall i: nat | i + 1 < run.calls :: fn(i).Some? && AsksForRetry(fn(i).value))
              && 1 <= run.calls <= maxRetries + 1
              && match run.outcome
                 case Success => fn(run.calls - 1).None?
                 case Failure(error) =>
                   && fn(run.calls - 1) == Some(error)
                   && (run.calls <= maxRetries ==> !AsksForRetry(error))
                 case Cancelled => fn(run.calls - 1).Some? && AsksForRetry(fn(run.calls - 1).value) && done(run.calls - 1)
                 case Panicked => fn(run.calls - 1).Some? && AsksForRetry(fn(run.calls - 1).value)
    {
      RestIsDo(base, maxRetries, 0);
      var run := Whole(base, maxRetries);
      forall i: nat | i + 1 < run.calls ensures fn(i).Some? && AsksForRetry(fn(i).value) {
        assert GoesOn(base, i);
      }
    }

    lemma GoingOnIsNotEnding(base: int, maxRetries: nat, k: nat, r: Outcome)
      requires k < maxRetries && GoesOn(base, k)
      ensures !EndsAfter(base, maxRetries, k, r)
    {
    }

    /** The promise fixes the number of calls and the outcome. */
    lemma DoIsUnique(base: int, maxRetries: nat, a: Run, b: Run)
      requires IsDo(base, maxRetries, 0, a) && IsDo(base, maxRetries, 0, b)
      ensures a.calls == b.calls && a.outcome == b.outcome && |a.waits| == |b.waits|
    {
      if a.calls < b.calls {
        GoingOnIsNotEnding(base, maxRetries, a.calls - 1, a.outcome);
      } else if b.calls < a.calls {
        GoingOnIsNotEnding(base, maxRetries, b.calls - 1, b.outcome);
      }
    }

    /** While doubling the base stays inside int64 up to the last retry no run panics. */
    lemma NoPanic(base: int, maxRetries: int)
      requires maxRetries <= 0 || (base >= 4 && Doubled(base, maxRetries - 1) < TWO_63)
      ensures !Whole(base, maxRetries).outcome.Panicked?
    {
      if maxRetries >= 0 {
        RestIsDo(base, maxRetries, 0);
        var last := Whole(base, maxRetries).calls - 1;
        if last < maxRetries {
          DoubledGrows(base, last, maxRetries - 1);
          InRangeWaits(base, last, conv);
        }
      }
    }

    /** The sum of the upper bounds of the first `n` waits. */
    function Bound(base: int, n: nat): int {
      if n == 0 then 0
      else
        var e := Exp(base, n - 1, conv);
        Bound(base, n - 1) + e + e / 4
    }

    /** The total of the waits is below the total of their upper bounds. */
    lemma {:induction false} TotalWait(base: int, waits: seq<int>)
      requires AreWaits(base, 0, waits)
      ensures Sum(waits) + |waits| <= Bound(base, |waits|)
    {
      if waits != [] {
        var n := |waits| - 1;
        TotalWait(base, waits[..n]);
        assert IsWait(base, 0 + n, waits[n]);
      }
    }

    /** The shipped configuration, three retries: at most four calls, and at most 4.375 seconds of waiting. */
    lemma ShippedTotal()
      ensures var run := Whole(RETRY_WAIT, 3);
              1 <= run.calls <= 4 && Sum(run.waits) + |run.waits| <= 4_375_000_000
    {
      RestIsDo(RETRY_WAIT, 3, 0);
      TotalWait(RETRY_WAIT, Whole(RETRY_WAIT, 3).waits);
      ShippedWaits(0, conv);
      ShippedWaits(1, conv);
      ShippedWaits(2, conv);
      assert Doubled(RETRY_WAIT, 1) == 2 * RETRY_WAIT && Doubled(RETRY_WAIT, 2) == 4 * RETRY_WAIT;
      assert Bound(RETRY_WAIT, 0) == 0 && Bound(RETRY_WAIT, 1) == 625_000_000;
      assert Bound(RETRY_WAIT, 2) == 1_875_000_000 && Bound(RETRY_WAIT, 3) == 4_375_000_000;
    }
  }

  function Sum(waits: seq<int>): int {
    if waits == [] then 0 else Sum(waits[..|waits| - 1]) + waits[|waits| - 1]
  }

  /** A world in which every call fails and may be retried, and nothing is cancelled. */
  function AlwaysDown(conv: nat -> int): World {
    World(_ => Some(ApiError(503)), _ => false, conv, _ => 0)
  }

  lemma {:induction false} AlwaysDownReaches(base: int, maxRetries: nat, conv: nat -> int, k: nat, last: nat)
    requires k <= last < maxRetries && Panics(base, last, conv)
    requires forall i: nat | k <= i < last :: !Panics(base, i, conv)
    ensures AlwaysDown(conv).Rest(base, maxRetries, k).outcome.Panicked?
    decreases last - k
  {
    if k < last {
      AlwaysDownReaches(base, maxRetries, conv, k + 1, last);
    }
  }

  lemma SomeWorldPanics(base: int, maxRetries: nat, conv: nat -> int)
    requires base < TWO_63 && maxRetries > 0 && (base < 4 || Doubled(base, maxRetries - 1) >= TWO_63)
    requires base >= -TWO_63
    ensures AlwaysDown(conv).Whole(base, maxRetries).outcome.Panicked?
  {
    if base < 4 {
      AlwaysDownReaches(base, maxRetries, conv, 0, 0);
    } else {
      var k := FirstWrap(base, maxRetries - 1);
      FirstWrapPanics(base, k, conv);
      forall i: nat | i < k ensures !Panics(base, i, conv) {
        DoubledGrows(base, i, k - 1);
        InRangeWaits(base, i, conv);
      }
      AlwaysDownReaches(base, maxRetries, conv, 0, k);
    }
  }

  /**
   For any int64 base wait and any number of retries: `do` never panics, whatever the calls return and
   however the random numbers fall, exactly when nothing is retried, or the base is at least four
   nanoseconds and doubling it for the last retry stays inside int64.
   */
  lemma NeverPanicsIff(base: int, maxRetries: int)
    requires -TWO_63 <= base < TWO_63
    ensures (forall w: World :: !w.Whole(base, maxRetries).outcome.Panicked?) <==>
              maxRetries <= 0 || (base >= 4 && Doubled(base, maxRetries - 1) < TWO_63)
  {
    if maxRetries <= 0 || (base >= 4 && Doubled(base, maxRetries - 1) < TWO_63) {
      forall w: World ensures !w.Whole(base, maxRetries).outcome.Panicked? {
        w.NoPanic(base, maxRetries);
      }
    } else {
      var conv: nat -> int := _ => 0;
      SomeWorldPanics(base, maxRetries, conv);
      assert AlwaysDown(conv).Whole(base, maxRetries).outcome.Panicked?;
    }
  }

  /** The shipped base: exactly up to 35 retries. */
  lemma ShippedNeverPanicsIff(maxRetries: int)
    ensures maxRetries <= 35 <==> forall w: World :: !w.Whole(RETRY_WAIT, maxRetries).outcome.Panicked?
  {
    NeverPanicsIff(RETRY_WAIT, maxRetries);
    ShippedPowers();
    if maxRetries >= 36 {
      DoubledGrows(RETRY_WAIT, 35, maxRetries - 1);
    } else if maxRetries > 0 {
      DoubledGrows(RETRY_WAIT, maxRetries - 1, 34);
    }
  }

  method Do(w: World, base: int, maxRetries: int) returns (run: Run)
    ensures run == w.Whole(base, maxRetries)
    ensures maxRetries < 0 ==> run == Run(0, [], Success)
  {
    var calls, waits: seq<int> := 0, [];
    var err: Option<Error> := None;
    var attempt := 0;
    ghost var whole := w.Whole(base, maxRetries);
    while attempt <= maxRetries
      invariant calls == attempt && (if maxRetries < 0 then attempt == 0 else 0 <= attempt <= maxRetries)
      invariant attempt == 0 ==> err.None? && waits == []
      invariant maxRetries >= 0 ==>
          whole == w.Rest(base, maxRetries, attempt).After(calls, waits)
      decreases maxRetries - attempt
    {
      err := w.fn(attempt);
      if err.None? {
        w.RestEnds(base, maxRetries, attempt, calls, waits, Success);
        return Run(calls + 1, waits, Success);
      }
      if !err.value.IsRetryable() {
        w.RestEnds(base, maxRetries, attempt, calls, waits, Failure(err.value));
        return Run(calls + 1, waits, Failure(err.value));
      }
      if attempt == maxRetries {
        w.RestEnds(base, maxRetries, attempt, calls, waits, Failure(err.value));
        calls := calls + 1;
        break;
      }
      var wait := Backoff(base, attempt, w.conv, w.raw(attempt));
      if wait.None? {
        w.RestEnds(base, maxRetries, attempt, calls, waits, Panicked);
        return Run(calls + 1, waits, Panicked);
      }
      if w.done(attempt) {
        return Run(calls + 1, waits + [wait.value], Cancelled);
      }
      w.RestGoesOn(base, maxRetries, attempt, calls, waits);
      calls, waits := calls + 1, waits + [wait.value];
      attempt := attempt + 1;
    }
    run := Run(calls, waits, if err.None? then Success else Failure(err.value));
  }
}
