/** RetrySink: the attempt loop, and the backoff sequence it sleeps through. */
module Retry {
  import opened Arithmetic
  import opened Basics

  /** Durations are whole nanoseconds; the multiplier is the rational num / den. */
  datatype Options = Options(maxAttempts: nat, initial: nat, max: nat, num: nat, den: nat) {
    predicate Valid() { maxAttempts > 0 && initial > 0 && max > 0 && num > den > 0 }
  }

  function Attempts(maxAttempts: int): nat { if maxAttempts <= 0 then 3 else maxAttempts }

  /** NewRetrySink's defaults. */
  function WithDefaults(maxAttempts: int, initial: int, max: int, num: int, den: nat): (o: Options)
    requires den > 0
    ensures o.Valid()
    ensures o.maxAttempts == (if maxAttempts > 0 then maxAttempts else 3)
    ensures o.initial == (if initial > 0 then initial else 50000000)
    ensures o.max == (if max > 0 then max else 1000000000)
    ensures if num > den then o.num == num && o.den == den else o.num == 2 * o.den
  {
    Options(Attempts(maxAttempts),
            if initial <= 0 then 50000000 else initial,
            if max <= 0 then 1000000000 else max,
            if num <= den then 2 else num,
            if num <= den then 1 else den)
  }

  function NextBackoff(current: nat, max: nat, num: nat, den: nat): nat
    requires den > 0
  {
    var next := current * num / den;
    if next > max then max else next
  }

  /** The k-th sleep. */
  function Backoff(o: Options, k: nat): nat
    requires o.Valid()
  {
    if k == 0 then o.initial else NextBackoff(Backoff(o, k - 1), o.max, o.num, o.den)
  }

  /** One round as the environment decides it: the context before the call, the answer, Retryable, the sleep. */
  datatype Round = Round(ctxErr: Result, answer: Result, retryable: bool, sleepErr: Result)

  /** What attempt k of max ends with, if `later` is what the attempts behind it end with. */
  function Choose(max: nat, round: Round, k: nat, later: Result): Result {
    if round.ctxErr.Some? then round.ctxErr
    else if round.answer.None? then None
    else if !round.retryable || k == max then Some(RetriesFailed(max, round.answer.value))
    else if round.sleepErr.Some? then round.sleepErr
    else later
  }

  /** The loop's result from attempt k on, by what the rounds bring. */
  function Outcome(max: nat, rounds: nat -> Round, k: nat): Result
    requires 1 <= k <= max
    decreases max - k
  {
    Choose(max, rounds(k - 1), k, if k == max then None else Outcome(max, rounds, k + 1))
  }

  /** Any results that hang together as the loop's attempts do are the loop's. */
  lemma {:induction false} OutcomeUnique(max: nat, rounds: nat -> Round, results: nat -> Result, k: nat)
    requires 1 <= k <= max
    requires forall j :: 1 <= j <= max ==> results(j) == Choose(max, rounds(j - 1), j, results(j + 1))
    ensures results(k) == Outcome(max, rounds, k)
    decreases max - k
  {
    assert results(k) == Choose(max, rounds(k - 1), k, results(k + 1));
    if k < max { OutcomeUnique(max, rounds, results, k + 1); }
  }

  /** Why the loop ended. */
  datatype Stop = Answered | Exhausted | NotRetryable | CancelledBefore | CancelledAsleep

  /** do: `calls` are the answers of the operation, `sleeps` the sleeps begun, in order. */
  method Do(o: Options, rounds: nat -> Round) returns (r: Result, ghost stop: Stop, calls: seq<Result>, sleeps: seq<nat>)
    requires o.Valid()
    ensures r == Outcome(o.maxAttempts, rounds, 1)
    ensures |calls| <= o.maxAttempts && |sleeps| <= o.maxAttempts - 1
    ensures forall k :: 0 <= k < |calls| ==> calls[k] == rounds(k).answer
    ensures forall k :: 0 <= k < |calls| - 1 ==> calls[k].Some? && rounds(k).retryable && rounds(k).sleepErr.None?
    ensures forall k :: 0 <= k < |calls| ==> rounds(k).ctxErr.None?
    ensures forall k :: 0 <= k < |sleeps| ==> sleeps[k] == Backoff(o, k)
    ensures r.None? <==> calls != [] && calls[|calls| - 1].None?
    ensures match stop
            case Answered => calls != [] && r.None? && |sleeps| == |calls| - 1
            case Exhausted => |calls| == o.maxAttempts && |sleeps| == |calls| - 1
            case NotRetryable => calls != [] && |sleeps| == |calls| - 1 && !rounds(|calls| - 1).retryable
            case CancelledBefore => |calls| < o.maxAttempts && |sleeps| == |calls| && rounds(|calls|).ctxErr.Some? && r == rounds(|calls|).ctxErr
            case CancelledAsleep => calls != [] && |sleeps| == |calls| && r == rounds(|calls| - 1).sleepErr
    ensures stop.Exhausted? || stop.NotRetryable? ==>
              calls[|calls| - 1].Some? && r == Some(RetriesFailed(o.maxAttempts, calls[|calls| - 1].value))
  {
    hide NextBackoff;
    var backoff := o.initial;
    var lastErr: Result := None;
    calls, sleeps, stop := [], [], Exhausted;
    var attempts := 1;
    while attempts <= o.maxAttempts
      invariant 1 <= attempts <= o.maxAttempts
      invariant |calls| == |sleeps| == attempts - 1
      invariant backoff == Backoff(o, attempts - 1)
      invariant Outcome(o.maxAttempts, rounds, 1) == Outcome(o.maxAttempts, rounds, attempts)
      invariant forall k :: 0 <= k < |calls| ==>
                  && calls[k] == rounds(k).answer && calls[k].Some?
                  && rounds(k).ctxErr.None? && rounds(k).retryable && rounds(k).sleepErr.None?
      invariant forall k :: 0 <= k < |sleeps| ==> sleeps[k] == Backoff(o, k)
    {
      var round := rounds(attempts - 1);
      if round.ctxErr.Some? {
        return round.ctxErr, CancelledBefore, calls, sleeps;
      }
      var err := round.answer;
      calls := calls + [err];
      if err.None? {
        return None, Answered, calls, sleeps;
      }
      lastErr := err;
      if !round.retryable || attempts == o.maxAttempts {
        stop := if !round.retryable then NotRetryable else Exhausted;
        break;
      }
      sleeps := sleeps + [backoff];
      if round.sleepErr.Some? {
        return round.sleepErr, CancelledAsleep, calls, sleeps;
      }
      backoff := NextBackoff(backoff, o.max, o.num, o.den);
      attempts := attempts + 1;
    }
    r := Some(RetriesFailed(o.maxAttempts, lastErr.value));
  }

  /** The first sleep is not clamped; every later one is at most MaxBackoff. */
  lemma LaterBackoffsClamped(o: Options, k: nat)
    requires o.Valid()
    ensures Backoff(o, 0) == o.initial
    ensures k > 0 ==> Backoff(o, k) <= o.max
  {
  }

  /** A multiplier above one never shrinks a duration, even truncated. */
  lemma GrowthKeeps(x: nat, num: nat, den: nat)
    requires num > den > 0
    ensures x * num / den >= x
  {
    assert x * num >= x * den by { assert x * (num - den) >= 0; assert x * num == x * den + x * (num - den); }
    QuotientAtLeast(x * num, den, x);
  }

  /** Sleep k + 1 is no shorter than sleep k. */
  predicate Rises(o: Options, k: nat) requires o.Valid() { Backoff(o, k) <= Backoff(o, k + 1) }

  /** Sleeps never shrink exactly when the first one respects MaxBackoff; otherwise the second drops to it. */
  lemma {:induction false} BackoffMonotone(o: Options)
    requires o.Valid()
    ensures (forall k: nat :: Rises(o, k)) <==> o.initial <= o.max
  {
    if o.initial <= o.max {
      forall k: nat ensures Rises(o, k) {
        GrowthKeeps(Backoff(o, k), o.num, o.den);
        LaterBackoffsClamped(o, k);
      }
    } else {
      LaterBackoffsClamped(o, 1);
      assert !Rises(o, 0);
    }
  }

  /** A truncated quotient is the largest whole number that does not exceed the fraction. */
  lemma Truncates(x: nat, num: nat, den: nat)
    requires den > 0
    ensures var q := x * num / den; q * den <= x * num < (q + 1) * den
  {
    var y := x * num;
    assert y == (y / den) * den + y % den;
    assert (y / den + 1) * den == (y / den) * den + den;
  }

  /**
   Each later sleep is the one before it times the multiplier, truncated to a whole duration, or MaxBackoff
   if that is less.
   */
  lemma SleepGrows(o: Options, k: nat)
    requires o.Valid()
    ensures var c, r := Backoff(o, k), Backoff(o, k + 1);
            && r <= o.max && r * o.den <= c * o.num
            && (r < o.max ==> c * o.num < (r + 1) * o.den)
  {
    var c, r := Backoff(o, k), Backoff(o, k + 1);
    var q := c * o.num / o.den;
    Truncates(c, o.num, o.den);
    assert r <= q;
    MulMonotone(r, q, o.den);
  }

  function Power(b: nat, k: nat): nat { if k == 0 then 1 else b * Power(b, k - 1) }

  /** initial scaled k times. */
  function Scaled(x: nat, b: nat, k: nat): nat { if k == 0 then x else b * Scaled(x, b, k - 1) }

  lemma {:induction false} ScaledIsProduct(x: nat, b: nat, k: nat)
    ensures Scaled(x, b, k) == x * Power(b, k)
  {
    if k > 0 {
      ScaledIsProduct(x, b, k - 1);
      MulSwap(b, x, Power(b, k - 1));
    }
  }

  /** One step with the whole multiplier b. */
  lemma WholeStep(c: nat, max: nat, b: nat, den: nat)
    requires den > 0
    ensures NextBackoff(c, max, b * den, den) == if b * c > max then max else b * c
  {
    assert c * (b * den) == (b * c) * den;
    Quotient((b * c) * den, den, b * c, 0);
  }

  lemma ClampStep(x: nat, max: nat, b: nat)
    requires b >= 1
    ensures var c := if x <= max then x else max;
            (if b * c > max then max else b * c) == if b * x <= max then b * x else max
  {
    MulMonotone(1, b, x);
    MulMonotone(1, b, max);
    MulMonotone(max, x, b);
  }

  lemma {:induction false} BackoffScales(o: Options, b: nat, k: nat)
    requires o.Valid() && o.num == b * o.den && o.initial <= o.max
    ensures Backoff(o, k) == if Scaled(o.initial, b, k) <= o.max then Scaled(o.initial, b, k) else o.max
  {
    if k > 0 {
      BackoffScales(o, b, k - 1);
      assert b >= 1;
      WholeStep(Backoff(o, k - 1), o.max, b, o.den);
      ClampStep(Scaled(o.initial, b, k - 1), o.max, b);
    }
  }

  /** With a whole multiplier b, sleep k is min(InitialBackoff * b^k, MaxBackoff). */
  lemma GeometricBackoff(o: Options, b: nat, k: nat)
    requires o.Valid() && o.num == b * o.den && o.initial <= o.max
    ensures Backoff(o, k) == if o.initial * Power(b, k) <= o.max then o.initial * Power(b, k) else o.max
  {
    BackoffScales(o, b, k);
    ScaledIsProduct(o.initial, b, k);
  }
}
