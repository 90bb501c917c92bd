/** CircuitBreakerSink: admission, downstream call and completion as three steps, so completions of overlapping writes reach any state. */
module CircuitBreaker {
  import opened Arithmetic
  import opened Basics
  import opened Seqs

  datatype CircuitState = Closed | Open | HalfOpen

  /** Options after NewCircuitBreakerSink's defaults. */
  datatype Options = Options(threshold: nat, timeout: nat) {
    predicate Valid() { threshold > 0 && timeout > 0 }
  }

  const SECOND: nat := 1000000000   // durations are whole nanoseconds

  function WithDefaults(threshold: int, timeout: int): (o: Options)
    ensures o.Valid()
    ensures o.threshold == (if threshold > 0 then threshold else 3) && o.timeout == (if timeout > 0 then timeout else 5 * SECOND)
  {
    Options(if threshold <= 0 then 3 else threshold, if timeout <= 0 then 5000000000 else timeout)
  }

  datatype Breaker = Breaker(state: CircuitState, failures: nat, openUntil: int)
  const New := Breaker(Closed, 0, 0)

  /** beforeWrite: the error, and the state after it. */
  function Admission(b: Breaker, now: int): (Breaker, Result) {
    if b.state == Open then
      if now < b.openUntil then (b, Some(CircuitOpen)) else (b.(state := HalfOpen), None)
    else (b, None)
  }

  function OnSuccess(b: Breaker): Breaker { b.(failures := 0, state := Closed) }

  function OnFailure(o: Options, b: Breaker, now: int): Breaker {
    match b.state
    case HalfOpen => Breaker(Open, o.threshold, now + o.timeout)
    case Closed =>
      if b.failures + 1 >= o.threshold then Breaker(Open, b.failures + 1, now + o.timeout)
      else b.(failures := b.failures + 1)
    case Open => b.(openUntil := now + o.timeout)
  }

  /** What happens to the breaker, in the order its lock is taken, whatever writes overlap. */
  datatype Act = Attempt(now: int) | Success | Failure(now: int)

  function Apply(o: Options, b: Breaker, a: Act): Breaker {
    match a
    case Attempt(now) => Admission(b, now).0
    case Success => OnSuccess(b)
    case Failure(now) => OnFailure(o, b, now)
  }

  function Replay(o: Options, h: seq<Act>): Breaker {
    if h == [] then New else Apply(o, Replay(o, Front(h)), Last(h))
  }

  // ---- the state as a function of the history ----

  /** Failures completed since the last success. */
  function Trailing(h: seq<Act>): nat {
    if h == [] then 0
    else match Last(h)
         case Success => 0
         case Failure(_) => Trailing(Front(h)) + 1
         case Attempt(_) => Trailing(Front(h))
  }

  /** When the last failure completed. */
  function LastFailure(h: seq<Act>): int {
    if h == [] then 0 else if Last(h).Failure? then Last(h).now else LastFailure(Front(h))
  }

  /** Some attempt since the last failure came at `t` or later. */
  ghost predicate AttemptedSince(h: seq<Act>, t: int) {
    exists i :: 0 <= i < |h| && h[i].Attempt? && h[i].now >= t && forall j :: i < j < |h| ==> !h[j].Failure?
  }

  /** Attempt i was admitted, and no failure has come since. */
  ghost predicate AdmittedAt(o: Options, h: seq<Act>, i: int) {
    0 <= i < |h| && h[i].Attempt? && Admission(Replay(o, h[..i]), h[i].now).1.None? && forall j :: i < j < |h| ==> !h[j].Failure?
  }

  /** Some attempt since the last failure was admitted. */
  ghost predicate AdmittedSince(o: Options, h: seq<Act>) {
    exists i :: AdmittedAt(o, h, i)
  }

  function Min(a: nat, b: nat): nat { if a <= b then a else b }

  lemma AttemptedSinceSnoc(h: seq<Act>, a: Act, t: int)
    ensures AttemptedSince(h + [a], t) <==> !a.Failure? && (AttemptedSince(h, t) || (a.Attempt? && a.now >= t))
  {
    var h1 := h + [a];
    if AttemptedSince(h, t) && !a.Failure? {
      var i :| 0 <= i < |h| && h[i].Attempt? && h[i].now >= t && forall j :: i < j < |h| ==> !h[j].Failure?;
      assert h1[i] == h[i];
    }
    if a.Attempt? && a.now >= t { assert h1[|h|] == a; }
    if AttemptedSince(h1, t) {
      var i :| 0 <= i < |h1| && h1[i].Attempt? && h1[i].now >= t && forall j :: i < j < |h1| ==> !h1[j].Failure?;
      assert i < |h| ==> !h1[|h|].Failure?;
      if i < |h| {
        assert h[i] == h1[i];
        forall j | i < j < |h| ensures !h[j].Failure? { assert h1[j] == h[j]; }
      }
    }
  }

  /**
   The breaker is a function of the completion history, for any number of overlapping writes: with t
   trailing failures, the count is min(t, threshold) and the breaker is closed iff t < threshold;
   otherwise it is half open iff an attempt since the last failure came OpenTimeout or more after it,
   and openUntil is that failure's time plus OpenTimeout.
   */
  lemma {:induction false} BreakerIsItsHistory(o: Options, h: seq<Act>)
    requires o.Valid()
    ensures var b, t := Replay(o, h), Trailing(h);
            && b.failures == Min(t, o.threshold)
            && (b.state == Closed <==> t < o.threshold)
            && (t >= o.threshold ==>
                  && b.openUntil == LastFailure(h) + o.timeout
                  && (b.state == HalfOpen <==> AttemptedSince(h, LastFailure(h) + o.timeout)))
  {
    if h != [] {
      var pre, a := Front(h), Last(h);
      BreakerIsItsHistory(o, pre);
      assert h == pre + [a];
      AttemptedSinceSnoc(pre, a, LastFailure(h) + o.timeout);
    }
  }

  lemma AdmittedAtSnoc(o: Options, h: seq<Act>, a: Act, i: int)
    requires a.Attempt? && 0 <= i < |h|
    ensures AdmittedAt(o, h + [a], i) <==> AdmittedAt(o, h, i)
  {
    var h1 := h + [a];
    assert h1[..i] == h[..i] && h1[i] == h[i];
    forall j | i < j < |h| ensures h1[j] == h[j] {}
  }

  lemma AdmittedSinceSnoc(o: Options, h: seq<Act>, a: Act)
    requires a.Attempt?
    ensures AdmittedSince(o, h + [a]) <==> AdmittedSince(o, h) || Admission(Replay(o, h), a.now).1.None?
  {
    var h1 := h + [a];
    assert h1[..|h|] == h && h1[|h|] == a;
    forall i | 0 <= i < |h| ensures AdmittedAt(o, h1, i) <==> AdmittedAt(o, h, i) { AdmittedAtSnoc(o, h, a, i); }
    assert AdmittedAt(o, h1, |h|) <==> Admission(Replay(o, h), a.now).1.None?;
  }

  /** Half open iff some write was admitted since the last failure completed. */
  lemma {:induction false} HalfOpenIffAdmitted(o: Options, h: seq<Act>)
    requires o.Valid() && Trailing(h) >= o.threshold
    ensures Replay(o, h).state == HalfOpen <==> AdmittedSince(o, h)
  {
    var pre, a := Front(h), Last(h);
    assert h == pre + [a] && h[|pre|] == a && h[..|pre|] == pre;
    BreakerIsItsHistory(o, h);
    BreakerIsItsHistory(o, pre);
    if a.Attempt? {
      HalfOpenIffAdmitted(o, pre);
      AdmittedSinceSnoc(o, pre, a);
    } else {
      assert h[|pre|].Failure?;
      assert !AdmittedSince(o, h);
    }
  }

  // ---- rate of calls under a downstream that always fails ----

  /** One sequential Write: admission at `at`, and its failing completion at `done` if it is admitted. */
  datatype Try = Try(at: int, done: int)

  predicate Sequential(ws: seq<Try>) {
    && (forall i :: 0 <= i < |ws| ==> ws[i].at <= ws[i].done)
    && (forall i, j :: 0 <= i < j < |ws| ==> ws[i].done <= ws[j].at)
  }

  /** Breaker and the times of the calls that reached `next`, from breaker b on. */
  function RunFailing(o: Options, b: Breaker, ws: seq<Try>): (Breaker, seq<int>) {
    if ws == [] then (b, [])
    else
      var (b0, calls) := RunFailing(o, b, Front(ws));
      var (b1, r) := Admission(b0, Last(ws).at);
      if r.Some? then (b1, calls) else (OnFailure(o, b1, Last(ws).done), calls + [Last(ws).at])
  }

  /** What these writes do to the breaker, in order. */
  function ActsOf(o: Options, b: Breaker, ws: seq<Try>): seq<Act> {
    if ws == [] then []
    else ActsOf(o, b, Front(ws)) + [Attempt(Last(ws).at)]
         + if Admission(RunFailing(o, b, Front(ws)).0, Last(ws).at).1.None? then [Failure(Last(ws).done)] else []
  }

  /** Such a run is a history like any other. */
  lemma {:induction false} RunIsHistory(o: Options, h: seq<Act>, ws: seq<Try>)
    ensures RunFailing(o, Replay(o, h), ws).0 == Replay(o, h + ActsOf(o, Replay(o, h), ws))
  {
    if ws == [] {
      assert h + [] == h;
    } else {
      var b := Replay(o, h);
      var pre, w := ActsOf(o, b, Front(ws)), Last(ws);
      RunIsHistory(o, h, Front(ws));
      assert Front(h + (pre + [Attempt(w.at)])) == h + pre;
      assert Front(h + (pre + [Attempt(w.at)] + [Failure(w.done)])) == h + (pre + [Attempt(w.at)]);
      assert pre + [Attempt(w.at)] + [] == pre + [Attempt(w.at)];
    }
  }

  /** Calls breaker b lets through before they are OpenTimeout apart: what is left to the threshold, or one. */
  function Free(o: Options, b: Breaker): nat {
    if b.state == Closed && b.failures < o.threshold then o.threshold - b.failures else 1
  }

  /** From call `free` on, calls are OpenTimeout apart. */
  predicate Spaced(o: Options, free: nat, calls: seq<int>) {
    forall i :: 0 < i < |calls| ==> calls[i] >= calls[i - 1] + (if i >= free then o.timeout else 0)
  }

  lemma {:induction false} FailingRun(o: Options, b: Breaker, ws: seq<Try>)
    requires o.Valid() && Sequential(ws) && (b.state == Closed ==> b.failures < o.threshold)
    ensures var (b1, calls) := RunFailing(o, b, ws);
            && Spaced(o, Free(o, b), calls)
            && (calls != [] ==> ws != [] && Last(calls) <= Last(ws).done)
            && (if calls == [] then b1 == b
                else if |calls| < Free(o, b) then b1.state == Closed && b1.failures == b.failures + |calls|
                else b1.state == Open && b1.openUntil >= Last(calls) + o.timeout)
  {
    if ws != [] {
      assert Sequential(Front(ws));
      FailingRun(o, b, Front(ws));
    }
  }

  lemma {:induction false} SpacedSpan(o: Options, free: nat, calls: seq<int>, i: nat, j: nat)
    requires o.Valid() && free > 0 && Spaced(o, free, calls) && i <= j < |calls|
    ensures calls[j] - calls[i] >= (if j < free then 0 else (j - if i < free then free - 1 else i) * o.timeout)
    decreases j - i
  {
    if i < j { SpacedSpan(o, free, calls, i, j - 1); }
  }

  /** Calls i to j, `free` of them for nothing, take OpenTimeout for each other. */
  lemma CallsInSpan(o: Options, free: nat, calls: seq<int>, i: nat, j: nat)
    requires o.Valid() && free > 0 && Spaced(o, free, calls) && i <= j < |calls|
    ensures calls[i] <= calls[j] && j - i + 1 <= free + (calls[j] - calls[i]) / o.timeout
  {
    SpacedSpan(o, free, calls, i, j);
    if j >= free {
      var k := j - if i < free then free - 1 else i;
      QuotientAtLeast(calls[j] - calls[i], o.timeout, k);
    }
  }

  /** How many calls fall into a window. */
  function CallsWithin(calls: seq<int>, from: int, to: int): nat {
    if calls == [] then 0
    else CallsWithin(Front(calls), from, to) + (if from <= Last(calls) <= to then 1 else 0)
  }

  /** The position of the first call at `from` or later. */
  function FirstFrom(calls: seq<int>, from: int): (i: nat)
    ensures i <= |calls| && (i < |calls| ==> calls[i] >= from)
    ensures forall k :: 0 <= k < i ==> calls[k] < from
  {
    if calls == [] || calls[0] >= from then 0 else 1 + FirstFrom(calls[1..], from)
  }

  lemma {:induction false} CountFrom(calls: seq<int>, from: int, to: int, i: nat)
    requires i <= |calls| && forall k :: 0 <= k < i ==> calls[k] < from
    ensures CallsWithin(calls, from, to) <= |calls| - i
  {
    if calls != [] { CountFrom(Front(calls), from, to, if i == |calls| then i - 1 else i); }
  }

  lemma CallsInWindow(o: Options, free: nat, calls: seq<int>, i: nat, j: nat, length: nat)
    requires o.Valid() && free > 0 && Spaced(o, free, calls) && i <= j < |calls| && calls[j] - calls[i] <= length
    ensures j - i + 1 <= free + length / o.timeout
  {
    CallsInSpan(o, free, calls, i, j);
    QuotientMonotone(calls[j] - calls[i], length, o.timeout);
  }

  /** The window reaches to the last call. */
  lemma WindowToEnd(o: Options, free: nat, calls: seq<int>, from: int, length: nat)
    requires o.Valid() && free > 0 && Spaced(o, free, calls) && calls != [] && Last(calls) <= from + length
    ensures CallsWithin(calls, from, from + length) <= free + length / o.timeout
  {
    var i, j := FirstFrom(calls, from), |calls| - 1;
    CountFrom(calls, from, from + length, i);
    if i <= j { CallsInWindow(o, free, calls, i, j, length); }
  }

  lemma {:induction false} WindowBound(o: Options, free: nat, calls: seq<int>, from: int, length: nat)
    requires o.Valid() && free > 0 && Spaced(o, free, calls)
    ensures CallsWithin(calls, from, from + length) <= free + length / o.timeout
  {
    if calls == [] {
      assert length / o.timeout >= 0;
    } else if Last(calls) > from + length {
      WindowBound(o, free, Front(calls), from, length);
    } else {
      WindowToEnd(o, free, calls, from, length);
    }
  }

  /**
   Rate bound: after any history of overlapping writes, however many sequential writes are attempted
   against a downstream that always fails, any window of length T holds at most FailureThreshold +
   T / OpenTimeout calls; the threshold is used up by failures still counted, and is one once it is reached.
   */
  lemma RateBound(o: Options, h: seq<Act>, ws: seq<Try>, from: int, length: nat)
    requires o.Valid() && Sequential(ws)
    ensures var b := Replay(o, h); var n := CallsWithin(RunFailing(o, b, ws).1, from, from + length);
            n <= Free(o, b) + length / o.timeout <= o.threshold + length / o.timeout
    ensures Free(o, Replay(o, h)) == if Trailing(h) < o.threshold then o.threshold - Trailing(h) else 1
  {
    var b := Replay(o, h);
    BreakerIsItsHistory(o, h);
    FailingRun(o, b, ws);
    WindowBound(o, Free(o, b), RunFailing(o, b, ws).1, from, length);
  }

  // ---- the sink ----

  class CircuitBreakerSink {
    const opts: Options
    var state: CircuitState
    var consecutiveFailures: nat
    var openUntil: int
    ghost var history: seq<Act>     // in the order the lock was taken

    function View(): Breaker reads this { Breaker(state, consecutiveFailures, openUntil) }
    ghost predicate Valid() reads this { opts.Valid() && View() == Replay(opts, history) }

    constructor (threshold: int, timeout: int)
      ensures Valid() && opts == WithDefaults(threshold, timeout) && history == []
    {
      opts := WithDefaults(threshold, timeout);
      state, consecutiveFailures, openUntil, history := Closed, 0, 0, [];
    }

    method TransitionLocked(to: CircuitState)
      modifies this`state
      ensures state == to
    {
      if state == to { return; }
      state := to;
    }

    /** First critical section of Write. */
    method BeforeWrite(now: int) returns (err: Result)
      requires Valid()
      modifies this
      ensures Valid() && history == old(history) + [Attempt(now)]
      ensures (View(), err) == Admission(old(View()), now)
    {
      history := history + [Attempt(now)];
      assert Front(history) == old(history);
      if state == Open {
        if now < openUntil { return Some(CircuitOpen); }
        TransitionLocked(HalfOpen);
      }
      return None;
    }

    method OnSuccess()
      requires Valid()
      modifies this
      ensures Valid() && history == old(history) + [Success]
    {
      history := history + [Success];
      assert Front(history) == old(history);
      consecutiveFailures := 0;
      if state != Closed { TransitionLocked(Closed); }
    }

    method OnFailure(now: int)
      requires Valid()
      modifies this
      ensures Valid() && history == old(history) + [Failure(now)]
    {
      history := history + [Failure(now)];
      assert Front(history) == old(history);
      match state {
        case HalfOpen =>
          consecutiveFailures := opts.threshold;
          openUntil := now + opts.timeout;
          TransitionLocked(Open);
        case Closed =>
          consecutiveFailures := consecutiveFailures + 1;
          if consecutiveFailures >= opts.threshold {
            openUntil := now + opts.timeout;
            TransitionLocked(Open);
          }
        case Open =>
          openUntil := now + opts.timeout;
      }
    }

    /** Write run without overlap: `r` is what `next` answers, `now` and `done` what the clock reads. */
    method Write(now: int, r: Result, done: int) returns (err: Result, called: bool)
      requires Valid()
      modifies this
      ensures Valid()
      ensures called <==> !(old(state) == Open && now < old(openUntil))
      ensures err == if called then r else Some(CircuitOpen)
      ensures history == old(history) + [Attempt(now)] + if !called then [] else if r.Some? then [Failure(done)] else [Success]
    {
      err := BeforeWrite(now);
      if err.Some? { return err, false; }
      if r.Some? {
        OnFailure(done);
        return r, true;
      }
      OnSuccess();
      return None, true;
    }
  }
}
