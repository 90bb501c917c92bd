/**
 Which leaves one Write calls, exactly, whatever they answer: fanouts write every child in turn, and a leaf is
 missed only behind a filter, a breaker that refuses or a retry that is cancelled on its own path.
 */
module Reaching {
  import opened Basics
  import opened Seqs
  import opened Pipeline
  import CB = CircuitBreaker

  // ---- a fanout, child by child ----

  /** The world child i finds: the one its predecessor left. */
  function WorldAt(ss: seq<Sink>, path: Path, level: nat, env: Env, w: World, i: nat): (w1: World)
    requires i <= |ss|
    ensures w.log <= w1.log
    decreases i
  {
    if i == 0 then w else Write(ss[i - 1], path + [i - 1], level, env, WorldAt(ss, path, level, env, w, i - 1)).1
  }

  /** The errors of the first i children, in order. */
  function ErrorsUpTo(ss: seq<Sink>, path: Path, level: nat, env: Env, w: World, i: nat): seq<Err>
    requires i <= |ss|
    decreases i
  {
    if i == 0 then []
    else
      var r := Write(ss[i - 1], path + [i - 1], level, env, WorldAt(ss, path, level, env, w, i - 1)).0;
      ErrorsUpTo(ss, path, level, env, w, i - 1) + if r.Some? then [r.value] else []
  }

  /** The calls of the first i children, one child after the other. */
  function CallsUpTo(ss: seq<Sink>, path: Path, level: nat, env: Env, w: World, i: nat): seq<LeafCall>
    requires i <= |ss|
    decreases i
  {
    if i == 0 then []
    else
      CallsUpTo(ss, path, level, env, w, i - 1)
      + Added(WorldAt(ss, path, level, env, w, i - 1), WorldAt(ss, path, level, env, w, i))
  }

  lemma {:induction false} EachFrom(ss: seq<Sink>, i: nat, path: Path, level: nat, env: Env, w: World)
    requires i <= |ss|
    ensures var (errs, w1) := WriteEach(ss, i, path, level, env, WorldAt(ss, path, level, env, w, i));
            && w1 == WorldAt(ss, path, level, env, w, |ss|)
            && ErrorsUpTo(ss, path, level, env, w, i) + errs == ErrorsUpTo(ss, path, level, env, w, |ss|)
    decreases |ss| - i
  {
    if i < |ss| {
      var wi := WorldAt(ss, path, level, env, w, i);
      var r := Write(ss[i], path + [i], level, env, wi).0;
      EachFrom(ss, i + 1, path, level, env, w);
      Assoc(ErrorsUpTo(ss, path, level, env, w, i), if r.Some? then [r.value] else [],
            WriteEach(ss, i + 1, path, level, env, WorldAt(ss, path, level, env, w, i + 1)).0);
    } else {
      assert ErrorsUpTo(ss, path, level, env, w, i) + [] == ErrorsUpTo(ss, path, level, env, w, i);
    }
  }

  lemma {:induction false} CallsAddUp(ss: seq<Sink>, path: Path, level: nat, env: Env, w: World, i: nat)
    requires i <= |ss|
    ensures CallsUpTo(ss, path, level, env, w, i) == Added(w, WorldAt(ss, path, level, env, w, i))
    decreases i
  {
    if i > 0 {
      CallsAddUp(ss, path, level, env, w, i - 1);
      AddedTwice(w, WorldAt(ss, path, level, env, w, i - 1), WorldAt(ss, path, level, env, w, i));
    }
  }

  /**
   A fanout writes every child, whatever the others answer: its calls are, child by child, those of each child's
   Write in the world its predecessor left, and its error lists exactly the failing children's errors in order.
   */
  lemma FanoutWritesEveryChild(ss: seq<Sink>, path: Path, level: nat, env: Env, w: World)
    ensures var (r, w1) := Write(Fanout(ss), path, level, env, w); var errs := ErrorsUpTo(ss, path, level, env, w, |ss|);
            && Added(w, w1) == CallsUpTo(ss, path, level, env, w, |ss|)
            && r == (if errs == [] then None else Some(Joined(errs)))
  {
    EachFrom(ss, 0, path, level, env, w);
    CallsAddUp(ss, path, level, env, w, |ss|);
    var errs := WriteEach(ss, 0, path, level, env, w).0;
    assert [] + errs == errs;
  }

  // ---- what a leaf answers ----

  /** A leaf answers what the log says it answered. */
  lemma LeafAnswers(s: Sink, path: Path, level: nat, env: Env, w: World)
    requires s.Leaf? || s.Queue?
    ensures var (r, w1) := Write(s, path, level, env, w); Added(w, w1) == [LeafCall(path, r)] && r == env(w.ticks).answer
  {
  }

  /** The environment gave r as an answer. */
  ghost predicate Given(env: Env, r: Result) { exists t: nat :: env(t).answer == r }

  /** Every logged answer is one the environment gave. */
  lemma {:induction false} AnswersGiven(s: Sink, path: Path, level: nat, env: Env, w: World)
    ensures forall c <- Added(w, Write(s, path, level, env, w).1) :: Given(env, c.r)
    decreases s, 0
  {
    match s {
      case Nop =>
      case Leaf => LeafAnswers(s, path, level, env, w);
      case Queue(_) => LeafAnswers(s, path, level, env, w);
      case Filter(min, next) => AnswersGiven(next, path, level, env, w);
      case Fanout(ss) => GivenEach(ss, 0, path, level, env, w);
      case Retry(max, next) => GivenRetry(next, max, 1, path, level, env, w);
      case Breaker(opts, next) =>
        var b := CB.Admission(w.BreakerAt(path), env(w.ticks).now).0;
        AnswersGiven(next, path + [0], level, env, w.Tick().(breakers := w.breakers[path := b]));
    }
  }

  lemma {:induction false} GivenEach(ss: seq<Sink>, i: nat, path: Path, level: nat, env: Env, w: World)
    ensures forall c <- Added(w, WriteEach(ss, i, path, level, env, w).1) :: Given(env, c.r)
    decreases ss, |ss| - i
  {
    if i < |ss| {
      var w1 := Write(ss[i], path + [i], level, env, w).1;
      AnswersGiven(ss[i], path + [i], level, env, w);
      GivenEach(ss, i + 1, path, level, env, w1);
      AddedTwice(w, w1, WriteEach(ss, i, path, level, env, w).1);
    }
  }

  lemma {:induction false} GivenRetry(next: Sink, max: nat, k: nat, path: Path, level: nat, env: Env, w: World)
    ensures forall c <- Added(w, WriteRetry(next, max, k, path, level, env, w).1) :: Given(env, c.r)
    decreases next, 1 + if k <= max then max - k + 1 else 0
  {
    if k <= max {
      var w1, all := Write(next, path + [0], level, env, w.Tick()).1, WriteRetry(next, max, k, path, level, env, w).1;
      AnswersGiven(next, path + [0], level, env, w.Tick());
      GivenRetry(next, max, k + 1, path, level, env, w1.Tick());
      RetryLog(next, max, k, path, level, env, w);
      if w1.log <= all.log { AddedTwice(w, w1, all); }
    }
  }

  // ---- trees without retries and breakers ----

  predicate Plain(s: Sink)
    decreases s
  {
    match s
    case Filter(_, next) => Plain(next)
    case Fanout(ss) => forall c <- ss :: Plain(c)
    case Retry(_, _) => false
    case Breaker(_, _) => false
    case _ => true
  }

  function Leaves(calls: seq<LeafCall>): (ps: seq<Path>)
    ensures |ps| == |calls| && forall i :: 0 <= i < |calls| ==> ps[i] == calls[i].leaf
  {
    seq(|calls|, i requires 0 <= i < |calls| => calls[i].leaf)
  }

  lemma LeavesConcat(a: seq<LeafCall>, b: seq<LeafCall>)
    ensures Leaves(a + b) == Leaves(a) + Leaves(b)
  {
  }

  /** Whatever the leaves answer, a tree of fanouts and filters calls its admitted leaves in configuration order. */
  lemma {:induction false} PlainOrder(s: Sink, path: Path, level: nat, env: Env, w: World)
    requires Plain(s)
    ensures Leaves(Added(w, Write(s, path, level, env, w).1)) == Leaves(Targets(s, path, level))
    decreases s, 0
  {
    match s {
      case Filter(_, next) => if Passes(level, s.min) { PlainOrder(next, path, level, env, w); }
      case Fanout(ss) => PlainOrderEach(ss, 0, path, level, env, w);
      case _ =>
    }
  }

  lemma {:induction false} PlainOrderEach(ss: seq<Sink>, i: nat, path: Path, level: nat, env: Env, w: World)
    requires forall c <- ss :: Plain(c)
    ensures Leaves(Added(w, WriteEach(ss, i, path, level, env, w).1)) == Leaves(TargetsEach(ss, i, path, level))
    decreases ss, |ss| - i
  {
    if i < |ss| {
      var w1 := Write(ss[i], path + [i], level, env, w).1;
      PlainOrder(ss[i], path + [i], level, env, w);
      PlainOrderEach(ss, i + 1, path, level, env, w1);
      AddedTwice(w, w1, WriteEach(ss, i, path, level, env, w).1);
      LeavesConcat(Added(w, w1), Added(w1, WriteEach(ss, i, path, level, env, w).1));
      LeavesConcat(Targets(ss[i], path + [i], level), TargetsEach(ss, i + 1, path, level));
    }
  }

  // ---- who is called, exactly ----

  predicate Called(calls: seq<LeafCall>, p: Path) { exists c :: c in calls && c.leaf == p }

  /** On q's own path: every filter admits, every breaker admits when it is asked, some attempt of every retry gets there. */
  predicate Reached(s: Sink, path: Path, level: nat, env: Env, w: World, q: Path)
    decreases s, 0
  {
    match s
    case Nop => false
    case Leaf => q == []
    case Queue(_) => q == []
    case Filter(min, next) => min <= level <= 4 && Reached(next, path, level, env, w, q)
    case Fanout(ss) =>
      q != [] && q[0] < |ss| && Reached(ss[q[0]], path + [q[0]], level, env, WorldAt(ss, path, level, env, w, q[0]), q[1..])
    case Retry(max, next) => q != [] && q[0] == 0 && ReachedFrom(next, max, 1, path, level, env, w, q[1..])
    case Breaker(_, next) =>
      var (b, err) := CB.Admission(w.BreakerAt(path), env(w.ticks).now);
      q != [] && q[0] == 0 && err.None? && Reached(next, path + [0], level, env, w.Tick().(breakers := w.breakers[path := b]), q[1..])
  }

  /** Another attempt follows attempt k. */
  predicate Continues(next: Sink, max: nat, k: nat, path: Path, level: nat, env: Env, w: World) {
    var (r, w1) := Write(next, path + [0], level, env, w.Tick());
    r.Some? && env(w1.ticks).retryable && k < max && env(w1.ticks).sleepErr.None?
  }

  /** Attempt k or a later one that is made gets there. */
  predicate ReachedFrom(next: Sink, max: nat, k: nat, path: Path, level: nat, env: Env, w: World, q: Path)
    decreases next, 1 + if k <= max then max - k + 1 else 0
  {
    k <= max && env(w.ticks).ctxErr.None?
    && (|| Reached(next, path + [0], level, env, w.Tick(), q)
        || (Continues(next, max, k, path, level, env, w)
            && ReachedFrom(next, max, k + 1, path, level, env, Write(next, path + [0], level, env, w.Tick()).1.Tick(), q)))
  }

  lemma NoneCalled(p: Path)
    ensures !Called([], p)
  {
  }

  lemma CalledConcat(a: seq<LeafCall>, b: seq<LeafCall>, p: Path)
    ensures Called(a + b, p) <==> Called(a, p) || Called(b, p)
  {
    if Called(a, p) { var c :| c in a && c.leaf == p; assert c in a + b; }
    if Called(b, p) { var c :| c in b && c.leaf == p; assert c in a + b; }
  }

  lemma LeafCalled(path: Path, q: Path, r: Result)
    ensures Called([LeafCall(path, r)], path + q) <==> q == []
  {
    if q == [] {
      assert path + q == path && LeafCall(path, r) in [LeafCall(path, r)];
    } else {
      assert |path + q| > |path|;
    }
  }

  /** The calls of child i alone. */
  function ChildCalls(ss: seq<Sink>, path: Path, level: nat, env: Env, w: World, i: nat): seq<LeafCall>
    requires i < |ss|
  {
    Added(WorldAt(ss, path, level, env, w, i), WorldAt(ss, path, level, env, w, i + 1))
  }

  /** Only child q[0] can call what lies at q. */
  lemma OtherChild(child: Sink, i: nat, path: Path, level: nat, env: Env, w: World, q: Path)
    ensures Called(Added(w, Write(child, path + [i], level, env, w).1), path + q) ==> q != [] && q[0] == i
  {
    OnlyAdmitted(child, path + [i], level, env, w);
    forall c <- Added(w, Write(child, path + [i], level, env, w).1) | c.leaf == path + q ensures q != [] && q[0] == i {
      BelowChild(child, path, i, level, c.leaf);
      assert (path + q)[|path|..] == q;
    }
  }

  lemma {:induction false} CalledUpTo(ss: seq<Sink>, n: nat, path: Path, level: nat, env: Env, w: World, q: Path)
    requires n <= |ss|
    ensures Called(CallsUpTo(ss, path, level, env, w, n), path + q)
            <==> q != [] && q[0] < n && Called(ChildCalls(ss, path, level, env, w, q[0]), path + q)
  {
    if n > 0 {
      CalledUpTo(ss, n - 1, path, level, env, w, q);
      CalledConcat(CallsUpTo(ss, path, level, env, w, n - 1), ChildCalls(ss, path, level, env, w, n - 1), path + q);
      OtherChild(ss[n - 1], n - 1, path, level, env, WorldAt(ss, path, level, env, w, n - 1), q);
    }
  }

  /** A leaf is called exactly when the Write reaches it. */
  lemma {:induction false} CalledIffReached(s: Sink, path: Path, level: nat, env: Env, w: World, q: Path)
    ensures Called(Added(w, Write(s, path, level, env, w).1), path + q) <==> Reached(s, path, level, env, w, q)
    decreases s, 0
  {
    var added := Added(w, Write(s, path, level, env, w).1);
    match s {
      case Nop =>
      case Leaf => LeafCalled(path, q, env(w.ticks).answer); assert added == [LeafCall(path, env(w.ticks).answer)];
      case Queue(_) => LeafCalled(path, q, env(w.ticks).answer); assert added == [LeafCall(path, env(w.ticks).answer)];
      case Filter(min, next) => if Passes(level, min) { CalledIffReached(next, path, level, env, w, q); }
      case Fanout(ss) =>
        FanoutWritesEveryChild(ss, path, level, env, w);
        CalledUpTo(ss, |ss|, path, level, env, w, q);
        if q != [] && q[0] < |ss| { ReachedChild(ss[q[0]], q[0], path, level, env, WorldAt(ss, path, level, env, w, q[0]), q); }
      case Retry(max, next) => ReachedRetry(next, max, 1, path, level, env, w, q);
      case Breaker(opts, next) =>
        var (b, err) := CB.Admission(w.BreakerAt(path), env(w.ticks).now);
        if err.None? { ReachedChild(next, 0, path, level, env, w.Tick().(breakers := w.breakers[path := b]), q); }
    }
  }

  /** The calls of child i, seen from its parent's path. */
  lemma {:induction false} ReachedChild(child: Sink, i: nat, path: Path, level: nat, env: Env, w: World, q: Path)
    ensures Called(Added(w, Write(child, path + [i], level, env, w).1), path + q)
            <==> q != [] && q[0] == i && Reached(child, path + [i], level, env, w, q[1..])
    decreases child, 1
  {
    OtherChild(child, i, path, level, env, w, q);
    if q != [] && q[0] == i {
      CalledIffReached(child, path + [i], level, env, w, q[1..]);
      PathSplit(path, i, q);
    }
  }

  /** What the loop logs from attempt k on. */
  lemma RetryEnd(next: Sink, max: nat, k: nat, path: Path, level: nat, env: Env, w: World)
    ensures var w1, all := Write(next, path + [0], level, env, w.Tick()).1, WriteRetry(next, max, k, path, level, env, w).1;
            && w.log <= w1.log
            && if k > max || env(w.ticks).ctxErr.Some? then all.log == w.log
               else if Continues(next, max, k, path, level, env, w) then all == WriteRetry(next, max, k + 1, path, level, env, w1.Tick()).1
               else all.log == w1.log
  {
  }

  /** The calls of the loop from attempt k on: this attempt's, then the later ones'. */
  lemma RetrySplit(next: Sink, max: nat, k: nat, path: Path, level: nat, env: Env, w: World, p: Path)
    ensures var w1 := Write(next, path + [0], level, env, w.Tick()).1;
            Called(Added(w, WriteRetry(next, max, k, path, level, env, w).1), p)
            <==> k <= max && env(w.ticks).ctxErr.None?
                 && (|| Called(Added(w, w1), p)
                     || (Continues(next, max, k, path, level, env, w)
                         && Called(Added(w1, WriteRetry(next, max, k + 1, path, level, env, w1.Tick()).1), p)))
  {
    hide Write, WriteRetry, Continues, Called;
    RetryEnd(next, max, k, path, level, env, w);
    var w1 := Write(next, path + [0], level, env, w.Tick()).1;
    var later := WriteRetry(next, max, k + 1, path, level, env, w1.Tick()).1;
    var all := WriteRetry(next, max, k, path, level, env, w).1;
    NoneCalled(p);
    assert all.log == w.log ==> Added(w, all) == [];
    assert all.log == w1.log ==> Added(w, all) == Added(w, w1);
    AddedTwice(w, w1, later);
    CalledConcat(Added(w, w1), Added(w1, later), p);
  }

  lemma {:induction false} ReachedRetry(next: Sink, max: nat, k: nat, path: Path, level: nat, env: Env, w: World, q: Path)
    ensures Called(Added(w, WriteRetry(next, max, k, path, level, env, w).1), path + q)
            <==> q != [] && q[0] == 0 && ReachedFrom(next, max, k, path, level, env, w, q[1..])
    decreases next, 2 + if k <= max then max - k + 1 else 0
  {
    hide WriteRetry, Write, Called;
    RetrySplit(next, max, k, path, level, env, w, path + q);
    if k <= max {
      var w1 := Write(next, path + [0], level, env, w.Tick()).1;
      ReachedChild(next, 0, path, level, env, w.Tick(), q);
      ReachedRetry(next, max, k + 1, path, level, env, w1.Tick(), q);
    }
  }

  /** On q's own path a breaker refuses, or a retry finds its context cancelled before the first attempt. */
  predicate Blocked(s: Sink, path: Path, level: nat, env: Env, w: World, q: Path)
    decreases s
  {
    match s
    case Filter(_, next) => Blocked(next, path, level, env, w, q)
    case Fanout(ss) =>
      q != [] && q[0] < |ss| && Blocked(ss[q[0]], path + [q[0]], level, env, WorldAt(ss, path, level, env, w, q[0]), q[1..])
    case Retry(_, next) => env(w.ticks).ctxErr.Some? || (q != [] && Blocked(next, path + [0], level, env, w.Tick(), q[1..]))
    case Breaker(_, next) =>
      var (b, err) := CB.Admission(w.BreakerAt(path), env(w.ticks).now);
      err.Some? || (q != [] && Blocked(next, path + [0], level, env, w.Tick().(breakers := w.breakers[path := b]), q[1..]))
    case _ => false
  }

  lemma {:induction false} ReachedUnlessBlocked(s: Sink, path: Path, level: nat, env: Env, w: World, q: Path)
    requires Constructed(s) && Admits(s, q, level) && !Blocked(s, path, level, env, w, q)
    ensures Reached(s, path, level, env, w, q)
    decreases s
  {
    match s {
      case Filter(_, next) => ReachedUnlessBlocked(next, path, level, env, w, q);
      case Fanout(ss) => ReachedUnlessBlocked(ss[q[0]], path + [q[0]], level, env, WorldAt(ss, path, level, env, w, q[0]), q[1..]);
      case Retry(_, next) => ReachedUnlessBlocked(next, path + [0], level, env, w.Tick(), q[1..]);
      case Breaker(_, next) =>
        var b := CB.Admission(w.BreakerAt(path), env(w.ticks).now).0;
        ReachedUnlessBlocked(next, path + [0], level, env, w.Tick().(breakers := w.breakers[path := b]), q[1..]);
      case _ =>
    }
  }

  /** An admitted leaf is missed only under a breaker that refuses or a retry that is cancelled on its own path. */
  lemma {:induction false} MissedOnlyIfBlocked(s: Sink, path: Path, level: nat, env: Env, w: World, q: Path)
    requires Constructed(s) && Admits(s, q, level)
    ensures Called(Added(w, Write(s, path, level, env, w).1), path + q) || Blocked(s, path, level, env, w, q)
  {
    CalledIffReached(s, path, level, env, w, q);
    if !Blocked(s, path, level, env, w, q) { ReachedUnlessBlocked(s, path, level, env, w, q); }
  }

  // ---- each admitted leaf once ----

  lemma LeafOnce(path: Path, q: Path)
    ensures Count([LeafCall(path, None)], path + q) == if q == [] then 1 else 0
  {
    assert [LeafCall(path, None)][1..] == [];
    if q == [] { assert path + q == path; } else { assert |path + q| > |path|; }
  }

  lemma {:induction false} TargetsOnce(s: Sink, path: Path, level: nat, q: Path)
    requires Constructed(s)
    ensures Count(Targets(s, path, level), path + q) == if Admits(s, q, level) then 1 else 0
    decreases s, 0
  {
    match s {
      case Leaf => LeafOnce(path, q);
      case Queue(_) => LeafOnce(path, q);
      case Filter(_, next) => TargetsOnce(next, path, level, q);
      case Fanout(ss) => TargetsEachOnce(ss, 0, path, level, q);
      case Retry(_, next) => TargetsBelow(next, 0, path, level, q);
      case Breaker(_, next) => TargetsBelow(next, 0, path, level, q);
      case Nop =>
    }
  }

  /** All targets of a sink lie below its path. */
  lemma {:induction false} TargetsUnder(s: Sink, path: Path, level: nat)
    ensures forall c <- Targets(s, path, level) :: path <= c.leaf
    decreases s, 0
  {
    match s {
      case Filter(_, next) => TargetsUnder(next, path, level);
      case Fanout(ss) => TargetsEachUnder(ss, 0, path, level);
      case Retry(_, next) => TargetsUnder(next, path + [0], level);
      case Breaker(_, next) => TargetsUnder(next, path + [0], level);
      case _ =>
    }
  }

  lemma {:induction false} TargetsEachUnder(ss: seq<Sink>, i: nat, path: Path, level: nat)
    ensures forall c <- TargetsEach(ss, i, path, level) :: path <= c.leaf
    decreases ss, |ss| - i
  {
    if i < |ss| {
      TargetsUnder(ss[i], path + [i], level);
      TargetsEachUnder(ss, i + 1, path, level);
    }
  }

  lemma {:induction false} TargetsBelow(child: Sink, i: nat, path: Path, level: nat, q: Path)
    requires Constructed(child)
    ensures Count(Targets(child, path + [i], level), path + q) == if q != [] && q[0] == i && Admits(child, q[1..], level) then 1 else 0
    decreases child, 1
  {
    if q != [] && q[0] == i {
      TargetsOnce(child, path + [i], level, q[1..]);
      PathSplit(path, i, q);
    } else {
      TargetsUnder(child, path + [i], level);
      forall c <- Targets(child, path + [i], level) ensures c.leaf != path + q {
        assert c.leaf[|path|] == (path + [i])[|path|] == i;
      }
      CountNone(Targets(child, path + [i], level), path + q);
    }
  }

  lemma {:induction false} TargetsEachOnce(ss: seq<Sink>, i: nat, path: Path, level: nat, q: Path)
    requires forall c <- ss :: Constructed(c)
    ensures Count(TargetsEach(ss, i, path, level), path + q)
            == if q != [] && i <= q[0] < |ss| && Admits(ss[q[0]], q[1..], level) then 1 else 0
    decreases ss, |ss| - i
  {
    if i < |ss| {
      TargetsBelow(ss[i], i, path, level, q);
      TargetsEachOnce(ss, i + 1, path, level, q);
      CountConcat(Targets(ss[i], path + [i], level), TargetsEach(ss, i + 1, path, level), path + q);
    }
  }

  lemma {:induction false} CountLeaves(a: seq<LeafCall>, b: seq<LeafCall>, p: Path)
    requires Leaves(a) == Leaves(b)
    ensures Count(a, p) == Count(b, p)
  {
    if a != [] {
      assert |a| == |Leaves(a)| == |Leaves(b)| == |b|;
      assert a[0].leaf == Leaves(a)[0] == Leaves(b)[0] == b[0].leaf;
      assert Leaves(a[1..]) == Leaves(a)[1..] && Leaves(b[1..]) == Leaves(b)[1..];
      CountLeaves(a[1..], b[1..], p);
    } else {
      assert |b| == |Leaves(b)| == 0;
    }
  }


  /** Whatever the leaves answer, a tree of fanouts and filters calls every admitted leaf exactly once and no other. */
  lemma PlainOnce(s: Sink, path: Path, level: nat, env: Env, w: World, q: Path)
    requires Plain(s) && Constructed(s)
    ensures Count(Added(w, Write(s, path, level, env, w).1), path + q) == if Admits(s, q, level) then 1 else 0
  {
    PlainOrder(s, path, level, env, w);
    TargetsOnce(s, path, level, q);
    CountLeaves(Added(w, Write(s, path, level, env, w).1), Targets(s, path, level), path + q);
  }
}
