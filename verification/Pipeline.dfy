/**
 buildSink and the synchronous meaning of what it builds: which leaves one Write of the top sink
 calls, how often, and what a nil result says about them.
 A leaf is named by its path in the configuration: child numbers of fanouts, 0 for `next`.
 */
module Pipeline {
  import opened Basics
  import opened Seqs
  import CB = CircuitBreaker
  import Retrying = Retry

  type Path = seq<nat>

  // ---- configuration and construction ----

  /** Sink types with their decoded parameters; Named is any other registered type. */
  datatype Kind =
    | FanoutKind | AsyncKind | BatchKind
    | RetryKind(maxAttempts: int)
    | BreakerKind(threshold: int, timeout: int)
    | Named(name: string)

  /** `paramError` is what decoding the parameters of an async, batch, retry or breaker sink fails with, if it does. */
  datatype SinkConfig = SinkConfig(kind: Kind, paramError: Option<string>, minLevel: Option<nat>,
                                   next: Option<SinkConfig>, sinks: seq<SinkConfig>)

  datatype BuildError = FanoutEmpty | MissingNext | BadParams(what: string) | UnknownType(name: string) | FactoryFailed(name: string)
  datatype Built = Ok(sink: Sink) | Fail(error: BuildError)
  datatype AllBuilt = AllOk(sinks: seq<Sink>) | AllFail(error: BuildError)

  /** Queue is an AsyncSink or BatchSink: its Write only enqueues, so for one Write it is a leaf. */
  datatype Sink =
    | Nop
    | Leaf
    | Queue(next: Sink)
    | Fanout(sinks: seq<Sink>)
    | Retry(max: nat, next: Sink)
    | Breaker(opts: CB.Options, next: Sink)
    | Filter(min: nat, next: Sink)

  /** Registered factories by name; false is a factory that returns an error. */
  type Registry = map<string, bool>

  function Filtered(minLevel: Option<nat>, s: Sink): Sink {
    if minLevel.Some? then Filter(minLevel.value, s) else s
  }

  function BuildSink(cfg: SinkConfig, reg: Registry): Built
    decreases cfg
  {
    match cfg.kind
    case FanoutKind =>
      if cfg.sinks == [] then Fail(FanoutEmpty)
      else (match BuildEach(cfg.sinks, reg)
            case AllFail(e) => Fail(e)
            case AllOk(ss) => Ok(Filtered(cfg.minLevel, Fanout(ss))))
    case Named(name) =>
      if name !in reg then Fail(UnknownType(name))
      else if !reg[name] then Fail(FactoryFailed(name))
      else Ok(Filtered(cfg.minLevel, Leaf))
    case _ =>
      if cfg.next.None? then Fail(MissingNext)
      else match BuildSink(cfg.next.value, reg)
           case Fail(e) => Fail(e)
           case Ok(next) =>
             if cfg.paramError.Some? then Fail(BadParams(cfg.paramError.value))
             else var s := match cfg.kind
                      case RetryKind(m) => Retry(Retrying.Attempts(m), next)
                      case BreakerKind(t, d) => Breaker(CB.WithDefaults(t, d), next)
                      case _ => Queue(next);
             Ok(Filtered(cfg.minLevel, s))
  }

  function BuildEach(cfgs: seq<SinkConfig>, reg: Registry): AllBuilt
    decreases cfgs
  {
    if cfgs == [] then AllOk([])
    else match BuildSink(cfgs[0], reg)
         case Fail(e) => AllFail(e)
         case Ok(s) =>
           match BuildEach(cfgs[1..], reg)
           case AllFail(e) => AllFail(e)
           case AllOk(ss) => AllOk([s] + ss)
  }

  /** Child i is the first that cannot be built, with error e. */
  ghost predicate FirstFailure(cfgs: seq<SinkConfig>, reg: Registry, i: nat, e: BuildError) {
    i < |cfgs| && BuildSink(cfgs[i], reg) == Fail(e) && forall j :: 0 <= j < i ==> BuildSink(cfgs[j], reg).Ok?
  }

  /** All children are built, in order, or the first one that fails gives the error. */
  ghost predicate InOrder(cfgs: seq<SinkConfig>, reg: Registry, all: AllBuilt) {
    match all
    case AllOk(ss) => |ss| == |cfgs| && forall i :: 0 <= i < |cfgs| ==> BuildSink(cfgs[i], reg) == Ok(ss[i])
    case AllFail(e) => exists i: nat :: FirstFailure(cfgs, reg, i, e)
  }

  lemma HeadFails(cfgs: seq<SinkConfig>, reg: Registry, e: BuildError)
    requires cfgs != [] && BuildSink(cfgs[0], reg) == Fail(e)
    ensures InOrder(cfgs, reg, AllFail(e))
  {
    assert FirstFailure(cfgs, reg, 0, e);
  }

  lemma TailFails(cfgs: seq<SinkConfig>, reg: Registry, e: BuildError)
    requires cfgs != [] && BuildSink(cfgs[0], reg).Ok? && InOrder(cfgs[1..], reg, AllFail(e))
    ensures InOrder(cfgs, reg, AllFail(e))
  {
    var i: nat :| FirstFailure(cfgs[1..], reg, i, e);
    assert cfgs[i + 1] == cfgs[1..][i];
    forall j | 0 <= j < i + 1 ensures BuildSink(cfgs[j], reg).Ok? {
      if j > 0 { assert cfgs[j] == cfgs[1..][j - 1]; }
    }
    assert FirstFailure(cfgs, reg, i + 1, e);
  }

  lemma AllSucceed(cfgs: seq<SinkConfig>, reg: Registry, s: Sink, rest: seq<Sink>)
    requires cfgs != [] && BuildSink(cfgs[0], reg) == Ok(s) && InOrder(cfgs[1..], reg, AllOk(rest))
    ensures InOrder(cfgs, reg, AllOk([s] + rest))
  {
    forall i | 0 <= i < |cfgs| ensures BuildSink(cfgs[i], reg) == Ok(([s] + rest)[i]) {
      if i > 0 { assert cfgs[i] == cfgs[1..][i - 1]; }
    }
  }

  lemma {:induction false} ChildrenInOrder(cfgs: seq<SinkConfig>, reg: Registry)
    ensures InOrder(cfgs, reg, BuildEach(cfgs, reg))
  {
    if cfgs != [] {
      var head, rest := BuildSink(cfgs[0], reg), BuildEach(cfgs[1..], reg);
      ChildrenInOrder(cfgs[1..], reg);
      match head {
        case Fail(e) => HeadFails(cfgs, reg, e);
        case Ok(s) =>
          match rest {
            case AllFail(e) => TailFails(cfgs, reg, e);
            case AllOk(ss) => AllSucceed(cfgs, reg, s, ss);
          }
      }
    }
  }

  /** buildSinks: no sinks, one sink, or a fanout of them all. */
  function BuildSinks(cfgs: seq<SinkConfig>, reg: Registry): Built {
    if |cfgs| == 0 then Ok(Nop)
    else if |cfgs| == 1 then BuildSink(cfgs[0], reg)
    else match BuildEach(cfgs, reg)
         case AllFail(e) => Fail(e)
         case AllOk(ss) => Ok(Fanout(ss))
  }

  /** One fanout of all top-level configurations, without a MinLevel. */
  function TopFanout(cfgs: seq<SinkConfig>): SinkConfig { SinkConfig(FanoutKind, None, None, None, cfgs) }

  lemma BuildSinksIsFanout(cfgs: seq<SinkConfig>, reg: Registry)
    requires |cfgs| > 1
    ensures BuildSinks(cfgs, reg) == BuildSink(TopFanout(cfgs), reg)
  {
  }

  // ---- one Write ----

  /** One moment of the environment, read by the next step that needs one. */
  datatype Moment = Moment(now: int, answer: Result, retryable: bool, ctxErr: Result, sleepErr: Result)
  type Env = nat -> Moment

  datatype LeafCall = LeafCall(leaf: Path, r: Result)

  datatype World = World(log: seq<LeafCall>, breakers: map<Path, CB.Breaker>, ticks: nat) {
    function Tick(): World { this.(ticks := ticks + 1) }
    function BreakerAt(p: Path): CB.Breaker { if p in breakers then breakers[p] else CB.New }
  }

  predicate Passes(level: nat, min: nat) { level <= 4 && level >= min }

  function Write(s: Sink, path: Path, level: nat, env: Env, w: World): (res: (Result, World))
    ensures w.log <= res.1.log
    decreases s, 0
  {
    match s
    case Nop => (None, w)
    case Leaf => var r := env(w.ticks).answer; (r, w.Tick().(log := w.log + [LeafCall(path, r)]))
    case Queue(_) => var r := env(w.ticks).answer; (r, w.Tick().(log := w.log + [LeafCall(path, r)]))
    case Filter(min, next) => if Passes(level, min) then Write(next, path, level, env, w) else (None, w)
    case Fanout(ss) =>
      var (errs, w1) := WriteEach(ss, 0, path, level, env, w);
      (if errs == [] then None else Some(Joined(errs)), w1)
    case Retry(max, next) => WriteRetry(next, max, 1, path, level, env, w)
    case Breaker(opts, next) =>
      var (b, err) := CB.Admission(w.BreakerAt(path), env(w.ticks).now);
      var w0 := w.Tick().(breakers := w.breakers[path := b]);
      if err.Some? then (err, w0)
      else
        var (r, w1) := Write(next, path + [0], level, env, w0);
        var b1 := if r.Some? then CB.OnFailure(opts, w1.BreakerAt(path), env(w1.ticks).now) else CB.OnSuccess(w1.BreakerAt(path));
        (r, w1.Tick().(breakers := w1.breakers[path := b1]))
  }

  /** The fanout's loop from child i on: every child is written, the errors are collected. */
  function WriteEach(ss: seq<Sink>, i: nat, path: Path, level: nat, env: Env, w: World): (res: (seq<Err>, World))
    ensures w.log <= res.1.log
    decreases ss, |ss| - i
  {
    if i >= |ss| then ([], w)
    else
      var (r, w1) := Write(ss[i], path + [i], level, env, w);
      var (errs, w2) := WriteEach(ss, i + 1, path, level, env, w1);
      ((if r.Some? then [r.value] else []) + errs, w2)
  }

  /** The retry loop from attempt k on. */
  function WriteRetry(next: Sink, max: nat, k: nat, path: Path, level: nat, env: Env, w: World): (res: (Result, World))
    ensures w.log <= res.1.log
    decreases next, 1 + if k <= max then max - k + 1 else 0
  {
    if k > max then (Some(RetriesFailed(max, SinkClosed)), w)   // only for max == 0, which the constructor rules out
    else
      var ctxErr := env(w.ticks).ctxErr;
      if ctxErr.Some? then (ctxErr, w.Tick())
      else
        var (r, w1) := Write(next, path + [0], level, env, w.Tick());
        if r.None? then (None, w1)
        else if !env(w1.ticks).retryable || k == max then (Some(RetriesFailed(max, r.value)), w1.Tick())
        else
          var sleepErr := env(w1.ticks).sleepErr;
          if sleepErr.Some? then (sleepErr, w1.Tick())
          else WriteRetry(next, max, k + 1, path, level, env, w1.Tick())
  }

  // ---- the retry loop is RetrySink's ----

  /** The world before attempt k + 1, if the loop gets there. */
  function Between(next: Sink, path: Path, level: nat, env: Env, w: World, k: nat): World {
    if k == 0 then w
    else Write(next, path + [0], level, env, Between(next, path, level, env, w, k - 1).Tick()).1.Tick()
  }

  /** What attempt k + 1 meets: the context before it, the answer of `next`, and the environment behind it. */
  function RoundAt(next: Sink, path: Path, level: nat, env: Env, w: World, k: nat): Retrying.Round {
    var w0 := Between(next, path, level, env, w, k);
    var (r, w1) := Write(next, path + [0], level, env, w0.Tick());
    Retrying.Round(env(w0.ticks).ctxErr, r, env(w1.ticks).retryable, env(w1.ticks).sleepErr)
  }

  /** What the loop answers from attempt k on. */
  function FromAttempt(next: Sink, max: nat, path: Path, level: nat, env: Env, w: World, k: nat): Result {
    if k == 0 then None else WriteRetry(next, max, k, path, level, env, Between(next, path, level, env, w, k - 1)).0
  }

  lemma RetryRound(next: Sink, max: nat, path: Path, level: nat, env: Env, w: World, k: nat)
    requires 1 <= k <= max
    ensures FromAttempt(next, max, path, level, env, w, k)
            == Retrying.Choose(max, RoundAt(next, path, level, env, w, k - 1), k, FromAttempt(next, max, path, level, env, w, k + 1))
  {
  }

  function Rounds(next: Sink, path: Path, level: nat, env: Env, w: World): nat -> Retrying.Round {
    (i: nat) => RoundAt(next, path, level, env, w, i)
  }

  function Results(next: Sink, max: nat, path: Path, level: nat, env: Env, w: World): nat -> Result {
    (k: nat) => FromAttempt(next, max, path, level, env, w, k)
  }

  lemma ResultsHang(next: Sink, max: nat, path: Path, level: nat, env: Env, w: World, k: nat)
    requires 1 <= k <= max
    ensures var rounds, results := Rounds(next, path, level, env, w), Results(next, max, path, level, env, w);
            results(k) == Retrying.Choose(max, rounds(k - 1), k, results(k + 1))
  {
    RetryRound(next, max, path, level, env, w, k);
  }

  lemma FirstAttempt(next: Sink, max: nat, path: Path, level: nat, env: Env, w: World)
    ensures Write(Retry(max, next), path, level, env, w).0 == FromAttempt(next, max, path, level, env, w, 1)
  {
    assert Between(next, path, level, env, w, 0) == w;
  }

  lemma AttemptsHangTogether(next: Sink, max: nat, path: Path, level: nat, env: Env, w: World)
    requires max > 0
    ensures FromAttempt(next, max, path, level, env, w, 1) == Retrying.Outcome(max, Rounds(next, path, level, env, w), 1)
  {
    var rounds, results := Rounds(next, path, level, env, w), Results(next, max, path, level, env, w);
    forall k | 1 <= k <= max ensures results(k) == Retrying.Choose(max, rounds(k - 1), k, results(k + 1)) {
      ResultsHang(next, max, path, level, env, w, k);
    }
    Retrying.OutcomeUnique(max, rounds, results, 1);
  }

  /** A retry node answers as RetrySink's loop does when each call of its operation is one Write of `next`. */
  lemma RetryIsOutcome(next: Sink, max: nat, path: Path, level: nat, env: Env, w: World)
    requires max > 0
    ensures Write(Retry(max, next), path, level, env, w).0 == Retrying.Outcome(max, Rounds(next, path, level, env, w), 1)
  {
    FirstAttempt(next, max, path, level, env, w);
    AttemptsHangTogether(next, max, path, level, env, w);
  }

  // ---- the meaning of a tree ----

  /** q is a leaf below s, and every filter on the way admits the level. */
  predicate Admits(s: Sink, q: Path, level: nat)
    decreases s
  {
    match s
    case Nop => false
    case Leaf => q == []
    case Queue(_) => q == []
    case Filter(min, next) => Passes(level, min) && Admits(next, q, level)
    case Fanout(ss) => q != [] && q[0] < |ss| && Admits(ss[q[0]], q[1..], level)
    case Retry(_, next) => q != [] && q[0] == 0 && Admits(next, q[1..], level)
    case Breaker(_, next) => q != [] && q[0] == 0 && Admits(next, q[1..], level)
  }

  /** The product of the MaxAttempts of the retry nodes above leaf q; 0 if q is no leaf. */
  function MaxCalls(s: Sink, q: Path): nat
    decreases s
  {
    match s
    case Nop => 0
    case Leaf => if q == [] then 1 else 0
    case Queue(_) => if q == [] then 1 else 0
    case Filter(_, next) => MaxCalls(next, q)
    case Fanout(ss) => if q != [] && q[0] < |ss| then MaxCalls(ss[q[0]], q[1..]) else 0
    case Retry(max, next) => if q != [] && q[0] == 0 then max * MaxCalls(next, q[1..]) else 0
    case Breaker(_, next) => if q != [] && q[0] == 0 then MaxCalls(next, q[1..]) else 0
  }

  /** The calls a step added to the log. */
  function Added(w: World, w1: World): seq<LeafCall>
    requires w.log <= w1.log
  {
    w1.log[|w.log|..]
  }

  predicate CalledOk(calls: seq<LeafCall>, p: Path) { exists c :: c in calls && c.leaf == p && c.r.None? }

  lemma AddedTwice(w: World, w1: World, w2: World)
    requires w.log <= w1.log <= w2.log
    ensures Added(w, w2) == Added(w, w1) + Added(w1, w2)
  {
  }

  lemma PathSplit(path: Path, i: nat, q: Path)
    requires q != [] && q[0] == i
    ensures path + q == path + [i] + q[1..]
  {
  }

  // -- what nil means

  /** If the top Write returns nil, every leaf whose filters admit the level returned nil for it at least once. */
  lemma {:induction false} NilMeansDelivered(s: Sink, path: Path, level: nat, env: Env, w: World, q: Path)
    requires Write(s, path, level, env, w).0.None? && Admits(s, q, level)
    ensures CalledOk(Added(w, Write(s, path, level, env, w).1), path + q)
    decreases s, 0
  {
    match s {
      case Leaf => assert Added(w, Write(s, path, level, env, w).1) == [LeafCall(path, None)]; assert path + [] == path;
      case Queue(_) => assert Added(w, Write(s, path, level, env, w).1) == [LeafCall(path, None)]; assert path + [] == path;
      case Filter(min, next) => NilMeansDelivered(next, path, level, env, w, q);
      case Fanout(ss) => NilEach(ss, 0, path, level, env, w, q);
      case Retry(max, next) => NilRetry(next, max, 1, path, level, env, w, q);
      case Breaker(opts, next) =>
        var w0 := w.Tick().(breakers := w.breakers[path := CB.Admission(w.BreakerAt(path), env(w.ticks).now).0]);
        NilMeansDelivered(next, path + [0], level, env, w0, q[1..]);
        PathSplit(path, 0, q);
    }
  }

  lemma {:induction false} NilEach(ss: seq<Sink>, i: nat, path: Path, level: nat, env: Env, w: World, q: Path)
    requires WriteEach(ss, i, path, level, env, w).0 == []
    requires q != [] && i <= q[0] < |ss| && Admits(ss[q[0]], q[1..], level)
    ensures CalledOk(Added(w, WriteEach(ss, i, path, level, env, w).1), path + q)
    decreases ss, |ss| - i
  {
    var (r, w1) := Write(ss[i], path + [i], level, env, w);
    var w2 := WriteEach(ss, i + 1, path, level, env, w1).1;
    AddedTwice(w, w1, w2);
    if q[0] == i {
      NilMeansDelivered(ss[i], path + [i], level, env, w, q[1..]);
      PathSplit(path, i, q);
    } else {
      NilEach(ss, i + 1, path, level, env, w1, q);
    }
  }

  /** A nil retry result comes from this attempt, or from the attempts behind it. */
  lemma RetryNil(next: Sink, max: nat, k: nat, path: Path, level: nat, env: Env, w: World)
    requires WriteRetry(next, max, k, path, level, env, w).0.None?
    ensures var (r, w1) := Write(next, path + [0], level, env, w.Tick());
            && k <= max
            && (r.None? ==> WriteRetry(next, max, k, path, level, env, w).1 == w1)
            && (r.Some? ==> WriteRetry(next, max, k, path, level, env, w) == WriteRetry(next, max, k + 1, path, level, env, w1.Tick()))
  {
  }

  lemma CalledLater(w: World, w1: World, w2: World, p: Path)
    requires w.log <= w1.log <= w2.log && CalledOk(Added(w1, w2), p)
    ensures CalledOk(Added(w, w2), p)
  {
    AddedTwice(w, w1, w2);
  }

  lemma {:induction false} NilRetry(next: Sink, max: nat, k: nat, path: Path, level: nat, env: Env, w: World, q: Path)
    requires WriteRetry(next, max, k, path, level, env, w).0.None?
    requires q != [] && q[0] == 0 && Admits(next, q[1..], level)
    ensures CalledOk(Added(w, WriteRetry(next, max, k, path, level, env, w).1), path + q)
    decreases next, 1 + if k <= max then max - k + 1 else 0
  {
    var (r, w1) := Write(next, path + [0], level, env, w.Tick());
    RetryNil(next, max, k, path, level, env, w);
    if r.None? {
      NilMeansDelivered(next, path + [0], level, env, w.Tick(), q[1..]);
      PathSplit(path, 0, q);
    } else {
      NilRetry(next, max, k + 1, path, level, env, w1.Tick(), q);
      CalledLater(w, w1.Tick(), WriteRetry(next, max, k + 1, path, level, env, w1.Tick()).1, path + q);
    }
  }

  // -- who is called at all, and how often

  /** p lies below path, at a leaf of s that admits the level. */
  predicate Below(s: Sink, path: Path, level: nat, p: Path) {
    path <= p && Admits(s, p[|path|..], level)
  }

  lemma BelowChild(child: Sink, path: Path, i: nat, level: nat, p: Path)
    requires Below(child, path + [i], level, p)
    ensures path <= p && p[|path|..] != [] && p[|path|..][0] == i && Admits(child, p[|path|..][1..], level)
  {
    assert p[|path|..][1..] == p[|path| + 1..];
    assert (path + [i])[|path|] == i;
  }

  /** Only leaves whose filters all admit the level are called. */
  lemma {:induction false} OnlyAdmitted(s: Sink, path: Path, level: nat, env: Env, w: World)
    ensures forall c <- Added(w, Write(s, path, level, env, w).1) :: Below(s, path, level, c.leaf)
    decreases s, 0
  {
    match s {
      case Nop =>
      case Leaf =>
      case Queue(_) =>
      case Filter(min, next) => if Passes(level, min) { OnlyAdmitted(next, path, level, env, w); }
      case Fanout(ss) => OnlyEach(ss, 0, path, level, env, w);
      case Retry(max, next) => OnlyRetry(next, max, 1, path, level, env, w);
      case Breaker(opts, next) =>
        var (b, err) := CB.Admission(w.BreakerAt(path), env(w.ticks).now);
        if err.None? {
          var w0 := w.Tick().(breakers := w.breakers[path := b]);
          OnlyAdmitted(next, path + [0], level, env, w0);
          forall c <- Added(w, Write(s, path, level, env, w).1) ensures Below(s, path, level, c.leaf) { BelowChild(next, path, 0, level, c.leaf); }
        }
    }
  }

  lemma {:induction false} OnlyEach(ss: seq<Sink>, i: nat, path: Path, level: nat, env: Env, w: World)
    ensures forall c <- Added(w, WriteEach(ss, i, path, level, env, w).1) :: Below(Fanout(ss), path, level, c.leaf) && c.leaf[|path|] >= i
    decreases ss, |ss| - i
  {
    if i < |ss| {
      var w1 := Write(ss[i], path + [i], level, env, w).1;
      OnlyAdmitted(ss[i], path + [i], level, env, w);
      OnlyEach(ss, i + 1, path, level, env, w1);
      AddedTwice(w, w1, WriteEach(ss, i, path, level, env, w).1);
      forall c <- Added(w, w1) ensures Below(Fanout(ss), path, level, c.leaf) && c.leaf[|path|] >= i { BelowChild(ss[i], path, i, level, c.leaf); }
    }
  }

  /** The loop logs nothing, this attempt, or this attempt and the later ones. */
  lemma RetryLog(next: Sink, max: nat, k: nat, path: Path, level: nat, env: Env, w: World)
    ensures var w1, all := Write(next, path + [0], level, env, w.Tick()).1, WriteRetry(next, max, k, path, level, env, w).1;
            || all.log == w.log
            || (k <= max && all.log == w1.log)
            || (k < max && all == WriteRetry(next, max, k + 1, path, level, env, w1.Tick()).1)
  {
  }

  lemma OnlyBelow(next: Sink, max: nat, path: Path, level: nat, calls: seq<LeafCall>)
    requires forall c <- calls :: Below(next, path + [0], level, c.leaf)
    ensures forall c <- calls :: Below(Retry(max, next), path, level, c.leaf)
  {
    forall c <- calls ensures Below(Retry(max, next), path, level, c.leaf) { BelowChild(next, path, 0, level, c.leaf); }
  }

  lemma {:induction false} OnlyRetry(next: Sink, max: nat, k: nat, path: Path, level: nat, env: Env, w: World)
    ensures forall c <- Added(w, WriteRetry(next, max, k, path, level, env, w).1) :: Below(Retry(max, next), path, level, c.leaf)
    decreases next, 1 + if k <= max then max - k + 1 else 0
  {
    hide Write, WriteRetry, Below;
    var w1, all := Write(next, path + [0], level, env, w.Tick()).1, WriteRetry(next, max, k, path, level, env, w).1;
    RetryLog(next, max, k, path, level, env, w);
    OnlyAdmitted(next, path + [0], level, env, w.Tick());
    OnlyBelow(next, max, path, level, Added(w, w1));
    if k <= max && all.log != w.log && all.log != w1.log {
      OnlyRetry(next, max, k + 1, path, level, env, w1.Tick());
      AddedTwice(w, w1, all);
    }
  }

  function Count(calls: seq<LeafCall>, p: Path): nat {
    if calls == [] then 0 else (if calls[0].leaf == p then 1 else 0) + Count(calls[1..], p)
  }

  lemma {:induction false} CountConcat(a: seq<LeafCall>, b: seq<LeafCall>, p: Path)
    ensures Count(a + b, p) == Count(a, p) + Count(b, p)
  {
    if a == [] {
      assert a + b == b;
    } else {
      assert (a + b)[1..] == a[1..] + b;
      CountConcat(a[1..], b, p);
    }
  }

  lemma {:induction false} CountNone(calls: seq<LeafCall>, p: Path)
    requires forall c <- calls :: c.leaf != p
    ensures Count(calls, p) == 0
  {
    if calls != [] {
      assert calls[0] in calls;
      CountNone(calls[1..], p);
    }
  }

  /** m for each attempt from k to max. */
  function PerAttempt(m: nat, k: nat, max: nat): nat
    decreases max + 1 - k
  {
    if k > max then 0 else m + PerAttempt(m, k + 1, max)
  }

  lemma {:induction false} PerAttemptIsProduct(m: nat, k: nat, max: nat)
    ensures PerAttempt(m, k, max) == if k > max then 0 else (max - k + 1) * m
    decreases max + 1 - k
  {
    if k <= max {
      PerAttemptIsProduct(m, k + 1, max);
      assert (max - k + 1) * m == (max - k) * m + m;
    }
  }

  /** No leaf is called more often than the product of the MaxAttempts of the retry nodes above it. */
  lemma {:induction false} CallsBounded(s: Sink, path: Path, level: nat, env: Env, w: World, q: Path)
    ensures Count(Added(w, Write(s, path, level, env, w).1), path + q) <= MaxCalls(s, q)
    decreases s, 0
  {
    var added := Added(w, Write(s, path, level, env, w).1);
    match s {
      case Nop =>
      case Leaf => assert added == [LeafCall(path, env(w.ticks).answer)]; assert added[1..] == []; if q != [] { assert |path + q| > |path|; }
      case Queue(_) => assert added == [LeafCall(path, env(w.ticks).answer)]; assert added[1..] == []; if q != [] { assert |path + q| > |path|; }
      case Filter(min, next) => if Passes(level, min) { CallsBounded(next, path, level, env, w, q); }
      case Fanout(ss) => BoundedEach(ss, 0, path, level, env, w, q);
      case Retry(max, next) =>
        BoundedRetry(next, max, 1, path, level, env, w, q);
        PerAttemptIsProduct(if q != [] && q[0] == 0 then MaxCalls(next, q[1..]) else 0, 1, max);
      case Breaker(opts, next) =>
        var (b, err) := CB.Admission(w.BreakerAt(path), env(w.ticks).now);
        if err.None? { BoundedChild(next, 0, path, level, env, w.Tick().(breakers := w.breakers[path := b]), q); }
    }
  }

  /** The calls of child i, seen from its parent's path. */
  lemma {:induction false} BoundedChild(child: Sink, i: nat, path: Path, level: nat, env: Env, w: World, q: Path)
    ensures var n := Count(Added(w, Write(child, path + [i], level, env, w).1), path + q);
            if q != [] && q[0] == i then n <= MaxCalls(child, q[1..]) else n == 0
    decreases child, 1
  {
    var added := Added(w, Write(child, path + [i], level, env, w).1);
    if q != [] && q[0] == i {
      CallsBounded(child, path + [i], level, env, w, q[1..]);
      PathSplit(path, i, q);
    } else {
      OnlyAdmitted(child, path + [i], level, env, w);
      forall c <- added ensures c.leaf != path + q {
        BelowChild(child, path, i, level, c.leaf);
        assert (path + q)[|path|..] == q;
      }
      CountNone(added, path + q);
    }
  }

  lemma {:induction false} BoundedEach(ss: seq<Sink>, i: nat, path: Path, level: nat, env: Env, w: World, q: Path)
    ensures var n := Count(Added(w, WriteEach(ss, i, path, level, env, w).1), path + q);
            if q != [] && i <= q[0] < |ss| then n <= MaxCalls(ss[q[0]], q[1..]) else n == 0
    decreases ss, |ss| - i
  {
    if i < |ss| {
      var w1 := Write(ss[i], path + [i], level, env, w).1;
      BoundedChild(ss[i], i, path, level, env, w, q);
      BoundedEach(ss, i + 1, path, level, env, w1, q);
      AddedTwice(w, w1, WriteEach(ss, i, path, level, env, w).1);
      CountConcat(Added(w, w1), Added(w1, WriteEach(ss, i, path, level, env, w).1), path + q);
    }
  }

  lemma {:induction false} BoundedRetry(next: Sink, max: nat, k: nat, path: Path, level: nat, env: Env, w: World, q: Path)
    ensures Count(Added(w, WriteRetry(next, max, k, path, level, env, w).1), path + q)
            <= PerAttempt(if q != [] && q[0] == 0 then MaxCalls(next, q[1..]) else 0, k, max)
    decreases next, 2 + if k <= max then max - k + 1 else 0
  {
    var w1, all := Write(next, path + [0], level, env, w.Tick()).1, WriteRetry(next, max, k, path, level, env, w).1;
    RetryLog(next, max, k, path, level, env, w);
    BoundedChild(next, 0, path, level, env, w.Tick(), q);
    if k <= max && all.log != w.log && all.log != w1.log {
      BoundedRetry(next, max, k + 1, path, level, env, w1.Tick(), q);
      AddedTwice(w, w1, all);
      CountConcat(Added(w, w1), Added(w1, all), path + q);
    }
  }

  // -- when nothing goes wrong

  ghost predicate Healthy(env: Env, w: World) {
    && (forall t :: env(t).answer.None? && env(t).ctxErr.None?)
    && (forall p :: p in w.breakers ==> w.breakers[p].state == CB.Closed)
  }

  /** The admitted leaves in configuration order. */
  function Targets(s: Sink, path: Path, level: nat): seq<LeafCall>
    decreases s, 0
  {
    match s
    case Nop => []
    case Leaf => [LeafCall(path, None)]
    case Queue(_) => [LeafCall(path, None)]
    case Filter(min, next) => if Passes(level, min) then Targets(next, path, level) else []
    case Fanout(ss) => TargetsEach(ss, 0, path, level)
    case Retry(max, next) => if max > 0 then Targets(next, path + [0], level) else []
    case Breaker(_, next) => Targets(next, path + [0], level)
  }

  function TargetsEach(ss: seq<Sink>, i: nat, path: Path, level: nat): seq<LeafCall>
    decreases ss, |ss| - i
  {
    if i >= |ss| then [] else Targets(ss[i], path + [i], level) + TargetsEach(ss, i + 1, path, level)
  }

  predicate Constructed(s: Sink)
    decreases s
  {
    match s
    case Fanout(ss) => forall c <- ss :: Constructed(c)
    case Retry(max, next) => max > 0 && Constructed(next)
    case Breaker(_, next) => Constructed(next)
    case Filter(_, next) => Constructed(next)
    case Queue(next) => Constructed(next)
    case _ => true
  }

  /** With no failure, cancellation or open breaker, the Write returns nil after calling each admitted leaf exactly once, in order. */
  lemma {:induction false} HealthyWrite(s: Sink, path: Path, level: nat, env: Env, w: World)
    requires Healthy(env, w) && Constructed(s)
    ensures var (r, w1) := Write(s, path, level, env, w);
            r.None? && Healthy(env, w1) && w1.log == w.log + Targets(s, path, level)
    decreases s, 0
  {
    match s {
      case Nop => assert w.log + [] == w.log;
      case Leaf =>
      case Queue(_) =>
      case Filter(min, next) => if Passes(level, min) { HealthyWrite(next, path, level, env, w); } else { assert w.log + [] == w.log; }
      case Fanout(ss) => HealthyEach(ss, 0, path, level, env, w);
      case Retry(max, next) => HealthyWrite(next, path + [0], level, env, w.Tick());
      case Breaker(opts, next) =>
        var w0 := w.Tick().(breakers := w.breakers[path := CB.Admission(w.BreakerAt(path), env(w.ticks).now).0]);
        HealthyWrite(next, path + [0], level, env, w0);
    }
  }

  lemma {:induction false} HealthyEach(ss: seq<Sink>, i: nat, path: Path, level: nat, env: Env, w: World)
    requires Healthy(env, w) && forall c <- ss :: Constructed(c)
    ensures var (errs, w1) := WriteEach(ss, i, path, level, env, w);
            errs == [] && Healthy(env, w1) && w1.log == w.log + TargetsEach(ss, i, path, level)
    decreases ss, |ss| - i
  {
    if i < |ss| {
      var w1 := Write(ss[i], path + [i], level, env, w).1;
      HealthyWrite(ss[i], path + [i], level, env, w);
      HealthyEach(ss, i + 1, path, level, env, w1);
      Assoc(w.log, Targets(ss[i], path + [i], level), TargetsEach(ss, i + 1, path, level));
    } else {
      assert w.log + [] == w.log;
    }
  }

  // ---- in terms of the configuration ----

  predicate ConfigAdmits(cfg: SinkConfig, q: Path, level: nat)
    decreases cfg
  {
    && (cfg.minLevel.Some? ==> cfg.minLevel.value <= level <= 4)   // 4 is fatal, the highest valid level
    && match cfg.kind
       case FanoutKind => q != [] && q[0] < |cfg.sinks| && ConfigAdmits(cfg.sinks[q[0]], q[1..], level)
       case RetryKind(_) => q != [] && q[0] == 0 && cfg.next.Some? && ConfigAdmits(cfg.next.value, q[1..], level)
       case BreakerKind(_, _) => q != [] && q[0] == 0 && cfg.next.Some? && ConfigAdmits(cfg.next.value, q[1..], level)
       case _ => q == []
  }

  function ConfigMaxCalls(cfg: SinkConfig, q: Path): nat
    decreases cfg
  {
    match cfg.kind
    case FanoutKind => if q != [] && q[0] < |cfg.sinks| then ConfigMaxCalls(cfg.sinks[q[0]], q[1..]) else 0
    case RetryKind(m) => if q != [] && q[0] == 0 && cfg.next.Some? then (if m > 0 then m else 3) * ConfigMaxCalls(cfg.next.value, q[1..]) else 0
    case BreakerKind(_, _) => if q != [] && q[0] == 0 && cfg.next.Some? then ConfigMaxCalls(cfg.next.value, q[1..]) else 0
    case _ => if q == [] then 1 else 0
  }

  lemma {:induction false} BuiltMeans(cfg: SinkConfig, reg: Registry, q: Path, level: nat)
    requires BuildSink(cfg, reg).Ok?
    ensures var s := BuildSink(cfg, reg).sink;
            (Admits(s, q, level) <==> ConfigAdmits(cfg, q, level)) && MaxCalls(s, q) == ConfigMaxCalls(cfg, q) && Constructed(s)
    decreases cfg
  {
    match cfg.kind {
      case FanoutKind =>
        var ss := BuildEach(cfg.sinks, reg).sinks;
        ChildrenInOrder(cfg.sinks, reg);
        forall i | 0 <= i < |ss| ensures Constructed(ss[i]) { BuiltMeans(cfg.sinks[i], reg, q, level); }
        if q != [] && q[0] < |ss| { BuiltMeans(cfg.sinks[q[0]], reg, q[1..], level); }
      case Named(_) =>
      case _ => BuiltMeans(cfg.next.value, reg, if q == [] then [] else q[1..], level);
    }
  }

  /**
   The pipeline's meaning, from its configuration: nil means every leaf whose MinLevels all admit the
   event returned nil at least once; no other leaf is called; no leaf is called more often than the
   product of the MaxAttempts above it.
   */
  lemma PipelineMeaning(cfg: SinkConfig, reg: Registry, level: nat, env: Env, w: World)
    requires BuildSink(cfg, reg).Ok?
    ensures var (r, w1) := Write(BuildSink(cfg, reg).sink, [], level, env, w); var calls := Added(w, w1);
            && (r.None? ==> forall q: Path :: ConfigAdmits(cfg, q, level) ==> CalledOk(calls, q))
            && (forall c <- calls :: ConfigAdmits(cfg, c.leaf, level))
            && (forall q: Path :: Count(calls, q) <= ConfigMaxCalls(cfg, q))
  {
    var s := BuildSink(cfg, reg).sink;
    var (r, w1) := Write(s, [], level, env, w);
    var calls := Added(w, w1);
    forall q: Path ensures Count(calls, q) <= ConfigMaxCalls(cfg, q) && (r.None? && ConfigAdmits(cfg, q, level) ==> CalledOk(calls, q)) {
      BuiltMeans(cfg, reg, q, level);
      assert [] + q == q;
      CallsBounded(s, [], level, env, w, q);
      if r.None? && ConfigAdmits(cfg, q, level) { NilMeansDelivered(s, [], level, env, w, q); }
    }
    OnlyAdmitted(s, [], level, env, w);
    forall c <- calls ensures ConfigAdmits(cfg, c.leaf, level) {
      assert c.leaf[0..] == c.leaf;
      BuiltMeans(cfg, reg, c.leaf, level);
    }
  }

  /** The same for the list of top-level configurations. */
  predicate TopAdmits(cfgs: seq<SinkConfig>, q: Path, level: nat) {
    if |cfgs| == 1 then ConfigAdmits(cfgs[0], q, level)
    else q != [] && q[0] < |cfgs| && ConfigAdmits(cfgs[q[0]], q[1..], level)
  }

  function TopMaxCalls(cfgs: seq<SinkConfig>, q: Path): nat {
    if |cfgs| == 1 then ConfigMaxCalls(cfgs[0], q)
    else if q != [] && q[0] < |cfgs| then ConfigMaxCalls(cfgs[q[0]], q[1..]) else 0
  }

  /** What buildSinks makes of none, one or several configurations means what they say. */
  lemma TopMeaning(cfgs: seq<SinkConfig>, reg: Registry, level: nat, env: Env, w: World)
    requires BuildSinks(cfgs, reg).Ok?
    ensures var (r, w1) := Write(BuildSinks(cfgs, reg).sink, [], level, env, w); var calls := Added(w, w1);
            && (r.None? ==> forall q: Path :: TopAdmits(cfgs, q, level) ==> CalledOk(calls, q))
            && (forall c <- calls :: TopAdmits(cfgs, c.leaf, level))
            && (forall q: Path :: Count(calls, q) <= TopMaxCalls(cfgs, q))
  {
    if |cfgs| == 1 {
      PipelineMeaning(cfgs[0], reg, level, env, w);
    } else if |cfgs| > 1 {
      BuildSinksIsFanout(cfgs, reg);
      PipelineMeaning(TopFanout(cfgs), reg, level, env, w);
    }
  }

  // ---- the loops ----

  /** buildSink with its loop over the children. */
  method Build(cfg: SinkConfig, reg: Registry) returns (r: Built)
    ensures r == BuildSink(cfg, reg)
    decreases cfg
  {
    var sink: Sink;
    if cfg.kind.FanoutKind? {
      if |cfg.sinks| == 0 { return Fail(FanoutEmpty); }
      var children: seq<Sink> := [];
      ChildrenInOrder(cfg.sinks, reg);
      for i := 0 to |cfg.sinks|
        invariant |children| == i && forall j :: 0 <= j < i ==> BuildSink(cfg.sinks[j], reg) == Ok(children[j])
      {
        var child := Build(cfg.sinks[i], reg);
        if child.Fail? {
          return child;
        }
        children := children + [child.sink];
      }
      assert BuildEach(cfg.sinks, reg).AllOk?;
      assert BuildEach(cfg.sinks, reg).sinks == children;
      sink := Fanout(children);
    } else if cfg.kind.Named? {
      var name := cfg.kind.name;
      if name !in reg { return Fail(UnknownType(name)); }
      if !reg[name] { return Fail(FactoryFailed(name)); }
      sink := Leaf;
    } else {
      if cfg.next.None? { return Fail(MissingNext); }
      var next := Build(cfg.next.value, reg);
      if next.Fail? { return next; }
      if cfg.paramError.Some? { return Fail(BadParams(cfg.paramError.value)); }
      if cfg.kind.RetryKind? {
        sink := Retry(Retrying.Attempts(cfg.kind.maxAttempts), next.sink);
      } else if cfg.kind.BreakerKind? {
        sink := Breaker(CB.WithDefaults(cfg.kind.threshold, cfg.kind.timeout), next.sink);
      } else {
        sink := Queue(next.sink);
      }
    }
    if cfg.minLevel.Some? { sink := Filter(cfg.minLevel.value, sink); }
    return Ok(sink);
  }

  /** One Write, with the fanout's and the retry sink's loops. */
  method Deliver(s: Sink, path: Path, level: nat, env: Env, w: World) returns (r: Result, w1: World)
    ensures (r, w1) == Write(s, path, level, env, w)
    decreases s
  {
    match s {
      case Nop => return None, w;
      case Leaf => r := env(w.ticks).answer; w1 := w.Tick().(log := w.log + [LeafCall(path, r)]);
      case Queue(_) => r := env(w.ticks).answer; w1 := w.Tick().(log := w.log + [LeafCall(path, r)]);
      case Filter(min, next) =>
        if !(level <= 4) || level < min { return None, w; }
        r, w1 := Deliver(next, path, level, env, w);
      case Fanout(ss) =>
        var errs: seq<Err> := [];
        w1 := w;
        assert [] + WriteEach(ss, 0, path, level, env, w).0 == WriteEach(ss, 0, path, level, env, w).0;
        for i := 0 to |ss|
          invariant WriteEach(ss, 0, path, level, env, w) == (errs + WriteEach(ss, i, path, level, env, w1).0, WriteEach(ss, i, path, level, env, w1).1)
        {
          ghost var before, rest := errs, WriteEach(ss, i, path, level, env, w1).0;
          r, w1 := Deliver(ss[i], path + [i], level, env, w1);
          if r.Some? { errs := errs + [r.value]; }
          assert errs + WriteEach(ss, i + 1, path, level, env, w1).0 == before + rest;
        }
        assert errs + [] == errs;
        r := if errs == [] then None else Some(Joined(errs));
      case Retry(max, next) =>
        w1 := w;
        for k := 1 to max + 1
          invariant WriteRetry(next, max, 1, path, level, env, w) == WriteRetry(next, max, k, path, level, env, w1)
        {
          var ctxErr := env(w1.ticks).ctxErr;
          w1 := w1.Tick();
          if ctxErr.Some? { return ctxErr, w1; }
          r, w1 := Deliver(next, path + [0], level, env, w1);
          if r.None? { return None, w1; }
          var moment := env(w1.ticks);
          w1 := w1.Tick();
          if !moment.retryable || k == max { return Some(RetriesFailed(max, r.value)), w1; }
          if moment.sleepErr.Some? { return moment.sleepErr, w1; }
        }
        r := Some(RetriesFailed(max, SinkClosed));
      case Breaker(opts, next) =>
        var (b, err) := CB.Admission(w.BreakerAt(path), env(w.ticks).now);
        w1 := w.Tick().(breakers := w.breakers[path := b]);
        if err.Some? { return err, w1; }
        r, w1 := Deliver(next, path + [0], level, env, w1);
        var b1 := if r.Some? then CB.OnFailure(opts, w1.BreakerAt(path), env(w1.ticks).now) else CB.OnSuccess(w1.BreakerAt(path));
        w1 := w1.Tick().(breakers := w1.breakers[path := b1]);
    }
  }
}
