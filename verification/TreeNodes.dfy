/**
 The nodes of a tree: that each is built with the parameters of its configuration, and that every breaker in
 it goes on through its own history, whatever the rest of the tree does.
 */
module TreeNodes {
  import opened Basics
  import opened Pipeline
  import CB = CircuitBreaker

  // ---- construction ----

  /** The configuration at a path. */
  function ConfigAt(cfg: SinkConfig, p: Path): Option<SinkConfig>
    decreases cfg
  {
    if p == [] then Some(cfg)
    else match cfg.kind
         case FanoutKind => if p[0] < |cfg.sinks| then ConfigAt(cfg.sinks[p[0]], p[1..]) else None
         case Named(_) => None
         case _ => if p[0] == 0 && cfg.next.Some? then ConfigAt(cfg.next.value, p[1..]) else None
  }

  /** The sink at a path, with the filter it stands behind. */
  function NodeAt(s: Sink, p: Path): Option<Sink>
    decreases s
  {
    if p == [] then Some(s)
    else match s
         case Filter(_, next) => NodeAt(next, p)
         case Fanout(ss) => if p[0] < |ss| then NodeAt(ss[p[0]], p[1..]) else None
         case Queue(next) => if p[0] == 0 then NodeAt(next, p[1..]) else None
         case Retry(_, next) => if p[0] == 0 then NodeAt(next, p[1..]) else None
         case Breaker(_, next) => if p[0] == 0 then NodeAt(next, p[1..]) else None
         case _ => None
  }

  /** s is the sink type the configuration names, with its parameters or their defaults. */
  predicate HasKind(s: Sink, cfg: SinkConfig) {
    match cfg.kind
    case FanoutKind => s.Fanout? && |s.sinks| == |cfg.sinks|
    case RetryKind(n) => s.Retry? && s.max == if n > 0 then n else 3
    case BreakerKind(t, d) =>
      s.Breaker? && s.opts.threshold == (if t > 0 then t else 3) && s.opts.timeout == if d > 0 then d else 5000000000
    case Named(_) => s.Leaf?
    case _ => s.Queue?
  }

  /** Behind a filter with the configured MinLevel, if there is one. */
  predicate Implements(s: Sink, cfg: SinkConfig) {
    if cfg.minLevel.Some? then s.Filter? && s.min == cfg.minLevel.value && HasKind(s.next, cfg)
    else HasKind(s, cfg)
  }

  /** Every node of a built tree implements the configuration at its path, and there are no others. */
  lemma {:induction false} BuiltNodes(cfg: SinkConfig, reg: Registry, p: Path)
    requires BuildSink(cfg, reg).Ok?
    ensures var node, c := NodeAt(BuildSink(cfg, reg).sink, p), ConfigAt(cfg, p);
            (node.Some? <==> c.Some?) && (node.Some? ==> Implements(node.value, c.value))
    decreases cfg
  {
    match cfg.kind {
      case FanoutKind =>
        ChildrenInOrder(cfg.sinks, reg);
        if p != [] && p[0] < |cfg.sinks| { BuiltNodes(cfg.sinks[p[0]], reg, p[1..]); }
      case Named(_) =>
      case _ => BuiltNodes(cfg.next.value, reg, if p == [] then [] else p[1..]);
    }
  }

  // ---- the breakers of a tree ----

  /** Outside its own path a Write changes no breaker. */
  lemma {:induction false} BreakersElsewhere(s: Sink, path: Path, level: nat, env: Env, w: World, p: Path)
    requires !(path <= p)
    ensures Write(s, path, level, env, w).1.BreakerAt(p) == w.BreakerAt(p)
    decreases s, 0
  {
    match s {
      case Filter(_, next) => BreakersElsewhere(next, path, level, env, w, p);
      case Fanout(ss) => ElsewhereEach(ss, 0, path, level, env, w, p);
      case Retry(max, next) => ElsewhereRetry(next, max, 1, path, level, env, w, p);
      case Breaker(opts, next) =>
        var b := CB.Admission(w.BreakerAt(path), env(w.ticks).now).0;
        assert !(path + [0] <= p);
        BreakersElsewhere(next, path + [0], level, env, w.Tick().(breakers := w.breakers[path := b]), p);
      case _ =>
    }
  }

  lemma {:induction false} ElsewhereEach(ss: seq<Sink>, i: nat, path: Path, level: nat, env: Env, w: World, p: Path)
    requires forall j :: i <= j < |ss| ==> !(path + [j] <= p)
    ensures WriteEach(ss, i, path, level, env, w).1.BreakerAt(p) == w.BreakerAt(p)
    decreases ss, |ss| - i
  {
    if i < |ss| {
      BreakersElsewhere(ss[i], path + [i], level, env, w, p);
      ElsewhereEach(ss, i + 1, path, level, env, Write(ss[i], path + [i], level, env, w).1, p);
    }
  }

  lemma {:induction false} ElsewhereRetry(next: Sink, max: nat, k: nat, path: Path, level: nat, env: Env, w: World, p: Path)
    requires !(path + [0] <= p)
    ensures WriteRetry(next, max, k, path, level, env, w).1.BreakerAt(p) == w.BreakerAt(p)
    decreases next, 1 + if k <= max then max - k + 1 else 0
  {
    if k <= max {
      BreakersElsewhere(next, path + [0], level, env, w.Tick(), p);
      ElsewhereRetry(next, max, k + 1, path, level, env, Write(next, path + [0], level, env, w.Tick()).1.Tick(), p);
    }
  }

  /**
   One Write through a breaker node is one attempt in the breaker's history, followed, if it is admitted, by a
   success or a failure as its own next answered; a refused one answers circuit open and calls nothing.
   */
  lemma BreakerNode(opts: CB.Options, next: Sink, path: Path, level: nat, env: Env, w: World)
    ensures var (r, w1) := Write(Breaker(opts, next), path, level, env, w); var b := w.BreakerAt(path); var now := env(w.ticks).now;
            var tried := CB.Apply(opts, b, CB.Attempt(now));
            if b.state == CB.Open && now < b.openUntil then
              r == Some(CircuitOpen) && w1.log == w.log && w1.BreakerAt(path) == tried
            else
              var w0 := w.Tick().(breakers := w.breakers[path := tried]);
              && r == Write(next, path + [0], level, env, w0).0
              && w1.log == Write(next, path + [0], level, env, w0).1.log
              && w1.BreakerAt(path) == CB.Apply(opts, tried, if r.None? then CB.Success else CB.Failure(env(w1.ticks - 1).now))
  {
    var b := CB.Admission(w.BreakerAt(path), env(w.ticks).now).0;
    BreakersElsewhere(next, path + [0], level, env, w.Tick().(breakers := w.breakers[path := b]), path);
  }

  // ---- over any number of Writes ----

  ghost predicate Replayed(opts: CB.Options, b: CB.Breaker) { exists h :: CB.Replay(opts, h) == b }

  /** Every breaker of the tree is where some history of its own has brought it. */
  ghost predicate Historic(s: Sink, path: Path, w: World)
    decreases s
  {
    match s
    case Filter(_, next) => Historic(next, path, w)
    case Fanout(ss) => forall i :: 0 <= i < |ss| ==> Historic(ss[i], path + [i], w)
    case Retry(_, next) => Historic(next, path + [0], w)
    case Breaker(opts, next) => Replayed(opts, w.BreakerAt(path)) && Historic(next, path + [0], w)
    case _ => true
  }

  lemma ReplayedOn(opts: CB.Options, b: CB.Breaker, a: CB.Act)
    requires Replayed(opts, b)
    ensures Replayed(opts, CB.Apply(opts, b, a))
  {
    var h :| CB.Replay(opts, h) == b;
    assert (h + [a])[..|h|] == h;
    assert CB.Replay(opts, h + [a]) == CB.Apply(opts, b, a);
  }

  /** Breakers at and below path are all a subtree looks at. */
  lemma {:induction false} HistoricFrame(s: Sink, path: Path, w: World, w1: World)
    requires Historic(s, path, w) && forall p: Path :: path <= p ==> w1.BreakerAt(p) == w.BreakerAt(p)
    ensures Historic(s, path, w1)
    decreases s
  {
    match s {
      case Filter(_, next) => HistoricFrame(next, path, w, w1);
      case Fanout(ss) => forall i | 0 <= i < |ss| ensures Historic(ss[i], path + [i], w1) { HistoricFrame(ss[i], path + [i], w, w1); }
      case Retry(_, next) => HistoricFrame(next, path + [0], w, w1);
      case Breaker(_, next) => HistoricFrame(next, path + [0], w, w1);
      case _ =>
    }
  }

  /** Initially no breaker has any history. */
  lemma {:induction false} HistoricAtFirst(s: Sink, path: Path, w: World)
    requires w.breakers == map[]
    ensures Historic(s, path, w)
    decreases s
  {
    match s {
      case Filter(_, next) => HistoricAtFirst(next, path, w);
      case Fanout(ss) => forall i | 0 <= i < |ss| ensures Historic(ss[i], path + [i], w) { HistoricAtFirst(ss[i], path + [i], w); }
      case Retry(_, next) => HistoricAtFirst(next, path + [0], w);
      case Breaker(opts, next) =>
        assert CB.Replay(opts, []) == w.BreakerAt(path);
        HistoricAtFirst(next, path + [0], w);
      case _ =>
    }
  }

  /** Every Write through the tree keeps it so: the breaker theorems hold of every breaker in every tree. */
  lemma {:induction false} BreakersKeepHistory(s: Sink, path: Path, level: nat, env: Env, w: World)
    requires Historic(s, path, w)
    ensures Historic(s, path, Write(s, path, level, env, w).1)
    decreases s, 0
  {
    match s {
      case Filter(_, next) => BreakersKeepHistory(next, path, level, env, w);
      case Fanout(ss) => KeepEach(ss, 0, path, level, env, w);
      case Retry(max, next) => KeepRetry(next, max, 1, path, level, env, w);
      case Breaker(opts, next) => KeepBreaker(opts, next, path, level, env, w);
      case _ =>
    }
  }

  lemma {:induction false} KeepBreaker(opts: CB.Options, next: Sink, path: Path, level: nat, env: Env, w: World)
    requires Historic(Breaker(opts, next), path, w)
    ensures Historic(Breaker(opts, next), path, Write(Breaker(opts, next), path, level, env, w).1)
    decreases next, 1
  {
    var now := env(w.ticks).now;
    var tried := CB.Apply(opts, w.BreakerAt(path), CB.Attempt(now));
    var w0 := w.Tick().(breakers := w.breakers[path := tried]);
    var (r, w1) := Write(Breaker(opts, next), path, level, env, w);
    BreakerNode(opts, next, path, level, env, w);
    ReplayedOn(opts, w.BreakerAt(path), CB.Attempt(now));
    ReplayedOn(opts, tried, CB.Success);
    ReplayedOn(opts, tried, CB.Failure(env(w1.ticks - 1).now));
    HistoricFrame(next, path + [0], w, w0);
    BreakersKeepHistory(next, path + [0], level, env, w0);
    HistoricFrame(next, path + [0], if CB.Admission(w.BreakerAt(path), now).1.Some? then w0 else Write(next, path + [0], level, env, w0).1, w1);
  }

  lemma {:induction false} KeepEach(ss: seq<Sink>, i: nat, path: Path, level: nat, env: Env, w: World)
    requires forall j :: 0 <= j < |ss| ==> Historic(ss[j], path + [j], w)
    ensures var w1 := WriteEach(ss, i, path, level, env, w).1; forall j :: 0 <= j < |ss| ==> Historic(ss[j], path + [j], w1)
    decreases ss, |ss| - i
  {
    if i < |ss| {
      var w1 := Write(ss[i], path + [i], level, env, w).1;
      BreakersKeepHistory(ss[i], path + [i], level, env, w);
      forall j | 0 <= j < |ss| && j != i ensures Historic(ss[j], path + [j], w1) {
        forall p: Path | path + [j] <= p ensures w1.BreakerAt(p) == w.BreakerAt(p) {
          assert p[|path|] == j;
          BreakersElsewhere(ss[i], path + [i], level, env, w, p);
        }
        HistoricFrame(ss[j], path + [j], w, w1);
      }
      KeepEach(ss, i + 1, path, level, env, w1);
    }
  }

  lemma {:induction false} KeepRetry(next: Sink, max: nat, k: nat, path: Path, level: nat, env: Env, w: World)
    requires Historic(next, path + [0], w)
    ensures Historic(next, path + [0], WriteRetry(next, max, k, path, level, env, w).1)
    decreases next, 1 + if k <= max then max - k + 1 else 0
  {
    HistoricFrame(next, path + [0], w, w.Tick());
    if k <= max {
      var w1 := Write(next, path + [0], level, env, w.Tick()).1;
      BreakersKeepHistory(next, path + [0], level, env, w.Tick());
      HistoricFrame(next, path + [0], w1, w1.Tick());
      KeepRetry(next, max, k + 1, path, level, env, w1.Tick());
    }
  }
}
