/** What AsyncSink and BatchSink promise over every interleaving. */
module ProtocolTheorems {
  import opened Basics
  import opened Seqs
  import opened Worker
  import opened Protocol
  import opened ProtocolInvariants
  import opened ProtocolSteps

  /** Events taken in but not yet handed to `next`. */
  function Pending(m: Memory): seq<Event> { if m.Batch? then m.b.pending else [] }

  /** Every event handed to `next` so far, in order. */
  function DeliveredEvents(s: State): seq<Event> { Handed(Calls(s.start, s.fed)) }

  lemma MemoryConserves(start: Memory, fed: seq<Feed>)
    requires Initial(start)
    ensures Handed(Calls(start, fed)) + Pending(After(start, fed)) == JobEvents(Jobs(fed))
  {
    match start
    case Async(_) =>
      AsyncDeliversInOrder(fed);
      AsyncAfterIs(fed);
    case Batch(b) =>
      BatchRefinesFifo(b.max, b.batchWriter, fed);
      BatchHandsBatches(b.max, b.batchWriter, fed);
      BatchAfterIs(b.max, b.batchWriter, fed);
  }

  /** A flush or close leaves nothing pending in either sink. */
  lemma ControlEmpties(start: Memory, fed: seq<Feed>)
    requires Initial(start) && fed != [] && IsControl(Last(fed))
    ensures Pending(After(start, fed)) == []
  {
    match start
    case Async(_) => AsyncAfterIs(fed);
    case Batch(b) =>
      BatchAfterIs(b.max, b.batchWriter, fed);
      BatchEmptied(b.max, b.batchWriter, fed);
  }

  /**
   Delivered prefix. Received jobs, then the job in hand, then the channel are all jobs ever sent; the
   events of the received jobs have been handed to `next` in that order, but for a pending batch.
   */
  lemma DeliveredPrefix(s: State)
    requires Reachable(s)
    ensures Jobs(s.fed) + InHand(s.worker) + s.chan == s.sent && |s.chan| <= s.cap
    ensures DeliveredEvents(s) + Pending(s.memory) == JobEvents(Jobs(s.fed))
    ensures s.memory.Batch? ==> |s.memory.b.pending| < s.memory.b.max
  {
    ReachableOk(s);
    MemoryConserves(s.start, s.fed);
    if s.start.Batch? { BatchAfterIs(s.start.b.max, s.start.b.batchWriter, s.fed); }
    else { AsyncAfterIs(s.fed); }
  }

  /** The last job a stopped worker received is the close job. */
  lemma CloseIsLast(s: State)
    requires SharedOk(s) && Stopped(s.worker)
    ensures var k := |Jobs(s.fed)| - 1;
            && 0 <= k < |s.sent| && s.sent[k].CloseJob? && Last(Jobs(s.fed)) == s.sent[k]
            && Jobs(s.fed) == s.sent[..k + 1] && Front(Jobs(s.fed)) == s.sent[..k] && s.chan == s.sent[k + 1..]
  {
    var jobs := Jobs(s.fed);
    var i :| 0 <= i < |jobs| && jobs[i].CloseJob?;
    assert jobs + [] + s.chan == s.sent;
  }

  /** Once the close job is handled, the delivered events are exactly those sent ahead of it, and the channel is what was sent behind it. */
  lemma DeliveredAtClose(s: State)
    requires Reachable(s) && Stopped(s.worker)
    ensures var k := |Jobs(s.fed)| - 1;
            && 0 <= k < |s.sent| && s.sent[k].CloseJob?
            && DeliveredEvents(s) == JobEvents(s.sent[..k])
            && s.chan == s.sent[k + 1..]
  {
    ReachableOk(s);
    CloseIsLast(s);
    MemoryConserves(s.start, s.fed);
    ControlEmpties(s.start, s.fed);
    var jobs := Jobs(s.fed);
    assert JobEvents(jobs) == JobEvents(Front(jobs)) + [] == JobEvents(Front(jobs));
    assert DeliveredEvents(s) + [] == DeliveredEvents(s);
  }

  /** Events of distinct calls in a set are at most as many as the set. */
  lemma {:induction false} EventsBounded(jobs: seq<Job>, gap: set<nat>)
    requires forall i, j :: 0 <= i < j < |jobs| ==> jobs[i].c != jobs[j].c
    requires forall i :: 0 <= i < |jobs| && jobs[i].EventJob? ==> jobs[i].c in gap
    ensures |JobEvents(jobs)| <= |gap| && |JobEvents(jobs)| <= |jobs|
  {
    if jobs != [] {
      var j := Last(jobs);
      if j.EventJob? {
        EventsBounded(Front(jobs), gap - {j.c});
      } else {
        EventsBounded(Front(jobs), gap);
      }
    }
  }

  lemma AroundClose(sent: seq<Job>, k: int)
    requires 0 <= k < |sent| && sent[k].CloseJob?
    ensures JobEvents(sent) == JobEvents(sent[..k]) + JobEvents(sent[k + 1..])
  {
    assert sent == sent[..k] + [sent[k]] + sent[k + 1..];
    FlatMapConcat(JobEvent, sent[..k] + [sent[k]], sent[k + 1..]);
    FlatMapSnoc(JobEvent, sent[..k], sent[k]);
  }

  /**
   Stranded events. After the worker has taken the close job, accepted events are the delivered ones
   followed by the stranded ones in the channel.
   */
  lemma AcceptedIsDeliveredOrStranded(s: State)
    requires Reachable(s) && Stopped(s.worker)
    ensures JobEvents(s.sent) == DeliveredEvents(s) + JobEvents(s.chan)
  {
    DeliveredAtClose(s);
    AroundClose(s.sent, |Jobs(s.fed)| - 1);
  }

  lemma BehindClose(sent: seq<Job>, k: int, gap: set<nat>)
    requires 0 <= k < |sent| && sent[k].CloseJob? && GapOk(sent, gap)
    requires forall i, j :: 0 <= i < j < |sent| ==> sent[i].c != sent[j].c
    ensures |JobEvents(sent[k + 1..])| <= |gap| && |JobEvents(sent[k + 1..])| <= |sent| - k - 1
  {
    EventsBounded(sent[k + 1..], gap);
  }

  lemma StrandedFew(s: State)
    requires SharedOk(s) && Stopped(s.worker)
    ensures |JobEvents(s.chan)| <= |s.gap| && |JobEvents(s.chan)| <= s.cap
  {
    CloseIsLast(s);
    BehindClose(s.sent, |Jobs(s.fed)| - 1, s.gap);
  }

  /**
   The stranded events number at most the Writes that stood between flag check and send when the
   owning Close set `closing`, and at most the buffer size; without such Writes all is delivered.
   */
  lemma StrandedBound(s: State)
    requires Reachable(s) && Stopped(s.worker)
    ensures |JobEvents(s.chan)| <= |s.gap| && |JobEvents(s.chan)| <= s.cap
    ensures s.gap == {} ==> DeliveredEvents(s) == JobEvents(s.sent)
  {
    ReachableOk(s);
    AcceptedIsDeliveredOrStranded(s);
    StrandedFew(s);
  }

  lemma OwnerKept(s: State, l: Label)
    requires Enabled(s, l) && Apply(s, l).owner.Some?
    requires !(l.Client? && l.act.CloseEnter? && EnterClose(s.flags).1 == Own)
    ensures Apply(s, l).owner == s.owner && Apply(s, l).gap == s.gap
  {
    if l.Work? { WorkerShape(s, l.step); }
  }

  /** What `gap` is: the Writes past the flag check when the current owner set `closing`. */
  lemma {:induction false} GapIsAtOwning(s0: State, ls: seq<Label>)
    requires Init(s0) && Runs(s0, ls) && Exec(s0, ls).owner.Some?
    ensures exists i :: 0 <= i < |ls| && Runs(s0, ls[..i]) && ls[i] == Client(Exec(s0, ls).owner.value, CloseEnter)
                        && !Exec(s0, ls[..i]).flags.closing && Exec(s0, ls).gap == Exec(s0, ls[..i]).InGap()
    decreases |ls|
  {
    var pre, l := Front(ls), Last(ls);
    var s, s1 := Exec(s0, pre), Exec(s0, ls);
    if l.Client? && l.act.CloseEnter? && EnterClose(s.flags).1 == Own {
      assert ls[..|ls| - 1] == pre;
    } else {
      OwnerKept(s, l);
      GapIsAtOwning(s0, pre);
      var i :| 0 <= i < |pre| && Runs(s0, pre[..i]) && pre[i] == Client(s.owner.value, CloseEnter)
               && !Exec(s0, pre[..i]).flags.closing && s.gap == Exec(s0, pre[..i]).InGap();
      assert ls[..i] == pre[..i] && ls[i] == pre[i];
    }
  }

  // ---- Close ----

  function CloseOf(call: NextCall): seq<Result> { if call.CloseCall? then [call.r] else [] }
  function CloseJobOf(job: Job): seq<nat> { if job.CloseJob? then [job.c] else [] }

  lemma {:induction false} NoCloseCalls(es: seq<Event>, o: Outcomes)
    ensures FlatMap(CloseOf, WriteCalls(es, o)) == []
  {
    if es != [] {
      NoCloseCalls(Front(es), o);
      FlatMapSnoc(CloseOf, WriteCalls(Front(es), o), WriteCall(Last(es), o.Write(|es| - 1)));
    }
  }

  lemma BatchCallsNoClose(m: BatchMemory, o: Outcomes)
    ensures FlatMap(CloseOf, BatchCalls(m, o)) == []
  {
    NoCloseCalls(m.pending, o);
    FlatMapOne(CloseOf, BatchCall(m.pending, o.Write(0)));
  }

  lemma CloseTail(calls: seq<NextCall>, sync: Result, close: Result)
    requires FlatMap(CloseOf, calls) == []
    ensures FlatMap(CloseOf, calls + [SyncCall(sync)]) == []
    ensures FlatMap(CloseOf, calls + [SyncCall(sync), CloseCall(close)]) == [close]
  {
    FlatMapSnoc(CloseOf, calls, SyncCall(sync));
    FlatMapSnoc(CloseOf, calls + [SyncCall(sync)], CloseCall(close));
    assert calls + [SyncCall(sync)] + [CloseCall(close)] == calls + [SyncCall(sync), CloseCall(close)];
  }

  /** A turn calls next.Close exactly when its job is a close job. */
  lemma TurnCloses(m: Memory, i: Input, o: Outcomes)
    ensures FlatMap(CloseOf, Worker.Work(m, i, o).1.calls) == if i.Take? && i.job.CloseJob? then [o.close] else []
  {
    match m
    case Async(_) =>
      if i.Take? && i.job.EventJob? { FlatMapOne(CloseOf, WriteCall(i.job.event, o.Write(0))); }
      CloseTail([], o.sync, o.close);
      assert [] + [SyncCall(o.sync)] == [SyncCall(o.sync)];
      assert [] + [SyncCall(o.sync), CloseCall(o.close)] == [SyncCall(o.sync), CloseCall(o.close)];
    case Batch(b) =>
      BatchCallsNoClose(b, o);
      CloseTail(BatchCalls(b, o), o.sync, o.close);
      if i.Take? && i.job.EventJob? { BatchCallsNoClose(b.(pending := b.pending + [i.job.event]), o); }
  }

  lemma {:induction false} CloseCallsAreCloseJobs(start: Memory, fed: seq<Feed>)
    ensures |FlatMap(CloseOf, Calls(start, fed))| == |FlatMap(CloseJobOf, Jobs(fed))|
  {
    if fed != [] {
      var f := Last(fed);
      CloseCallsAreCloseJobs(start, Front(fed));
      TurnCloses(After(start, Front(fed)), f.input, f.o);
      FlatMapConcat(CloseOf, Calls(start, Front(fed)), LastTurn(start, fed).calls);
      FlatMapConcat(CloseJobOf, Jobs(Front(fed)), InputJob(f));
      if f.input.Take? { FlatMapOne(CloseJobOf, f.input.job); }
    }
  }

  lemma {:induction false} NoCloseJobs(jobs: seq<Job>)
    requires forall i :: 0 <= i < |jobs| ==> !jobs[i].CloseJob?
    ensures FlatMap(CloseJobOf, jobs) == []
  {
    if jobs != [] { NoCloseJobs(Front(jobs)); }
  }

  /** One close job at most is ever sent, one call of next.Close at most is ever made; closing and closed exclude each other. */
  lemma CloseOnce(s: State)
    requires Reachable(s)
    ensures forall i, j :: 0 <= i < |s.sent| && 0 <= j < |s.sent| && s.sent[i].CloseJob? && s.sent[j].CloseJob? ==> i == j
    ensures |FlatMap(CloseOf, Calls(s.start, s.fed))| <= 1
    ensures !(s.flags.closing && s.flags.closed)
  {
    ReachableOk(s);
    forall i, j | 0 <= i < |s.sent| && 0 <= j < |s.sent| && s.sent[i].CloseJob? && s.sent[j].CloseJob? ensures i == j {
      CloseJobOwned(s, i);
      CloseJobOwned(s, j);
    }
    CloseCallsAreCloseJobs(s.start, s.fed);
    var jobs := Jobs(s.fed);
    if jobs != [] { NoCloseJobs(Front(jobs)); }
  }

  /** Clients only ever add to the channel; the worker's side is its own. */
  lemma EffectOnWorker(s: State, c: nat, a: Act)
    requires ClientEnabled(s, c, a)
    ensures var e := Effect(s, c, a);
            && s.sent <= e.sent && e.fed == s.fed && e.start == s.start && e.worker == s.worker
            && e.flags.closed == s.flags.closed
  {
  }

  lemma ClosedStep(s: State, l: Label)
    requires FlagsOk(s.flags, s.worker, s.done, s.owner) && s.flags.closed && Enabled(s, l)
    ensures Apply(s, l).flags.closed && Apply(s, l).fed == s.fed && Apply(s, l).start == s.start
  {
    if l.Client? { EffectOnWorker(s, l.c, l.act); }
  }

  /** Once `closed` is set it stays set, and the worker never calls `next` again. */
  lemma {:induction false} ClosedForGood(s: State, ls: seq<Label>)
    requires Inv(s) && s.flags.closed && Runs(s, ls)
    ensures Exec(s, ls).flags.closed && Exec(s, ls).fed == s.fed && Exec(s, ls).start == s.start
    decreases |ls|
  {
    if ls != [] {
      ClosedForGood(s, Front(ls));
      RunOk(s, Front(ls));
      ClosedStep(Exec(s, Front(ls)), Last(ls));
    }
  }

  /** After any Close has returned nil, no call on `next` is ever made again. */
  lemma NoCallsAfterClose(s: State, c: nat, ls: seq<Label>)
    requires Reachable(s) && c in s.calls && s.calls[c] == Call(Close, Returned(None)) && Runs(s, ls)
    ensures Calls(Exec(s, ls).start, Exec(s, ls).fed) == Calls(s.start, s.fed)
  {
    ReachableOk(s);
    assert CallOk(s.calls[c], ViewOf(s, c));
    ClosedForGood(s, ls);
  }

  // ---- responses ----

  /** The jobs received before worker input k are a prefix of all jobs received. */
  lemma {:induction false} JobsPrefix(fed: seq<Feed>, k: nat)
    requires k <= |fed|
    ensures Jobs(fed[..k]) <= Jobs(fed)
    decreases |fed|
  {
    if k == |fed| {
      assert fed[..k] == fed;
    } else {
      assert Front(fed)[..k] == fed[..k];
      JobsPrefix(Front(fed), k);
    }
  }

  lemma {:induction false} CallsPrefix(m: Memory, fed: seq<Feed>, k: nat)
    requires k <= |fed|
    ensures Calls(m, fed[..k]) <= Calls(m, fed)
    decreases |fed|
  {
    if k == |fed| {
      assert fed[..k] == fed;
    } else {
      assert Front(fed)[..k] == fed[..k];
      CallsPrefix(m, Front(fed), k);
    }
  }

  /** Worker input k, a job, is the job sent at the position the inputs before it leave. */
  lemma FedPosition(s: State, k: nat)
    requires SharedOk(s) && k < |s.fed| && s.fed[k].input.Take?
    ensures var i := |Jobs(s.fed[..k])|;
            && i < |Jobs(s.fed)| <= |s.sent| && s.sent[i] == s.fed[k].input.job && s.sent[..i] == Jobs(s.fed[..k])
  {
    JobsPrefix(s.fed, k);
    JobsPrefix(s.fed, k + 1);
    assert s.fed[..k + 1] == s.fed[..k] + [s.fed[k]];
    JobsSnoc(s.fed[..k], s.fed[k]);
  }

  /** Every event sent before c's flush job had been handed to `next` by the end of turn k, and next.Sync was called after them. */
  ghost predicate HandedBefore(s: State, c: nat, k: nat) {
    && k < |s.fed| && s.fed[k].input == Take(FlushJob(c))
    && (exists i :: 0 <= i < |s.sent| && s.sent[i] == FlushJob(c)
                    && Handed(Calls(s.start, s.fed[..k + 1])) == JobEvents(s.sent[..i]))
    && Calls(s.start, s.fed[..k + 1]) <= Calls(s.start, s.fed)
    && Calls(s.start, s.fed[..k + 1]) != [] && Last(Calls(s.start, s.fed[..k + 1])) == SyncCall(s.fed[k].o.sync)
  }

  /** What a nil reply to turn k says: next.Sync succeeded, and no write since the previous drain failed (AsyncSink), or the final partial batch succeeded (BatchSink). */
  ghost predicate Succeeded(start: Memory, fed: seq<Feed>, k: nat)
    requires k < |fed|
  {
    && fed[k].o.sync.None? && (fed[k].input.Take? && fed[k].input.job.CloseJob? ==> fed[k].o.close.None?)
    && (match start
        case Async(_) => CleanSinceDrain(fed[..k])
        case Batch(b) => b.max > 0 && BatchAccepted(BatchAfter(b.max, b.batchWriter, fed[..k]), fed[k].o))
  }

  lemma ReplySucceeded(start: Memory, fed: seq<Feed>, k: nat)
    requires Initial(start) && k < |fed| && IsControl(fed[k])
    ensures LastTurn(start, fed[..k + 1]).reply == Some(None) <==> Succeeded(start, fed, k)
  {
    assert fed[..k + 1] == fed[..k] + [fed[k]];
    match start {
      case Async(_) => AsyncBarrier(fed[..k], fed[k]);
      case Batch(b) => BatchBarrier(b.max, b.batchWriter, fed[..k], fed[k]);
    }
  }

  /** A flush turn ends with the call of next.Sync. */
  lemma FlushSyncs(start: Memory, fed: seq<Feed>)
    requires fed != [] && Last(fed).input.Take? && Last(fed).input.job.FlushJob?
    ensures Calls(start, fed) != [] && Last(Calls(start, fed)) == SyncCall(Last(fed).o.sync)
  {
    var t := LastTurn(start, fed);
    assert t.calls != [] && Last(t.calls) == SyncCall(Last(fed).o.sync);
  }

  /** By the end of a flush turn everything the worker received ahead of it has been handed over. */
  lemma FlushDelivers(start: Memory, fed: seq<Feed>)
    requires Initial(start) && fed != [] && Last(fed).input.Take? && Last(fed).input.job.FlushJob?
    ensures Handed(Calls(start, fed)) == JobEvents(Jobs(Front(fed)))
  {
    MemoryConserves(start, fed);
    ControlEmpties(start, fed);
    JobEventsSnoc(fed);
    assert Handed(Calls(start, fed)) + [] == Handed(Calls(start, fed));
    assert JobEvents(Jobs(Front(fed))) + [] == JobEvents(Jobs(Front(fed)));
  }

  lemma FlushHandsAll(s: State, c: nat, k: nat)
    requires SharedOk(s) && k < |s.fed| && s.fed[k].input == Take(FlushJob(c))
    ensures HandedBefore(s, c, k)
  {
    var upTo := s.fed[..k + 1];
    assert Front(upTo) == s.fed[..k] && Last(upTo) == s.fed[k];
    FedPosition(s, k);
    FlushSyncs(s.start, upTo);
    FlushDelivers(s.start, upTo);
    CallsPrefix(s.start, s.fed, k + 1);
  }

  /** The Sync barrier: what holds of some turn k whenever a Sync has returned nil. */
  lemma SyncBarrier(s: State, c: nat)
    requires Reachable(s) && c in s.calls && s.calls[c] == Call(Sync, Returned(None))
    ensures exists k: nat :: HandedBefore(s, c, k) && Succeeded(s.start, s.fed, k)
  {
    ReachableOk(s);
    assert CallOk(s.calls[c], ViewOf(s, c));
    var k: nat :| AnsweredAt(s.fed, Replies(s.start, s.fed), c, None, k);
    FedPosition(s, k);
    ReplyAt(s.start, s.fed, k);
    assert s.fed[k].input.job == FlushJob(c);
    ReplySucceeded(s.start, s.fed, k);
    FlushHandsAll(s, c, k);
  }

  /** Job i of the received jobs came in at some worker input. */
  lemma {:induction false} JobPosition(fed: seq<Feed>, i: nat)
    requires i < |Jobs(fed)|
    ensures exists k :: 0 <= k < |fed| && fed[k].input == Take(Jobs(fed)[i]) && |Jobs(fed[..k])| == i
    decreases |fed|
  {
    if i < |Jobs(Front(fed))| {
      JobPosition(Front(fed), i);
      var k :| 0 <= k < |Front(fed)| && Front(fed)[k].input == Take(Jobs(Front(fed))[i]) && |Jobs(Front(fed)[..k])| == i;
      assert fed[..k] == Front(fed)[..k] && fed[k] == Front(fed)[k];
    } else {
      assert fed[..|fed| - 1] == Front(fed);
    }
  }

  /** A control job is answered exactly when the worker has finished with it. */
  lemma AnsweredIff(s: State, i: nat)
    requires Inv(s) && i < |s.sent| && !s.sent[i].EventJob?
    ensures s.sent[i].c in s.answers <==> i < |Jobs(s.fed)| && !(s.worker.Replying? && i == |Jobs(s.fed)| - 1)
  {
    var c, n := s.sent[i].c, |Jobs(s.fed)|;
    if c in s.answers {
      var k: nat :| AnsweredAt(s.fed, Replies(s.start, s.fed), c, s.answers[c], k);
      FedPosition(s, k);
      if s.worker.Replying? { FedPosition(s, |s.fed| - 1); assert s.fed[..|s.fed| - 1] == Front(s.fed); }
    } else if i < n {
      JobPosition(s.fed, i);
      var k :| 0 <= k < |s.fed| && s.fed[k].input == Take(Jobs(s.fed)[i]) && |Jobs(s.fed[..k])| == i;
      assert s.sent[i] == Jobs(s.fed)[i];
      assert IsControl(s.fed[k]);
      if s.worker.Replying? && k == |s.fed| - 1 { assert s.fed[..k] == Front(s.fed); }
    }
  }

  /** No close job is ahead of position i. */
  predicate NoCloseAhead(s: State, i: nat) {
    i < |s.sent| && forall j :: 0 <= j < i ==> !s.sent[j].CloseJob?
  }

  /** Steps of the worker until control job i is answered. */
  function Distance(s: State, i: nat): int {
    var ahead := i - |Jobs(s.fed)|;
    match s.worker
    case Idle => if ahead < 0 then 0 else 3 * ahead + 3
    case Busy(_) => if ahead < 0 then 0 else 3 * ahead + 2
    case Replying(_, _) => if ahead < -1 then 0 else 3 * ahead + 4
    case _ => 0
  }

  /** A stopped worker has nothing left ahead of the close job. */
  lemma StoppedAhead(s: State, i: nat)
    requires SharedOk(s) && NoCloseAhead(s, i) && Stopped(s.worker)
    ensures i < |Jobs(s.fed)|
  {
    var k :| 0 <= k < |Jobs(s.fed)| && Jobs(s.fed)[k].CloseJob?;
    assert s.sent[k] == Jobs(s.fed)[k];
  }

  /** Distance is zero exactly when the job has been answered. */
  lemma DistanceZero(s: State, i: nat)
    requires Reachable(s) && NoCloseAhead(s, i) && !s.sent[i].EventJob?
    ensures Distance(s, i) >= 0
    ensures Distance(s, i) == 0 <==> s.sent[i].c in s.answers
  {
    ReachableOk(s);
    AnsweredIff(s, i);
    if Stopped(s.worker) { StoppedAhead(s, i); }
  }

  /** Bounded response: while the job is unanswered the worker has an enabled step - it never blocks on a response channel. */
  lemma WorkerNeverBlocks(s: State, i: nat)
    requires Reachable(s) && NoCloseAhead(s, i) && Distance(s, i) > 0
    ensures WorkerEnabled(s, Recv) || s.worker.Busy? || WorkerEnabled(s, Reply)
  {
    ReachableOk(s);
    if s.worker.Idle? {
      assert |s.sent| == |Jobs(s.fed)| + |s.chan|;
    }
  }

  lemma DistanceOnClient(s: State, c: nat, a: Act, i: nat)
    requires NoCloseAhead(s, i) && ClientEnabled(s, c, a)
    ensures var s1 := Apply(s, Client(c, a));
            NoCloseAhead(s1, i) && s1.sent[i] == s.sent[i] && Distance(s1, i) == Distance(s, i)
  {
    EffectOnWorker(s, c, a);
  }

  /** Every step but a tick brings a distance down, until it is zero. */
  predicate Nearer(d: int, d1: int, w: WorkerAct) {
    if w.TickFlush? || d == 0 then d1 == d else d1 < d
  }

  lemma DistanceOnHandle(s: State, w: WorkerAct, i: nat)
    requires SharedOk(s) && NoCloseAhead(s, i) && !s.sent[i].EventJob? && w.Handle? && WorkerEnabled(s, w) && Distance(s, i) >= 0
    ensures Nearer(Distance(s, i), Distance(ApplyWorker(s, w), i), w)
  {
    JobsSnoc(s.fed, Feed(Take(s.worker.job), w.o));
    ReplyIffControl(s.memory, s.worker.job, w.o);
    if i == |Jobs(s.fed)| { assert s.sent[i] == s.worker.job; }
  }

  lemma DistanceOnClosing(s: State, w: WorkerAct, i: nat)
    requires SharedOk(s) && NoCloseAhead(s, i) && !s.sent[i].EventJob? && (w.Reply? || w.MarkClosed? || w.CloseDone?) && WorkerEnabled(s, w) && Distance(s, i) >= 0
    ensures Nearer(Distance(s, i), Distance(ApplyWorker(s, w), i), w)
  {
    if Stopped(s.worker) { StoppedAhead(s, i); }
  }

  lemma DistanceOnRecv(s: State, w: WorkerAct, i: nat)
    requires SharedOk(s) && NoCloseAhead(s, i) && !s.sent[i].EventJob? && (w.Recv? || w.TickFlush?) && WorkerEnabled(s, w) && Distance(s, i) >= 0
    ensures Nearer(Distance(s, i), Distance(ApplyWorker(s, w), i), w)
  {
    assert |s.sent| == |Jobs(s.fed)| + |s.chan|;
    if w.TickFlush? { JobsSnoc(s.fed, Feed(Tick, w.o)); }
  }

  lemma DistanceOnWorker(s: State, w: WorkerAct, i: nat)
    requires SharedOk(s) && NoCloseAhead(s, i) && !s.sent[i].EventJob? && WorkerEnabled(s, w) && Distance(s, i) >= 0
    ensures Nearer(Distance(s, i), Distance(ApplyWorker(s, w), i), w)
  {
    if w.Handle? { DistanceOnHandle(s, w, i); }
    else if w.Recv? || w.TickFlush? { DistanceOnRecv(s, w, i); }
    else { DistanceOnClosing(s, w, i); }
  }

  /** Bounded response: each of the worker's steps brings the answer nearer; sends, ticks and every other client step never push it back. */
  lemma DistanceFalls(s: State, l: Label, i: nat)
    requires Reachable(s) && NoCloseAhead(s, i) && !s.sent[i].EventJob? && Enabled(s, l)
    ensures var s1 := Apply(s, l);
            && NoCloseAhead(s1, i) && s1.sent[i] == s.sent[i]
            && if l.Work? && !l.step.TickFlush? && Distance(s, i) > 0 then Distance(s1, i) < Distance(s, i)
               else Distance(s1, i) == Distance(s, i)
  {
    ReachableOk(s);
    match l {
      case Client(c, a) => DistanceOnClient(s, c, a, i);
      case Work(w) =>
        WorkerShape(s, w);
        DistanceZero(s, i);
        DistanceOnWorker(s, w, i);
    }
  }

  lemma ReplyingPosition(s: State)
    requires SharedOk(s) && s.worker.Replying?
    ensures 0 < |Jobs(s.fed)| <= |s.sent| && s.sent[|Jobs(s.fed)| - 1] == s.worker.job
  {
    JobsSnoc(Front(s.fed), Last(s.fed));
    assert s.fed == Front(s.fed) + [Last(s.fed)];
    assert Last(Jobs(s.fed)) == s.worker.job;
  }

  lemma ReplyingTurn(s: State, i: nat)
    requires SharedOk(s) && i < |s.sent| && s.worker.Replying? && s.worker.job == s.sent[i]
    ensures Jobs(s.fed) == s.sent[..i + 1]
  {
    ReplyingPosition(s);
    var n := |Jobs(s.fed)| - 1;
    assert s.sent[n].c == s.sent[i].c;
    assert Jobs(s.fed) == s.sent[..n + 1];
  }

  /** A control job p places down the channel is answered by the turn p receives later: all p jobs ahead are handled first, no more. */
  lemma AnsweredInTurn(s: State, i: nat)
    requires Reachable(s) && i < |s.sent| && !s.sent[i].EventJob? && s.worker.Replying? && s.worker.job == s.sent[i]
    ensures Jobs(s.fed) == s.sent[..i + 1]
  {
    ReachableOk(s);
    ReplyingTurn(s, i);
  }

  /** A Sync queued behind the close job is never answered. */
  lemma NeverAnswered(s: State, i: nat, j: nat)
    requires Reachable(s) && i < j < |s.sent| && s.sent[i].CloseJob? && !s.sent[j].EventJob?
    ensures s.sent[j].c !in s.answers
  {
    ReachableOk(s);
    AnsweredIff(s, j);
    if j < |Jobs(s.fed)| { assert s.sent[i] == Jobs(s.fed)[i]; }
  }

  // ---- counters ----

  /** Enqueued and Dropped, in every intermediate state, are off by exactly the calls between the act and its counter. */
  lemma CountersAccount(s: State)
    requires Reachable(s)
    ensures s.enqueued + |CallsAt(s.calls, Sent)| == |s.sent|
    ensures s.dropped + |CallsAt(s.calls, Dropping)| == |s.drops|
  {
    ReachableOk(s);
  }

  /** A Write that returned nil is exactly one job in the channel's history or exactly one drop; a failed Write is neither. */
  lemma WriteSentOrDropped(s: State, c: nat)
    requires Reachable(s) && c in s.calls && s.calls[c].op.Write? && s.calls[c].pc.Returned?
    ensures s.calls[c].pc.r == None <==> (c in s.drops || c in Senders(s.sent))
    ensures !(c in s.drops && c in Senders(s.sent))
    ensures forall i, j :: 0 <= i < |s.sent| && 0 <= j < |s.sent| && s.sent[i].c == s.sent[j].c == c ==> i == j && s.sent[i] == EventJob(c, s.calls[c].op.event)
  {
    ReachableOk(s);
    assert CallOk(s.calls[c], ViewOf(s, c));
  }
}
