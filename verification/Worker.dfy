/**
 What the single worker goroutine does with one job (or one tick), for AsyncSink and BatchSink,
 as a function of the worker's own memory; and what a whole stream of jobs leads to.
 */
module Worker {
  import opened Basics
  import opened Seqs

  datatype Event = Event(level: nat, message: string)

  /** A queued job; `c` identifies the Write, Sync or Close call that built it. */
  datatype Job =
    | EventJob(c: nat, event: Event)
    | FlushJob(c: nat)
    | CloseJob(c: nat)

  datatype Input = Take(job: Job) | Tick

  /** The calls on `next`, with what `next` answered. */
  datatype NextCall =
    | WriteCall(event: Event, r: Result)
    | BatchCall(events: seq<Event>, r: Result)
    | SyncCall(r: Result)
    | CloseCall(r: Result)

  /** The downstream oracle for one turn: the answers of the writes, of Sync and of Close. */
  datatype Outcomes = Outcomes(writes: seq<Result>, sync: Result, close: Result) {
    function Write(i: nat): Result { if i < |writes| then writes[i] else None }
  }

  datatype Feed = Feed(input: Input, o: Outcomes)

  /** Memory only AsyncSink's worker touches, with its counters. */
  datatype AsyncMemory = AsyncMemory(errs: seq<Err>, writeErrors: nat, flushes: nat, closes: nat)

  /** The same for BatchSink; `max` and `batchWriter` are fixed when the sink is built. */
  datatype BatchMemory = BatchMemory(max: nat, batchWriter: bool, pending: seq<Event>,
                                     batches: nat, flushed: nat, writeErrors: nat, flushes: nat, closes: nat)

  datatype Memory = Async(a: AsyncMemory) | Batch(b: BatchMemory)

  /** One turn: calls made on `next`, errors drained, batch handed over with its error, reply sent. */
  datatype Turn = Turn(calls: seq<NextCall>, drained: seq<Err>, batch: seq<Event>, batchErr: Result, reply: Option<Result>)

  const NewAsync := AsyncMemory([], 0, 0, 0)
  function NewBatch(max: nat, batchWriter: bool): BatchMemory { BatchMemory(max, batchWriter, [], 0, 0, 0, 0, 0) }

  predicate Initial(m: Memory) {
    match m
    case Async(a) => a == NewAsync
    case Batch(b) => b.max > 0 && b == NewBatch(b.max, b.batchWriter)
  }

  function Join(errs: seq<Err>): Result { if errs == [] then None else Some(Joined(errs)) }

  function WorkAsync(m: AsyncMemory, job: Job, o: Outcomes): (AsyncMemory, Turn) {
    match job
    case EventJob(_, e) =>
      var r := o.Write(0);
      (if r.None? then m else m.(errs := m.errs + [r.value], writeErrors := m.writeErrors + 1),
       Turn([WriteCall(e, r)], [], [], None, None))
    case FlushJob(_) =>
      (m.(errs := [], flushes := m.flushes + 1),
       Turn([SyncCall(o.sync)], m.errs, [], None, Some(FirstError([Join(m.errs), o.sync]))))
    case CloseJob(_) =>
      (m.(errs := [], closes := m.closes + 1),
       Turn([SyncCall(o.sync), CloseCall(o.close)], m.errs, [], None,
            Some(FirstError([Join(m.errs), o.sync, o.close]))))
  }

  /** The calls a plain sink gets for a batch. */
  function WriteCalls(es: seq<Event>, o: Outcomes): seq<NextCall> {
    if es == [] then []
    else WriteCalls(Front(es), o) + [WriteCall(Last(es), o.Write(|es| - 1))]
  }

  /** The first error among the first n answers. */
  function WritesResult(n: nat, o: Outcomes): Result {
    if n == 0 then None
    else FirstError([WritesResult(n - 1, o), o.Write(n - 1)])
  }

  /** What flushBatch gets back for a non-empty batch. */
  function BatchResult(m: BatchMemory, o: Outcomes): Result {
    if m.pending == [] then None
    else if m.batchWriter then o.Write(0)
    else WritesResult(|m.pending|, o)
  }

  function BatchCalls(m: BatchMemory, o: Outcomes): seq<NextCall> {
    if m.pending == [] then []
    else if m.batchWriter then [BatchCall(m.pending, o.Write(0))]
    else WriteCalls(m.pending, o)
  }

  /** flushBatch on the worker's memory: both `if err == nil` branches of a BatchWriter add to flushed. */
  function FlushBatch(m: BatchMemory, o: Outcomes): BatchMemory {
    var n := |m.pending|;
    if n == 0 then m
    else
      var m1 := m.(pending := [], batches := m.batches + 1);
      if BatchResult(m, o).None? then m1.(flushed := m.flushed + if m.batchWriter then n + n else n)
      else m1.(writeErrors := m.writeErrors + if m.batchWriter then 1 else 0)
  }

  function WorkBatch(m: BatchMemory, i: Input, o: Outcomes): (BatchMemory, Turn) {
    match i
    case Tick => (FlushBatch(m, o), Turn(BatchCalls(m, o), [], m.pending, BatchResult(m, o), None))
    case Take(job) =>
      match job
      case EventJob(_, e) =>
        var m0 := m.(pending := m.pending + [e]);
        if |m0.pending| >= m.max
        then (FlushBatch(m0, o), Turn(BatchCalls(m0, o), [], m0.pending, BatchResult(m0, o), None))
        else (m0, Turn([], [], [], None, None))
      case FlushJob(_) =>
        var r := BatchResult(m, o);
        (FlushBatch(m.(flushes := m.flushes + 1), o),
         Turn(BatchCalls(m, o) + [SyncCall(o.sync)], [], m.pending, r, Some(FirstError([r, o.sync]))))
      case CloseJob(_) =>
        var r := BatchResult(m, o);
        (FlushBatch(m.(closes := m.closes + 1), o),
         Turn(BatchCalls(m, o) + [SyncCall(o.sync), CloseCall(o.close)], [], m.pending, r,
              Some(FirstError([r, o.sync, o.close]))))
  }

  /** Counting a flush or a close leaves the batch as it is. */
  lemma SameBatch(m: BatchMemory, m1: BatchMemory, o: Outcomes)
    requires m1.pending == m.pending && m1.batchWriter == m.batchWriter
    ensures BatchResult(m1, o) == BatchResult(m, o) && BatchCalls(m1, o) == BatchCalls(m, o)
  {
  }

  /** One turn of either worker. Only BatchSink has a ticker. */
  function Work(m: Memory, i: Input, o: Outcomes): (Memory, Turn) {
    match m
    case Batch(b) => var (b1, t) := WorkBatch(b, i, o); (Batch(b1), t)
    case Async(a) =>
      if i.Tick? then (m, Turn([], [], [], None, None))
      else var (a1, t) := WorkAsync(a, i.job, o); (Async(a1), t)
  }

  // ---- whole streams ----

  function After(m: Memory, fed: seq<Feed>): Memory {
    if fed == [] then m else Work(After(m, Front(fed)), Last(fed).input, Last(fed).o).0
  }

  /** The turn made for the last element of the stream. */
  function LastTurn(m: Memory, fed: seq<Feed>): Turn
    requires fed != []
  {
    Work(After(m, Front(fed)), Last(fed).input, Last(fed).o).1
  }

  /** Everything ever called on `next`. */
  function Calls(m: Memory, fed: seq<Feed>): seq<NextCall> {
    if fed == [] then [] else Calls(m, Front(fed)) + LastTurn(m, fed).calls
  }

  /** An empty batch is not handed over. */
  function AddBatch(d: seq<seq<Event>>, batch: seq<Event>): seq<seq<Event>> {
    if batch == [] then d else d + [batch]
  }

  /** The batches handed to `next`, in order. */
  function Delivered(m: Memory, fed: seq<Feed>): seq<seq<Event>> {
    if fed == [] then []
    else AddBatch(Delivered(m, Front(fed)), LastTurn(m, fed).batch)
  }

  /** Errors drained into replies, in order. */
  function Drained(m: Memory, fed: seq<Feed>): seq<Err> {
    if fed == [] then [] else Drained(m, Front(fed)) + LastTurn(m, fed).drained
  }

  function JobEvent(j: Job): seq<Event> { if j.EventJob? then [j.event] else [] }
  function InputJob(f: Feed): seq<Job> { if f.input.Take? then [f.input.job] else [] }
  function HandedBy(call: NextCall): seq<Event> {
    match call
    case WriteCall(e, _) => [e]
    case BatchCall(es, _) => es
    case _ => []
  }
  function WriteErr(call: NextCall): seq<Err> {
    if call.WriteCall? && call.r.Some? then [call.r.value] else []
  }

  function JobEvents(jobs: seq<Job>): seq<Event> { FlatMap(JobEvent, jobs) }

  /** The jobs among the inputs. */
  function Jobs(fed: seq<Feed>): seq<Job> { FlatMap(InputJob, fed) }

  /** The events `next` was handed by a list of calls. */
  function Handed(calls: seq<NextCall>): seq<Event> { FlatMap(HandedBy, calls) }

  /** The errors `next` answered single writes with. */
  function WriteErrs(calls: seq<NextCall>): seq<Err> { FlatMap(WriteErr, calls) }

  function Same(b: seq<Event>): seq<Event> { b }

  function Flatten(batches: seq<seq<Event>>): seq<Event> { FlatMap(Same, batches) }

  lemma {:induction false} HandedWriteCalls(es: seq<Event>, o: Outcomes)
    ensures Handed(WriteCalls(es, o)) == es
  {
    if es != [] {
      HandedWriteCalls(Front(es), o);
      FlatMapSnoc(HandedBy, WriteCalls(Front(es), o), WriteCall(Last(es), o.Write(|es| - 1)));
    }
  }

  // ---- AsyncSink ----

  /** AsyncSink's memory after a stream, and the turn its last job took. */
  function AsyncAfter(fed: seq<Feed>): AsyncMemory {
    if fed == [] then NewAsync
    else if Last(fed).input.Tick? then AsyncAfter(Front(fed))
    else WorkAsync(AsyncAfter(Front(fed)), Last(fed).input.job, Last(fed).o).0
  }

  lemma {:induction false} AsyncAfterIs(fed: seq<Feed>)
    ensures After(Async(NewAsync), fed) == Async(AsyncAfter(fed))
  {
    if fed != [] { AsyncAfterIs(Front(fed)); }
  }

  /** The calls of one turn: one write for an event, none for a flush or close. */
  lemma AsyncTurnCalls(m: AsyncMemory, job: Job, o: Outcomes)
    ensures var t := WorkAsync(m, job, o).1;
            && Handed(t.calls) == JobEvent(job)
            && WriteErrs(t.calls) == if job.EventJob? && o.Write(0).Some? then [o.Write(0).value] else []
  {
    match job {
      case EventJob(_, e) =>
        FlatMapOne(HandedBy, WriteCall(e, o.Write(0)));
        FlatMapOne(WriteErr, WriteCall(e, o.Write(0)));
      case _ =>
        FlatMapOne(HandedBy, SyncCall(o.sync));
        FlatMapOne(WriteErr, SyncCall(o.sync));
        FlatMapSnoc(HandedBy, [SyncCall(o.sync)], CloseCall(o.close));
        FlatMapSnoc(WriteErr, [SyncCall(o.sync)], CloseCall(o.close));
        assert [SyncCall(o.sync)] + [CloseCall(o.close)] == [SyncCall(o.sync), CloseCall(o.close)];
    }
  }

  /** The last turn of a stream, seen from the streams before and after it. */
  lemma AsyncStep(fed: seq<Feed>)
    requires fed != []
    ensures var t := LastTurn(Async(NewAsync), fed);
            && Handed(t.calls) == (if Last(fed).input.Take? then JobEvent(Last(fed).input.job) else [])
            && t.drained + AsyncAfter(fed).errs == AsyncAfter(Front(fed)).errs + WriteErrs(t.calls)
            && AsyncAfter(fed).writeErrors == AsyncAfter(Front(fed)).writeErrors + |WriteErrs(t.calls)|
  {
    AsyncAfterIs(Front(fed));
    if Last(fed).input.Take? { AsyncTurnCalls(AsyncAfter(Front(fed)), Last(fed).input.job, Last(fed).o); }
  }

  lemma JobEventsSnoc(fed: seq<Feed>)
    requires fed != []
    ensures JobEvents(Jobs(fed)) == JobEvents(Jobs(Front(fed))) + (if Last(fed).input.Take? then JobEvent(Last(fed).input.job) else [])
  {
    FlatMapConcat(JobEvent, Jobs(Front(fed)), InputJob(Last(fed)));
    if Last(fed).input.Take? { FlatMapOne(JobEvent, Last(fed).input.job); }
  }

  /** Every event of the stream reaches next.Write exactly once, in order. */
  lemma {:induction false} AsyncDeliversInOrder(fed: seq<Feed>)
    ensures Handed(Calls(Async(NewAsync), fed)) == JobEvents(Jobs(fed))
  {
    if fed != [] {
      AsyncDeliversInOrder(Front(fed));
      AsyncStep(fed);
      JobEventsSnoc(fed);
      FlatMapConcat(HandedBy, Calls(Async(NewAsync), Front(fed)), LastTurn(Async(NewAsync), fed).calls);
    }
  }

  lemma Regroup<T>(d: seq<T>, b: seq<T>, p1: seq<T>, p: seq<T>, t: seq<T>)
    requires b + p1 == p + t
    ensures (d + b) + p1 == (d + p) + t
  {
    assert (d + b) + p1 == d + (b + p1) == d + (p + t);
  }

  /** Every write error is in exactly one drained list or still held back, in order; the counter counts them. */
  lemma {:induction false} AsyncErrorConservation(fed: seq<Feed>)
    ensures Drained(Async(NewAsync), fed) + AsyncAfter(fed).errs == WriteErrs(Calls(Async(NewAsync), fed))
    ensures AsyncAfter(fed).writeErrors == |WriteErrs(Calls(Async(NewAsync), fed))|
  {
    if fed != [] {
      var m0, pre := Async(NewAsync), Front(fed);
      AsyncErrorConservation(pre);
      AsyncStep(fed);
      var t := LastTurn(m0, fed);
      FlatMapConcat(WriteErr, Calls(m0, pre), t.calls);
      Regroup(Drained(m0, pre), t.drained, AsyncAfter(fed).errs, AsyncAfter(pre).errs, WriteErrs(t.calls));
    }
  }

  predicate IsEvent(f: Feed) { f.input.Take? && f.input.job.EventJob? }
  predicate IsControl(f: Feed) { f.input.Take? && !f.input.job.EventJob? }

  /** No write since the last flush or close job of the stream failed. */
  ghost predicate CleanSinceDrain(fed: seq<Feed>) {
    forall j :: 0 <= j < |fed| && IsEvent(fed[j]) && (forall k :: j < k < |fed| ==> !IsControl(fed[k])) ==> fed[j].o.Write(0).None?
  }

  lemma {:induction false} AsyncHeldBack(fed: seq<Feed>)
    ensures AsyncAfter(fed).errs == [] <==> CleanSinceDrain(fed)
  {
    if fed != [] {
      var pre, n := Front(fed), |fed| - 1;
      AsyncHeldBack(pre);
      if IsControl(fed[n]) {
        assert CleanSinceDrain(fed);
      } else if !CleanSinceDrain(pre) {
        var j :| 0 <= j < |pre| && IsEvent(pre[j]) && (forall k :: j < k < |pre| ==> !IsControl(pre[k])) && pre[j].o.Write(0).Some?;
        forall k | j < k < |fed| ensures !IsControl(fed[k]) { if k < n { assert fed[k] == pre[k]; } }
        assert fed[j] == pre[j];
      } else {
        forall j | 0 <= j < n && IsEvent(fed[j]) && (forall k :: j < k < |fed| ==> !IsControl(fed[k]))
          ensures fed[j].o.Write(0).None?
        {
          forall k | j < k < |pre| ensures !IsControl(pre[k]) { assert fed[k] == pre[k]; }
          assert pre[j] == fed[j];
        }
      }
    }
  }

  /**
   The Sync barrier of AsyncSink: the reply to a flush is nil exactly when no write since the
   previous drain failed and next.Sync, called after all of them, succeeded; a close also needs
   next.Close. Drained write errors win over the errors of next.Sync and next.Close.
   */
  lemma {:induction false} AsyncBarrier(fed: seq<Feed>, f: Feed)
    requires IsControl(f)
    ensures var t := LastTurn(Async(NewAsync), fed + [f]);
            && t.reply.Some?
            && (t.reply.value.None? <==>
                CleanSinceDrain(fed) && f.o.sync.None? && (f.input.job.CloseJob? ==> f.o.close.None?))
            && t.drained == AsyncAfter(fed).errs
            && (t.drained != [] ==> t.reply.value == Some(Joined(t.drained)))
            && (t.drained == [] && f.o.sync.Some? ==> t.reply.value == f.o.sync)
            && (t.drained == [] && f.o.sync.None? && f.input.job.CloseJob? ==> t.reply.value == f.o.close)
            && t.calls == [SyncCall(f.o.sync)] + if f.input.job.CloseJob? then [CloseCall(f.o.close)] else []
  {
    AsyncAfterIs(fed);
    AsyncHeldBack(fed);
    assert Front(fed + [f]) == fed && Last(fed + [f]) == f;
    var m := AsyncAfter(fed);
    FirstOfTwo(Join(m.errs), f.o.sync);
    FirstOfThree(Join(m.errs), f.o.sync, f.o.close);
  }

  // ---- BatchSink ----

  lemma FlushBatchEmpties(m: BatchMemory, o: Outcomes)
    ensures var m1 := FlushBatch(m, o); m1.pending == [] && m1.max == m.max && m1.batchWriter == m.batchWriter
  {
  }

  /** A full buffer is handed over in the turn that fills it. */
  lemma TurnKeepsBound(m: BatchMemory, i: Input, o: Outcomes)
    requires |m.pending| < m.max
    ensures var m1 := WorkBatch(m, i, o).0; |m1.pending| < m1.max == m.max && m1.batchWriter == m.batchWriter
  {
    match i {
      case Tick => FlushBatchEmpties(m, o);
      case Take(EventJob(_, e)) => FlushBatchEmpties(m.(pending := m.pending + [e]), o);
      case Take(FlushJob(_)) => FlushBatchEmpties(m.(flushes := m.flushes + 1), o);
      case Take(CloseJob(_)) => FlushBatchEmpties(m.(closes := m.closes + 1), o);
    }
  }

  /** BatchSink's memory after a stream. */
  function BatchAfter(max: nat, bw: bool, fed: seq<Feed>): (m: BatchMemory)
    requires max > 0
    ensures m.max == max && m.batchWriter == bw
    ensures |m.pending| < max
  {
    if fed == [] then NewBatch(max, bw)
    else
      var m := BatchAfter(max, bw, Front(fed));
      TurnKeepsBound(m, Last(fed).input, Last(fed).o);
      WorkBatch(m, Last(fed).input, Last(fed).o).0
  }

  lemma {:induction false} BatchAfterIs(max: nat, bw: bool, fed: seq<Feed>)
    requires max > 0
    ensures After(Batch(NewBatch(max, bw)), fed) == Batch(BatchAfter(max, bw, fed))
  {
    if fed != [] { BatchAfterIs(max, bw, Front(fed)); }
  }

  lemma HandedBatchCalls(m: BatchMemory, o: Outcomes)
    ensures Handed(BatchCalls(m, o)) == m.pending
  {
    HandedWriteCalls(m.pending, o);
    FlatMapOne(HandedBy, BatchCall(m.pending, o.Write(0)));
  }

  lemma HandedControlTail(calls: seq<NextCall>, sync: Result, close: Result)
    ensures Handed(calls + [SyncCall(sync)]) == Handed(calls)
    ensures Handed(calls + [SyncCall(sync), CloseCall(close)]) == Handed(calls)
  {
    FlatMapSnoc(HandedBy, calls, SyncCall(sync));
    FlatMapSnoc(HandedBy, calls + [SyncCall(sync)], CloseCall(close));
    assert calls + [SyncCall(sync)] + [CloseCall(close)] == calls + [SyncCall(sync), CloseCall(close)];
  }

  /** The calls of a turn hand `next` exactly its batch. */
  lemma BatchTurnHands(m: BatchMemory, i: Input, o: Outcomes)
    ensures Handed(WorkBatch(m, i, o).1.calls) == WorkBatch(m, i, o).1.batch
  {
    HandedBatchCalls(m, o);
    HandedControlTail(BatchCalls(m, o), o.sync, o.close);
    if i.Take? && i.job.EventJob? {
      HandedBatchCalls(m.(pending := m.pending + [i.job.event]), o);
    }
  }

  /** What a turn takes in is what it hands over or keeps. */
  lemma BatchTurnConserves(m: BatchMemory, i: Input, o: Outcomes)
    requires |m.pending| < m.max
    ensures var (m1, t) := WorkBatch(m, i, o);
            && t.batch + m1.pending == m.pending + (if i.Take? then JobEvent(i.job) else [])
            && |t.batch| <= m.max
            && (!i.Take? || !i.job.EventJob? ==> m1.pending == [])
            && m1.batches == m.batches + (if t.batch == [] then 0 else 1)
            && m1.flushed == m.flushed + (if t.batchErr.None? then (if m.batchWriter then 2 else 1) * |t.batch| else 0)
            && m1.writeErrors == m.writeErrors + (if m.batchWriter && t.batchErr.Some? then 1 else 0)
            && (t.batchErr.Some? ==> t.batch != [])
  {
  }

  /** The last turn of a stream, seen from the streams before and after it. */
  lemma BatchStep(max: nat, bw: bool, fed: seq<Feed>)
    requires max > 0 && fed != []
    ensures var t := LastTurn(Batch(NewBatch(max, bw)), fed);
            && Handed(t.calls) == t.batch
            && t.batch + BatchAfter(max, bw, fed).pending
               == BatchAfter(max, bw, Front(fed)).pending + (if Last(fed).input.Take? then JobEvent(Last(fed).input.job) else [])
            && |t.batch| <= max
  {
    var m := BatchAfter(max, bw, Front(fed));
    BatchAfterIs(max, bw, Front(fed));
    BatchTurnHands(m, Last(fed).input, Last(fed).o);
    BatchTurnConserves(m, Last(fed).input, Last(fed).o);
  }

  lemma FlattenAdd(d: seq<seq<Event>>, batch: seq<Event>)
    ensures Flatten(AddBatch(d, batch)) == Flatten(d) + batch
  {
    FlatMapSnoc(Same, d, batch);
  }

  /** `next` was handed exactly the delivered batches, in order; every batch has 1..max events. */
  lemma {:induction false} BatchHandsBatches(max: nat, bw: bool, fed: seq<Feed>)
    requires max > 0
    ensures Handed(Calls(Batch(NewBatch(max, bw)), fed)) == Flatten(Delivered(Batch(NewBatch(max, bw)), fed))
    ensures forall batch <- Delivered(Batch(NewBatch(max, bw)), fed) :: 1 <= |batch| <= max
  {
    if fed != [] {
      var m0 := Batch(NewBatch(max, bw));
      BatchHandsBatches(max, bw, Front(fed));
      BatchStep(max, bw, fed);
      var t := LastTurn(m0, fed);
      FlatMapConcat(HandedBy, Calls(m0, Front(fed)), t.calls);
      FlattenAdd(Delivered(m0, Front(fed)), t.batch);
      calc {
        Handed(Calls(m0, fed));
        Handed(Calls(m0, Front(fed))) + Handed(t.calls);
        Flatten(Delivered(m0, Front(fed))) + t.batch;
        Flatten(Delivered(m0, fed));
      }
    }
  }

  /**
   BatchSink refines the one-at-a-time FIFO, for any mix of ticks, size triggers, flushes and closes:
   delivered batches followed by the pending batch are the events taken in so far.
   */
  lemma {:induction false} BatchRefinesFifo(max: nat, bw: bool, fed: seq<Feed>)
    requires max > 0
    ensures Flatten(Delivered(Batch(NewBatch(max, bw)), fed)) + BatchAfter(max, bw, fed).pending == JobEvents(Jobs(fed))
  {
    if fed != [] {
      var m0 := Batch(NewBatch(max, bw));
      BatchRefinesFifo(max, bw, Front(fed));
      BatchStep(max, bw, fed);
      JobEventsSnoc(fed);
      var t, d := LastTurn(m0, fed), Delivered(m0, Front(fed));
      FlattenAdd(d, t.batch);
      var taken := if Last(fed).input.Take? then JobEvent(Last(fed).input.job) else [];
      Regroup(Flatten(d), t.batch, BatchAfter(max, bw, fed).pending, BatchAfter(max, bw, Front(fed)).pending, taken);
    }
  }

  /** Events in batches that `next` took without an error. */
  function CleanEvents(m: Memory, fed: seq<Feed>): nat {
    if fed == [] then 0
    else CleanEvents(m, Front(fed)) + (if LastTurn(m, fed).batchErr.None? then |LastTurn(m, fed).batch| else 0)
  }

  /** Batches that `next` answered with an error. */
  function FailedBatches(m: Memory, fed: seq<Feed>): nat {
    if fed == [] then 0 else FailedBatches(m, Front(fed)) + (if LastTurn(m, fed).batchErr.Some? then 1 else 0)
  }

  /**
   Batches counts deliveries; Flushed counts each clean event once, but twice in the BatchWriter branch;
   WriteErrors counts failed batches in that branch, and stays zero in the other however many writes fail.
   */
  lemma {:induction false} BatchCounters(max: nat, bw: bool, fed: seq<Feed>)
    requires max > 0
    ensures BatchAfter(max, bw, fed).batches == |Delivered(Batch(NewBatch(max, bw)), fed)|
    ensures BatchAfter(max, bw, fed).flushed == (if bw then 2 else 1) * CleanEvents(Batch(NewBatch(max, bw)), fed)
    ensures BatchAfter(max, bw, fed).writeErrors == if bw then FailedBatches(Batch(NewBatch(max, bw)), fed) else 0
  {
    if fed != [] {
      BatchAfterIs(max, bw, Front(fed));
      BatchCounters(max, bw, Front(fed));
      BatchTurnConserves(BatchAfter(max, bw, Front(fed)), Last(fed).input, Last(fed).o);
    }
  }

  lemma {:induction false} WritesResultNone(n: nat, o: Outcomes)
    ensures WritesResult(n, o).None? <==> forall k :: 0 <= k < n ==> o.Write(k).None?
  {
    if n > 0 {
      WritesResultNone(n - 1, o);
      FirstOfTwo(WritesResult(n - 1, o), o.Write(n - 1));
    }
  }

  /** Write k is the first of the n that failed. */
  ghost predicate FailsFirst(n: nat, o: Outcomes, k: nat) {
    k < n && o.Write(k).Some? && forall j: nat :: j < k ==> o.Write(j).None?
  }

  lemma {:induction false} WritesResultFirst(n: nat, o: Outcomes) returns (k: nat)
    requires WritesResult(n, o).Some?
    ensures FailsFirst(n, o, k) && WritesResult(n, o) == o.Write(k)
  {
    FirstOfTwo(WritesResult(n - 1, o), o.Write(n - 1));
    if WritesResult(n - 1, o).Some? {
      k := WritesResultFirst(n - 1, o);
    } else {
      k := n - 1;
      WritesResultNone(n - 1, o);
    }
  }

  /** Writes it takes to hand the pending batch over. */
  function Width(m: BatchMemory): nat { if m.batchWriter && m.pending != [] then 1 else |m.pending| }

  /** `next` takes the pending batch without an error; an empty batch is not handed over at all. */
  ghost predicate BatchAccepted(m: BatchMemory, o: Outcomes) {
    forall k: nat :: k < Width(m) ==> o.Write(k).None?
  }

  /** A control turn hands over the pending batch, then calls next.Sync, and next.Close for a close job, whatever failed. */
  function ControlCalls(m: BatchMemory, f: Feed): seq<NextCall>
    requires IsControl(f)
  {
    BatchCalls(m, f.o) + [SyncCall(f.o.sync)] + if f.input.job.CloseJob? then [CloseCall(f.o.close)] else []
  }

  lemma BatchResultFirst(m: BatchMemory, o: Outcomes)
    ensures BatchResult(m, o).None? <==> BatchAccepted(m, o)
    ensures BatchResult(m, o).Some? ==> exists k: nat :: FailsFirst(Width(m), o, k) && BatchResult(m, o) == o.Write(k)
  {
    WritesResultNone(|m.pending|, o);
    if BatchResult(m, o).Some? {
      var k: nat;
      if m.batchWriter { k := 0; } else { k := WritesResultFirst(|m.pending|, o); }
      assert FailsFirst(Width(m), o, k);
    }
  }

  /** The error of a control turn: the first failed write of its batch wins over next.Sync, and that over next.Close. */
  ghost predicate FirstToFail(m: BatchMemory, f: Feed, r: Result)
    requires IsControl(f)
  {
    if !BatchAccepted(m, f.o) then exists k: nat :: FailsFirst(Width(m), f.o, k) && r == f.o.Write(k)
    else if f.o.sync.Some? then r == f.o.sync
    else if f.input.job.CloseJob? then r == f.o.close
    else r == None
  }

  /** The reply is nil exactly when the final partial batch and next.Sync (and next.Close) succeeded. */
  lemma BatchReply(m: BatchMemory, f: Feed)
    requires IsControl(f)
    ensures var t := WorkBatch(m, f.input, f.o).1;
            && t.reply.Some?
            && t.batch == m.pending && t.calls == ControlCalls(m, f)
            && FirstToFail(m, f, t.reply.value)
            && (t.reply.value.None? <==>
                BatchAccepted(m, f.o) && f.o.sync.None? && (f.input.job.CloseJob? ==> f.o.close.None?))
  {
    BatchResultFirst(m, f.o);
    var r := BatchResult(m, f.o);
    FirstOfTwo(r, f.o.sync);
    FirstOfThree(r, f.o.sync, f.o.close);
  }

  /** Flushing and closing leave nothing pending. */
  lemma BatchEmptied(max: nat, bw: bool, fed: seq<Feed>)
    requires max > 0 && fed != [] && !IsEvent(Last(fed))
    ensures BatchAfter(max, bw, fed).pending == []
  {
    BatchTurnConserves(BatchAfter(max, bw, Front(fed)), Last(fed).input, Last(fed).o);
  }

  /** By the time a flush or close is answered, every earlier event has been handed to `next`, exactly once. */
  lemma BatchFlushesAll(max: nat, bw: bool, fed: seq<Feed>)
    requires max > 0 && fed != [] && !IsEvent(Last(fed))
    ensures Handed(Calls(Batch(NewBatch(max, bw)), fed)) == JobEvents(Jobs(fed))
  {
    BatchEmptied(max, bw, fed);
    BatchRefinesFifo(max, bw, fed);
    BatchHandsBatches(max, bw, fed);
  }

  /**
   What a nil reply of BatchSink adds: only the final partial batch and next.Sync (and next.Close)
   are known to have succeeded.
   */
  lemma BatchBarrier(max: nat, bw: bool, fed: seq<Feed>, f: Feed)
    requires max > 0 && IsControl(f)
    ensures var t := LastTurn(Batch(NewBatch(max, bw)), fed + [f]);
            && t.reply.Some?
            && t.calls == ControlCalls(BatchAfter(max, bw, fed), f)
            && FirstToFail(BatchAfter(max, bw, fed), f, t.reply.value)
            && (t.reply.value.None? <==>
                && BatchAccepted(BatchAfter(max, bw, fed), f.o) && f.o.sync.None?
                && (f.input.job.CloseJob? ==> f.o.close.None?))
  {
    assert Front(fed + [f]) == fed && Last(fed + [f]) == f;
    BatchAfterIs(max, bw, fed);
    BatchReply(BatchAfter(max, bw, fed), f);
  }

  // ---- one more input, for the imperative workers ----

  lemma AsyncSnoc(pre: seq<Feed>, f: Feed)
    requires f.input.Take?
    ensures var (m, t) := WorkAsync(AsyncAfter(pre), f.input.job, f.o);
            AsyncAfter(pre + [f]) == m && Calls(Async(NewAsync), pre + [f]) == Calls(Async(NewAsync), pre) + t.calls
  {
    AsyncAfterIs(pre);
    assert Front(pre + [f]) == pre && Last(pre + [f]) == f;
  }

  lemma BatchSnoc(max: nat, bw: bool, pre: seq<Feed>, f: Feed)
    requires max > 0
    ensures var m0 := Batch(NewBatch(max, bw)); var (m, t) := WorkBatch(BatchAfter(max, bw, pre), f.input, f.o);
            && BatchAfter(max, bw, pre + [f]) == m
            && Calls(m0, pre + [f]) == Calls(m0, pre) + t.calls
            && Delivered(m0, pre + [f]) == AddBatch(Delivered(m0, pre), t.batch)
  {
    BatchAfterIs(max, bw, pre);
    assert Front(pre + [f]) == pre && Last(pre + [f]) == f;
  }
}
