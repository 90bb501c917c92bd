/**
 Which calls `next` gets, call by call: a BatchWriter one WriteBatch per batch, any other sink one Write per
 event, each with the answer of its own turn; and the counters that count jobs.
 */
module DownstreamCalls {
  import opened Basics
  import opened Seqs
  import opened Worker

  /** The calls that hand events over. */
  function HandsOver(call: NextCall): seq<NextCall> { if call.WriteCall? || call.BatchCall? then [call] else [] }

  function BatchOf(call: NextCall): seq<seq<Event>> { if call.BatchCall? then [call.events] else [] }
  function SingleOf(call: NextCall): seq<Event> { if call.WriteCall? then [call.event] else [] }

  /** How a batch goes over: in one call, or event by event, with the answers in order. */
  ghost predicate GoesOver(bw: bool, batch: seq<Event>, o: Outcomes, calls: seq<NextCall>) {
    if batch == [] then calls == []
    else if bw then |calls| == 1 && calls[0].BatchCall? && calls[0].events == batch && calls[0].r == o.Write(0)
    else |calls| == |batch| && forall i :: 0 <= i < |batch| ==>
           calls[i].WriteCall? && calls[i].event == batch[i] && calls[i].r == o.Write(i)
  }

  lemma {:induction false} WriteCallsOneByOne(es: seq<Event>, o: Outcomes)
    ensures GoesOver(false, es, o, WriteCalls(es, o)) && FlatMap(HandsOver, WriteCalls(es, o)) == WriteCalls(es, o)
  {
    if es != [] {
      WriteCallsOneByOne(Front(es), o);
      FlatMapSnoc(HandsOver, WriteCalls(Front(es), o), WriteCall(Last(es), o.Write(|es| - 1)));
    }
  }

  lemma BatchGoesOver(m: BatchMemory, o: Outcomes)
    ensures GoesOver(m.batchWriter, m.pending, o, BatchCalls(m, o)) && FlatMap(HandsOver, BatchCalls(m, o)) == BatchCalls(m, o)
  {
    WriteCallsOneByOne(m.pending, o);
    FlatMapOne(HandsOver, BatchCall(m.pending, o.Write(0)));
  }

  lemma ControlTail(calls: seq<NextCall>, sync: Result, close: Result)
    ensures FlatMap(HandsOver, calls + [SyncCall(sync)]) == FlatMap(HandsOver, calls)
    ensures FlatMap(HandsOver, calls + [SyncCall(sync), CloseCall(close)]) == FlatMap(HandsOver, calls)
  {
    FlatMapSnoc(HandsOver, calls, SyncCall(sync));
    FlatMapSnoc(HandsOver, calls + [SyncCall(sync)], CloseCall(close));
    assert calls + [SyncCall(sync)] + [CloseCall(close)] == calls + [SyncCall(sync), CloseCall(close)];
  }

  function Tail(i: Input, o: Outcomes): seq<NextCall> {
    if i.Tick? || i.job.EventJob? then []
    else if i.job.FlushJob? then [SyncCall(o.sync)]
    else [SyncCall(o.sync), CloseCall(o.close)]
  }

  /** Whose pending batch a turn hands over: with the event just taken in, or, short of max, nothing. */
  function Handing(m: BatchMemory, i: Input): BatchMemory {
    if !i.Take? || !i.job.EventJob? then m
    else if |m.pending| + 1 >= m.max then m.(pending := m.pending + [i.job.event])
    else m.(pending := [])
  }

  lemma TurnCalls(m: BatchMemory, i: Input, o: Outcomes)
    ensures var t := WorkBatch(m, i, o).1; var m0 := Handing(m, i);
            t.batch == m0.pending && m0.batchWriter == m.batchWriter && t.calls == BatchCalls(m0, o) + Tail(i, o)
  {
    assert BatchCalls(Handing(m, i), o) + [] == BatchCalls(Handing(m, i), o);
  }

  /** Every turn, tick or job, hands exactly its batch over, in the way of its sink. */
  lemma TurnGoesOver(m: BatchMemory, i: Input, o: Outcomes)
    ensures var t := WorkBatch(m, i, o).1; GoesOver(m.batchWriter, t.batch, o, FlatMap(HandsOver, t.calls))
  {
    hide WorkBatch, BatchCalls, GoesOver, Handing;
    var m0 := Handing(m, i);
    TurnCalls(m, i, o);
    BatchGoesOver(m0, o);
    ControlTail(BatchCalls(m0, o), o.sync, o.close);
    assert BatchCalls(m0, o) + [] == BatchCalls(m0, o);
  }

  lemma ThroughOne(call: NextCall)
    ensures FlatMap(BatchOf, HandsOver(call)) == BatchOf(call) && FlatMap(SingleOf, HandsOver(call)) == SingleOf(call)
  {
    FlatMapOne(BatchOf, call);
    FlatMapOne(SingleOf, call);
  }

  lemma FlatMapLast<A, B>(f: A -> seq<B>, s: seq<A>)
    requires s != []
    ensures FlatMap(f, s) == FlatMap(f, Front(s)) + f(Last(s))
  {
  }

  /** Sync and Close calls carry no events. */
  lemma {:induction false} OnlyHandingCalls(calls: seq<NextCall>)
    ensures FlatMap(BatchOf, calls) == FlatMap(BatchOf, FlatMap(HandsOver, calls))
    ensures FlatMap(SingleOf, calls) == FlatMap(SingleOf, FlatMap(HandsOver, calls))
  {
    if calls != [] {
      hide FlatMap, HandsOver, BatchOf, SingleOf;
      var over := FlatMap(HandsOver, Front(calls));
      OnlyHandingCalls(Front(calls));
      ThroughOne(Last(calls));
      FlatMapLast(HandsOver, calls);
      FlatMapLast(BatchOf, calls);
      FlatMapLast(SingleOf, calls);
      FlatMapConcat(BatchOf, over, HandsOver(Last(calls)));
      FlatMapConcat(SingleOf, over, HandsOver(Last(calls)));
    }
  }

  lemma {:induction false} HandingCallsKept(calls: seq<NextCall>)
    ensures forall call <- calls :: call.WriteCall? || call.BatchCall? ==> call in FlatMap(HandsOver, calls)
  {
    if calls != [] {
      HandingCallsKept(Front(calls));
      FlatMapLast(HandsOver, calls);
    }
  }

  lemma {:induction false} SinglesOf(es: seq<Event>, calls: seq<NextCall>)
    requires |calls| == |es| && forall i :: 0 <= i < |es| ==> calls[i].WriteCall? && calls[i].event == es[i]
    ensures FlatMap(SingleOf, calls) == es && FlatMap(BatchOf, calls) == []
  {
    if es != [] { SinglesOf(Front(es), Front(calls)); }
  }

  /** What one turn's calls hand over, and as what. */
  ghost predicate TurnShape(bw: bool, t: Turn) {
    && FlatMap(BatchOf, t.calls) == (if bw && t.batch != [] then [t.batch] else [])
    && FlatMap(SingleOf, t.calls) == (if bw then [] else t.batch)
    && forall call <- t.calls :: if bw then !call.WriteCall? else !call.BatchCall?
  }

  lemma OverShape(bw: bool, batch: seq<Event>, o: Outcomes, over: seq<NextCall>)
    requires GoesOver(bw, batch, o, over)
    ensures FlatMap(BatchOf, over) == (if bw && batch != [] then [batch] else [])
    ensures FlatMap(SingleOf, over) == (if bw then [] else batch)
    ensures forall call <- over :: if bw then !call.WriteCall? else !call.BatchCall?
  {
    if batch != [] {
      if bw {
        FlatMapOne(BatchOf, over[0]);
        FlatMapOne(SingleOf, over[0]);
        assert over == [over[0]];
      } else {
        SinglesOf(batch, over);
      }
    }
  }

  lemma TurnShapeHolds(m: BatchMemory, i: Input, o: Outcomes)
    ensures TurnShape(m.batchWriter, WorkBatch(m, i, o).1)
  {
    hide WorkBatch, GoesOver;
    var t := WorkBatch(m, i, o).1;
    TurnGoesOver(m, i, o);
    OnlyHandingCalls(t.calls);
    HandingCallsKept(t.calls);
    OverShape(m.batchWriter, t.batch, o, FlatMap(HandsOver, t.calls));
  }

  /**
   Over any stream: a BatchWriter is never called with Write, and its WriteBatch calls carry the delivered
   batches in order; any other sink is never called with WriteBatch, and its Write calls carry their events one by one.
   */
  lemma {:induction false} StreamCalls(max: nat, bw: bool, fed: seq<Feed>)
    requires max > 0
    ensures var m0 := Batch(NewBatch(max, bw)); var calls := Calls(m0, fed);
            && FlatMap(BatchOf, calls) == (if bw then Delivered(m0, fed) else [])
            && FlatMap(SingleOf, calls) == (if bw then [] else Flatten(Delivered(m0, fed)))
            && forall call <- calls :: if bw then !call.WriteCall? else !call.BatchCall?
  {
    if fed != [] {
      var m0, pre, f := Batch(NewBatch(max, bw)), Front(fed), Last(fed);
      StreamCalls(max, bw, pre);
      BatchAfterIs(max, bw, pre);
      TurnShapeHolds(BatchAfter(max, bw, pre), f.input, f.o);
      var t := LastTurn(m0, fed);
      FlatMapConcat(BatchOf, Calls(m0, pre), t.calls);
      FlatMapConcat(SingleOf, Calls(m0, pre), t.calls);
      FlattenAdd(Delivered(m0, pre), t.batch);
    }
  }

  // ---- counters ----

  function FlushOf(job: Job): seq<nat> { if job.FlushJob? then [job.c] else [] }
  function CloseOf(job: Job): seq<nat> { if job.CloseJob? then [job.c] else [] }

  lemma CountOne(fed: seq<Feed>)
    requires fed != []
    ensures var f := Last(fed);
            && |FlatMap(FlushOf, Jobs(fed))| == |FlatMap(FlushOf, Jobs(Front(fed)))| + (if f.input.Take? && f.input.job.FlushJob? then 1 else 0)
            && |FlatMap(CloseOf, Jobs(fed))| == |FlatMap(CloseOf, Jobs(Front(fed)))| + (if f.input.Take? && f.input.job.CloseJob? then 1 else 0)
  {
    var f := Last(fed);
    FlatMapConcat(FlushOf, Jobs(Front(fed)), InputJob(f));
    FlatMapConcat(CloseOf, Jobs(Front(fed)), InputJob(f));
    if f.input.Take? {
      FlatMapOne(FlushOf, f.input.job);
      FlatMapOne(CloseOf, f.input.job);
    }
  }

  /** Flushes and Closes count the flush and close jobs handled, in AsyncSink. */
  lemma {:induction false} AsyncJobCounters(fed: seq<Feed>)
    ensures AsyncAfter(fed).flushes == |FlatMap(FlushOf, Jobs(fed))| && AsyncAfter(fed).closes == |FlatMap(CloseOf, Jobs(fed))|
  {
    if fed != [] {
      AsyncJobCounters(Front(fed));
      CountOne(fed);
    }
  }

  /** And in BatchSink. */
  lemma {:induction false} BatchJobCounters(max: nat, bw: bool, fed: seq<Feed>)
    requires max > 0
    ensures BatchAfter(max, bw, fed).flushes == |FlatMap(FlushOf, Jobs(fed))|
    ensures BatchAfter(max, bw, fed).closes == |FlatMap(CloseOf, Jobs(fed))|
  {
    if fed != [] {
      BatchJobCounters(max, bw, Front(fed));
      CountOne(fed);
    }
  }
}
