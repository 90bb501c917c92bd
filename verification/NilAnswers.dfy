/**
 What a nil answer to Sync or Close says about the writes before it: for AsyncSink that none failed since
 the last flush or close, for BatchSink only under a condition on the jobs and ticks that came in.
 */
module NilAnswers {
  import opened Basics
  import opened Seqs
  import opened Worker

  function Inputs(fed: seq<Feed>): (ins: seq<Input>)
    ensures |ins| == |fed| && forall i :: 0 <= i < |fed| ==> ins[i] == fed[i].input
  {
    seq(|fed|, i requires 0 <= i < |fed| => fed[i].input)
  }

  /** Events that came in after the last control job. */
  function EventsSince(ins: seq<Input>): nat {
    if ins == [] then 0
    else match Last(ins)
         case Tick => EventsSince(Front(ins))
         case Take(job) => if job.EventJob? then EventsSince(Front(ins)) + 1 else 0
  }

  /** After the last control job came fewer than max events, and no tick behind any of them. */
  predicate Quiet(max: nat, ins: seq<Input>) {
    if ins == [] then true
    else match Last(ins)
         case Tick => Quiet(max, Front(ins)) && EventsSince(Front(ins)) == 0
         case Take(job) => !job.EventJob? || (Quiet(max, Front(ins)) && EventsSince(ins) < max)
  }

  /** `next` took every write of these calls. */
  predicate WritesOk(calls: seq<NextCall>) {
    forall call <- calls :: call.WriteCall? || call.BatchCall? ==> call.r.None?
  }

  /** Turn j came after the last control job of the stream. */
  ghost predicate SinceControl(fed: seq<Feed>, j: int) {
    0 <= j < |fed| && forall k :: j <= k < |fed| ==> !IsControl(fed[k])
  }

  /** Every write of the turns after the last control job succeeded. */
  ghost predicate WritesOkSince(m: Memory, fed: seq<Feed>) {
    forall j :: SinceControl(fed, j) ==> WritesOk(LastTurn(m, fed[..j + 1]).calls)
  }

  /** What AsyncSink's nil promises: whatever `next` answers, no write since the last control job has failed. */
  ghost predicate NilCoversWrites(m: Memory, ins: seq<Input>, job: Job) {
    forall fed: seq<Feed>, o: Outcomes ::
      Inputs(fed) == ins && LastTurn(m, fed + [Feed(Take(job), o)]).reply == Some(None) ==>
        WritesOkSince(m, fed) && WritesOk(LastTurn(m, fed + [Feed(Take(job), o)]).calls)
  }

  lemma WritesOkSnoc(calls: seq<NextCall>, call: NextCall)
    ensures WritesOk(calls + [call]) <==> WritesOk(calls) && (call.WriteCall? || call.BatchCall? ==> call.r.None?)
  {
    assert call in calls + [call];
  }

  lemma {:induction false} WriteCallsOk(es: seq<Event>, o: Outcomes)
    ensures WritesOk(WriteCalls(es, o)) <==> WritesResult(|es|, o).None?
  {
    if es != [] {
      WriteCallsOk(Front(es), o);
      FirstOfTwo(WritesResult(|es| - 1, o), o.Write(|es| - 1));
      var call := WriteCall(Last(es), o.Write(|es| - 1));
      assert WriteCalls(es, o) == WriteCalls(Front(es), o) + [call];
      WritesOkSnoc(WriteCalls(Front(es), o), call);
    }
  }

  lemma BatchCallsOk(m: BatchMemory, o: Outcomes)
    ensures WritesOk(BatchCalls(m, o)) <==> BatchResult(m, o).None?
  {
    WriteCallsOk(m.pending, o);
    WritesOkSnoc([], BatchCall(m.pending, o.Write(0)));
    assert [] + [BatchCall(m.pending, o.Write(0))] == [BatchCall(m.pending, o.Write(0))];
  }

  /** A turn's writes succeeded exactly when its batch has no error. */
  lemma TurnWritesOk(m: BatchMemory, i: Input, o: Outcomes)
    ensures WritesOk(WorkBatch(m, i, o).1.calls) <==> WorkBatch(m, i, o).1.batchErr.None?
  {
    BatchCallsOk(m, o);
    var calls := BatchCalls(m, o);
    WritesOkSnoc(calls, SyncCall(o.sync));
    WritesOkSnoc(calls + [SyncCall(o.sync)], CloseCall(o.close));
    assert calls + [SyncCall(o.sync)] + [CloseCall(o.close)] == calls + [SyncCall(o.sync), CloseCall(o.close)];
    if i.Take? && i.job.EventJob? { BatchCallsOk(m.(pending := m.pending + [i.job.event]), o); }
  }

  /** Turn j came after the last control job and handed a batch over. */
  ghost predicate HandsAt(m: Memory, fed: seq<Feed>, j: int) {
    SinceControl(fed, j) && LastTurn(m, fed[..j + 1]).batch != []
  }

  ghost predicate HandedSince(m: Memory, fed: seq<Feed>) { exists j :: HandsAt(m, fed, j) }

  lemma HandsAtSnoc(m: Memory, pre: seq<Feed>, f: Feed, j: int)
    requires 0 <= j < |pre|
    ensures HandsAt(m, pre + [f], j) <==> !IsControl(f) && HandsAt(m, pre, j)
  {
    var fed := pre + [f];
    assert fed[|pre|] == f && fed[..j + 1] == pre[..j + 1];
    if SinceControl(fed, j) { forall k | j <= k < |pre| ensures !IsControl(pre[k]) { assert fed[k] == pre[k]; } }
  }

  lemma HandedSinceSnoc(m: Memory, pre: seq<Feed>, f: Feed)
    ensures HandedSince(m, pre + [f]) <==> !IsControl(f) && (HandedSince(m, pre) || LastTurn(m, pre + [f]).batch != [])
  {
    var fed := pre + [f];
    forall j | 0 <= j < |pre| ensures HandsAt(m, fed, j) <==> !IsControl(f) && HandsAt(m, pre, j) { HandsAtSnoc(m, pre, f, j); }
    assert fed[..|pre| + 1] == fed && fed[|pre|] == f;
    assert HandsAt(m, fed, |pre|) <==> !IsControl(f) && LastTurn(m, fed).batch != [];
  }

  /** Between two control jobs a quiet stream keeps everything pending; any other one hands something over. */
  lemma {:induction false} HandedUnlessQuiet(max: nat, bw: bool, fed: seq<Feed>)
    requires max > 0
    ensures HandedSince(Batch(NewBatch(max, bw)), fed) <==> !Quiet(max, Inputs(fed))
    ensures Quiet(max, Inputs(fed)) ==> |BatchAfter(max, bw, fed).pending| == EventsSince(Inputs(fed))
  {
    if fed != [] {
      var pre, f := Front(fed), Last(fed);
      HandedUnlessQuiet(max, bw, pre);
      assert fed == pre + [f] && Front(Inputs(fed)) == Inputs(pre);
      HandedSinceSnoc(Batch(NewBatch(max, bw)), pre, f);
      BatchAfterIs(max, bw, pre);
      BatchTurnConserves(BatchAfter(max, bw, pre), f.input, f.o);
    }
  }

  /** Every answer an error. */
  function AllFailing(ins: seq<Input>): (fed: seq<Feed>)
    ensures Inputs(fed) == ins && forall i :: 0 <= i < |fed| ==> fed[i].o.Write(0).Some?
  {
    seq(|ins|, i requires 0 <= i < |ins| => Feed(ins[i], Outcomes([Some(SinkClosed)], None, None)))
  }

  /** A turn that hands a batch over to a failing `next`. */
  lemma FailingTurn(max: nat, bw: bool, fed: seq<Feed>)
    requires max > 0 && fed != [] && Last(fed).o.Write(0).Some?
    ensures WritesOk(LastTurn(Batch(NewBatch(max, bw)), fed).calls) <==> LastTurn(Batch(NewBatch(max, bw)), fed).batch == []
  {
    var m, f := BatchAfter(max, bw, Front(fed)), Last(fed);
    BatchAfterIs(max, bw, Front(fed));
    TurnWritesOk(m, f.input, f.o);
    BatchTurnConserves(m, f.input, f.o);
    forall n: nat | n > 0 ensures WritesResult(n, f.o).Some? { WritesResultNone(n, f.o); }
  }

  /** Without a batch handed over there is no failed write. */
  lemma QuietWritesOk(max: nat, bw: bool, fed: seq<Feed>)
    requires max > 0 && Quiet(max, Inputs(fed))
    ensures WritesOkSince(Batch(NewBatch(max, bw)), fed)
  {
    HandedUnlessQuiet(max, bw, fed);
    forall j | SinceControl(fed, j) ensures WritesOk(LastTurn(Batch(NewBatch(max, bw)), fed[..j + 1]).calls) {
      assert !HandsAt(Batch(NewBatch(max, bw)), fed, j);
      var upTo := fed[..j + 1];
      BatchAfterIs(max, bw, Front(upTo));
      TurnWritesOk(BatchAfter(max, bw, Front(upTo)), Last(upTo).input, Last(upTo).o);
      BatchTurnConserves(BatchAfter(max, bw, Front(upTo)), Last(upTo).input, Last(upTo).o);
    }
  }

  /** A nil reply covers the batch of its own turn. */
  lemma NilFinalBatch(max: nat, bw: bool, fed: seq<Feed>, f: Feed)
    requires max > 0 && IsControl(f) && LastTurn(Batch(NewBatch(max, bw)), fed + [f]).reply == Some(None)
    ensures WritesOk(LastTurn(Batch(NewBatch(max, bw)), fed + [f]).calls)
  {
    assert Front(fed + [f]) == fed && Last(fed + [f]) == f;
    BatchAfterIs(max, bw, fed);
    var m := BatchAfter(max, bw, fed);
    TurnWritesOk(m, f.input, f.o);
    FirstOfTwo(BatchResult(m, f.o), f.o.sync);
    FirstOfThree(BatchResult(m, f.o), f.o.sync, f.o.close);
  }

  lemma NotQuietFails(max: nat, bw: bool, ins: seq<Input>, job: Job)
    requires max > 0 && !job.EventJob? && !Quiet(max, ins)
    ensures !NilCoversWrites(Batch(NewBatch(max, bw)), ins, job)
  {
    var m0, fed, o := Batch(NewBatch(max, bw)), AllFailing(ins), Outcomes([], None, None);
    HandedUnlessQuiet(max, bw, fed);
    var j :| HandsAt(m0, fed, j);
    FailingTurn(max, bw, fed[..j + 1]);
    BatchBarrier(max, bw, fed, Feed(Take(job), o));
    assert !WritesOkSince(m0, fed);
    assert LastTurn(m0, fed + [Feed(Take(job), o)]).reply == Some(None);
  }

  /**
   A nil answer of BatchSink to a flush or close says that no write since the last control job failed
   exactly when, since then, fewer than max events came in and no tick met any of them.
   */
  lemma BatchNilCoversWritesIff(max: nat, bw: bool, ins: seq<Input>, job: Job)
    requires max > 0 && !job.EventJob?
    ensures NilCoversWrites(Batch(NewBatch(max, bw)), ins, job) <==> Quiet(max, ins)
  {
    var m0 := Batch(NewBatch(max, bw));
    if Quiet(max, ins) {
      forall fed: seq<Feed>, o: Outcomes | Inputs(fed) == ins && LastTurn(m0, fed + [Feed(Take(job), o)]).reply == Some(None)
        ensures WritesOkSince(m0, fed) && WritesOk(LastTurn(m0, fed + [Feed(Take(job), o)]).calls)
      {
        QuietWritesOk(max, bw, fed);
        NilFinalBatch(max, bw, fed, Feed(Take(job), o));
      }
    } else {
      NotQuietFails(max, bw, ins, job);
    }
  }

  /** AsyncSink's nil covers every write, on every stream. */
  lemma AsyncNilCoversWrites(ins: seq<Input>, job: Job)
    requires !job.EventJob?
    ensures NilCoversWrites(Async(NewAsync), ins, job)
  {
    var m0 := Async(NewAsync);
    forall fed: seq<Feed>, o: Outcomes | Inputs(fed) == ins && LastTurn(m0, fed + [Feed(Take(job), o)]).reply == Some(None)
      ensures WritesOkSince(m0, fed) && WritesOk(LastTurn(m0, fed + [Feed(Take(job), o)]).calls)
    {
      AsyncBarrier(fed, Feed(Take(job), o));
      forall j | SinceControl(fed, j) ensures WritesOk(LastTurn(m0, fed[..j + 1]).calls) {
        AsyncAfterIs(Front(fed[..j + 1]));
        assert Last(fed[..j + 1]) == fed[j];
        assert IsEvent(fed[j]) ==> fed[j].o.Write(0).None?;
      }
    }
  }

  /** A failed size-triggered batch leaves no trace in the next Sync: unlike AsyncSink, the error is lost. */
  lemma BatchLosesErrors(e: Event, c: nat, err: Err)
    ensures var fed := [Feed(Take(EventJob(c, e)), Outcomes([Some(err)], None, None))];
            var sync := Feed(Take(FlushJob(c)), Outcomes([], None, None));
            && Calls(Batch(NewBatch(1, false)), fed) == [WriteCall(e, Some(err))]
            && LastTurn(Batch(NewBatch(1, false)), fed + [sync]).reply == Some(None)
            && LastTurn(Async(NewAsync), fed + [sync]).reply == Some(Some(Joined([err])))
  {
    var bad := Outcomes([Some(err)], None, None);
    var fed := [Feed(Take(EventJob(c, e)), bad)];
    var sync := Feed(Take(FlushJob(c)), Outcomes([], None, None));
    assert Front(fed) == [];
    assert WriteCalls([e], bad) == [WriteCall(e, Some(err))] by { assert WriteCalls(Front([e]), bad) == []; }
    assert BatchAfter(1, false, fed).pending == [];
    BatchBarrier(1, false, fed, sync);
    AsyncAfterIs(fed);
    assert AsyncAfter(fed).errs == [err];
    AsyncBarrier(fed, sync);
  }
}
