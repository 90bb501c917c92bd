/** BatchSink's worker with its reused batch buffer: a fixed array and a length, cut back to zero at every flush. */
module BatchSinkState {
  import opened Basics
  import opened Seqs
  import opened Worker

  datatype Options = Options(maxBatchSize: int, flushInterval: int, maxQueueSize: int, policy: OverflowPolicy)

  predicate IsClose(f: Feed) { f.input.Take? && f.input.job.CloseJob? }

  /** Slices other than the buffer, each holding what it was delivered with. */
  ghost predicate SlicesKept(buffer: array<Event>, slices: seq<array<Event>>, contents: seq<seq<Event>>)
    reads set a | a in slices
  {
    |slices| == |contents| && forall i :: 0 <= i < |slices| ==> slices[i] != buffer && slices[i][..] == contents[i]
  }

  class BatchWorker {
    const max: nat
    const interval: nat               // nanoseconds between ticks
    const queueSize: nat
    const policy: OverflowPolicy
    const batchWriter: bool           // `next` implements BatchWriter
    const batch: array<Event>         // the buffer; batch[..len] is pending
    var len: nat
    var batches: nat
    var flushed: nat
    var writeErrors: nat
    var flushes: nat
    var closes: nat
    ghost var calls: seq<NextCall>
    ghost var handed: seq<array<Event>>     // the slices given to `next`
    ghost var delivered: seq<seq<Event>>    // what they held when they were given
    ghost var fed: seq<Feed>                // every tick and job handled, with the answers of `next`

    /** The buffer is never one of the delivered slices, and those still hold what was delivered. */
    ghost predicate BufferOk()
      reads this, batch, set a | a in handed
    {
      && 0 < max == batch.Length && len < max
      && SlicesKept(batch, handed, delivered)
    }

    function Memory(): BatchMemory
      requires len <= batch.Length
      reads this, batch
    {
      BatchMemory(max, batchWriter, batch[..len], batches, flushed, writeErrors, flushes, closes)
    }

    /** The whole state after a turn that started in m, with the calls and deliveries made before it. */
    ghost predicate Took(m: BatchMemory, i: Input, o: Outcomes, before: seq<NextCall>, deliveredBefore: seq<seq<Event>>)
      reads this, batch, set a | a in handed
    {
      var (m1, t) := WorkBatch(m, i, o);
      BufferOk() && Memory() == m1 && calls == before + t.calls && delivered == AddBatch(deliveredBefore, t.batch)
    }

    /** The whole state is that after the inputs handled so far. */
    ghost predicate Valid()
      reads this, batch, set a | a in handed
    {
      && BufferOk() && Memory() == BatchAfter(max, batchWriter, fed)
      && calls == Calls(Batch(NewBatch(max, batchWriter)), fed)
      && delivered == Delivered(Batch(NewBatch(max, batchWriter)), fed)
    }

    /** NewBatchSink's defaults, and the buffer made when the worker starts. */
    constructor (opts: Options, batchWriter: bool)
      ensures Valid() && batchWriter == this.batchWriter && fed == []
      ensures max == if opts.maxBatchSize <= 0 then 100 else opts.maxBatchSize
      ensures interval == if opts.flushInterval <= 0 then 1000000000 else opts.flushInterval
      ensures queueSize == if opts.maxQueueSize <= 0 then max * 4 else opts.maxQueueSize
      ensures policy == if opts.policy == Block then Block else DropNewest
    {
      var m, t, q, p := opts.maxBatchSize, opts.flushInterval, opts.maxQueueSize, opts.policy;
      if m <= 0 { m := 100; }
      if t <= 0 { t := 1000000000; }
      if q <= 0 { q := m * 4; }
      if p != Block && p != DropNewest { p := DropNewest; }
      max, interval, queueSize, policy := m, t, q, p;
      this.batchWriter := batchWriter;
      batch := new Event[m](_ => Event(0, ""));
      len, batches, flushed, writeErrors, flushes, closes := 0, 0, 0, 0, 0, 0;
      calls, handed, delivered, fed := [], [], [], [];
    }

    /** The plain branch: one next.Write per event, keeping the first error. */
    method WriteEach(toFlush: array<Event>, o: Outcomes) returns (err: Result)
      modifies this`calls
      ensures err == WritesResult(toFlush.Length, o)
      ensures calls == old(calls) + WriteCalls(toFlush[..], o)
    {
      err := None;
      var i := 0;
      while i < toFlush.Length
        invariant i <= toFlush.Length
        invariant err == WritesResult(i, o)
        invariant calls == old(calls) + WriteCalls(toFlush[..i], o)
      {
        assert Front(toFlush[..i + 1]) == toFlush[..i];
        var e := o.Write(i);
        calls := calls + [WriteCall(toFlush[i], e)];
        FirstOfTwo(err, e);
        if e.Some? {
          err := JoinErrors([err, e]);
        }
        i := i + 1;
      }
      assert toFlush[..i] == toFlush[..];
    }

    /** What flushBatch does with its copy: hand it to `next` in one call or event by event, and count. */
    method HandOver(toFlush: array<Event>, o: Outcomes) returns (err: Result)
      requires toFlush.Length > 0
      modifies this`flushed, this`writeErrors, this`calls
      ensures var m := BatchMemory(max, batchWriter, toFlush[..], 0, 0, 0, 0, 0);
              err == BatchResult(m, o) && calls == old(calls) + BatchCalls(m, o)
      ensures flushed == old(flushed) + if err.Some? then 0 else if batchWriter then toFlush.Length + toFlush.Length else toFlush.Length
      ensures writeErrors == old(writeErrors) + if err.Some? && batchWriter then 1 else 0
    {
      if batchWriter {
        err := o.Write(0);
        calls := calls + [BatchCall(toFlush[..], err)];
        if err.None? {
          flushed := flushed + toFlush.Length;
        } else {
          writeErrors := writeErrors + 1;
        }
      } else {
        err := WriteEach(toFlush, o);
      }
      if err.None? {
        flushed := flushed + toFlush.Length;
      }
    }

    /** flushBatch: copy the pending events out, cut the buffer back, hand the copy over. */
    method FlushBatch(o: Outcomes) returns (err: Result)
      requires 0 < max == batch.Length && len <= max
      requires SlicesKept(batch, handed, delivered)
      modifies this`len, this`batches, this`flushed, this`writeErrors, this`calls, this`handed, this`delivered
      ensures BufferOk() && Memory() == Worker.FlushBatch(old(Memory()), o)
      ensures err == BatchResult(old(Memory()), o)
      ensures calls == old(calls) + BatchCalls(old(Memory()), o)
      ensures delivered == AddBatch(old(delivered), old(batch[..len]))
    {
      if len == 0 { return None; }
      var toFlush := new Event[len](i requires 0 <= i < len <= batch.Length reads this, batch => batch[i]);
      assert toFlush[..] == batch[..len];
      len := 0;
      handed, delivered := handed + [toFlush], delivered + [toFlush[..]];
      batches := batches + 1;
      err := HandOver(toFlush, o);
    }

    /** batch = append(batch, event), with the size trigger. */
    method Append(job: Job, o: Outcomes)
      requires BufferOk() && job.EventJob?
      modifies this`len, this`batches, this`flushed, this`writeErrors, this`calls, this`handed, this`delivered, batch
      ensures Took(old(Memory()), Take(job), o, old(calls), old(delivered))
    {
      ghost var m := Memory();
      batch[len] := job.event;
      len := len + 1;
      assert batch[..len] == m.pending + [job.event];
      if len >= max {
        var _ := FlushBatch(o);
      }
    }

    method OnFlush(job: Job, o: Outcomes) returns (err: Result)
      requires BufferOk() && job.FlushJob?
      modifies this`len, this`batches, this`flushed, this`writeErrors, this`flushes, this`calls, this`handed, this`delivered
      ensures Took(old(Memory()), Take(job), o, old(calls), old(delivered))
      ensures WorkBatch(old(Memory()), Take(job), o).1.reply == Some(err)
    {
      hide Worker.FlushBatch, BatchResult, BatchCalls, SlicesKept;
      flushes := flushes + 1;
      ghost var m := Memory();
      SameBatch(old(Memory()), m, o);
      err := FlushBatch(o);
      calls := calls + [SyncCall(o.sync)];
      Assoc(old(calls), BatchCalls(m, o), [SyncCall(o.sync)]);
      err := JoinErrors([err, o.sync]);
    }

    method OnClose(job: Job, o: Outcomes) returns (err: Result)
      requires BufferOk() && job.CloseJob?
      modifies this`len, this`batches, this`flushed, this`writeErrors, this`closes, this`calls, this`handed, this`delivered
      ensures Took(old(Memory()), Take(job), o, old(calls), old(delivered))
      ensures WorkBatch(old(Memory()), Take(job), o).1.reply == Some(err)
    {
      hide Worker.FlushBatch, BatchResult, BatchCalls, SlicesKept;
      closes := closes + 1;
      ghost var m := Memory();
      SameBatch(old(Memory()), m, o);
      err := FlushBatch(o);
      calls := calls + [SyncCall(o.sync), CloseCall(o.close)];
      Assoc(old(calls), BatchCalls(m, o), [SyncCall(o.sync), CloseCall(o.close)]);
      err := JoinErrors([err, o.sync, o.close]);
    }

    /** One pass of the worker's loop: a tick, or a job. */
    method Step(i: Input, o: Outcomes) returns (reply: Option<Result>)
      requires BufferOk()
      modifies this`len, this`batches, this`flushed, this`writeErrors, this`flushes, this`closes, this`calls, this`handed, this`delivered, batch
      ensures Took(old(Memory()), i, o, old(calls), old(delivered))
      ensures reply == WorkBatch(old(Memory()), i, o).1.reply
    {
      if i.Tick? {
        var _ := FlushBatch(o);
        return None;
      }
      if i.job.EventJob? {
        Append(i.job, o);
        return None;
      }
      if i.job.FlushJob? {
        var err := OnFlush(i.job, o);
        return Some(err);
      }
      var err := OnClose(i.job, o);
      return Some(err);
    }

    /** One more tick or job. */
    method Pass(f: Feed)
      requires Valid()
      modifies this, batch
      ensures Valid() && fed == old(fed) + [f]
    {
      BatchSnoc(max, batchWriter, fed, f);
      fed := fed + [f];
      var reply := Step(f.input, f.o);
    }

    /** The first n inputs of feed have been handled, and nothing else. */
    ghost predicate Handled(feed: seq<Feed>, n: nat)
      reads this, batch, set a | a in handed
    {
      n <= |feed| && Valid() && fed == feed[..n]
    }

    method PassAt(feed: seq<Feed>, n: nat)
      requires Handled(feed, n) && n < |feed|
      modifies this, batch
      ensures Handled(feed, n + 1)
    {
      Pass(feed[n]);
      assert feed[..n] + [feed[n]] == feed[..n + 1];
    }

    /** run: whatever ticks and jobs come, in whatever order, up to and including the first close job. */
    method Run(feed: seq<Feed>) returns (n: nat)
      requires Handled(feed, 0)
      modifies this, batch
      ensures n <= |feed| && (forall k :: 0 <= k < n - 1 ==> !IsClose(feed[k]))
      ensures n == |feed| || (n > 0 && IsClose(feed[n - 1]))
      ensures Handled(feed, n)
    {
      hide *;
      n := 0;
      while n < |feed|
        invariant n <= |feed| && Handled(feed, n)
        invariant forall k :: 0 <= k < n ==> !IsClose(feed[k])
      {
        PassAt(feed, n);
        n := n + 1;
        if IsClose(feed[n - 1]) { return; }
      }
    }
  }
}
