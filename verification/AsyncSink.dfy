/** AsyncSink's own state: each critical section of its methods, and the worker's loop, proved against the functions the protocol is built from. */
module AsyncSinkState {
  import opened Basics
  import opened Seqs
  import opened Worker
  import Protocol

  /** The case of the blocking select that goes ahead, when several could: room in the channel, a cancelled context, a stopped worker. */
  datatype Pick = Room | Cancelled(err: Err) | Stopped

  /** Jobs with the answers `next` gives to each. */
  function Feeds(js: seq<Job>, os: nat -> Outcomes): seq<Feed> {
    seq(|js|, k requires 0 <= k < |js| => Feed(Take(js[k]), os(k)))
  }

  lemma FeedsSnoc(pre: seq<Feed>, js: seq<Job>, n: nat, os: nat -> Outcomes)
    requires n < |js|
    ensures pre + Feeds(js[..n + 1], os) == pre + Feeds(js[..n], os) + [Feed(Take(js[n]), os(n))]
  {
  }

  /** Taking the first job of the channel keeps handled jobs and channel together all jobs sent. */
  lemma TakeFirst(fed: seq<Feed>, jobs: seq<Job>, o: Outcomes)
    requires jobs != []
    ensures Jobs(fed + [Feed(Take(jobs[0]), o)]) + jobs[1..] == Jobs(fed) + jobs
  {
    FlatMapSnoc(InputJob, fed, Feed(Take(jobs[0]), o));
    assert jobs == [jobs[0]] + jobs[1..];
  }

  class AsyncSink {
    const bufferSize: nat
    const policy: OverflowPolicy
    var jobs: seq<Job>
    var closing: bool
    var closed: bool
    var done: bool
    var workerErrs: seq<Err>
    var enqueued: nat
    var dropped: nat
    var writeErrors: nat
    var flushes: nat
    var closes: nat
    ghost var calls: seq<NextCall>   // every call made on `next`

    ghost var sent: seq<Job>         // every job ever put into the channel
    ghost var fed: seq<Feed>         // every job the worker has handled, with the answers of `next`

    function Flags(): Protocol.Flags reads this { Protocol.Flags(closing, closed) }
    function Memory(): AsyncMemory reads `workerErrs, `writeErrors, `flushes, `closes { AsyncMemory(workerErrs, writeErrors, flushes, closes) }

    /** The memory and the calls are those of the handled jobs; handled jobs, then the channel, are all jobs sent; Enqueued counts them. */
    ghost predicate Valid() reads `jobs, `workerErrs, `writeErrors, `flushes, `closes, `enqueued, `calls, `sent, `fed {
      && 0 < bufferSize && |jobs| <= bufferSize
      && Memory() == AsyncAfter(fed) && calls == Calls(Async(NewAsync), fed)
      && Jobs(fed) + jobs == sent && enqueued == |sent|
    }

    /** NewAsyncSink: defaults for a non-positive buffer and an unknown policy. */
    constructor (bufferSize: int, policy: OverflowPolicy)
      ensures this.bufferSize == (if bufferSize <= 0 then 256 else bufferSize)
      ensures this.policy == (if policy.Unknown? then DropNewest else policy)
      ensures Valid() && Flags() == Protocol.Flags(false, false) && !done
      ensures sent == [] && fed == [] && dropped == 0
    {
      var size := bufferSize;
      if size <= 0 { size := 256; }
      var p := policy;
      if p != Block && p != DropNewest { p := DropNewest; }
      this.bufferSize := size;
      this.policy := p;
      jobs, calls, workerErrs, sent, fed := [], [], [], [], [];
      closing, closed, done := false, false, false;
      enqueued, dropped, writeErrors, flushes, closes := 0, 0, 0, 0, 0;
    }

    /** Close's first critical section. */
    method EnterClose() returns (verdict: Protocol.Verdict)
      modifies this`closing
      ensures (Flags(), verdict) == Protocol.EnterClose(old(Flags()))
      ensures verdict == if old(closed) then Protocol.AlreadyClosed else if old(closing) then Protocol.Join else Protocol.Own
      ensures closing == (old(closing) || verdict == Protocol.Own)
    {
      if closed { return Protocol.AlreadyClosed; }
      if closing { return Protocol.Join; }
      closing := true;
      return Protocol.Own;
    }

    /** Close's rollback after a failed enqueue. */
    method Reopen()
      modifies this`closing
      ensures Flags() == Protocol.Reopen(old(Flags())) && !closing
    {
      closing := false;
    }

    /** enqueue's flag checks. */
    method Admit(job: Job) returns (r: Result)
      ensures r == Protocol.Admit(Flags(), !job.EventJob?)
      ensures r == if closed || (closing && job.EventJob?) then Some(SinkClosed) else None
    {
      var wasClosing, wasClosed := closing, closed;
      var isControlJob := job.FlushJob? || job.CloseJob?;
      if wasClosed { return Some(SinkClosed); }
      if wasClosing && !isControlJob { return Some(SinkClosed); }
      return None;
    }

    /** The send case of either select, with its counter. */
    method Send(job: Job)
      requires Valid() && |jobs| < bufferSize
      modifies this`jobs, this`enqueued, this`sent
      ensures Valid() && sent == old(sent) + [job] && jobs == old(jobs) + [job] && enqueued == old(enqueued) + 1
    {
      jobs := jobs + [job];
      enqueued := enqueued + 1;
      sent := sent + [job];
    }

    /** Which case of the blocking select goes ahead. */
    predicate Possible(pick: Pick) reads this {
      match pick
      case Room => |jobs| < bufferSize
      case Cancelled(_) => true
      case Stopped => done
    }

    function Admission(job: Job): Result reads this { Protocol.Admit(Flags(), !job.EventJob?) }

    /** enqueue: nil is exactly one send or, without force and with a full channel, one drop; an error is neither. */
    method Enqueue(job: Job, force: bool, pick: Pick) returns (r: Result)
      requires Valid() && ((force || policy == Block) && Admission(job).None? ==> Possible(pick))
      modifies this`jobs, this`enqueued, this`dropped, this`sent
      ensures Valid()
      ensures r == if Admission(job).Some? then Admission(job)
                   else if !(force || policy == Block) || pick.Room? then None
                   else if pick.Cancelled? then Some(pick.err) else Some(SinkClosed)
      ensures sent == if r.None? && |old(jobs)| < bufferSize then old(sent) + [job] else old(sent)
      ensures dropped == if r.None? && |old(jobs)| >= bufferSize then old(dropped) + 1 else old(dropped)
    {
      r := Admit(job);
      if r.Some? { return; }
      if force || policy == Block {
        match pick {
          case Room => Send(job);
          case Cancelled(err) => return Some(err);
          case Stopped => return Some(SinkClosed);
        }
        return None;
      }
      if |jobs| < bufferSize {
        Send(job);
      } else {
        dropped := dropped + 1;
      }
      return None;
    }

    method RecordWorkerError(err: Result)
      modifies this`writeErrors, this`workerErrs
      ensures err.None? ==> Memory() == old(Memory())
      ensures err.Some? ==> Memory() == old(Memory()).(errs := old(workerErrs) + [err.value], writeErrors := old(writeErrors) + 1)
    {
      if err.None? { return; }
      writeErrors := writeErrors + 1;
      workerErrs := workerErrs + [err.value];
    }

    method DrainWorkerErrors() returns (r: Result)
      modifies this`workerErrs
      ensures r == Join(old(workerErrs)) && workerErrs == []
    {
      if |workerErrs| == 0 { return None; }
      r := Some(Joined(workerErrs));
      workerErrs := [];
    }

    /** One pass of the worker's loop. */
    method Step(job: Job, o: Outcomes) returns (reply: Option<Result>)
      modifies this`workerErrs, this`writeErrors, this`flushes, this`closes, this`calls
      ensures Memory() == WorkAsync(old(Memory()), job, o).0
      ensures calls == old(calls) + WorkAsync(old(Memory()), job, o).1.calls
      ensures reply == WorkAsync(old(Memory()), job, o).1.reply
    {
      match job {
        case EventJob(_, e) =>
          var err := o.Write(0);
          calls := calls + [WriteCall(e, err)];
          if err.Some? { RecordWorkerError(err); }
          return None;
        case FlushJob(_) =>
          flushes := flushes + 1;
          var drained := DrainWorkerErrors();
          calls := calls + [SyncCall(o.sync)];
          var err := JoinErrors([drained, o.sync]);
          return Some(err);
        case CloseJob(_) =>
          closes := closes + 1;
          var drained := DrainWorkerErrors();
          calls := calls + [SyncCall(o.sync), CloseCall(o.close)];
          var err := JoinErrors([drained, o.sync, o.close]);
          return Some(err);
      }
    }

    /** The loop takes the next job out of the channel and handles it. */
    method Pass(o: Outcomes) returns (job: Job)
      requires Valid() && jobs != []
      modifies this`jobs, this`workerErrs, this`writeErrors, this`flushes, this`closes, this`calls, this`fed
      ensures Valid() && job == old(jobs[0]) && jobs == old(jobs[1..]) && fed == old(fed) + [Feed(Take(job), o)]
    {
      job := jobs[0];
      jobs := jobs[1..];
      ghost var pre := fed;
      AsyncSnoc(pre, Feed(Take(job), o));
      fed := pre + [Feed(Take(job), o)];
      TakeFirst(pre, old(jobs), o);
      var reply := Step(job, o);
    }

    /** The loop over the channel, until it is empty or a close job has been handled: jobs come out in order and none is lost. */
    method Loop(os: nat -> Outcomes) returns (n: nat, closeHandled: bool)
      requires Valid()
      modifies this`jobs, this`workerErrs, this`writeErrors, this`flushes, this`closes, this`calls, this`fed
      ensures Valid() && n <= |old(jobs)| && jobs == old(jobs[n..]) && fed == old(fed) + Feeds(old(jobs[..n]), os)
      ensures forall k :: 0 <= k < n - 1 ==> !old(jobs[k]).CloseJob?
      ensures closeHandled <==> n > 0 && old(jobs[n - 1]).CloseJob?
      ensures closeHandled || jobs == []
    {
      ghost var all, pre := jobs, fed;
      n := 0;
      while jobs != []
        invariant Valid() && n <= |all| && jobs == all[n..] && fed == pre + Feeds(all[..n], os)
        invariant forall k :: 0 <= k < n ==> !all[k].CloseJob?
        decreases |jobs|
      {
        FeedsSnoc(pre, all, n, os);
        var job := Pass(os(n));
        n := n + 1;
        if job.CloseJob? { return n, true; }
      }
      closeHandled := false;
    }

    /** run: behind the close job nothing is taken, and the deferred calls change the flags and close done. */
    method Run(os: nat -> Outcomes) returns (n: nat)
      requires Valid()
      modifies this`jobs, this`workerErrs, this`writeErrors, this`flushes, this`closes, this`calls, this`fed, this`closing, this`closed, this`done
      ensures Valid() && n <= |old(jobs)| && jobs == old(jobs[n..]) && fed == old(fed) + Feeds(old(jobs[..n]), os)
      ensures forall k :: 0 <= k < n - 1 ==> !old(jobs[k]).CloseJob?
      ensures if n > 0 && old(jobs[n - 1]).CloseJob? then done && Flags() == Protocol.MarkShut(old(Flags()))
              else jobs == [] && done == old(done) && Flags() == old(Flags())
    {
      var closeHandled;
      n, closeHandled := Loop(os);
      if closeHandled {
        closed := true;
        closing := false;
        done := true;
      }
    }
  }
}
