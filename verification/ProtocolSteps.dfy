/** Every step keeps the invariant, so every reachable state satisfies it. */
module ProtocolSteps {
  import opened Basics
  import opened Seqs
  import opened Worker
  import opened Protocol
  import opened ProtocolInvariants

  lemma InitShared(s: State)
    requires Init(s)
    ensures SharedOk(s)
  {
    assert Jobs([]) == [];
    assert QueueOk(Jobs(s.fed), s.worker, s.chan, s.sent, s.cap);
    assert WorkerOk(s.start, s.memory, s.fed, s.worker);
  }

  lemma InitOk(s: State)
    requires Init(s)
    ensures Inv(s)
  {
    assert CallsAt(s.calls, Sent) == {} && CallsAt(s.calls, Dropping) == {};
    InitShared(s);
  }

  // ---- the worker's steps ----

  lemma JobsSnoc(fed: seq<Feed>, f: Feed)
    ensures Jobs(fed + [f]) == Jobs(fed) + InputJob(f)
  {
    FlatMapSnoc(InputJob, fed, f);
  }

  lemma ReplyIffControl(m: Memory, job: Job, o: Outcomes)
    ensures Worker.Work(m, Take(job), o).1.reply.Some? <==> !job.EventJob?
  {
  }

  lemma RecvOk(s: State)
    requires SharedOk(s) && WorkerEnabled(s, Recv)
    ensures SharedOk(ApplyWorker(s, Recv))
  {
    var a, b := s.chan[0], s.chan[1..];
    assert s.chan == [a] + b;
    assert Jobs(s.fed) + [] + s.chan == Jobs(s.fed) + [a] + b;
  }

  lemma FeedKeepsWorker(start: Memory, memory: Memory, fed: seq<Feed>, f: Feed, w: WorkerPc, w1: WorkerPc)
    requires WorkerOk(start, memory, fed, w) && !Stopped(w)
    requires var t := Worker.Work(memory, f.input, f.o).1;
             if f.input.Take? && t.reply.Some? then w1 == Replying(f.input.job, t.reply.value) else w1 == Idle
    requires f.input.Take? ==> (Worker.Work(memory, f.input, f.o).1.reply.Some? <==> !f.input.job.EventJob?)
    ensures WorkerOk(start, Worker.Work(memory, f.input, f.o).0, fed + [f], w1)
  {
    JobsSnoc(fed, f);
    assert Front(fed + [f]) == fed && Last(fed + [f]) == f;
    var jobs, jobs1 := Jobs(fed), Jobs(fed + [f]);
    if f.input.Take? { assert jobs1[|jobs|] == f.input.job; }
    forall i | 0 <= i < |jobs| ensures jobs1[i] == jobs[i] && !jobs[i].CloseJob? {}
  }

  /** A worker input is one of the jobs received. */
  lemma {:induction false} FedIsJob(fed: seq<Feed>, k: nat)
    requires k < |fed| && fed[k].input.Take?
    ensures exists i :: 0 <= i < |Jobs(fed)| && Jobs(fed)[i] == fed[k].input.job
  {
    if k == |fed| - 1 {
      assert Jobs(fed)[|Jobs(Front(fed))|] == fed[k].input.job;
    } else {
      FedIsJob(Front(fed), k);
      var i :| 0 <= i < |Jobs(Front(fed))| && Jobs(Front(fed))[i] == Front(fed)[k].input.job;
      assert Jobs(fed)[i] == fed[k].input.job;
    }
  }

  /** The job in hand has not been answered yet. */
  lemma InHandUnanswered(s: State)
    requires SharedOk(s) && s.worker.Busy?
    ensures s.worker.job.c !in s.answers
  {
    var c, n := s.worker.job.c, |Jobs(s.fed)|;
    assert s.sent[n] == s.worker.job;
    forall k: nat | k < |s.fed| && s.fed[k].input.Take? ensures s.fed[k].input.job.c != c {
      FedIsJob(s.fed, k);
      var i :| 0 <= i < n && Jobs(s.fed)[i] == s.fed[k].input.job;
      assert s.sent[i] == Jobs(s.fed)[i];
    }
  }

  lemma RepliesSnoc(start: Memory, fed: seq<Feed>, f: Feed)
    ensures Replies(start, fed + [f]) == Replies(start, fed) + [LastTurn(start, fed + [f]).reply]
  {
    assert Front(fed + [f]) == fed;
  }

  /** The reply of turn k is that of the stream up to it. */
  lemma {:induction false} ReplyAt(start: Memory, fed: seq<Feed>, k: nat)
    requires k < |fed|
    ensures Replies(start, fed)[k] == LastTurn(start, fed[..k + 1]).reply
  {
    if k == |fed| - 1 {
      assert fed[..k + 1] == fed;
    } else {
      ReplyAt(start, Front(fed), k);
      assert fed[..k + 1] == Front(fed)[..k + 1];
    }
  }

  lemma FeedKeepsAnswers(fed: seq<Feed>, replies: seq<Option<Result>>, f: Feed, reply: Option<Result>,
                         answers: map<nat, Result>, w: WorkerPc, w1: WorkerPc)
    requires AnswersOk(fed, replies, answers, w) && !w.Replying? && |replies| == |fed|
    requires if IsControl(f) then w1.Replying? && w1.job == f.input.job && w1.job.c !in answers else w1 == Idle
    ensures AnswersOk(fed + [f], replies + [reply], answers, w1)
  {
    forall c | c in answers ensures exists k: nat :: AnsweredAt(fed + [f], replies + [reply], c, answers[c], k) {
      var k: nat :| AnsweredAt(fed, replies, c, answers[c], k);
      assert AnsweredAt(fed + [f], replies + [reply], c, answers[c], k);
    }
  }

  /** One more worker input: queue and answers, given the worker's own part. */
  lemma FedOk(s: State, f: Feed, m1: Memory, w1: WorkerPc)
    requires SharedOk(s) && !s.worker.Replying?
    requires WorkerOk(s.start, m1, s.fed + [f], w1)
    requires InHand(s.worker) == InputJob(f) && InHand(w1) == [] && FlagsOk(s.flags, w1, s.done, s.owner)
    requires if IsControl(f) then w1.Replying? && w1.job == f.input.job && w1.job.c !in s.answers else w1 == Idle
    ensures SharedOk(s.(memory := m1, fed := s.fed + [f], worker := w1))
  {
    JobsSnoc(s.fed, f);
    assert Jobs(s.fed + [f]) + [] + s.chan == s.sent;
    RepliesSnoc(s.start, s.fed, f);
    FeedKeepsAnswers(s.fed, Replies(s.start, s.fed), f, LastTurn(s.start, s.fed + [f]).reply, s.answers, s.worker, w1);
  }

  lemma HandleOk(s: State, o: Outcomes)
    requires SharedOk(s) && WorkerEnabled(s, Handle(o))
    ensures SharedOk(ApplyWorker(s, Handle(o)))
  {
    var f := Feed(Take(s.worker.job), o);
    var s1 := ApplyWorker(s, Handle(o));
    ReplyIffControl(s.memory, s.worker.job, o);
    InHandUnanswered(s);
    FeedKeepsWorker(s.start, s.memory, s.fed, f, s.worker, s1.worker);
    FedOk(s, f, s1.memory, s1.worker);
  }

  lemma TickOk(s: State, o: Outcomes)
    requires SharedOk(s) && WorkerEnabled(s, TickFlush(o))
    ensures SharedOk(ApplyWorker(s, TickFlush(o)))
  {
    FeedKeepsWorker(s.start, s.memory, s.fed, Feed(Tick, o), s.worker, Idle);
    FedOk(s, Feed(Tick, o), ApplyWorker(s, TickFlush(o)).memory, Idle);
  }

  lemma ReplyKeepsAnswers(fed: seq<Feed>, replies: seq<Option<Result>>, answers: map<nat, Result>, w: WorkerPc, w1: WorkerPc)
    requires AnswersOk(fed, replies, answers, w) && w.Replying? && !w1.Replying?
    requires fed != [] && |replies| == |fed| && IsControl(Last(fed)) && Last(fed).input == Take(w.job) && Last(replies) == Some(w.r)
    ensures AnswersOk(fed, replies, answers[w.job.c := w.r], w1)
  {
    var answers1 := answers[w.job.c := w.r];
    assert AnsweredAt(fed, replies, w.job.c, w.r, |fed| - 1);
    forall c | c in answers1 ensures exists k: nat :: AnsweredAt(fed, replies, c, answers1[c], k) {
      if c != w.job.c {
        var k: nat :| AnsweredAt(fed, replies, c, answers[c], k);
      }
    }
  }

  lemma ReplyOk(s: State)
    requires SharedOk(s) && WorkerEnabled(s, Reply)
    ensures SharedOk(ApplyWorker(s, Reply))
  {
    var s1 := ApplyWorker(s, Reply);
    ReplyKeepsAnswers(s.fed, Replies(s.start, s.fed), s.answers, s.worker, s1.worker);
    assert WorkerOk(s1.start, s1.memory, s1.fed, s1.worker);
  }

  lemma WorkerSharedOk(s: State, w: WorkerAct)
    requires SharedOk(s) && WorkerEnabled(s, w)
    ensures SharedOk(ApplyWorker(s, w))
  {
    match w {
      case Recv => RecvOk(s);
      case Handle(o) => HandleOk(s, o);
      case TickFlush(o) => TickOk(s, o);
      case Reply => ReplyOk(s);
      case MarkClosed => assert FlagsOk(MarkShut(s.flags), Marked, s.done, s.owner);
      case CloseDone =>
    }
  }

  /** The worker changes no call; it only adds answers and sets `closed`. */
  lemma WorkerShape(s: State, w: WorkerAct)
    requires WorkerEnabled(s, w)
    ensures var s1 := ApplyWorker(s, w);
            && s1.calls == s.calls && s1.sent == s.sent && s1.drops == s.drops && s1.owner == s.owner && s1.gap == s.gap
            && s1.enqueued == s.enqueued && s1.dropped == s.dropped
            && (s.flags.closed ==> s1.flags.closed)
            && (forall c :: c in s.answers ==> c in s1.answers && s1.answers[c] == s.answers[c])
  {
  }

  lemma CallOkMonotone(call: Call, v: View, v1: View)
    requires CallOk(call, v)
    requires v1 == v.(answer := v1.answer, closed := v1.closed)
    requires (v.answer.Some? ==> v1.answer == v.answer) && (v.closed ==> v1.closed)
    ensures CallOk(call, v1)
  {
  }

  lemma WorkerCallsOk(s: State, w: WorkerAct)
    requires CallsOk(s) && WorkerEnabled(s, w)
    ensures CallsOk(ApplyWorker(s, w))
  {
    var s1 := ApplyWorker(s, w);
    WorkerShape(s, w);
    forall c | c in s1.calls ensures CallOk(s1.calls[c], ViewOf(s1, c)) {
      CallOkMonotone(s.calls[c], ViewOf(s, c), ViewOf(s1, c));
    }
  }

  // ---- the clients' steps ----

  lemma SendersSnoc(jobs: seq<Job>, job: Job)
    ensures Senders(jobs + [job]) == Senders(jobs) + {job.c}
  {
    forall c | c in Senders(jobs) + {job.c} ensures c in Senders(jobs + [job]) {
      if c == job.c { assert job in jobs + [job]; }
      else {
        var j :| j in jobs && j.c == c;
        assert j in jobs + [job];
      }
    }
  }

  lemma SenderAt(jobs: seq<Job>, i: int)
    requires 0 <= i < |jobs|
    ensures jobs[i].c in Senders(jobs)
  {
  }

  predicate Entering(a: Act) {
    a.CloseEnter? || a.JoinDone? || a.JoinCancelled? || a.CheckFlags? || a.SendCancelled? || a.SendDone?
  }

  /** The moved call before its send: a fact about one call and its view. */
  lemma EnteringCallOk(s: State, c: nat, a: Act, s1: State)
    requires CallsOk(s) && FlagsOk(s.flags, s.worker, s.done, s.owner) && ClientEnabled(s, c, a) && Entering(a)
    requires s1 == Effect(s, c, a)
    ensures CallOk(Moved(s, c, a), ViewOf(s1, c))
  {
    assert CallOk(s.calls[c], ViewOf(s, c));
  }

  predicate Posting(a: Act) { a.Send? || a.Drop? || a.CountSend? || a.CountDrop? }

  /** The moved call from its send or drop to the counter. */
  lemma PostingCallOk(s: State, c: nat, a: Act, s1: State)
    requires CallsOk(s) && ClientEnabled(s, c, a) && Posting(a)
    requires s1 == Effect(s, c, a)
    ensures CallOk(Moved(s, c, a), ViewOf(s1, c))
  {
    assert CallOk(s.calls[c], ViewOf(s, c));
    if a.Send? { SendersSnoc(s.sent, JobOf(c, s.calls[c].op)); }
  }

  /** The moved call on its way back, with its response or after a failed enqueue. */
  lemma LeavingCallOk(s: State, c: nat, a: Act, s1: State)
    requires CallsOk(s) && FlagsOk(s.flags, s.worker, s.done, s.owner) && ClientEnabled(s, c, a)
    requires !Entering(a) && !Posting(a) && !a.Invoke?
    requires s1 == Effect(s, c, a)
    ensures CallOk(Moved(s, c, a), ViewOf(s1, c))
  {
    assert CallOk(s.calls[c], ViewOf(s, c));
  }

  /** Every other call sees at most a change of owner. */
  lemma OtherCallOk(s: State, c: nat, a: Act, d: nat)
    requires CallsOk(s) && FlagsOk(s.flags, s.worker, s.done, s.owner) && ClientEnabled(s, c, a) && d in s.calls && d != c
    ensures CallOk(s.calls[d], ViewOf(Effect(s, c, a), d))
  {
    if a.Send? { SendersSnoc(s.sent, JobOf(c, s.calls[c].op)); }
    assert CallOk(s.calls[d], ViewOf(s, d));
    if a.Rollback? { assert CallOk(s.calls[c], ViewOf(s, c)); }
  }

  lemma ReplaceCallOk(e: State, c: nat, call: Call)
    requires CallOk(call, ViewOf(e, c))
    requires forall d :: d in e.calls && d != c ==> CallOk(e.calls[d], ViewOf(e, d))
    requires e.owner.Some? ==> e.owner.value == c || e.owner.value in e.calls
    requires forall d :: d in e.drops ==> d == c || d in e.calls
    ensures CallsOk(e.(calls := e.calls[c := call]))
  {
    var s1 := e.(calls := e.calls[c := call]);
    forall d | d in s1.calls ensures CallOk(s1.calls[d], ViewOf(s1, d)) {
      assert ViewOf(s1, d) == ViewOf(e, d);
    }
  }

  /** Only calls that exist have jobs and answers. */
  lemma OnlyCallers(s: State, c: nat)
    requires SharedOk(s)
    ensures c in Senders(s.sent) ==> c in s.calls
    ensures c in s.answers ==> c in Senders(s.sent)
  {
    if c in Senders(s.sent) {
      var j :| j in s.sent && j.c == c;
      var i :| 0 <= i < |s.sent| && s.sent[i] == j;
    }
    if c in s.answers {
      var k: nat :| AnsweredAt(s.fed, Replies(s.start, s.fed), c, s.answers[c], k);
      FedIsJob(s.fed, k);
      var i :| 0 <= i < |Jobs(s.fed)| && Jobs(s.fed)[i] == s.fed[k].input.job;
      assert s.sent[i] == Jobs(s.fed)[i];
      SenderAt(s.sent, i);
    }
  }

  lemma InvokedCallOk(s: State, c: nat, op: Op)
    requires SharedOk(s) && CallsOk(s) && ClientEnabled(s, c, Invoke(op))
    ensures CallOk(Call(op, Begin), ViewOf(s, c))
  {
    OnlyCallers(s, c);
  }

  lemma MovedCallOk(s: State, c: nat, a: Act)
    requires SharedOk(s) && CallsOk(s) && ClientEnabled(s, c, a)
    ensures CallOk(Moved(s, c, a), ViewOf(Effect(s, c, a), c))
  {
    var e := Effect(s, c, a);
    if Entering(a) { EnteringCallOk(s, c, a, e); }
    else if Posting(a) { PostingCallOk(s, c, a, e); }
    else if a.Invoke? { InvokedCallOk(s, c, a.op); }
    else { LeavingCallOk(s, c, a, e); }
  }

  lemma EffectShape(s: State, c: nat, a: Act)
    requires ClientEnabled(s, c, a)
    ensures Effect(s, c, a).calls == s.calls
    ensures c in s.calls ==> Moved(s, c, a).op == s.calls[c].op
    ensures c !in s.calls ==> a.Invoke?
  {
  }

  lemma ClientCallsOk(s: State, c: nat, a: Act)
    requires SharedOk(s) && CallsOk(s) && ClientEnabled(s, c, a)
    ensures CallsOk(Apply(s, Client(c, a)))
  {
    var e := Effect(s, c, a);
    EffectShape(s, c, a);
    MovedCallOk(s, c, a);
    forall d | d in e.calls && d != c ensures CallOk(e.calls[d], ViewOf(e, d)) {
      OtherCallOk(s, c, a, d);
    }
    ReplaceCallOk(e, c, Moved(s, c, a));
  }

  /** Without an owner there is no close job in the channel's history. */
  lemma CloseJobOwned(s: State, i: int)
    requires SharedOk(s) && CallsOk(s) && 0 <= i < |s.sent| && s.sent[i].CloseJob?
    ensures s.owner == Some(s.sent[i].c)
  {
    SenderAt(s.sent, i);
    assert CallOk(s.calls[s.sent[i].c], ViewOf(s, s.sent[i].c));
  }

  lemma SendQueueOk(s: State, job: Job)
    requires SharedOk(s) && |s.chan| < s.cap && job.c !in Senders(s.sent)
    ensures QueueOk(Jobs(s.fed), s.worker, s.chan + [job], s.sent + [job], s.cap)
  {
    assert Jobs(s.fed) + InHand(s.worker) + (s.chan + [job]) == s.sent + [job];
    forall i | 0 <= i < |s.sent| ensures s.sent[i].c != job.c { SenderAt(s.sent, i); }
  }

  /** Replacing one call by a call of the same operation. */
  lemma ReplaceCall(e: State, c: nat, call: Call)
    requires SharedOk(e) && (c in e.calls ==> call.op == e.calls[c].op)
    ensures SharedOk(e.(calls := e.calls[c := call]))
  {
    assert OpsOk(e.sent, e.calls[c := call]);
  }

  lemma SendGapOk(s: State, job: Job)
    requires SharedOk(s) && CallsOk(s)
    requires job.EventJob? && s.owner.Some? ==> job.c in s.gap
    ensures GapOk(s.sent + [job], s.gap)
  {
    forall i | 0 <= i < |s.sent| && s.sent[i].CloseJob? && job.EventJob? ensures job.c in s.gap { CloseJobOwned(s, i); }
  }

  lemma SendSharedOk(s: State, c: nat)
    requires SharedOk(s) && CallsOk(s) && ClientEnabled(s, c, Send)
    ensures SharedOk(Effect(s, c, Send))
  {
    var job := JobOf(c, s.calls[c].op);
    assert CallOk(s.calls[c], ViewOf(s, c));
    SendQueueOk(s, job);
    SendGapOk(s, job);
  }

  lemma EffectSharedOk(s: State, c: nat, a: Act)
    requires SharedOk(s) && CallsOk(s) && ClientEnabled(s, c, a) && !a.Send?
    ensures SharedOk(Effect(s, c, a))
  {
    if c in s.calls { assert CallOk(s.calls[c], ViewOf(s, c)); }
    if a.CloseEnter? && EnterClose(s.flags).1 == Own {
      forall i | 0 <= i < |s.sent| ensures !s.sent[i].CloseJob? {
        if s.sent[i].CloseJob? { CloseJobOwned(s, i); }
      }
    }
  }

  lemma ClientSharedOk(s: State, c: nat, a: Act)
    requires SharedOk(s) && CallsOk(s) && ClientEnabled(s, c, a)
    ensures SharedOk(Apply(s, Client(c, a)))
  {
    if a.Send? { SendSharedOk(s, c); } else { EffectSharedOk(s, c, a); }
    EffectShape(s, c, a);
    ReplaceCall(Effect(s, c, a), c, Moved(s, c, a));
  }

  /** Moving one call changes the calls at a program counter by that call only. */
  lemma CallsAtMove(calls: map<nat, Call>, c: nat, call: Call, pc: Pc)
    ensures CallsAt(calls[c := call], pc) == if call.pc == pc then CallsAt(calls, pc) + {c} else CallsAt(calls, pc) - {c}
  {
  }

  /** The program counters before the two counter increments, and what the increments add. */
  lemma CounterShape(s: State, c: nat, a: Act)
    requires ClientEnabled(s, c, a)
    ensures Moved(s, c, a).pc == Sent <==> a.Send?
    ensures Moved(s, c, a).pc == Dropping <==> a.Drop?
    ensures c in s.calls && s.calls[c].pc == Sent <==> a.CountSend?
    ensures c in s.calls && s.calls[c].pc == Dropping <==> a.CountDrop?
  {
  }

  lemma EffectCounts(s: State, c: nat, a: Act)
    requires ClientEnabled(s, c, a)
    ensures var e := Effect(s, c, a);
            && e.enqueued == s.enqueued + (if a.CountSend? then 1 else 0)
            && e.dropped == s.dropped + (if a.CountDrop? then 1 else 0)
            && |e.sent| == |s.sent| + (if a.Send? then 1 else 0)
            && e.drops == s.drops + (if a.Drop? then {c} else {})
  {
  }

  lemma SentMoves(s: State, c: nat, a: Act)
    requires ClientEnabled(s, c, a)
    ensures |CallsAt(s.calls[c := Moved(s, c, a)], Sent)|
            == |CallsAt(s.calls, Sent)| + (if a.Send? then 1 else 0) - (if a.CountSend? then 1 else 0)
  {
    CounterShape(s, c, a);
    CallsAtMove(s.calls, c, Moved(s, c, a), Sent);
  }

  lemma DroppingMoves(s: State, c: nat, a: Act)
    requires CallsOk(s) && ClientEnabled(s, c, a)
    ensures |CallsAt(s.calls[c := Moved(s, c, a)], Dropping)|
            == |CallsAt(s.calls, Dropping)| + (if a.Drop? then 1 else 0) - (if a.CountDrop? then 1 else 0)
    ensures a.Drop? ==> c !in s.drops
  {
    CounterShape(s, c, a);
    CallsAtMove(s.calls, c, Moved(s, c, a), Dropping);
    if a.Drop? { assert CallOk(s.calls[c], ViewOf(s, c)); }
  }

  lemma ClientCountersOk(s: State, c: nat, a: Act)
    requires CallsOk(s) && CountersOk(s) && ClientEnabled(s, c, a)
    ensures CountersOk(Apply(s, Client(c, a)))
  {
    EffectCounts(s, c, a);
    SentMoves(s, c, a);
    DroppingMoves(s, c, a);
  }

  lemma StepOk(s: State, l: Label)
    requires Inv(s) && Enabled(s, l)
    ensures Inv(Apply(s, l))
  {
    match l {
      case Client(c, a) =>
        ClientSharedOk(s, c, a);
        ClientCallsOk(s, c, a);
        ClientCountersOk(s, c, a);
      case Work(w) =>
        WorkerSharedOk(s, w);
        WorkerCallsOk(s, w);
        WorkerShape(s, w);
    }
  }

  lemma {:induction false} RunOk(s: State, ls: seq<Label>)
    requires Inv(s) && Runs(s, ls)
    ensures Inv(Exec(s, ls))
    decreases |ls|
  {
    if ls != [] {
      RunOk(s, Front(ls));
      StepOk(Exec(s, Front(ls)), Last(ls));
    }
  }

  /** Every reachable state of every interleaving satisfies the invariant. */
  lemma ReachableOk(s: State)
    requires Reachable(s)
    ensures Inv(s)
  {
    var s0: State, ls: seq<Label> :| Init(s0) && Runs(s0, ls) && Exec(s0, ls) == s;
    InitOk(s0);
    RunOk(s0, ls);
  }

  lemma ReachStep(s: State, l: Label)
    requires Reachable(s) && Enabled(s, l)
    ensures Reachable(Apply(s, l))
  {
    var s0: State, ls: seq<Label> :| Init(s0) && Runs(s0, ls) && Exec(s0, ls) == s;
    assert Front(ls + [l]) == ls && Last(ls + [l]) == l;
    assert Runs(s0, ls + [l]) && Exec(s0, ls + [l]) == Apply(s, l);
  }
}
