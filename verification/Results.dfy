/** Where the result of every Write, Sync and Close comes from, over every run; and that nil does arrive. */
module Results {
  import opened Basics
  import opened Seqs
  import opened Worker
  import opened Protocol
  import opened ProtocolInvariants
  import opened ProtocolSteps
  import opened ProtocolTheorems
  import opened Stranding

  /** Step i turned call c away: at the flag check, closed or, for a Write, closing; or at its send, after the worker had gone. */
  ghost predicate TurnedAwayAt(s0: State, ls: seq<Label>, c: nat, i: nat) {
    && i < |ls| && Runs(s0, ls[..i])
    && var s := Exec(s0, ls[..i]);
       && c in s.calls
       && (|| (ls[i] == Client(c, CheckFlags) && (s.flags.closed || (s.flags.closing && s.calls[c].op.Write?)))
           || (ls[i] == Client(c, SendDone) && s.done))
  }

  ghost predicate TurnedAway(s0: State, ls: seq<Label>, c: nat) { exists i: nat :: TurnedAwayAt(s0, ls, c, i) }

  /** The context of call c was cancelled with err while it waited for a turn or for room. */
  predicate CancelledBeforeSend(ls: seq<Label>, c: nat, err: Err) {
    Client(c, JoinCancelled(err)) in ls || Client(c, SendCancelled(err)) in ls
  }

  /** Where a result r of call c can come from. */
  ghost predicate Explained(s0: State, ls: seq<Label>, c: nat, r: Result)
    requires Runs(s0, ls) && c in Exec(s0, ls).calls
  {
    var s := Exec(s0, ls);
    var op, sent := s.calls[c].op, c in Senders(s.sent);
    || (r.Some? && !sent && CancelledBeforeSend(ls, c, r.value))
    || (r.Some? && sent && Client(c, ResponseCancelled(r.value)) in ls)
    || (r == Some(SinkClosed) && !sent && TurnedAway(s0, ls, c))
    || (op.Write? && r == None && (sent || c in s.drops))
    || (!op.Write? && sent && c in s.answers && r == s.answers[c])
    || (op.Close? && r == None && !sent && s.flags.closed)
  }

  ghost predicate PcExplained(s0: State, ls: seq<Label>, c: nat)
    requires Runs(s0, ls) && c in Exec(s0, ls).calls
  {
    match Exec(s0, ls).calls[c].pc
    case Failed(err) => c !in Senders(Exec(s0, ls).sent) && Explained(s0, ls, c, Some(err))
    case Draining(r) => Explained(s0, ls, c, r)
    case Returned(r) => Explained(s0, ls, c, r)
    case _ => true
  }

  lemma TurnedAwayLater(s0: State, ls: seq<Label>, c: nat)
    requires ls != [] && TurnedAway(s0, Front(ls), c)
    ensures TurnedAway(s0, ls, c)
  {
    var i: nat :| TurnedAwayAt(s0, Front(ls), c, i);
    assert ls[..i] == Front(ls)[..i] && ls[i] == Front(ls)[i];
    assert TurnedAwayAt(s0, ls, c, i);
  }

  /** What a step other than c's send leaves of what explains c's result. */
  ghost predicate Leaves(s: State, s1: State, c: nat) {
    && c in s.calls && c in s1.calls && s1.calls[c].op == s.calls[c].op
    && (c in Senders(s1.sent) <==> c in Senders(s.sent))
    && (c in s.drops ==> c in s1.drops)
    && (c in s.answers ==> c in s1.answers && s1.answers[c] == s.answers[c])
    && (s.flags.closed ==> s1.flags.closed)
  }

  lemma StepLeaves(s: State, l: Label, c: nat)
    requires Enabled(s, l) && c in s.calls && l != Client(c, Send)
    ensures Leaves(s, Apply(s, l), c)
  {
    match l {
      case Work(w) => WorkerShape(s, w);
      case Client(d, a) =>
        if a.Send? { SendersSnoc(s.sent, JobOf(d, s.calls[d].op)); }
    }
  }

  lemma ExplainedKeeps(s0: State, ls: seq<Label>, c: nat, r: Result)
    requires Runs(s0, ls) && ls != [] && c in Exec(s0, Front(ls)).calls && c in Exec(s0, ls).calls && Last(ls) != Client(c, Send)
    requires Explained(s0, Front(ls), c, r)
    ensures Explained(s0, ls, c, r)
  {
    StepLeaves(Exec(s0, Front(ls)), Last(ls), c);
    forall l | l in Front(ls) ensures l in ls {}
    if TurnedAway(s0, Front(ls), c) { TurnedAwayLater(s0, ls, c); }
  }

  lemma SameCall(s: State, l: Label, c: nat)
    requires Enabled(s, l) && c in s.calls && (l.Client? ==> l.c != c)
    ensures c in Apply(s, l).calls && Apply(s, l).calls[c] == s.calls[c]
  {
    if l.Work? { WorkerShape(s, l.step); }
  }

  /** A step that is not c's own leaves c where it stands. */
  lemma OthersStep(s0: State, ls: seq<Label>, c: nat)
    requires Runs(s0, ls) && ls != [] && c in Exec(s0, Front(ls)).calls && (Last(ls).Client? ==> Last(ls).c != c)
    requires PcExplained(s0, Front(ls), c)
    ensures c in Exec(s0, ls).calls && PcExplained(s0, ls, c)
  {
    var s, l := Exec(s0, Front(ls)), Last(ls);
    StepLeaves(s, l, c);
    SameCall(s, l, c);
    match s.calls[c].pc {
      case Failed(err) => ExplainedKeeps(s0, ls, c, Some(err));
      case Draining(r) => ExplainedKeeps(s0, ls, c, r);
      case Returned(r) => ExplainedKeeps(s0, ls, c, r);
      case _ =>
    }
  }

  /** What the invariant says of call c alone. */
  ghost predicate Sound(s: State, c: nat) {
    c in s.calls && CallOk(s.calls[c], ViewOf(s, c)) && FlagsOk(s.flags, s.worker, s.done, s.owner)
  }

  /** A step of c itself before enqueue. */
  lemma EnteringResult(s0: State, ls: seq<Label>, c: nat, a: Act)
    requires Runs(s0, ls) && ls != [] && Last(ls) == Client(c, a) && Sound(Exec(s0, Front(ls)), c)
    requires a.CloseEnter? || a.JoinDone? || a.JoinCancelled?
    ensures c in Exec(s0, ls).calls && PcExplained(s0, ls, c)
  {
    StepLeaves(Exec(s0, Front(ls)), Last(ls), c);
    assert Last(ls) in ls;
  }

  /** A step of c itself that may leave enqueue with an error. */
  lemma RefusedResult(s0: State, ls: seq<Label>, c: nat, a: Act)
    requires Runs(s0, ls) && ls != [] && Last(ls) == Client(c, a) && Sound(Exec(s0, Front(ls)), c)
    requires a.CheckFlags? || a.SendCancelled? || a.SendDone?
    ensures c in Exec(s0, ls).calls && PcExplained(s0, ls, c)
  {
    var s := Exec(s0, Front(ls));
    StepLeaves(s, Last(ls), c);
    assert ls[..|ls| - 1] == Front(ls) && Last(ls) in ls;
    assert a.SendDone? || (a.CheckFlags? && (s.flags.closed || (s.flags.closing && s.calls[c].op.Write?)))
           ==> TurnedAwayAt(s0, ls, c, |ls| - 1);
  }

  /** A step of c itself behind its send or drop. */
  lemma LaterResult(s0: State, ls: seq<Label>, c: nat, a: Act)
    requires Runs(s0, ls) && ls != [] && Last(ls) == Client(c, a) && Sound(Exec(s0, Front(ls)), c)
    requires a.CountSend? || a.CountDrop? || a.Response? || a.ResponseCancelled?
    ensures c in Exec(s0, ls).calls && PcExplained(s0, ls, c)
  {
    StepLeaves(Exec(s0, Front(ls)), Last(ls), c);
    assert Last(ls) in ls;
  }

  lemma PassedOn(s0: State, ls: seq<Label>, c: nat, a: Act)
    requires Runs(s0, ls) && ls != [] && Last(ls) == Client(c, a) && (a.Rollback? || a.AwaitDone?)
    requires PcExplained(s0, Front(ls), c)
    ensures c in Exec(s0, ls).calls && PcExplained(s0, ls, c)
  {
    var s := Exec(s0, Front(ls));
    StepLeaves(s, Last(ls), c);
    ExplainedKeeps(s0, ls, c, if a.Rollback? then Some(s.calls[c].pc.err) else s.calls[c].pc.r);
  }

  lemma NotInvoked(s: State, l: Label, c: nat)
    requires Enabled(s, l) && c in Apply(s, l).calls && (l.Client? ==> l.c != c)
    ensures c in s.calls
  {
    if l.Work? { WorkerShape(s, l.step); }
  }

  /** Every result, of every call, in every run, has one of these sources. */
  lemma {:induction false} ResultsExplained(s0: State, ls: seq<Label>, c: nat)
    requires Init(s0) && Runs(s0, ls) && c in Exec(s0, ls).calls
    ensures PcExplained(s0, ls, c)
    decreases |ls|
  {
    if ls != [] {
      var s, l := Exec(s0, Front(ls)), Last(ls);
      InitOk(s0);
      RunOk(s0, Front(ls));
      if l.Client? && l.c == c {
        var a := l.act;
        if a.Rollback? || a.AwaitDone? {
          ResultsExplained(s0, Front(ls), c);
          PassedOn(s0, ls, c, a);
        } else if a.CountSend? || a.CountDrop? || a.Response? || a.ResponseCancelled? {
          LaterResult(s0, ls, c, a);
        } else if a.CloseEnter? || a.JoinDone? || a.JoinCancelled? {
          EnteringResult(s0, ls, c, a);
        } else if a.CheckFlags? || a.SendCancelled? || a.SendDone? {
          RefusedResult(s0, ls, c, a);
        }
      } else {
        NotInvoked(s, l, c);
        ResultsExplained(s0, Front(ls), c);
        OthersStep(s0, ls, c);
      }
    }
  }

  /**
   A Sync or Close whose job is in the channel and whose wait is not cancelled returns the reply of its own
   turn: nil exactly when that turn kept its sink's promise.
   */
  lemma AnswerArrives(s0: State, ls: seq<Label>, c: nat)
    requires Init(s0) && Runs(s0, ls)
    requires var s := Exec(s0, ls); c in s.calls && !s.calls[c].op.Write? && s.calls[c].pc.Returned? && c in Senders(s.sent)
    requires forall err :: Client(c, ResponseCancelled(err)) !in ls
    ensures var s := Exec(s0, ls); var r := s.calls[c].pc.r;
            exists k: nat :: AnsweredAt(s.fed, Replies(s.start, s.fed), c, r, k) && (r == None <==> Succeeded(s.start, s.fed, k))
  {
    var s := Exec(s0, ls);
    ResultsExplained(s0, ls, c);
    assert Reachable(s);
    ReachableOk(s);
    var k: nat :| AnsweredAt(s.fed, Replies(s.start, s.fed), c, s.answers[c], k);
    ReplyAt(s.start, s.fed, k);
    ReplySucceeded(s.start, s.fed, k);
  }

  /** Without any cancellation of its own a Close returns its answer, nil because the sink is closed, or that it was turned away. */
  lemma CloseResult(s0: State, ls: seq<Label>, c: nat)
    requires Init(s0) && Runs(s0, ls)
    requires var s := Exec(s0, ls); c in s.calls && s.calls[c].op.Close? && s.calls[c].pc.Returned?
    requires forall err :: Client(c, ResponseCancelled(err)) !in ls && !CancelledBeforeSend(ls, c, err)
    ensures var s := Exec(s0, ls); var r := s.calls[c].pc.r;
            || (c in Senders(s.sent) && c in s.answers && r == s.answers[c])
            || (c !in Senders(s.sent) && r == None && s.flags.closed)
            || (c !in Senders(s.sent) && r == Some(SinkClosed) && TurnedAway(s0, ls, c))
  {
    ResultsExplained(s0, ls, c);
  }

  /** c's job is in the channel, it is a Close, and it has returned. */
  ghost predicate SentAndBack(s: State, c: nat) {
    c in s.calls && s.calls[c].op.Close? && c in Senders(s.sent) && s.calls[c].pc.Returned?
  }

  lemma OwnCloseStep(s: State, c: nat, a: Act)
    requires ClientEnabled(s, c, a) && Sound(s, c)
    requires SentAndBack(s, c) ==> s.done
    ensures SentAndBack(Apply(s, Client(c, a)), c) ==> Apply(s, Client(c, a)).done
  {
    if !a.Send? { StepLeaves(s, Client(c, a), c); }
  }

  lemma SentCloseStep(s: State, l: Label, c: nat)
    requires Enabled(s, l) && (c in s.calls ==> Sound(s, c))
    requires SentAndBack(s, c) ==> s.done
    ensures SentAndBack(Apply(s, l), c) ==> Apply(s, l).done
  {
    if l.Client? && l.c == c {
      if c in s.calls { OwnCloseStep(s, c, l.act); }
    } else if c in Apply(s, l).calls {
      NotInvoked(s, l, c);
      SameCall(s, l, c);
      StepLeaves(s, l, c);
      assert s.done ==> Apply(s, l).done;
    }
  }

  /** A Close whose job is in the channel returns, even with an error, only after the worker is done. */
  lemma {:induction false} SentCloseWaits(s0: State, ls: seq<Label>, c: nat)
    requires Init(s0) && Runs(s0, ls)
    ensures SentAndBack(Exec(s0, ls), c) ==> Exec(s0, ls).done
    decreases |ls|
  {
    if ls != [] {
      SentCloseWaits(s0, Front(ls), c);
      InitOk(s0);
      RunOk(s0, Front(ls));
      SentCloseStep(Exec(s0, Front(ls)), Last(ls), c);
    }
  }

  // ---- the overflow policy ----

  lemma StepSameBlock(s: State, l: Label)
    requires Enabled(s, l)
    ensures Apply(s, l).block == s.block
  {
  }

  lemma {:induction false} SameBlock(s0: State, ls: seq<Label>)
    requires Runs(s0, ls)
    ensures Exec(s0, ls).block == s0.block
    decreases |ls|
  {
    if ls != [] {
      SameBlock(s0, Front(ls));
      StepSameBlock(Exec(s0, Front(ls)), Last(ls));
    }
  }

  /** Cancelling the context of a Write matters only under the blocking policy. */
  lemma {:induction false} CancelledOnlyIfBlocking(s0: State, ls: seq<Label>, c: nat, err: Err)
    requires Init(s0) && Runs(s0, ls) && !s0.block && CancelledBeforeSend(ls, c, err)
    ensures var s := Exec(s0, ls); c in s.calls && !s.calls[c].op.Write? && !s.block
    decreases |ls|
  {
    var s, l := Exec(s0, Front(ls)), Last(ls);
    SameBlock(s0, Front(ls));
    if CancelledBeforeSend(Front(ls), c, err) {
      CancelledOnlyIfBlocking(s0, Front(ls), c, err);
      StepKeepsCall(s, l, c);
      SameBlock(s0, ls);
    } else {
      assert l == Client(c, JoinCancelled(err)) || l == Client(c, SendCancelled(err));
      InitOk(s0);
      RunOk(s0, Front(ls));
      assert CallOk(s.calls[c], ViewOf(s, c));
      SameBlock(s0, ls);
    }
  }

  /** Only Sync and Close wait for a response. */
  lemma {:induction false} OnlyControlWaits(s0: State, ls: seq<Label>, c: nat, err: Err)
    requires Init(s0) && Runs(s0, ls) && Client(c, ResponseCancelled(err)) in ls
    ensures c in Exec(s0, ls).calls && !Exec(s0, ls).calls[c].op.Write?
    decreases |ls|
  {
    var s, l := Exec(s0, Front(ls)), Last(ls);
    InitOk(s0);
    RunOk(s0, Front(ls));
    if Client(c, ResponseCancelled(err)) in Front(ls) {
      OnlyControlWaits(s0, Front(ls), c, err);
      StepKeepsCall(s, l, c);
    } else {
      assert l == Client(c, ResponseCancelled(err));
      assert CallOk(s.calls[c], ViewOf(s, c));
    }
  }

  /** Under the dropping policy a Write never fails but for a closing or closed sink. */
  lemma DroppingWriteResult(s0: State, ls: seq<Label>, c: nat)
    requires Init(s0) && Runs(s0, ls) && !s0.block
    requires var s := Exec(s0, ls); c in s.calls && s.calls[c].op.Write? && s.calls[c].pc.Returned?
    ensures var s := Exec(s0, ls); var r := s.calls[c].pc.r;
            || (r == None && (c in Senders(s.sent) || c in s.drops))
            || (r == Some(SinkClosed) && c !in Senders(s.sent) && TurnedAway(s0, ls, c))
  {
    var s := Exec(s0, ls);
    var r := s.calls[c].pc.r;
    ResultsExplained(s0, ls, c);
    if r.Some? && CancelledBeforeSend(ls, c, r.value) { CancelledOnlyIfBlocking(s0, ls, c, r.value); assert false; }
    if r.Some? && Client(c, ResponseCancelled(r.value)) in ls { OnlyControlWaits(s0, ls, c, r.value); assert false; }
  }

  /** Step i dropped the Write of call c: under the dropping policy, with a full channel. */
  ghost predicate DroppedAt(s0: State, ls: seq<Label>, c: nat, i: nat) {
    && i < |ls| && Runs(s0, ls[..i]) && ls[i] == Client(c, Drop)
    && var s := Exec(s0, ls[..i]); !s.block && |s.chan| == s.cap && c in s.calls && s.calls[c].op.Write?
  }

  lemma OnlyDrops(s: State, l: Label, c: nat)
    requires |s.chan| <= s.cap && Enabled(s, l) && c !in s.drops && c in Apply(s, l).drops
    ensures l == Client(c, Drop) && !s.block && |s.chan| == s.cap && c in s.calls && s.calls[c].op.Write?
  {
    if l.Work? { WorkerShape(s, l.step); }
  }

  /** A Write is dropped only when the channel is full and the policy is not to block. */
  lemma {:induction false} DroppedWhenFull(s0: State, ls: seq<Label>, c: nat)
    requires Init(s0) && Runs(s0, ls) && c in Exec(s0, ls).drops
    ensures exists i: nat :: DroppedAt(s0, ls, c, i)
    decreases |ls|
  {
    if ls != [] {
      var s, l := Exec(s0, Front(ls)), Last(ls);
      assert ls[..|ls| - 1] == Front(ls);
      if c in s.drops {
        DroppedWhenFull(s0, Front(ls), c);
        var i: nat :| DroppedAt(s0, Front(ls), c, i);
        assert ls[..i] == Front(ls)[..i] && ls[i] == Front(ls)[i];
        assert DroppedAt(s0, ls, c, i);
      } else {
        InitOk(s0);
        RunOk(s0, Front(ls));
        OnlyDrops(s, l, c);
        assert DroppedAt(s0, ls, c, |ls| - 1);
      }
    }
  }

  // ---- nil does arrive ----

  /** From any state in which no Close has begun, a new Sync can return; with a healthy downstream and no error held back it returns nil. */
  lemma SyncCanReturn(s: State, c: nat) returns (u: State)
    requires Reachable(s) && s.owner == None && s.flags == Flags(false, false) && c !in s.calls
    ensures Leads(s, u) && c in u.calls && u.calls[c].op == Sync && u.calls[c].pc.Returned?
    ensures Clean(s.memory) ==> u.calls[c] == Call(Sync, Returned(None))
    ensures u.sent == s.sent + [FlushJob(c)] && u.chan == [] && u.worker == Idle && u.start == s.start
    ensures forall d :: d in s.calls ==> d in u.calls && u.calls[d] == s.calls[d]
  {
    LeadsNowhere(s);
    WorkerFree(s, s);
    var s1 := Drain(s, s);
    var s2 := Begun(s, s1, c, Sync);
    var s3 := SendStep(s, s2, c);
    var s4 := CountStep(s, s3, c);
    assert s4.chan == [FlushJob(c)];
    var s5 := Go(s, s4, Work(Recv));
    var s6 := AnswerJob(s, s5);
    u := Go(s, s6, Client(c, Response));
    LeadsOn(s, s, u);
  }

  /** And a Close that has set `closing` can return, nil under the same conditions. */
  lemma CloseCanReturn(before: State, c: nat)
    requires Winning(before, c)
    ensures exists u :: Leads(Entered(before, c), u) && u.worker.Done? && c in u.calls && u.calls[c].op.Close? && u.calls[c].pc.Returned?
                        && (Clean(before.memory) ==> u.calls[c].pc.r == None)
  {
    EnteredShape(before, c);
    var u := StrandAll(Entered(before, c), c, []);
  }

  /** Behind a flush nothing is pending, however many ticks follow. */
  lemma NothingPending(start: Memory, fed: seq<Feed>)
    requires Initial(start) && Jobs(fed) != [] && !Last(Jobs(fed)).EventJob?
    ensures Pending(After(start, fed)) == []
  {
    assert !IsEvent(Last(fed));
    match start {
      case Async(_) => AsyncAfterIs(fed);
      case Batch(b) =>
        BatchAfterIs(b.max, b.batchWriter, fed);
        BatchEmptied(b.max, b.batchWriter, fed);
    }
  }

  lemma AllHandedOver(u: State, e: Event)
    requires Reachable(u) && u.sent == [EventJob(0, e)] + [FlushJob(1)] && u.chan == [] && u.worker == Idle
    ensures DeliveredEvents(u) == [e]
  {
    DeliveredPrefix(u);
    ReachableOk(u);
    assert Jobs(u.fed) == u.sent;
    FlatMapSnoc(JobEvent, [EventJob(0, e)], FlushJob(1));
    FlatMapOne(JobEvent, EventJob(0, e));
    NothingPending(u.start, u.fed);
    assert DeliveredEvents(u) + [] == DeliveredEvents(u);
  }

  /** One run of a new sink of either kind: a Write and then a Sync return nil, and the event has been handed over. */
  lemma DeliveringRun(s0: State, e: Event)
    requires Init(s0)
    ensures exists u :: Reachable(u) && u.start == s0.start
              && 0 in u.calls && u.calls[0] == Call(Write(e), Returned(None))
              && 1 in u.calls && u.calls[1] == Call(Sync, Returned(None)) && DeliveredEvents(u) == [e]
  {
    assert Runs(s0, []) && Exec(s0, []) == s0 && Reachable(s0);
    LeadsNowhere(s0);
    var s1 := Begun(s0, s0, 0, Write(e));
    var s2 := SendStep(s0, s1, 0);
    var s3 := CountStep(s0, s2, 0);
    LeadsReaches(s0, s3);
    var u := SyncCanReturn(s3, 1);
    LeadsReaches(s3, u);
    AllHandedOver(u, e);
  }
}
