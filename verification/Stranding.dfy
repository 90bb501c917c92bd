/**
 Which jobs can end up behind the close job. From the state in which a Close sets `closing`, the events
 that some run leaves undelivered are exactly those of the Writes past the flag check, any of them in
 any order, up to the size of the buffer.
 */
module Stranding {
  import opened Basics
  import opened Seqs
  import opened Worker
  import opened Protocol
  import opened ProtocolInvariants
  import opened ProtocolSteps
  import opened ProtocolTheorems

  // ---- runs from a state ----

  ghost predicate Leads(s: State, u: State) { exists ls :: Runs(s, ls) && Exec(s, ls) == u }

  lemma LeadsNowhere(s: State)
    ensures Leads(s, s)
  {
    assert Runs(s, []) && Exec(s, []) == s;
  }

  lemma LeadsStep(s: State, u: State, l: Label)
    requires Leads(s, u) && Enabled(u, l)
    ensures Leads(s, Apply(u, l))
  {
    var ls :| Runs(s, ls) && Exec(s, ls) == u;
    assert Front(ls + [l]) == ls && Last(ls + [l]) == l;
    assert Runs(s, ls + [l]) && Exec(s, ls + [l]) == Apply(u, l);
  }

  lemma Go(s: State, u: State, l: Label) returns (u1: State)
    requires Leads(s, u) && Enabled(u, l)
    ensures u1 == Apply(u, l) && Leads(s, u1)
  {
    u1 := Apply(u, l);
    LeadsStep(s, u, l);
  }

  lemma {:induction false} RunReaches(s: State, ls: seq<Label>)
    requires Reachable(s) && Runs(s, ls)
    ensures Reachable(Exec(s, ls))
    decreases |ls|
  {
    if ls != [] {
      RunReaches(s, Front(ls));
      ReachStep(Exec(s, Front(ls)), Last(ls));
    }
  }

  lemma LeadsReaches(s: State, u: State)
    requires Reachable(s) && Leads(s, u)
    ensures Reachable(u)
  {
    var ls :| Runs(s, ls) && Exec(s, ls) == u;
    RunReaches(s, ls);
  }

  /** Call d is still there, is the same operation, and has not gone back to its start. */
  predicate Kept(s: State, u: State, d: nat) {
    && u.cap == s.cap && u.start == s.start
    && (d in s.calls ==> d in u.calls && u.calls[d].op == s.calls[d].op && (s.calls[d].pc != Begin ==> u.calls[d].pc != Begin))
  }

  lemma StepKeepsCall(s: State, l: Label, d: nat)
    requires Enabled(s, l)
    ensures Kept(s, Apply(s, l), d)
  {
    if l.Work? { WorkerShape(s, l.step); }
  }

  lemma {:induction false} RunKeepsCall(s: State, ls: seq<Label>, d: nat)
    requires Runs(s, ls)
    ensures Kept(s, Exec(s, ls), d)
    decreases |ls|
  {
    if ls != [] {
      RunKeepsCall(s, Front(ls), d);
      StepKeepsCall(Exec(s, Front(ls)), Last(ls), d);
    }
  }

  /** While a Close keeps `closing`, the gap stays what it was when it set it. */
  lemma {:induction false} GapKept(s: State, c: nat, ls: seq<Label>)
    requires Runs(s, ls) && Exec(s, ls).owner == Some(c) && c in s.calls && s.calls[c].pc != Begin
    ensures Exec(s, ls).gap == s.gap
    decreases |ls|
  {
    if ls != [] {
      var t, l := Exec(s, Front(ls)), Last(ls);
      RunKeepsCall(s, Front(ls), c);
      OwnerKept(t, l);
      GapKept(s, c, Front(ls));
    }
  }

  // ---- a Close that has set `closing` ----

  /** Close c is about to set `closing`. */
  ghost predicate Winning(before: State, c: nat) {
    Reachable(before) && ClientEnabled(before, c, CloseEnter) && EnterClose(before.flags).1 == Own
  }

  /** The state right after it did. */
  ghost function Entered(before: State, c: nat): State
    requires Winning(before, c)
  {
    Apply(before, Client(c, CloseEnter))
  }

  /** The Close itself is no Write, so it does not change the gap it records. */
  lemma SameGap(before: State, c: nat)
    requires ClientEnabled(before, c, CloseEnter)
    ensures Apply(before, Client(c, CloseEnter)).InGap() == before.InGap()
  {
    var s := Apply(before, Client(c, CloseEnter));
    forall d ensures d in s.InGap() <==> d in before.InGap() {}
  }

  lemma EnteredShape(before: State, c: nat)
    requires Winning(before, c)
    ensures var s := Entered(before, c);
            && Reachable(s) && s.owner == Some(c) && s.At(c, Owning) && s.calls[c].op.Close?
            && s.gap == s.InGap()
  {
    ReachStep(before, Client(c, CloseEnter));
    SameGap(before, c);
  }

  /** No Close has set `closing`, or the one that has is still before its send. */
  predicate CloseUnsent(s: State) {
    s.owner.Some? ==> s.At(s.owner.value, Owning) || s.At(s.owner.value, Ready)
  }

  /** Then there is no close job anywhere. */
  lemma NoCloseYet(s: State)
    requires Inv(s) && CloseUnsent(s)
    ensures s.owner.Some? ==> s.owner.value !in Senders(s.sent)
    ensures !s.flags.closed && !Stopped(s.worker)
    ensures s.worker.Busy? ==> !s.worker.job.CloseJob?
  {
    if s.owner.Some? { assert CallOk(s.calls[s.owner.value], ViewOf(s, s.owner.value)); }
    forall i | 0 <= i < |s.sent| ensures !s.sent[i].CloseJob? {
      SenderAt(s.sent, i);
      if s.sent[i].CloseJob? { CloseJobOwned(s, i); }
    }
    var n := |Jobs(s.fed)|;
    forall i | 0 <= i < n ensures !Jobs(s.fed)[i].CloseJob? { assert s.sent[i] == Jobs(s.fed)[i]; }
    if s.worker.Busy? { assert s.sent[n] == s.worker.job; }
  }

  lemma WorkerFree(s0: State, s: State)
    requires Reachable(s0) && Leads(s0, s) && CloseUnsent(s)
    ensures 0 < s.cap && !s.flags.closed && !Stopped(s.worker)
    ensures s.worker.Busy? ==> !s.worker.job.CloseJob?
    ensures s.worker.Replying? ==> s.worker.job.c !in s.answers
  {
    LeadsReaches(s0, s);
    ReachableOk(s);
    NoCloseYet(s);
  }

  // ---- a downstream without failures ----

  const HEALTHY := Outcomes([], None, None)

  /** No write error is held back. */
  predicate Clean(m: Memory) { m.Async? ==> m.a.errs == [] }

  lemma HealthyTurn(m: Memory, job: Job)
    ensures Clean(m) ==> Clean(Worker.Work(m, Take(job), HEALTHY).0)
    ensures Clean(m) && !job.EventJob? ==> Worker.Work(m, Take(job), HEALTHY).1.reply == Some(None)
  {
    FirstOfTwo(None, None);
    FirstOfThree(None, None, None);
    if m.Batch? {
      WritesResultNone(|m.b.pending|, HEALTHY);
      assert BatchResult(m.b, HEALTHY) == None;
    }
  }

  // ---- emptying the channel ----

  function Rank(w: WorkerPc): nat {
    match w
    case Busy(_) => 2
    case Replying(_, _) => 1
    case _ => 0
  }

  /** The worker, an empty channel, and everything else as it was. */
  predicate DrainedFrom(s: State, u: State) {
    && u.worker == Idle && u.chan == [] && u.sent == s.sent
    && u.calls == s.calls && u.owner == s.owner && u.gap == s.gap && u.flags == s.flags && u.cap == s.cap && u.done == s.done
    && (Clean(s.memory) ==> Clean(u.memory))
  }

  /** One step of a worker that has something to do. */
  lemma DrainStep(s0: State, s: State) returns (u: State)
    requires Reachable(s0) && Leads(s0, s) && CloseUnsent(s) && !(s.worker.Idle? && s.chan == [])
    ensures Leads(s0, u) && 3 * |u.chan| + Rank(u.worker) < 3 * |s.chan| + Rank(s.worker)
    ensures u == s.(worker := u.worker, chan := u.chan, memory := u.memory, fed := u.fed, answers := u.answers)
    ensures Clean(s.memory) ==> Clean(u.memory)
  {
    WorkerFree(s0, s);
    var w := if s.worker.Idle? then Recv else if s.worker.Busy? then Handle(HEALTHY) else Reply;
    if s.worker.Busy? { HealthyTurn(s.memory, s.worker.job); }
    u := Go(s0, s, Work(w));
  }

  lemma {:induction false} Drain(s0: State, s: State) returns (u: State)
    requires Reachable(s0) && Leads(s0, s) && CloseUnsent(s)
    ensures Leads(s0, u) && DrainedFrom(s, u)
    decreases 3 * |s.chan| + Rank(s.worker)
  {
    if s.worker.Idle? && s.chan == [] {
      return s;
    }
    var s1 := DrainStep(s0, s);
    u := Drain(s0, s1);
  }

  // ---- sending behind the close job ----

  predicate Distinct(js: seq<Job>) { forall i, k :: 0 <= i < k < |js| ==> js[i].c != js[k].c }

  /** Jobs of calls that have passed the flag check and not yet sent. */
  ghost predicate Postable(s: State, js: seq<Job>) {
    Distinct(js) && forall j <- js :: s.At(j.c, Ready) && j == JobOf(j.c, s.calls[j.c].op)
  }

  function Settled(op: Op): Call { Call(op, if op.Write? then Returned(None) else Waiting) }

  /** js sent and counted, nothing else changed. */
  ghost predicate Posted(s: State, u: State, js: seq<Job>) {
    && u == s.(chan := s.chan + js, sent := s.sent + js, calls := u.calls, enqueued := u.enqueued)
    && (forall d :: d in s.calls ==> d in u.calls)
    && (forall j <- js :: j.c in s.calls && u.calls[j.c] == Settled(s.calls[j.c].op))
    && (forall d :: d in s.calls && (forall j <- js :: j.c != d) ==> u.calls[d] == s.calls[d])
  }

  lemma SendStep(s0: State, s: State, c: nat) returns (u: State)
    requires Leads(s0, s) && |s.chan| < s.cap && s.At(c, Ready)
    ensures Leads(s0, u)
    ensures var job := JobOf(c, s.calls[c].op);
            u == s.(chan := s.chan + [job], sent := s.sent + [job], calls := s.calls[c := Call(s.calls[c].op, Sent)])
  {
    u := Go(s0, s, Client(c, Send));
  }

  lemma CountStep(s0: State, s: State, c: nat) returns (u: State)
    requires Leads(s0, s) && s.At(c, Sent)
    ensures Leads(s0, u) && u == s.(enqueued := s.enqueued + 1, calls := s.calls[c := Settled(s.calls[c].op)])
  {
    u := Go(s0, s, Client(c, CountSend));
  }

  lemma Overwrite(m: map<nat, Call>, c: nat, x: Call, y: Call)
    ensures m[c := x][c := y] == m[c := y]
  {
  }

  lemma PostOne(s0: State, s: State, j: Job) returns (u: State)
    requires Leads(s0, s) && |s.chan| < s.cap && s.At(j.c, Ready) && j == JobOf(j.c, s.calls[j.c].op)
    ensures Leads(s0, u)
    ensures u == s.(chan := s.chan + [j], sent := s.sent + [j], enqueued := s.enqueued + 1, calls := s.calls[j.c := Settled(s.calls[j.c].op)])
  {
    var s1 := SendStep(s0, s, j.c);
    u := CountStep(s0, s1, j.c);
    Overwrite(s.calls, j.c, Call(s.calls[j.c].op, Sent), Settled(s.calls[j.c].op));
  }

  lemma PostedCons(s: State, s1: State, u: State, js: seq<Job>)
    requires js != [] && Distinct(js) && js[0].c in s.calls
    requires s1 == s.(chan := s.chan + [js[0]], sent := s.sent + [js[0]], enqueued := s.enqueued + 1, calls := s.calls[js[0].c := Settled(s.calls[js[0].c].op)])
    requires Posted(s1, u, js[1..]) && forall j <- js :: j.c in s.calls
    ensures Posted(s, u, js)
  {
    var j := js[0];
    assert js == [j] + js[1..];
    Assoc(s.chan, [j], js[1..]);
    Assoc(s.sent, [j], js[1..]);
    forall k <- js ensures u.calls[k.c] == Settled(s.calls[k.c].op) {
      if k == j {
        assert forall i <- js[1..] :: i.c != j.c;
      } else {
        assert k in js[1..];
      }
    }
    forall d | d in s.calls && (forall k <- js :: k.c != d) ensures u.calls[d] == s.calls[d] {
      assert j in js;
      assert forall k <- js[1..] :: k in js;
    }
  }

  lemma {:induction false} PostAll(s0: State, s: State, js: seq<Job>) returns (u: State)
    requires Leads(s0, s) && |s.chan| + |js| <= s.cap && Postable(s, js)
    ensures Leads(s0, u) && Posted(s, u, js)
    decreases |js|
  {
    if js == [] {
      assert s.chan + js == s.chan && s.sent + js == s.sent;
      return s;
    }
    var j := js[0];
    assert j in js;
    var s1 := PostOne(s0, s, j);
    assert forall i :: 0 <= i < |js| - 1 ==> js[1..][i] == js[i + 1];
    u := PostAll(s0, s1, js[1..]);
    PostedCons(s, s1, u, js);
  }

  // ---- the stranding run ----

  /** The owner's job has been taken by the worker and js has been sent behind it. */
  ghost predicate Behind(s: State, u: State, c: nat, js: seq<Job>) {
    && u.worker == Busy(CloseJob(c)) && u.chan == js && u.sent == s.sent + [CloseJob(c)] + js
    && u.owner == Some(c) && u.gap == s.gap && u.cap == s.cap && u.At(c, Sent) && u.calls[c].op.Close?
    && (forall j <- js :: j.c in s.calls && j.c in u.calls && u.calls[j.c] == Settled(s.calls[j.c].op))
    && (Clean(s.memory) ==> Clean(u.memory))
  }

  lemma CheckOwner(s: State, c: nat) returns (u: State)
    requires Reachable(s) && s.owner == Some(c) && s.At(c, Owning) && s.calls[c].op.Close?
    ensures Leads(s, u) && u == s.(calls := s.calls[c := Call(Close, Ready)]) && 0 < s.cap
  {
    LeadsNowhere(s);
    WorkerFree(s, s);
    u := Go(s, s, Client(c, CheckFlags));
  }

  lemma TakeClose(s0: State, s: State, c: nat) returns (u: State)
    requires Leads(s0, s) && s.At(c, Ready) && s.calls[c].op.Close? && s.chan == [] && s.worker == Idle && 0 < s.cap
    ensures Leads(s0, u)
    ensures u == s.(worker := Busy(CloseJob(c)), sent := s.sent + [CloseJob(c)], calls := s.calls[c := Call(Close, Sent)])
  {
    var s1 := SendStep(s0, s, c);
    assert s1.chan == [CloseJob(c)];
    u := Go(s0, s1, Work(Recv));
    assert u.chan == [];
  }

  /** The channel drained, the close job sent and taken. */
  predicate Taken(s: State, u: State, c: nat) {
    && u.worker == Busy(CloseJob(c)) && u.chan == [] && u.sent == s.sent + [CloseJob(c)]
    && u.owner == s.owner && u.gap == s.gap && u.cap == s.cap && u.calls == s.calls[c := Call(Close, Sent)]
    && (Clean(s.memory) ==> Clean(u.memory))
  }

  lemma TakeOwner(s: State, c: nat) returns (u: State)
    requires Reachable(s) && s.owner == Some(c) && s.At(c, Owning) && s.calls[c].op.Close?
    ensures Leads(s, u) && Taken(s, u, c)
  {
    var s1 := CheckOwner(s, c);
    var s2 := Drain(s, s1);
    u := TakeClose(s, s2, c);
    Overwrite(s.calls, c, Call(Close, Ready), Call(Close, Sent));
  }

  lemma StillPostable(s: State, s1: State, c: nat, js: seq<Job>)
    requires Postable(s, js) && s.At(c, Owning) && Taken(s, s1, c)
    ensures Postable(s1, js) && forall j <- js :: j.c != c
  {
  }

  lemma TakenThenPosted(s: State, s1: State, u: State, c: nat, js: seq<Job>)
    requires s.owner == Some(c) && Taken(s, s1, c) && Posted(s1, u, js)
    requires forall j <- js :: j.c != c && j.c in s.calls
    ensures Behind(s, u, c, js)
  {
    assert s1.chan + js == js;
  }

  lemma SendBehind(s: State, c: nat, js: seq<Job>) returns (u: State)
    requires Reachable(s) && s.owner == Some(c) && s.At(c, Owning) && s.calls[c].op.Close?
    requires Postable(s, js) && |js| <= s.cap
    ensures Leads(s, u) && Behind(s, u, c, js)
  {
    var s1 := TakeOwner(s, c);
    StillPostable(s, s1, c, js);
    u := PostAll(s, s1, js);
    TakenThenPosted(s, s1, u, c, js);
  }

  /** From there the worker runs to its end, and the Close returns. */
  ghost predicate Ended(s: State, u: State, c: nat) {
    && u.worker == Done && u.chan == s.chan && u.sent == s.sent && u.owner == s.owner && u.gap == s.gap && u.cap == s.cap
    && (forall d :: d in s.calls && d != c ==> d in u.calls && u.calls[d] == s.calls[d])
    && c in u.calls && u.calls[c].op.Close? && u.calls[c].pc.Returned? && (Clean(s.memory) ==> u.calls[c].pc.r == None)
  }

  /** The worker answers the control job in hand. */
  lemma AnswerJob(s0: State, s: State) returns (u: State)
    requires Reachable(s0) && Leads(s0, s) && s.worker.Busy? && !s.worker.job.EventJob?
    ensures var c := s.worker.job.c;
            && Leads(s0, u) && u.worker == (if s.worker.job.CloseJob? then Stopping else Idle)
            && c in u.answers && (Clean(s.memory) ==> u.answers[c] == None)
            && u == s.(worker := u.worker, memory := u.memory, fed := u.fed, answers := u.answers)
  {
    HealthyTurn(s.memory, s.worker.job);
    ReplyIffControl(s.memory, s.worker.job, HEALTHY);
    var s1 := Go(s0, s, Work(Handle(HEALTHY)));
    LeadsReaches(s0, s1);
    ReachableOk(s1);
    u := Go(s0, s1, Work(Reply));
  }

  lemma StopWorker(s0: State, s: State) returns (u: State)
    requires Leads(s0, s) && s.worker == Stopping
    ensures Leads(s0, u) && u == s.(worker := Done, done := true, flags := MarkShut(s.flags))
  {
    var s1 := Go(s0, s, Work(MarkClosed));
    u := Go(s0, s1, Work(CloseDone));
  }

  lemma ResponseStep(s0: State, s: State, c: nat) returns (u: State)
    requires Leads(s0, s) && s.At(c, Waiting) && s.calls[c].op.Close? && c in s.answers
    ensures Leads(s0, u) && u == s.(calls := s.calls[c := Call(Close, Draining(s.answers[c]))])
  {
    u := Go(s0, s, Client(c, Response));
  }

  lemma ReturnClose(s0: State, s: State, c: nat) returns (u: State)
    requires Leads(s0, s) && s.done && s.At(c, Sent) && s.calls[c].op.Close? && c in s.answers
    ensures Leads(s0, u)
    ensures u == s.(enqueued := s.enqueued + 1, calls := s.calls[c := Call(Close, Returned(s.answers[c]))])
  {
    var r := s.answers[c];
    var s1 := CountStep(s0, s, c);
    var s2 := ResponseStep(s0, s1, c);
    Overwrite(s.calls, c, Call(Close, Waiting), Call(Close, Draining(r)));
    u := Go(s0, s2, Client(c, AwaitDone));
    Overwrite(s.calls, c, Call(Close, Draining(r)), Call(Close, Returned(r)));
  }

  lemma Finish(s0: State, s: State, c: nat) returns (u: State)
    requires Reachable(s0) && Leads(s0, s) && s.worker == Busy(CloseJob(c)) && s.At(c, Sent) && s.calls[c].op.Close?
    ensures Leads(s0, u) && Ended(s, u, c)
  {
    var s1 := AnswerJob(s0, s);
    var s2 := StopWorker(s0, s1);
    u := ReturnClose(s0, s2, c);
  }

  /** Any calls past the flag check, in any order and up to the size of the buffer, can be left behind the close job. */
  lemma StrandAll(s: State, c: nat, js: seq<Job>) returns (u: State)
    requires Reachable(s) && s.owner == Some(c) && s.At(c, Owning) && s.calls[c].op.Close?
    requires Postable(s, js) && |js| <= s.cap
    ensures Leads(s, u) && u.worker.Done? && u.owner == Some(c)
    ensures u.chan == js && u.sent == s.sent + [CloseJob(c)] + js
    ensures forall j <- js :: j.c in s.calls && j.c in u.calls && u.calls[j.c] == Settled(s.calls[j.c].op)
    ensures c in u.calls && u.calls[c].op.Close? && u.calls[c].pc.Returned? && (Clean(s.memory) ==> u.calls[c].pc.r == None)
  {
    assert forall j <- js :: j.c != c;
    var s1 := SendBehind(s, c, js);
    u := Finish(s, s1, c);
  }

  // ---- exactly these ----

  /** Some run that keeps this Close stops the worker with js left in the channel. */
  ghost predicate CanStrand(s: State, c: nat, js: seq<Job>) {
    exists u :: Leads(s, u) && u.owner == Some(c) && u.worker.Done? && u.chan == js
  }

  lemma LeftInChannel(u: State)
    requires SharedOk(u) && Stopped(u.worker)
    ensures |u.chan| <= u.cap && Distinct(u.chan)
    ensures forall j <- u.chan :: (j.EventJob? ==> j.c in u.gap) && j.c in u.calls && j == JobOf(j.c, u.calls[j.c].op)
  {
    CloseIsLast(u);
    var k := |Jobs(u.fed)|;
    forall i | 0 <= i < |u.chan| ensures u.chan[i] == u.sent[k + i] {}
  }

  lemma StoppedShape(u: State)
    requires Reachable(u) && Stopped(u.worker)
    ensures |u.chan| <= u.cap && Distinct(u.chan)
    ensures forall j <- u.chan :: (j.EventJob? ==> j.c in u.gap) && j.c in u.calls && j == JobOf(j.c, u.calls[j.c].op)
  {
    ReachableOk(u);
    LeftInChannel(u);
  }

  lemma StrandedAreInGap(s: State, c: nat, u: State)
    requires Reachable(s) && s.owner == Some(c) && s.At(c, Owning) && Leads(s, u) && u.owner == Some(c) && Stopped(u.worker)
    ensures |u.chan| <= s.cap && Distinct(u.chan) && u.gap == s.gap
    ensures forall j <- u.chan :: (j.EventJob? ==> j.c in s.gap) && (j.c in s.calls ==> j == JobOf(j.c, s.calls[j.c].op))
  {
    LeadsReaches(s, u);
    StoppedShape(u);
    var ls :| Runs(s, ls) && Exec(s, ls) == u;
    GapKept(s, c, ls);
    RunKeepsCall(s, ls, c);
    forall j <- u.chan ensures j.c in s.calls ==> j == JobOf(j.c, s.calls[j.c].op) { RunKeepsCall(s, ls, j.c); }
  }

  /**
   The events a Close can strand, exactly: at the moment it sets `closing`, some run leaves the events
   js undelivered in the channel iff they are events of distinct Writes past the flag check, at most as
   many as the buffer holds.
   */
  lemma StrandedExactly(before: State, c: nat, js: seq<Job>)
    requires Winning(before, c) && forall j <- js :: j.EventJob?
    ensures var s := Entered(before, c);
            CanStrand(s, c, js) <==>
              && |js| <= s.cap && Distinct(js)
              && forall j <- js :: j.c in s.gap && j.c in s.calls && j == JobOf(j.c, s.calls[j.c].op)
  {
    var s := Entered(before, c);
    EnteredShape(before, c);
    if CanStrand(s, c, js) {
      var u :| Leads(s, u) && u.owner == Some(c) && u.worker.Done? && u.chan == js;
      StrandedAreInGap(s, c, u);
    } else if |js| <= s.cap && Distinct(js) && forall j <- js :: j.c in s.gap && j.c in s.calls && j == JobOf(j.c, s.calls[j.c].op) {
      var u := StrandAll(s, c, js);
      assert false;
    }
  }

  /** Every run that keeps this Close and stops the worker delivers every accepted event. */
  ghost predicate AllDelivered(s: State, c: nat) {
    forall u :: Leads(s, u) && u.owner == Some(c) && Stopped(u.worker) ==> DeliveredEvents(u) == JobEvents(u.sent)
  }

  /** A single Write in the gap is enough to lose an event. */
  lemma OneStranded(s: State, c: nat, d: nat)
    requires Reachable(s) && s.owner == Some(c) && s.At(c, Owning) && s.calls[c].op.Close?
    requires s.At(d, Ready) && s.calls[d].op.Write?
    ensures !AllDelivered(s, c)
  {
    var j := JobOf(d, s.calls[d].op);
    LeadsNowhere(s);
    WorkerFree(s, s);
    var u := StrandAll(s, c, [j]);
    LeadsReaches(s, u);
    AcceptedIsDeliveredOrStranded(u);
    FlatMapOne(JobEvent, j);
    assert |JobEvents(u.sent)| == |DeliveredEvents(u)| + 1;
  }

  /** "Every accepted event is delivered" holds of a Close iff no Write is past the flag check when it sets `closing`. */
  lemma AllDeliveredIff(before: State, c: nat)
    requires Winning(before, c)
    ensures AllDelivered(Entered(before, c), c) <==> Entered(before, c).gap == {}
  {
    var s := Entered(before, c);
    EnteredShape(before, c);
    if s.gap == {} {
      forall u | Leads(s, u) && u.owner == Some(c) && Stopped(u.worker) ensures DeliveredEvents(u) == JobEvents(u.sent) {
        StrandedAreInGap(s, c, u);
        LeadsReaches(s, u);
        StrandedBound(u);
      }
    } else {
      var d :| d in s.gap;
      OneStranded(s, c, d);
    }
  }

  // ---- one such run ----

  lemma Begun(s0: State, s: State, c: nat, op: Op) returns (u: State)
    requires Leads(s0, s) && c !in s.calls && !op.Close? && s.flags == Flags(false, false)
    ensures Leads(s0, u) && u == s.(calls := s.calls[c := Call(op, Ready)])
  {
    var s1 := Go(s0, s, Client(c, Invoke(op)));
    u := Go(s0, s1, Client(c, CheckFlags));
    assert u.calls == s.calls[c := Call(op, Ready)];
  }

  /** A Write and a Sync have passed the flag check, a Close has set `closing`. */
  lemma Overtaken(s0: State, e: Event) returns (s: State)
    requires Init(s0)
    ensures Leads(s0, s) && s.cap == s0.cap && s.sent == [] && s.memory == s0.memory && s.owner == Some(1)
    ensures s.calls == map[0 := Call(Write(e), Ready), 2 := Call(Sync, Ready), 1 := Call(Close, Owning)]
  {
    InitOk(s0);
    LeadsNowhere(s0);
    var s1 := Begun(s0, s0, 0, Write(e));
    var s2 := Begun(s0, s1, 2, Sync);
    var s3 := Go(s0, s2, Client(1, Invoke(Close)));
    s := Go(s0, s3, Client(1, CloseEnter));
    assert s.calls == map[0 := Call(Write(e), Ready), 2 := Call(Sync, Ready), 1 := Call(Close, Owning)];
  }

  lemma LeadsOn(s0: State, s: State, u: State)
    requires Reachable(s0) && Leads(s0, s) && Leads(s, u)
    ensures Reachable(u) && u.start == s0.start
  {
    LeadsReaches(s0, s);
    LeadsReaches(s, u);
    var ls :| Runs(s0, ls) && Exec(s0, ls) == s;
    RunKeepsCall(s0, ls, 0);
    var ms :| Runs(s, ms) && Exec(s, ms) == u;
    RunKeepsCall(s, ms, 0);
  }

  lemma StrandBoth(s0: State, e: Event) returns (u: State)
    requires Init(s0) && s0.cap >= 2
    ensures Reachable(u) && u.start == s0.start && u.worker.Done? && u.chan == [EventJob(0, e), FlushJob(2)]
    ensures u.sent == [CloseJob(1)] + [EventJob(0, e), FlushJob(2)]
    ensures 0 in u.calls && u.calls[0] == Call(Write(e), Returned(None))
    ensures 1 in u.calls && u.calls[1] == Call(Close, Returned(None))
    ensures 2 in u.calls && u.calls[2] == Call(Sync, Waiting)
  {
    assert Runs(s0, []) && Exec(s0, []) == s0 && Reachable(s0);
    var js := [EventJob(0, e), FlushJob(2)];
    var s := Overtaken(s0, e);
    u := StrandAll(s, 1, js);
    assert js[0] in js && js[1] in js;
    LeadsOn(s0, s, u);
    assert [] + [CloseJob(1)] == [CloseJob(1)];
  }

  lemma StrandedState(u: State, e: Event)
    requires Reachable(u) && u.worker.Done? && u.sent == [CloseJob(1)] + [EventJob(0, e), FlushJob(2)]
    ensures DeliveredEvents(u) == [] && 2 !in u.answers
  {
    DeliveredAtClose(u);
    assert u.sent[0] == CloseJob(1) && u.sent[1] == EventJob(0, e) && u.sent[2] == FlushJob(2);
    assert u.sent[..0] == [];
    NeverAnswered(u, 0, 2);
  }

  /**
   "Every accepted event is delivered" and "every Sync is answered" fail for either sink with room for
   two jobs: Write and Close return nil, the worker is done, the event was never handed over and a Sync
   waits for an answer that cannot come.
   */
  lemma StrandedRun(s0: State, e: Event)
    requires Init(s0) && s0.cap >= 2
    ensures exists s: State :: Reachable(s) && s.start == s0.start && s.worker.Done? && s.chan == [EventJob(0, e), FlushJob(2)]
              && 0 in s.calls && s.calls[0] == Call(Write(e), Returned(None)) && DeliveredEvents(s) == []
              && 1 in s.calls && s.calls[1] == Call(Close, Returned(None))
              && 2 in s.calls && s.calls[2] == Call(Sync, Waiting) && 2 !in s.answers
  {
    var u := StrandBoth(s0, e);
    StrandedState(u, e);
  }
}
