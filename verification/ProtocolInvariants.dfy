/** What every step of the sink protocol keeps: shared state by component, calls one at a time. */
module ProtocolInvariants {
  import opened Basics
  import opened Seqs
  import opened Worker
  import opened Protocol

  predicate HasClose(jobs: seq<Job>) { exists i :: 0 <= i < |jobs| && jobs[i].CloseJob? }

  ghost function Senders(jobs: seq<Job>): set<nat> { set job | job in jobs :: job.c }

  function InHand(w: WorkerPc): seq<Job> { if w.Busy? then [w.job] else [] }

  /** Received jobs, the job in hand and the channel are, in order, all jobs ever sent; one job per call. */
  ghost predicate QueueOk(received: seq<Job>, w: WorkerPc, chan: seq<Job>, sent: seq<Job>, cap: nat) {
    && received + InHand(w) + chan == sent
    && |chan| <= cap && 0 < cap
    && (forall i, j :: 0 <= i < j < |sent| ==> sent[i].c != sent[j].c)
  }

  /** The worker has taken a close job, and no other job since. */
  predicate Stopped(w: WorkerPc) {
    (w.Replying? && w.job.CloseJob?) || w.Stopping? || w.Marked? || w.Done?
  }

  /** The worker's memory is what its inputs lead to, and a close job is the last input ever. */
  ghost predicate WorkerOk(start: Memory, memory: Memory, fed: seq<Feed>, w: WorkerPc) {
    && Initial(start) && memory == After(start, fed)
    && (HasClose(Jobs(fed)) <==> Stopped(w))
    && (forall i :: 0 <= i < |Jobs(fed)| - 1 ==> !Jobs(fed)[i].CloseJob?)
    && (Stopped(w) ==> fed != [] && Last(fed).input.Take? && Last(fed).input.job.CloseJob?)
    && (w.Replying? ==>
          && fed != [] && Last(fed).input == Take(w.job) && IsControl(Last(fed))
          && LastTurn(start, fed).reply == Some(w.r))
  }

  /** closing, closed and done; one Close at a time owns `closing`. */
  predicate FlagsOk(f: Flags, w: WorkerPc, done: bool, owner: Option<nat>) {
    && (f.closed <==> w.Marked? || w.Done?)
    && (done <==> w.Done?)
    && (f.closing <==> owner.Some? && !f.closed)
  }

  /** The replies of all turns. */
  function Replies(start: Memory, fed: seq<Feed>): (rs: seq<Option<Result>>)
    ensures |rs| == |fed|
  {
    if fed == [] then [] else Replies(start, Front(fed)) + [LastTurn(start, fed).reply]
  }

  /** Input k is c's control job, and its turn gave c's answer. */
  predicate AnsweredAt(fed: seq<Feed>, replies: seq<Option<Result>>, c: nat, r: Result, k: nat) {
    k < |fed| == |replies| && IsControl(fed[k]) && fed[k].input.job.c == c && replies[k] == Some(r)
  }

  /** Exactly the finished control jobs are answered, each with the reply of its own turn. */
  ghost predicate AnswersOk(fed: seq<Feed>, replies: seq<Option<Result>>, answers: map<nat, Result>, w: WorkerPc) {
    && (forall c :: c in answers ==> exists k: nat :: AnsweredAt(fed, replies, c, answers[c], k))
    && (forall k :: 0 <= k < |fed| && IsControl(fed[k]) && !(w.Replying? && k == |fed| - 1) ==>
          fed[k].input.job.c in answers)
    && (w.Replying? ==> w.job.c !in answers)
  }

  /** Behind the close job only Writes that had passed the flag check when `closing` was set. */
  ghost predicate GapOk(sent: seq<Job>, gap: set<nat>) {
    forall i, j :: 0 <= i < j < |sent| && sent[i].CloseJob? && sent[j].EventJob? ==> sent[j].c in gap
  }

  ghost predicate OpsOk(sent: seq<Job>, calls: map<nat, Call>) {
    forall i :: 0 <= i < |sent| ==> sent[i].c in calls && sent[i] == JobOf(sent[i].c, calls[sent[i].c].op)
  }

  /** The calls standing at pc. */
  ghost function CallsAt(calls: map<nat, Call>, pc: Pc): set<nat> { set c | c in calls && calls[c].pc == pc }

  /** Counters in every intermediate state. */
  ghost predicate CountersOk(s: State) {
    && s.enqueued + |CallsAt(s.calls, Sent)| == |s.sent|
    && s.dropped + |CallsAt(s.calls, Dropping)| == |s.drops|
  }

  // ---- one call ----

  /** What the rest of the state says about one call. */
  datatype View = View(sent: bool, dropped: bool, answer: Option<Result>, owner: bool, owned: bool, inGap: bool, closed: bool)

  ghost function ViewOf(s: State, c: nat): View {
    View(c in Senders(s.sent), c in s.drops, if c in s.answers then Some(s.answers[c]) else None,
         s.owner == Some(c), s.owner.Some?, c in s.gap, s.flags.closed)
  }

  /** Program counters each operation can be at. */
  predicate Typed(call: Call) {
    match call.op
    case Write(_) => call.pc == Begin || call.pc == Ready || call.pc == Sent || call.pc == Dropping || call.pc.Returned?
    case Sync => call.pc == Begin || call.pc == Ready || call.pc == Sent || call.pc == Waiting || call.pc.Returned?
    case Close => call.pc != Dropping
  }

  /** Program counters a call can be at once its job is in the channel. */
  predicate Posted(call: Call) {
    || call.pc == Sent || call.pc == Waiting || call.pc.Draining?
    || (call.pc.Returned? && (call.op.Write? ==> call.pc.r == None))
  }

  predicate CallOk(call: Call, v: View) {
    && Typed(call)
    && (v.sent ==> Posted(call) && !v.dropped)
    && (call.pc == Sent || call.pc == Waiting || call.pc.Draining? ==> v.sent)
    // Writes: nil is exactly one send or one drop, an error neither
    && (v.dropped ==> call.op.Write? && (call.pc == Dropping || call.pc == Returned(None)))
    && (call.op.Write? && (call.pc == Dropping || call.pc == Returned(None)) ==> v.dropped || v.sent)
    && (call.pc == Dropping ==> v.dropped)
    && (call.op.Write? && call.pc == Ready && v.owned ==> v.inGap)
    // Sync and Close: where a nil result comes from
    && (call.op.Sync? && call.pc == Returned(None) ==> v.answer == Some(None))
    && (call.op.Close? && call.pc == Returned(None) ==> v.closed)
    && (call.op.Close? && v.sent && (call.pc == Returned(None) || call.pc == Draining(None)) ==> v.answer == Some(None))
    // ownership of `closing`
    && (v.owner ==> call.op.Close? && call.pc != Begin && call.pc != Joining && (v.sent <==> Posted(call)))
    && (call.op.Close? && !v.owner ==> (call.pc == Begin || call.pc == Joining || call.pc.Returned?) && !v.sent)
  }

  ghost predicate CallsOk(s: State) {
    && (s.owner.Some? ==> s.owner.value in s.calls)
    && (forall c :: c in s.calls ==> CallOk(s.calls[c], ViewOf(s, c)))
    && (forall c :: c in s.drops ==> c in s.calls)
  }

  ghost predicate SharedOk(s: State) {
    && QueueOk(Jobs(s.fed), s.worker, s.chan, s.sent, s.cap)
    && WorkerOk(s.start, s.memory, s.fed, s.worker)
    && FlagsOk(s.flags, s.worker, s.done, s.owner)
    && AnswersOk(s.fed, Replies(s.start, s.fed), s.answers, s.worker)
    && GapOk(s.sent, s.gap)
    && OpsOk(s.sent, s.calls)
  }

  ghost predicate Inv(s: State) { SharedOk(s) && CallsOk(s) && CountersOk(s) }
}
