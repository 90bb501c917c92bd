/**
 AsyncSink and BatchSink as one interleaved step machine: any number of Write, Sync and Close calls,
 a bounded channel, and one worker. Reading the flags and sending are separate steps, as in enqueue.
 The two sinks share this protocol; they differ in the worker's memory only.
 */
module Protocol {
  import opened Basics
  import opened Seqs
  import opened Worker

  datatype Op = Write(event: Event) | Sync | Close

  /** Where a call stands. */
  datatype Pc =
    | Begin                    // before its first critical section
    | Joining                  // a Close that found `closing` set
    | Owning                   // the Close that set `closing`, before enqueue reads the flags
    | Ready                    // flags read and passed, before the send
    | Sent                     // job in the channel, before the counter
    | Dropping                 // channel full, before the counter
    | Failed(err: Err)         // owning Close whose enqueue failed, before it resets `closing`
    | Waiting                  // for the response
    | Draining(r: Result)      // owning Close with its result, waiting for `done`
    | Returned(r: Result)

  datatype Call = Call(op: Op, pc: Pc)

  datatype WorkerPc = Idle | Busy(job: Job) | Replying(job: Job, r: Result) | Stopping | Marked | Done

  // ---- the critical sections of the source, on the shared flags ----

  datatype Flags = Flags(closing: bool, closed: bool)
  datatype Verdict = AlreadyClosed | Join | Own

  /** Close's first critical section. */
  function EnterClose(f: Flags): (Flags, Verdict) {
    if f.closed then (f, AlreadyClosed)
    else if f.closing then (f, Join)
    else (f.(closing := true), Own)
  }

  /** The flag checks of enqueue: nil lets the job through. */
  function Admit(f: Flags, control: bool): Result {
    if f.closed then Some(SinkClosed)
    else if f.closing && !control then Some(SinkClosed)
    else None
  }

  function Reopen(f: Flags): Flags { f.(closing := false) }
  function MarkShut(f: Flags): Flags { Flags(false, true) }

  function JobOf(c: nat, op: Op): Job {
    match op
    case Write(e) => EventJob(c, e)
    case Sync => FlushJob(c)
    case Close => CloseJob(c)
  }

  // ---- states and steps ----

  datatype State = State(
    cap: nat, block: bool,
    flags: Flags, chan: seq<Job>, done: bool, enqueued: nat, dropped: nat,
    calls: map<nat, Call>, worker: WorkerPc, memory: Memory, answers: map<nat, Result>,
    // history: initial memory, jobs ever sent, worker inputs so far, owning Close,
    // Writes between flag check and send when it set `closing`, Writes that were dropped
    start: Memory, sent: seq<Job>, fed: seq<Feed>, owner: Option<nat>, gap: set<nat>, drops: set<nat>)
  {
    predicate At(c: nat, pc: Pc) { c in calls && calls[c].pc == pc }

    /** enqueue's blocking select is used for control jobs and under OverflowBlock. */
    predicate Force(c: nat) requires c in calls { !calls[c].op.Write? || block }

    /** Writes that have passed the flag check and not yet sent. */
    function InGap(): set<nat> {
      set c | c in calls && calls[c].op.Write? && calls[c].pc == Ready
    }
  }

  ghost predicate Init(s: State) {
    && s.cap > 0 && s.flags == Flags(false, false) && s.chan == [] && !s.done && s.enqueued == 0 && s.dropped == 0
    && s.calls == map[] && s.worker == Idle && s.answers == map[]
    && Initial(s.start) && s.memory == s.start && s.sent == [] && s.fed == [] && s.owner == None && s.gap == {} && s.drops == {}
  }

  /** Steps of a call. Cancelling the call's context is a step of its own, possible wherever the source selects on it. */
  datatype Act =
    | Invoke(op: Op)
    | CloseEnter | JoinDone | JoinCancelled(err: Err)
    | CheckFlags
    | Send | SendCancelled(err: Err) | SendDone | Drop
    | CountSend | CountDrop
    | Rollback
    | Response | ResponseCancelled(err: Err) | AwaitDone

  /** Steps of the worker goroutine; `o` is what `next` answers. */
  datatype WorkerAct = Recv | Handle(o: Outcomes) | TickFlush(o: Outcomes) | Reply | MarkClosed | CloseDone

  datatype Label = Client(c: nat, act: Act) | Work(step: WorkerAct)

  predicate ClientEnabled(s: State, c: nat, a: Act) {
    match a
    case Invoke(_) => c !in s.calls
    case CloseEnter => s.At(c, Begin) && s.calls[c].op.Close?
    case JoinDone => s.At(c, Joining) && s.done
    case JoinCancelled(_) => s.At(c, Joining)
    case CheckFlags => s.At(c, Owning) || (s.At(c, Begin) && !s.calls[c].op.Close?)
    case Send => s.At(c, Ready) && |s.chan| < s.cap
    case SendCancelled(_) => s.At(c, Ready) && s.Force(c)
    case SendDone => s.At(c, Ready) && s.Force(c) && s.done
    case Drop => s.At(c, Ready) && !s.Force(c) && |s.chan| >= s.cap
    case CountSend => s.At(c, Sent)
    case CountDrop => s.At(c, Dropping)
    case Rollback => c in s.calls && s.calls[c].pc.Failed?
    case Response => s.At(c, Waiting) && c in s.answers
    case ResponseCancelled(_) => s.At(c, Waiting)
    case AwaitDone => c in s.calls && s.calls[c].pc.Draining? && s.done
  }

  /** A call leaves enqueue with an error; a Close still has to reset `closing`. */
  function Refused(op: Op, err: Err): Pc { if op.Close? then Failed(err) else Returned(Some(err)) }

  /** Where the call stands after its step. */
  function NextPc(s: State, c: nat, a: Act): Pc
    requires ClientEnabled(s, c, a) && !a.Invoke?
  {
    var op := s.calls[c].op;
    match a
    case CloseEnter =>
      (match EnterClose(s.flags).1
       case AlreadyClosed => Returned(None)
       case Join => Joining
       case Own => Owning)
    case JoinDone => Returned(None)
    case JoinCancelled(err) => Returned(Some(err))
    case CheckFlags => var r := Admit(s.flags, !op.Write?); if r.Some? then Refused(op, r.value) else Ready
    case Send => Sent
    case SendCancelled(err) => Refused(op, err)
    case SendDone => Refused(op, SinkClosed)
    case Drop => Dropping
    case CountSend => if op.Write? then Returned(None) else Waiting
    case CountDrop => Returned(None)
    case Rollback => Returned(Some(s.calls[c].pc.err))
    case Response => if op.Close? then Draining(s.answers[c]) else Returned(s.answers[c])
    case ResponseCancelled(err) => if op.Close? then Draining(Some(err)) else Returned(Some(err))
    case AwaitDone => Returned(s.calls[c].pc.r)
  }

  function Moved(s: State, c: nat, a: Act): Call
    requires ClientEnabled(s, c, a)
  {
    if a.Invoke? then Call(a.op, Begin) else s.calls[c].(pc := NextPc(s, c, a))
  }

  /** What the step does to the rest of the sink. */
  function Effect(s: State, c: nat, a: Act): State
    requires ClientEnabled(s, c, a)
  {
    match a
    case CloseEnter =>
      var (f, verdict) := EnterClose(s.flags);
      if verdict == Own then s.(flags := f, owner := Some(c), gap := s.InGap()) else s
    case Send =>
      var job := JobOf(c, s.calls[c].op);
      s.(chan := s.chan + [job], sent := s.sent + [job])
    case Drop => s.(drops := s.drops + {c})
    case CountSend => s.(enqueued := s.enqueued + 1)
    case CountDrop => s.(dropped := s.dropped + 1)
    case Rollback => s.(flags := Reopen(s.flags), owner := None)
    case _ => s
  }

  predicate WorkerEnabled(s: State, w: WorkerAct) {
    match w
    case Recv => s.worker.Idle? && s.chan != []
    case Handle(_) => s.worker.Busy?
    case TickFlush(_) => s.worker.Idle? && s.memory.Batch?
    case Reply => s.worker.Replying? && s.worker.job.c !in s.answers   // a response channel holds one answer
    case MarkClosed => s.worker.Stopping?
    case CloseDone => s.worker.Marked?
  }

  function ApplyWorker(s: State, w: WorkerAct): State
    requires WorkerEnabled(s, w)
  {
    match w
    case Recv => s.(worker := Busy(s.chan[0]), chan := s.chan[1..])
    case Handle(o) =>
      var job := s.worker.job;
      var (m, t) := Worker.Work(s.memory, Take(job), o);
      s.(memory := m, fed := s.fed + [Feed(Take(job), o)],
         worker := if t.reply.Some? then Replying(job, t.reply.value) else Idle)
    case TickFlush(o) =>
      s.(memory := Worker.Work(s.memory, Tick, o).0, fed := s.fed + [Feed(Tick, o)])
    case Reply =>
      s.(answers := s.answers[s.worker.job.c := s.worker.r],
         worker := if s.worker.job.CloseJob? then Stopping else Idle)
    case MarkClosed => s.(flags := MarkShut(s.flags), worker := Marked)
    case CloseDone => s.(done := true, worker := Done)
  }

  predicate Enabled(s: State, l: Label) {
    match l
    case Client(c, a) => ClientEnabled(s, c, a)
    case Work(w) => WorkerEnabled(s, w)
  }

  function Apply(s: State, l: Label): State
    requires Enabled(s, l)
  {
    match l
    case Client(c, a) => Effect(s, c, a).(calls := s.calls[c := Moved(s, c, a)])
    case Work(w) => ApplyWorker(s, w)
  }

  /** A run: every label enabled in its turn. */
  ghost predicate Runs(s: State, ls: seq<Label>)
    decreases |ls|, 0
  {
    ls == [] || (Runs(s, Front(ls)) && Enabled(Exec(s, Front(ls)), Last(ls)))
  }

  ghost function Exec(s: State, ls: seq<Label>): State
    requires Runs(s, ls)
    decreases |ls|, 1
  {
    if ls == [] then s else Apply(Exec(s, Front(ls)), Last(ls))
  }

  /** Some interleaving of some calls, from a new sink, leads to s. */
  ghost predicate Reachable(s: State) {
    exists s0: State, ls: seq<Label> :: Init(s0) && Runs(s0, ls) && Exec(s0, ls) == s
  }
}
