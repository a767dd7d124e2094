/** Any number of workers, operators and redelivered webhooks acting on the shared rows.
    One step is one database transaction, one external call or one crash; a run of the system
    is a sequence of steps, and a step that is not enabled leaves the state as it is. */
module ReplyProtocol {
  import opened Outcomes
  import opened ReplyRows

  /** Where a worker stands inside process_agent_event. */
  datatype Pc =
    | Idle
    | Resolving(event: nat)
    | Inserting(message: nat)
    | Claiming(run: nat)
    | Loading(run: nat, token: nat)
    | Working(run: nat, token: nat)
    | Persisting(run: nat, token: nat, text: string)
    | Guarding(run: nat, token: nat, text: string)
    | Guarded(run: nat, token: nat, text: string)
    | Sent(run: nat, token: nat, text: string)
    | Completing(run: nat, token: nat, reply: nat)
    | Releasing(run: nat, token: nat, terminal: bool, again: bool)

  /** `seen` is the last clock value the worker read. */
  datatype Worker = Worker(pc: Pc, seen: int)

  datatype Lease = Lease(token: nat, from: int, until: int)

  /** What happened to a run: the leases granted since the lease columns were last cleared, every
      text a persist step stored, and the external sends with their fate. */
  datatype Trail = Trail(leases: seq<Lease>, stored: set<string>, sends: nat, lost: nat, commits: nat)

  datatype State = State(
    rows: Rows, clock: int, nextToken: nat, trails: seq<Trail>, workers: seq<Worker>,
    locks: map<Thread, nat>)

  /** Webhooks, job bookkeeping, other routes that store messages, and time. */
  datatype Environment =
    | Tick(elapsed: nat)
    | Ingest(thread: Thread, externalEvent: nat, externalMessage: nat, body: Option<string>)
    | EventEnqueued(e: nat)
    | EventIgnored(e: nat)
    | EventProcessed(e: nat, account: Account, media: Option<string>)
    | Post(posted: Message)

  datatype Operation =
    | RequestIt(source: Option<nat>)
    | ClaimIt(actor: nat)
    | ReleaseIt(actor: nat, allowOverride: bool)
    | ResolveIt(actor: nat, allowOverride: bool, resume: bool, cancel: bool)

  datatype Action =
    | Start(e: nat)
    | Resolve(routed: bool)
    | Insert(channel: Channel, prompt: nat)
    | Claim(now: int)
    | Load(usable: bool)
    | Renew(now: int)
    | ToolPause(enabled: bool)
    | Produce(text: string)
    | FailWork(terminal: bool, again: bool)
    | Persist
    | Guard
    | Send(delivered: bool, refusal: bool)
    | Commit(ok: bool)
    | Complete
    | Release
    | Fault
    | Crash

  datatype Step =
    | Env(event: Environment)
    | Operator(conversation: Thread, operation: Operation)
    | Work(w: nat, action: Action)

  const NO_TRAIL := Trail([], {}, 0, 0, 0)

  function Initial(workers: nat): State {
    State(Rows([], [], [], []), 0, 0, [], seq(workers, _ => Worker(Idle, 0)), map[])
  }

  // ---------------------------------------------------------------- building blocks

  function PcRun(pc: Pc): Option<nat> {
    match pc
    case Idle => None case Resolving(_) => None case Inserting(_) => None
    case Claiming(r) => Some(r) case Loading(r, _) => Some(r) case Working(r, _) => Some(r)
    case Persisting(r, _, _) => Some(r) case Guarding(r, _, _) => Some(r) case Guarded(r, _, _) => Some(r)
    case Sent(r, _, _) => Some(r) case Completing(r, _, _) => Some(r) case Releasing(r, _, _, _) => Some(r)
  }

  function PcToken(pc: Pc): Option<nat> {
    match pc
    case Idle => None case Resolving(_) => None case Inserting(_) => None case Claiming(_) => None
    case Loading(_, t) => Some(t) case Working(_, t) => Some(t)
    case Persisting(_, t, _) => Some(t) case Guarding(_, t, _) => Some(t) case Guarded(_, t, _) => Some(t)
    case Sent(_, t, _) => Some(t) case Completing(_, t, _) => Some(t) case Releasing(_, t, _, _) => Some(t)
  }

  predicate InTransaction(pc: Pc) {
    pc.Guarded? || pc.Sent?
  }

  function PcAt(s: State, w: nat): Pc {
    if w < |s.workers| then s.workers[w].pc else Idle
  }

  function Put(s: State, w: nat, worker: Worker): State
    requires w < |s.workers|
  {
    s.(workers := s.workers[w := worker])
  }

  function Go(s: State, w: nat, pc: Pc): State
    requires w < |s.workers|
  {
    Put(s, w, s.workers[w].(pc := pc))
  }

  function SyncTrail(trail: Trail, run: Run): Trail {
    if run.token.None? then trail.(leases := []) else trail
  }

  /** New rows; a run whose lease columns are empty starts a fresh lease list. */
  function WithRows(s: State, rows: Rows): State {
    s.(rows := rows,
       trails := seq(|rows.runs|, r requires 0 <= r < |rows.runs| =>
                       if r < |s.trails| then SyncTrail(s.trails[r], rows.runs[r]) else NO_TRAIL))
  }

  function SetTrail(s: State, r: nat, trail: Trail): State
    requires r < |s.trails|
  {
    s.(trails := s.trails[r := trail])
  }

  /** New rows together with the new trail of the one run they concern. */
  function Touch(s: State, rows: Rows, r: nat, trail: Trail): State
    requires r < |s.trails|
  {
    SetTrail(s.(rows := rows), r, trail)
  }

  function Unlock(s: State, conversation: Thread): State {
    s.(locks := s.locks - {conversation})
  }

  /** The transaction of a worker ends without its commit: the lock goes, and a send that had
      reached the channel is lost. */
  function Abort(s: State, w: nat): State {
    var pc := PcAt(s, w);
    if !InTransaction(pc) || pc.run >= |s.rows.runs| || pc.run >= |s.trails| then s
    else
      var freed := Unlock(s, s.rows.runs[pc.run].conversation);
      if pc.Sent? && s.rows.runs[pc.run].channel.Telegram? then
        SetTrail(freed, pc.run, s.trails[pc.run].(lost := s.trails[pc.run].lost + 1))
      else freed
  }

  // ---------------------------------------------------------------- worker steps

  function StartStep(s: State, w: nat, e: nat): State {
    if w < |s.workers| && s.workers[w].pc.Idle? && e < |s.rows.events| then
      var m := s.rows.events[e].message;
      if m.Some? && m.value < |s.rows.messages|
         && ActiveHandoff(s.rows.handoffs, s.rows.messages[m.value].conversation).Some? then s
      else Go(s, w, Resolving(e))
    else s
  }

  function ResolveStep(s: State, w: nat, routed: bool): State {
    var pc := PcAt(s, w);
    if !pc.Resolving? then s
    else
      match AnswerableMessage(s.rows, pc.event)
      case None => Go(s, w, Idle)
      case Some(m) =>
        match FindRun(s.rows.runs, m)
        case Some(r) => Go(s, w, Claiming(r))
        case None => Go(s, w, if routed then Inserting(m) else Idle)
  }

  function InsertStep(s: State, w: nat, channel: Channel, prompt: nat): State {
    var pc := PcAt(s, w);
    if !pc.Inserting? || pc.message >= |s.rows.messages| then s
    else
      var (rows, r) := InsertRun(s.rows, pc.message, channel, prompt);
      Go(WithRows(s, rows), w, Claiming(r))
  }

  /** The clock is read before the update commits, and never runs backwards in one worker. */
  predicate ClockReading(s: State, w: nat, now: int) {
    w < |s.workers| && s.workers[w].seen <= now <= s.clock
  }

  function ClaimStep(s: State, w: nat, now: int): State {
    var pc := PcAt(s, w);
    if !pc.Claiming? || !ClockReading(s, w, now) || pc.run >= |s.trails| then s
    else
      var (rows, outcome) := ClaimRun(s.rows, pc.run, s.nextToken, now);
      if outcome.ClaimedRun? then
        var trail := s.trails[pc.run];
        var granted := trail.(leases := trail.leases + [Lease(s.nextToken, now, now + LEASE_SECONDS)]);
        Put(Touch(s, rows, pc.run, granted).(nextToken := s.nextToken + 1),
            w, Worker(Loading(pc.run, s.nextToken), now))
      else Put(s, w, Worker(Idle, now))
  }

  function LoadStep(s: State, w: nat, usable: bool): State {
    var pc := PcAt(s, w);
    if !pc.Loading? then s
    else if !Holds(s.rows, pc.run, pc.token) then Go(s, w, Idle)
    else if !usable then Go(s, w, Releasing(pc.run, pc.token, true, false))
    else
      var run := s.rows.runs[pc.run];
      if run.status.Pending? then Go(s, w, Working(pc.run, pc.token))
      else if !run.status.Generated? then Go(s, w, Idle)
      else if run.text.None? then Go(s, w, Releasing(pc.run, pc.token, true, false))
      else match ValidateResponse(run.text.value)
           case Err(_) => Go(s, w, Releasing(pc.run, pc.token, true, false))
           case Ok(text) => Go(s, w, Guarding(pc.run, pc.token, text))
  }

  function RenewStep(s: State, w: nat, now: int): State {
    var pc := PcAt(s, w);
    if !pc.Working? || !ClockReading(s, w, now) || pc.run >= |s.trails| then s
    else
      var (rows, kept) := RenewLease(s.rows, pc.run, pc.token, now);
      if kept then Put(Touch(s, rows, pc.run, ExtendLease(s.trails[pc.run], now + LEASE_SECONDS)), w, Worker(pc, now))
      else Put(s, w, Worker(Idle, now))
  }

  function ExtendLease(trail: Trail, until: int): Trail {
    if trail.leases == [] then trail
    else trail.(leases := trail.leases[|trail.leases| - 1 := trail.leases[|trail.leases| - 1].(until := until)])
  }

  function ToolPauseStep(s: State, w: nat, enabled: bool): State {
    var pc := PcAt(s, w);
    if !pc.Working? || !enabled || pc.run >= |s.rows.runs| || s.rows.runs[pc.run].conversation in s.locks then s
    else Go(WithRows(s, PauseForApproval(s.rows, s.rows.runs[pc.run].conversation, pc.run)), w, Idle)
  }

  function ProduceStep(s: State, w: nat, text: string): State {
    var pc := PcAt(s, w);
    if !pc.Working? then s
    else match ValidateResponse(text)
         case Err(_) => Go(s, w, Releasing(pc.run, pc.token, true, false))
         case Ok(valid) => Go(s, w, Persisting(pc.run, pc.token, valid))
  }

  function FailWorkStep(s: State, w: nat, terminal: bool, again: bool): State {
    var pc := PcAt(s, w);
    if pc.Working? then Go(s, w, Releasing(pc.run, pc.token, terminal, again)) else s
  }

  function PersistStep(s: State, w: nat): State {
    var pc := PcAt(s, w);
    if !pc.Persisting? || pc.run >= |s.trails| then s
    else
      var (rows, kept) := PersistText(s.rows, pc.run, pc.token, pc.text);
      if kept then
        var trail := s.trails[pc.run];
        Go(Touch(s, rows, pc.run, trail.(stored := trail.stored + {pc.text})), w, Guarding(pc.run, pc.token, pc.text))
      else Go(s, w, Idle)
  }

  function GuardStep(s: State, w: nat): State {
    var pc := PcAt(s, w);
    if !pc.Guarding? || pc.run >= |s.rows.runs| || s.rows.runs[pc.run].conversation in s.locks then s
    else
      var conversation := s.rows.runs[pc.run].conversation;
      var (rows, outcome) := GuardDispatch(s.rows, conversation, pc.run, pc.token);
      match outcome
      case MayDispatch => Go(s.(locks := s.locks[conversation := w]), w, Guarded(pc.run, pc.token, pc.text))
      case PausedForHandoff => Go(WithRows(s, rows), w, Idle)
      case LeaseLost => Go(s, w, Idle)
  }

  function SendStep(s: State, w: nat, delivered: bool, terminal: bool): State {
    var pc := PcAt(s, w);
    if !pc.Guarded? || pc.run >= |s.rows.runs| || pc.run >= |s.trails| then s
    else
      var run := s.rows.runs[pc.run];
      match LookupReply(s.rows, run, pc.run, pc.text)
      case Replayed(m) => Go(Unlock(s, run.conversation), w, Completing(pc.run, pc.token, m))
      case Conflict => Go(Unlock(s, run.conversation), w, Releasing(pc.run, pc.token, true, false))
      case Fresh =>
        if !delivered then Go(Unlock(s, run.conversation), w, Releasing(pc.run, pc.token, terminal, false))
        else
          var trail := s.trails[pc.run];
          Go(SetTrail(s, pc.run, if run.channel.Telegram? then trail.(sends := trail.sends + 1) else trail),
             w, Sent(pc.run, pc.token, pc.text))
  }

  /** The commit went through: the reply exists and the transaction is over. */
  function Committed(s: State, w: nat): State
    requires PcAt(s, w).Sent? && PcAt(s, w).run < |s.rows.runs| && PcAt(s, w).run < |s.trails|
  {
    var pc := PcAt(s, w);
    var run := s.rows.runs[pc.run];
    var trail := s.trails[pc.run];
    var rows := CommitReply(s.rows, run, pc.run, pc.text).0;
    Go(Touch(Unlock(s, run.conversation), rows, pc.run, trail.(commits := trail.commits + 1)),
       w, Completing(pc.run, pc.token, |s.rows.messages|))
  }

  function CommitStep(s: State, w: nat, ok: bool): State {
    var pc := PcAt(s, w);
    if !pc.Sent? || pc.run >= |s.rows.runs| || pc.run >= |s.trails| then s
    else if !ok then Go(Abort(s, w), w, Releasing(pc.run, pc.token, false, false))
    else
      match CommitReply(s.rows, s.rows.runs[pc.run], pc.run, pc.text).1
      case Fresh => Committed(s, w)
      case Replayed(m) => Go(Abort(s, w), w, Completing(pc.run, pc.token, m))
      case Conflict => Go(Abort(s, w), w, Releasing(pc.run, pc.token, true, false))
  }

  function CompleteStep(s: State, w: nat): State {
    var pc := PcAt(s, w);
    if !pc.Completing? then s
    else Go(WithRows(s, CompleteRun(s.rows, pc.run, pc.token, pc.reply).0), w, Idle)
  }

  /** A routing, tool or knowledge error is released twice: where it is caught and once more outside. */
  function ReleaseStep(s: State, w: nat): State {
    var pc := PcAt(s, w);
    if !pc.Releasing? then s
    else Go(WithRows(s, ReleaseRun(s.rows, pc.run, pc.token, pc.terminal)), w,
            if pc.again then Releasing(pc.run, pc.token, pc.terminal, false) else Idle)
  }

  /** An exception no other handler names, between the claim and the release: the open transaction is rolled back and
      the error is released as one that may be retried. */
  function FaultStep(s: State, w: nat): State {
    var pc := PcAt(s, w);
    if PcToken(pc).None? || pc.Releasing? then s
    else Go(Abort(s, w), w, Releasing(PcRun(pc).value, PcToken(pc).value, false, false))
  }

  function CrashStep(s: State, w: nat): State {
    if w < |s.workers| then Go(Abort(s, w), w, Idle) else s
  }

  // ---------------------------------------------------------------- steps and runs

  function ApplyEnvironment(s: State, event: Environment): State {
    match event
    case Tick(elapsed) => s.(clock := s.clock + elapsed)
    case Ingest(thread, external, message, body) => WithRows(s, PersistInbound(s.rows, thread, external, message, body).0)
    case EventEnqueued(e) => WithRows(s, MarkEnqueued(s.rows, e))
    case EventIgnored(e) => WithRows(s, MarkIgnored(s.rows, e))
    case EventProcessed(e, account, media) => WithRows(s, ProcessEvent(s.rows, e, account, media).0)
    case Post(message) => WithRows(s, PostMessage(s.rows, message))
  }

  /** Only the creation of a handoff waits for the conversation lock. */
  function ApplyOperation(s: State, c: Thread, operation: Operation): State {
    match operation
    case RequestIt(source) => if c in s.locks then s else WithRows(s, RequestHandoff(s.rows, c, source).0)
    case ClaimIt(actor) => WithRows(s, ClaimHandoff(s.rows, c, actor).0)
    case ReleaseIt(actor, allow) => WithRows(s, ReleaseHandoff(s.rows, c, actor, allow).0)
    case ResolveIt(actor, allow, resume, cancel) =>
      WithRows(s, ResolveHandoff(s.rows, c, actor, allow, resume, cancel, s.clock).0)
  }

  function ApplyAction(s: State, w: nat, action: Action): State {
    match action
    case Start(e) => StartStep(s, w, e)
    case Resolve(routed) => ResolveStep(s, w, routed)
    case Insert(channel, prompt) => InsertStep(s, w, channel, prompt)
    case Claim(now) => ClaimStep(s, w, now)
    case Load(usable) => LoadStep(s, w, usable)
    case Renew(now) => RenewStep(s, w, now)
    case ToolPause(enabled) => ToolPauseStep(s, w, enabled)
    case Produce(text) => ProduceStep(s, w, text)
    case FailWork(terminal, again) => FailWorkStep(s, w, terminal, again)
    case Persist => PersistStep(s, w)
    case Guard => GuardStep(s, w)
    case Send(delivered, refusal) => SendStep(s, w, delivered, refusal)
    case Commit(ok) => CommitStep(s, w, ok)
    case Complete => CompleteStep(s, w)
    case Release => ReleaseStep(s, w)
    case Fault => FaultStep(s, w)
    case Crash => CrashStep(s, w)
  }

  function Apply(s: State, step: Step): State {
    match step
    case Env(event) => ApplyEnvironment(s, event)
    case Operator(conversation, operation) => ApplyOperation(s, conversation, operation)
    case Work(w, action) => ApplyAction(s, w, action)
  }

  function Exec(s: State, steps: seq<Step>): State {
    if steps == [] then s else Apply(Exec(s, steps[..|steps| - 1]), steps[|steps| - 1])
  }
}
