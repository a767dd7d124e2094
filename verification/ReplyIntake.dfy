/** What reaches the agent: which updates are stored, how an event settles, and which messages are ever answered. */
module ReplyIntake {
  import opened Outcomes
  import opened Whitespace
  import opened ReplyRows
  import opened ReplyProtocol
  import opened ReplyInvariant
  import opened ReplyTheorems

  // ---------------------------------------------------------------- updates

  ghost predicate KnownEvent(rows: Rows, account: nat, external: nat, e: nat) {
    e < |rows.events| && rows.events[e].account == account && rows.events[e].external == external
  }

  ghost predicate KeyTaken(rows: Rows, key: Key, m: nat) {
    m < |rows.messages| && rows.messages[m].key == Some(key)
  }

  /** A new update with text under a new key: the message and the event that points to it, both readable at every later
      time, the message word for word. */
  lemma FirstDeliveryStays(s: State, thread: Thread, external: nat, key: nat, body: string, more: seq<Step>)
    requires forall e :: !KnownEvent(s.rows, thread.account, external, e)
    requires forall m :: !KeyTaken(s.rows, InboundKey(thread, key), m)
    ensures var t := Exec(Apply(s, Env(Ingest(thread, external, key, Some(body)))), more);
            var m, e := |s.rows.messages|, |s.rows.events|;
            && m < |t.rows.messages| && e < |t.rows.events|
            && t.rows.messages[m] == Message(Some(InboundKey(thread, key)), thread, true, Customer, body, None)
            && t.rows.events[e].account == thread.account && t.rows.events[e].external == external
            && t.rows.events[e].message == Some(m)
  {
    hide Exec;
    var step := Env(Ingest(thread, external, key, Some(body)));
    StoresFirst(s.rows, thread, external, key, body);
    var t := Apply(s, step);
    ExecGrows(t, more);
    assert EventEvolves(t.rows.events[|s.rows.events|], Exec(t, more).rows.events[|s.rows.events|]);
  }

  lemma StoresFirst(rows: Rows, thread: Thread, external: nat, key: nat, body: string)
    requires forall e :: !KnownEvent(rows, thread.account, external, e)
    requires forall m :: !KeyTaken(rows, InboundKey(thread, key), m)
    ensures PersistInbound(rows, thread, external, key, Some(body))
         == (rows.(messages := rows.messages
                               + [Message(Some(InboundKey(thread, key)), thread, true, Customer, body, None)],
                   events := rows.events + [Event(thread.account, external, Received, Some(|rows.messages|))]),
             Ok(|rows.events|))
  {
    var found, taken := FindEvent(rows.events, thread.account, external), FindKey(rows.messages, InboundKey(thread, key));
    var isKnown := found.Some? && KnownEvent(rows, thread.account, external, found.value);
    var isTaken := taken.Some? && KeyTaken(rows, InboundKey(thread, key), taken.value);
  }

  /** Every other update: a repeated one changes nothing and answers with the event already there; one without text
      leaves an ignored event; another event of a stored message points to that message; a key of another conversation
      is refused. */
  lemma LaterDelivery(rows: Rows, thread: Thread, external: nat, key: nat, body: Option<string>, e: nat, m: nat)
    requires EventsOk(rows) && MessagesOk(rows)
    ensures KnownEvent(rows, thread.account, external, e)
            ==> PersistInbound(rows, thread, external, key, body) == (rows, Ok(e))
    ensures (forall i :: !KnownEvent(rows, thread.account, external, i)) && body.None?
            ==> PersistInbound(rows, thread, external, key, body)
                == (rows.(events := rows.events + [Event(thread.account, external, Ignored, None)]), Ok(|rows.events|))
    ensures (forall i :: !KnownEvent(rows, thread.account, external, i)) && body.Some?
            && KeyTaken(rows, InboundKey(thread, key), m) && rows.messages[m].conversation == thread
            ==> PersistInbound(rows, thread, external, key, body)
                == (rows.(events := rows.events + [Event(thread.account, external, Received, Some(m))]), Ok(|rows.events|))
    ensures (forall i :: !KnownEvent(rows, thread.account, external, i)) && body.Some?
            && KeyTaken(rows, InboundKey(thread, key), m) && rows.messages[m].conversation != thread
            ==> PersistInbound(rows, thread, external, key, body) == (rows, Err("channel_message_idempotency_conflict"))
  {
    var found := FindEvent(rows.events, thread.account, external);
    var taken := FindKey(rows.messages, InboundKey(thread, key));
    var isKnown := found.Some? && KnownEvent(rows, thread.account, external, found.value);
  }

  // ---------------------------------------------------------------- how an event settles

  predicate IsOpenEvent(event: Event) {
    event.status.Received? || event.status.Enqueued?
  }

  /** The status of an event after a step. */
  ghost function StatusAfter(s: State, step: Step, e: nat): EventStatus
    requires e < |s.rows.events|
  {
    var event := s.rows.events[e];
    if step == Env(EventEnqueued(e)) && event.status.Received? then Enqueued
    else if step == Env(EventIgnored(e)) && !event.status.Processed? then Ignored
    else if step.Env? && step.event.EventProcessed? && step.event.e == e && IsOpenEvent(event) then
      if step.event.account.Inactive? || (step.event.account.Active? && event.message.None?) then Ignored
      else if step.event.account.Active? && event.message.value < |s.rows.messages| && step.event.media.None? then Processed
      else event.status
    else event.status
  }

  /** A step leaves of an event exactly this: it is processed exactly when its account is active, its message is there and
      no voice step fails, and ignored when the account is inactive or there is no message. */
  lemma EventAfterStep(s: State, step: Step, e: nat)
    requires e < |s.rows.events|
    ensures e < |Apply(s, step).rows.events|
    ensures Apply(s, step).rows.events[e] == s.rows.events[e].(status := StatusAfter(s, step, e))
  {
    hide ApplyAction, ApplyOperation, PersistInbound, PostMessage;
    match step
    case Env(event) => if event.Ingest? { IngestKeepsEvent(s.rows, event, e); }
                       if event.Post? { PostKeepsEvents(s.rows, event.posted); }
    case Operator(c, operation) => OperatorKeepsEvents(s, c, operation);
    case Work(w, action) => WorkerKeepsEvents(s, w, action);
  }

  lemma IngestKeepsEvent(rows: Rows, event: Environment, e: nat)
    requires event.Ingest? && e < |rows.events|
    ensures var t := PersistInbound(rows, event.thread, event.externalEvent, event.externalMessage, event.body).0;
            e < |t.events| && t.events[e] == rows.events[e]
  {
  }

  lemma PostKeepsEvents(rows: Rows, message: Message)
    ensures PostMessage(rows, message).events == rows.events
  {
  }

  lemma OperatorKeepsEvents(s: State, c: Thread, operation: Operation)
    ensures ApplyOperation(s, c, operation).rows.events == s.rows.events
    ensures ApplyOperation(s, c, operation).rows.messages == s.rows.messages
    ensures |ApplyOperation(s, c, operation).rows.runs| == |s.rows.runs|
    ensures ApplyOperation(s, c, operation).workers == s.workers
  {
    hide LatestResolved, LatestEvent;
  }

  lemma WorkerKeepsEvents(s: State, w: nat, action: Action)
    ensures ApplyAction(s, w, action).rows.events == s.rows.events
  {
    hide LookupReply, ReplyMessage, ValidateResponse, AnswerableMessage, FindRun, SyncTrail;
  }

  // ---------------------------------------------------------------- which messages are answered

  /** A message of a customer, with some text. */
  predicate IsQuestion(rows: Rows, m: nat) {
    && m < |rows.messages| && rows.messages[m].inbound && rows.messages[m].author.Customer?
    && Strip(rows.messages[m].text) != []
  }

  predicate AnswersQuestion(rows: Rows, run: Run) {
    && IsQuestion(rows, run.message)
    && run.conversation == rows.messages[run.message].conversation && run.account == run.conversation.account
  }

  ghost predicate AllAnswerQuestions(s: State) {
    && (forall r :: 0 <= r < |s.rows.runs| ==> AnswersQuestion(s.rows, s.rows.runs[r]))
    && (forall w :: 0 <= w < |s.workers| && s.workers[w].pc.Inserting? ==> IsQuestion(s.rows, s.workers[w].pc.message))
  }

  lemma StillQuestion(before: Rows, after: Rows, m: nat)
    requires Extends(before.messages, after.messages) && IsQuestion(before, m)
    ensures IsQuestion(after, m) && after.messages[m] == before.messages[m]
  {
    hide Strip;
  }

  /** Only the insert of a worker adds a run, and only an answerable message leads a worker to it. */
  lemma NewRunsAreInserted(s: State, w: nat, action: Action)
    requires !action.Insert?
    ensures |ApplyAction(s, w, action).rows.runs| == |s.rows.runs|
  {
    hide LookupReply, ReplyMessage, ValidateResponse, AnswerableMessage, FindRun, SyncTrail;
  }

  lemma InsertedRun(s: State, w: nat, channel: Channel, prompt: nat)
    requires PcAt(s, w).Inserting? && IsQuestion(s.rows, PcAt(s, w).message)
    ensures var t := Apply(s, Work(w, Insert(channel, prompt)));
            && |s.rows.runs| <= |t.rows.runs| <= |s.rows.runs| + 1
            && (|t.rows.runs| > |s.rows.runs| ==> AnswersQuestion(t.rows, t.rows.runs[|s.rows.runs|]))
            && t.rows.messages == s.rows.messages && !PcAt(t, w).Inserting?
  {
    hide Strip;
  }

  lemma ComesToInsert(s: State, w: nat, action: Action)
    requires PcAt(ApplyAction(s, w, action), w).Inserting?
    ensures PcAt(ApplyAction(s, w, action), w) == PcAt(s, w)
            || IsQuestion(s.rows, PcAt(ApplyAction(s, w, action), w).message)
  {
    hide PersistText, CompleteRun, ReleaseRun, RenewLease, PauseForApproval, GuardDispatch, ClaimRun, LookupReply,
         CommitReply, SyncTrail, ValidateResponse, FindRun, Strip;
  }

  lemma ApplyKeepsQuestions(s: State, step: Step)
    requires AllAnswerQuestions(s)
    ensures AllAnswerQuestions(Apply(s, step))
  {
    hide Apply, AnswersQuestion, IsQuestion;
    var t := Apply(s, step);
    ExecOneGrows(s, step);
    SameWorkers(s, step);
    forall r | 0 <= r < |t.rows.runs| ensures AnswersQuestion(t.rows, t.rows.runs[r]) {
      if r < |s.rows.runs| {
        KeepsQuestion(s.rows, t.rows, s.rows.runs[r], t.rows.runs[r]);
      } else {
        RunsAdded(s, step);
        InsertedRun(s, step.w, step.action.channel, step.action.prompt);
      }
    }
    forall w | 0 <= w < |t.workers| && t.workers[w].pc.Inserting? ensures IsQuestion(t.rows, t.workers[w].pc.message) {
      WorkerQuestion(s, step, w);
      StillQuestion(s.rows, t.rows, t.workers[w].pc.message);
    }
  }

  lemma ExecOneGrows(s: State, step: Step)
    ensures Grows(s.rows, Apply(s, step).rows)
  {
    hide ApplyAction, ApplyEnvironment, ApplyOperation, Grows;
    match step
    case Env(event) => EnvironmentGrows(s, event);
    case Operator(c, operation) => OperationGrows(s, c, operation);
    case Work(w, action) => ActionGrows(s, w, action);
  }

  lemma KeepsQuestion(before: Rows, after: Rows, run: Run, evolved: Run)
    requires Extends(before.messages, after.messages) && SameRunIdentity(run, evolved) && AnswersQuestion(before, run)
    ensures AnswersQuestion(after, evolved)
  {
    hide Strip;
  }

  lemma SameWorkers(s: State, step: Step)
    ensures |Apply(s, step).workers| == |s.workers|
  {
    hide ApplyAction, ApplyEnvironment, ApplyOperation;
    match step
    case Env(event) => EnvironmentKeepsWorkers(s, event);
    case Operator(c, operation) => OperatorKeepsEvents(s, c, operation);
    case Work(w, action) => ActionsKeepWorkers(s, w, action);
  }

  lemma ActionsKeepWorkers(s: State, w: nat, action: Action)
    ensures |ApplyAction(s, w, action).workers| == |s.workers|
  {
    hide LookupReply, ReplyMessage, ValidateResponse, AnswerableMessage, FindRun, PersistText, CompleteRun, ReleaseRun,
         RenewLease, PauseForApproval, GuardDispatch, InsertRun, ClaimRun, CommitReply, ActiveHandoff;
  }

  /** A step that adds a run is the insert of a worker at a question. */
  lemma RunsAdded(s: State, step: Step)
    requires AllAnswerQuestions(s) && |Apply(s, step).rows.runs| > |s.rows.runs|
    ensures step.Work? && step.action.Insert? && PcAt(s, step.w).Inserting? && IsQuestion(s.rows, PcAt(s, step.w).message)
  {
    hide ApplyAction, ApplyEnvironment, ApplyOperation, IsQuestion, AnswersQuestion;
    match step
    case Env(event) => EnvironmentOnRun(s, event);
    case Operator(c, operation) => OperatorKeepsEvents(s, c, operation);
    case Work(w, action) =>
      if !action.Insert? { NewRunsAreInserted(s, w, action); } else { InsertsAtInserting(s, w, action); }
  }

  lemma InsertsAtInserting(s: State, w: nat, action: Action)
    requires action.Insert? && |ApplyAction(s, w, action).rows.runs| > |s.rows.runs|
    ensures w < |s.workers| && PcAt(s, w).Inserting?
  {
  }

  lemma WorkerQuestion(s: State, step: Step, v: nat)
    requires AllAnswerQuestions(s) && v < |s.workers| && PcAt(Apply(s, step), v).Inserting?
    ensures IsQuestion(s.rows, PcAt(Apply(s, step), v).message)
  {
    hide ApplyAction, ApplyEnvironment, ApplyOperation, IsQuestion, AnswersQuestion;
    match step
    case Env(event) => EnvironmentKeepsWorkers(s, event);
    case Operator(c, operation) => OperatorKeepsEvents(s, c, operation);
    case Work(w, action) => if w == v { ComesToInsert(s, w, action); } else { OnlyOwnWorker(s, w, action, v); }
  }

  lemma EnvironmentKeepsWorkers(s: State, event: Environment)
    ensures ApplyEnvironment(s, event).workers == s.workers
  {
    hide PersistInbound, PostMessage, ProcessEvent, MarkEnqueued, MarkIgnored;
  }

  /** In every interleaving the agent answers customers only: the message of a run is inbound, written by a customer, not
      blank, and of the run's own conversation and account. */
  lemma {:induction false} OnlyQuestionsAreAnswered(workers: nat, steps: seq<Step>)
    ensures AllAnswerQuestions(Exec(Initial(workers), steps))
  {
    hide Apply, AllAnswerQuestions;
    if steps == [] {
      NoRunsYet(workers);
    } else {
      OnlyQuestionsAreAnswered(workers, steps[..|steps| - 1]);
      ApplyKeepsQuestions(Exec(Initial(workers), steps[..|steps| - 1]), steps[|steps| - 1]);
    }
  }

  lemma NoRunsYet(workers: nat)
    ensures AllAnswerQuestions(Initial(workers))
  {
  }

  /** A worker takes up an event exactly when it exists and its conversation, if it has one, is not with a person. */
  lemma StartsExactly(s: State, w: nat, e: nat)
    requires w < |s.workers| && s.workers[w].pc.Idle?
    ensures PcAt(Apply(s, Work(w, Start(e))), w) == Resolving(e)
            <==> && e < |s.rows.events|
                 && (s.rows.events[e].message.Some? && s.rows.events[e].message.value < |s.rows.messages| ==>
                       forall h :: 0 <= h < |s.rows.handoffs| && IsActive(s.rows.handoffs[h]) ==>
                         s.rows.handoffs[h].conversation != s.rows.messages[s.rows.events[e].message.value].conversation)
  {
  }

  /** The run of a message is created once, with the channel and the prompt of whoever comes first; everybody else is
      led to that run. */
  lemma InsertBinds(s: State, w: nat, channel: Channel, prompt: nat)
    requires PcAt(s, w).Inserting? && PcAt(s, w).message < |s.rows.messages| && RunsOk(s.rows, s.nextToken)
    ensures var m := PcAt(s, w).message;
            var c := s.rows.messages[m].conversation;
            var t := Apply(s, Work(w, Insert(channel, prompt)));
            && PcAt(t, w).Claiming? && PcAt(t, w).run < |t.rows.runs| && t.rows.runs[PcAt(t, w).run].message == m
            && t.rows.runs == if exists r :: 0 <= r < |s.rows.runs| && s.rows.runs[r].message == m then s.rows.runs
                              else s.rows.runs + [Run(m, c, c.account, channel, prompt, Pending, None, None, None, None)]
  {
  }
}
