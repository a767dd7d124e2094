/** Whole-run safety of the AI reply protocol: every statement is about every sequence of steps,
    from any number of idle workers or from any state the invariant admits. */
module ReplyTheorems {
  import opened Outcomes
  import opened ReplyRows
  import opened ReplyProtocol
  import opened ReplyInvariant

  // ---------------------------------------------------------------- rows are never rewritten

  /** A handoff row: closed rows are final, a source run is set at most once. */
  ghost predicate HandoffEvolves(before: Handoff, after: Handoff) {
    || after == before
    || (IsActive(before) && after.conversation == before.conversation && (before.source.Some? ==> after.source == before.source))
  }

  ghost predicate EventEvolves(before: Event, after: Event) {
    && after.(status := before.status) == before
    && (before.status.Processed? || before.status.Ignored? ==> after.status == before.status)
    && (after.status.Received? ==> before.status.Received?)
  }

  ghost predicate SameRunIdentity(before: Run, after: Run) {
    && after.message == before.message && after.conversation == before.conversation
    && after.account == before.account && after.channel == before.channel && after.prompt == before.prompt
  }

  ghost predicate Grows(before: Rows, after: Rows) {
    && Extends(before.messages, after.messages)
    && |before.events| <= |after.events|
    && (forall e :: 0 <= e < |before.events| ==> EventEvolves(before.events[e], after.events[e]))
    && |before.runs| <= |after.runs|
    && (forall r :: 0 <= r < |before.runs| ==> SameRunIdentity(before.runs[r], after.runs[r]))
    && |before.handoffs| <= |after.handoffs|
    && (forall h :: 0 <= h < |before.handoffs| ==> HandoffEvolves(before.handoffs[h], after.handoffs[h]))
  }

  lemma EnvironmentGrows(s: State, event: Environment)
    ensures Grows(s.rows, ApplyEnvironment(s, event).rows)
  {
    if event.Ingest? { IngestGrows(s.rows, event.thread, event.externalEvent, event.externalMessage, event.body); }
  }

  lemma IngestGrows(rows: Rows, thread: Thread, event: nat, external: nat, body: Option<string>)
    ensures Grows(rows, PersistInbound(rows, thread, event, external, body).0)
  {
  }

  lemma OperationGrows(s: State, c: Thread, operation: Operation)
    ensures Grows(s.rows, ApplyOperation(s, c, operation).rows)
  {
    match operation {
      case RequestIt(source) => RequestGrows(s.rows, c, source);
      case ClaimIt(_) =>
      case ReleaseIt(_, _) =>
      case ResolveIt(actor, allow, resume, cancel) => ResolveGrows(s.rows, c, actor, allow, resume, cancel, s.clock);
    }
  }

  lemma RequestGrows(rows: Rows, c: Thread, source: Option<nat>)
    ensures Grows(rows, RequestHandoff(rows, c, source).0)
  {
  }

  lemma ResolveGrows(rows: Rows, c: Thread, actor: nat, allow: bool, resume: bool, cancel: bool, now: int)
    ensures Grows(rows, ResolveHandoff(rows, c, actor, allow, resume, cancel, now).0)
  {
    hide LatestResolved, LatestEvent;
  }

  lemma SetRunGrows(rows: Rows, r: nat, run: Run)
    requires r < |rows.runs| && SameRunIdentity(rows.runs[r], run)
    ensures Grows(rows, SetRun(rows, r, run))
  {
  }

  lemma RunColumnsGrow(s: State, w: nat, action: Action)
    requires action.Claim? || action.Renew? || action.Persist? || action.Complete? || action.Release?
    ensures Grows(s.rows, ApplyAction(s, w, action).rows)
  {
    var after := ApplyAction(s, w, action);
    var pc := PcAt(s, w);
    if after.rows != s.rows {
      assert after.rows == SetRun(s.rows, pc.run, after.rows.runs[pc.run]);
      SetRunGrows(s.rows, pc.run, after.rows.runs[pc.run]);
    }
  }

  lemma PauseGrows(s: State, w: nat, action: Action)
    requires action.ToolPause? || action.Guard?
    ensures Grows(s.rows, ApplyAction(s, w, action).rows)
  {
    var after := ApplyAction(s, w, action).rows;
    var pc := PcAt(s, w);
    if after != s.rows {
      assert after.runs == s.rows.runs[pc.run := after.runs[pc.run]] && SameRunIdentity(s.rows.runs[pc.run], after.runs[pc.run]);
    }
  }

  lemma AppendsGrow(s: State, w: nat, action: Action)
    requires action.Insert? || action.Commit?
    ensures Grows(s.rows, ApplyAction(s, w, action).rows)
  {
    if action.Commit? { CommitGrows(s, w, action.ok); } else { InsertGrows(s, w, action.channel, action.prompt); }
  }

  lemma InsertGrows(s: State, w: nat, channel: Channel, prompt: nat)
    ensures Grows(s.rows, InsertStep(s, w, channel, prompt).rows)
  {
  }

  lemma CommitGrows(s: State, w: nat, ok: bool)
    ensures Grows(s.rows, CommitStep(s, w, ok).rows)
  {
    hide LookupReply, ReplyMessage;
  }

  /** The remaining actions only move the worker. */
  lemma OthersKeepRows(s: State, w: nat, action: Action)
    requires action.Start? || action.Resolve? || action.Load? || action.Produce? || action.FailWork? || action.Send? || action.Fault? || action.Crash?
    ensures ApplyAction(s, w, action).rows == s.rows
  {
  }

  lemma ActionGrows(s: State, w: nat, action: Action)
    ensures Grows(s.rows, ApplyAction(s, w, action).rows)
  {
    if action.ToolPause? || action.Guard? { PauseGrows(s, w, action); }
    else if action.Insert? || action.Commit? { AppendsGrow(s, w, action); }
    else if action.Claim? || action.Renew? || action.Persist? || action.Complete? || action.Release? {
      RunColumnsGrow(s, w, action);
    } else { OthersKeepRows(s, w, action); }
  }

  lemma {:induction false} ExecGrows(s: State, steps: seq<Step>)
    ensures Grows(s.rows, Exec(s, steps).rows)
  {
    if steps != [] {
      var before := Exec(s, steps[..|steps| - 1]);
      ExecGrows(s, steps[..|steps| - 1]);
      match steps[|steps| - 1]
      case Env(event) => EnvironmentGrows(before, event);
      case Operator(c, operation) => OperationGrows(before, c, operation);
      case Work(w, action) => ActionGrows(before, w, action);
    }
  }

  /** Processed and ignored events are final, over any run: nothing that happens later changes their row. */
  lemma SettledEventsStay(s: State, steps: seq<Step>, e: nat)
    requires e < |s.rows.events| && (s.rows.events[e].status.Processed? || s.rows.events[e].status.Ignored?)
    ensures e < |Exec(s, steps).rows.events| && Exec(s, steps).rows.events[e] == s.rows.events[e]
  {
    hide Exec;
    ExecGrows(s, steps);
    assert EventEvolves(s.rows.events[e], Exec(s, steps).rows.events[e]);
  }

  // ---------------------------------------------------------------- one reply per customer message

  /** The customer message a run answers has this idempotency key. */
  ghost predicate Answers(rows: Rows, r: nat, key: Key) {
    r < |rows.runs| && rows.runs[r].message < |rows.messages| && rows.messages[rows.runs[r].message].key == Some(key)
  }

  /** In every interleaving of redeliveries, retries, lease expiries, crashes, pauses and resumes a
      customer message (identified by its channel, thread and external id) has at most one run, and
      at most one message carries the key of such a run. */
  lemma OneRunAndOneReply(workers: nat, steps: seq<Step>, key: Key)
    ensures var rows := Exec(Initial(workers), steps).rows;
            && (forall q, r :: Answers(rows, q, key) && Answers(rows, r, key) ==> q == r)
            && (forall q, r, i, j :: Answers(rows, q, key) && Answers(rows, r, key)
                                     && 0 <= i < |rows.messages| && 0 <= j < |rows.messages|
                                     && rows.messages[i].key == Some(ReplyKey(q)) && rows.messages[j].key == Some(ReplyKey(r))
                                     ==> i == j)
  {
    InitialInv(workers);
    ExecKeepsInv(Initial(workers), steps);
  }

  /** One event per delivered update, one message per external message, however often a webhook repeats. */
  lemma OneEventPerDelivery(workers: nat, steps: seq<Step>, i: nat, j: nat)
    ensures var rows := Exec(Initial(workers), steps).rows;
            && ((i < |rows.events| && j < |rows.events| && rows.events[i].account == rows.events[j].account
                 && rows.events[i].external == rows.events[j].external) ==> i == j)
            && ((i < |rows.messages| && j < |rows.messages| && rows.messages[i].key.Some?
                 && rows.messages[i].key == rows.messages[j].key) ==> i == j)
  {
    InitialInv(workers);
    ExecKeepsInv(Initial(workers), steps);
  }

  /** The account of external sends: each one is committed, lost to a failure between send and commit, or
      in flight. Without such a failure there is at most one, and a committed reply is never lost or rewritten. */
  lemma SendsAccounted(workers: nat, steps: seq<Step>, r: nat)
    requires r < |Exec(Initial(workers), steps).rows.runs|
    ensures var s := Exec(Initial(workers), steps);
            && r < |s.trails|
            && s.trails[r].commits <= 1
            && (s.trails[r].commits == 1 ==> FindKey(s.rows.messages, ReplyKey(r)).Some?)
            && (s.rows.runs[r].channel.Website? ==> s.trails[r].sends == 0)
            && (s.rows.runs[r].channel.Telegram? ==>
                  s.trails[r].sends == s.trails[r].lost + s.trails[r].commits + if InFlight(s, r) then 1 else 0)
            && (s.trails[r].lost == 0 ==> s.trails[r].sends <= 1)
  {
    InitialInv(workers);
    ExecKeepsInv(Initial(workers), steps);
    var s := Exec(Initial(workers), steps);
    assert TrailOk(s, r);
  }

  // ---------------------------------------------------------------- what a step does to one run

  /** The one write that looks at neither the lease nor the status of the run. */
  ghost predicate EffectivePause(s: State, step: Step, r: nat) {
    && step.Work? && step.action.ToolPause? && step.action.enabled
    && PcAt(s, step.w).Working? && PcAt(s, step.w).run == r
    && r < |s.rows.runs| && s.rows.runs[r].conversation !in s.locks
  }

  /** A worker that still holds the lease of run r. */
  ghost predicate HasLease(s: State, w: nat, r: nat) {
    var pc := PcAt(s, w);
    PcRun(pc) == Some(r) && PcToken(pc).Some? && Holds(s.rows, r, PcToken(pc).value)
  }

  ghost predicate RunChange(s: State, step: Step, r: nat, after: Run)
    requires r < |s.rows.runs|
  {
    var before := s.rows.runs[r];
    || after == before
    || (EffectivePause(s, step, r) && after == ClearLease(before).(status := Paused, text := None))
    || (step.Work? && step.action.Claim? && IsOpen(before) && after.token == Some(s.nextToken))
    || (step.Work? && HasLease(s, step.w, r) && (after.token == before.token || after.token.None?))
    || (step.Operator? && (before.status.Pending? || before.status.Paused?) && after.token.None?)
  }

  lemma LeaseActionsOnRun(s: State, w: nat, action: Action, r: nat)
    requires r < |s.rows.runs|
    requires action.Claim? || action.Renew? || action.Persist? || action.Complete? || action.Release?
    ensures r < |ApplyAction(s, w, action).rows.runs| && RunChange(s, Work(w, action), r, ApplyAction(s, w, action).rows.runs[r])
  {
  }

  lemma PausesOnRun(s: State, w: nat, action: Action, r: nat)
    requires r < |s.rows.runs| && (action.ToolPause? || action.Guard?)
    ensures r < |ApplyAction(s, w, action).rows.runs| && RunChange(s, Work(w, action), r, ApplyAction(s, w, action).rows.runs[r])
  {
  }

  lemma AppendsOnRun(s: State, w: nat, action: Action, r: nat)
    requires r < |s.rows.runs| && (action.Insert? || action.Commit?)
    ensures r < |ApplyAction(s, w, action).rows.runs| && ApplyAction(s, w, action).rows.runs[r] == s.rows.runs[r]
  {
  }

  lemma OperationsOnRun(s: State, c: Thread, operation: Operation, r: nat)
    requires r < |s.rows.runs|
    ensures r < |ApplyOperation(s, c, operation).rows.runs|
    ensures RunChange(s, Operator(c, operation), r, ApplyOperation(s, c, operation).rows.runs[r])
  {
  }

  lemma EnvironmentOnRun(s: State, event: Environment)
    ensures ApplyEnvironment(s, event).rows.runs == s.rows.runs
  {
  }

  lemma StepOnRun(s: State, step: Step, r: nat)
    requires r < |s.rows.runs|
    ensures r < |Apply(s, step).rows.runs| && RunChange(s, step, r, Apply(s, step).rows.runs[r])
  {
    match step
    case Env(event) => EnvironmentOnRun(s, event);
    case Operator(c, operation) => OperationsOnRun(s, c, operation, r);
    case Work(w, action) =>
      if action.ToolPause? || action.Guard? { PausesOnRun(s, w, action, r); }
      else if action.Insert? || action.Commit? { AppendsOnRun(s, w, action, r); }
      else if action.Claim? || action.Renew? || action.Persist? || action.Complete? || action.Release? {
        LeaseActionsOnRun(s, w, action, r);
      } else { OthersKeepRows(s, w, action); }
  }

  // ---------------------------------------------------------------- no AI message during a human handoff

  ghost predicate SameSends(s: State, t: State, r: nat) {
    r < |s.trails| && r < |t.trails| && t.trails[r].sends == s.trails[r].sends && t.trails[r].commits == s.trails[r].commits
  }

  lemma LeaseActionsSendNothing(s: State, w: nat, action: Action, r: nat)
    requires r < |s.trails| && |s.trails| == |s.rows.runs|
    requires action.Insert? || action.Claim? || action.Renew? || action.Persist? || action.Complete? || action.Release?
             || action.ToolPause? || action.Guard?
    ensures SameSends(s, ApplyAction(s, w, action), r)
  {
    hide PersistText, CompleteRun, ReleaseRun, RenewLease, PauseForApproval, GuardDispatch, InsertRun, ClaimRun;
    ActionGrows(s, w, action);
  }

  lemma OtherActionsSendNothing(s: State, w: nat, action: Action, r: nat)
    requires r < |s.trails| && |s.trails| == |s.rows.runs|
    requires action.Start? || action.Resolve? || action.Load? || action.Produce? || action.FailWork? || action.Fault? || action.Crash?
    ensures SameSends(s, ApplyAction(s, w, action), r)
  {
  }

  lemma TransactionsSend(s: State, w: nat, action: Action, r: nat)
    requires r < |s.trails| && |s.trails| == |s.rows.runs| && (action.Send? || action.Commit?)
    ensures SameSends(s, ApplyAction(s, w, action), r) || (InTransaction(PcAt(s, w)) && PcAt(s, w).run == r)
    ensures ApplyAction(s, w, action).rows.handoffs == s.rows.handoffs
  {
  }

  /** Only a worker inside the guarded transaction of a run adds to its sends or its commits. */
  lemma OnlyTransactionsSend(s: State, step: Step, r: nat)
    requires |s.trails| == |s.rows.runs| && r < |s.trails| && !SameSends(s, Apply(s, step), r)
    ensures step.Work? && InTransaction(PcAt(s, step.w)) && PcAt(s, step.w).run == r
    ensures Apply(s, step).rows.handoffs == s.rows.handoffs
  {
    hide ApplyAction, PersistInbound, PostMessage, ProcessEvent, MarkEnqueued, MarkIgnored, RequestHandoff, ClaimHandoff,
         ReleaseHandoff, ResolveHandoff, EventEvolves, HandoffEvolves;
    match step
    case Env(event) => EnvironmentGrows(s, event);
    case Operator(c, operation) => OperationGrows(s, c, operation);
    case Work(w, action) =>
      if action.Send? || action.Commit? { TransactionsSend(s, w, action, r); }
      else if action.Start? || action.Resolve? || action.Load? || action.Produce? || action.FailWork? || action.Fault? || action.Crash? {
        OtherActionsSendNothing(s, w, action, r);
      } else { LeaseActionsSendNothing(s, w, action, r); }
  }

  /** Whatever came before: a step that sends or commits a reply of run r finds no queued or claimed
      handoff in its conversation, and leaves none behind. */
  lemma NoReplyDuringHandoff(workers: nat, steps: seq<Step>, step: Step, r: nat)
    requires r < |Exec(Initial(workers), steps).trails|
    requires !SameSends(Exec(Initial(workers), steps), Exec(Initial(workers), steps + [step]), r)
    ensures var s, t := Exec(Initial(workers), steps), Exec(Initial(workers), steps + [step]);
            && r < |s.rows.runs| && t.rows.handoffs == s.rows.handoffs
            && forall h :: 0 <= h < |s.rows.handoffs| && IsActive(s.rows.handoffs[h])
                       ==> s.rows.handoffs[h].conversation != s.rows.runs[r].conversation
  {
    InitialInv(workers);
    ExecKeepsInv(Initial(workers), steps);
    var s := Exec(Initial(workers), steps);
    assert (steps + [step])[..|steps|] == steps;
    assert Exec(Initial(workers), steps + [step]) == Apply(s, step);
    OnlyTransactionsSend(s, step, r);
    assert s.rows.runs[r].conversation in s.locks;
  }

  // ---------------------------------------------------------------- leases

  /** The leases granted since the last clearing never overlap, whatever clock readings the claims used,
      and only a pending or generated run carries a lease. */
  lemma LeasesExclude(workers: nat, steps: seq<Step>, r: nat)
    requires r < |Exec(Initial(workers), steps).rows.runs|
    ensures var s := Exec(Initial(workers), steps);
            && r < |s.trails|
            && (s.rows.runs[r].token.Some? ==> s.rows.runs[r].status.Pending? || s.rows.runs[r].status.Generated?)
            && (forall i, j :: 0 <= i < j < |s.trails[r].leases| ==> s.trails[r].leases[i].until < s.trails[r].leases[j].from)
            && (s.rows.runs[r].token.Some? ==>
                  && s.trails[r].leases != [] && s.rows.runs[r].until.Some?
                  && s.trails[r].leases[|s.trails[r].leases| - 1].token == s.rows.runs[r].token.value
                  && s.trails[r].leases[|s.trails[r].leases| - 1].until == s.rows.runs[r].until.value)
  {
    hide Inv, Exec;
    InitialInv(workers);
    ExecKeepsInv(Initial(workers), steps);
    LeaseOfRun(Exec(Initial(workers), steps), r);
  }

  lemma LeaseOfRun(s: State, r: nat)
    requires Inv(s) && r < |s.rows.runs|
    ensures r < |s.trails| && LeasesOk(s.trails[r].leases, s.rows.runs[r])
    ensures RunOk(s.rows.runs[r], |s.rows.messages|, s.nextToken)
  {
    assert TrailOk(s, r);
  }

  lemma StepKeepsSuperseded(s: State, step: Step, r: nat, token: nat)
    requires token < s.nextToken && r < |s.rows.runs| && !Holds(s.rows, r, token)
    ensures token < Apply(s, step).nextToken && !Holds(Apply(s, step).rows, r, token)
  {
    StepOnRun(s, step, r);
    TokensGrow(s, step);
  }

  lemma TokensGrow(s: State, step: Step)
    ensures s.nextToken <= Apply(s, step).nextToken
  {
    hide PersistInbound, PostMessage, RequestHandoff, ClaimHandoff, ReleaseHandoff, ResolveHandoff, PersistText, CompleteRun,
         ReleaseRun, RenewLease, PauseForApproval, GuardDispatch, InsertRun, ClaimRun, LookupReply, CommitReply, SyncTrail;
  }

  /** A token that has been issued and is not the row's lease never becomes the row's lease again. */
  lemma {:induction false} SupersededForever(s: State, steps: seq<Step>, r: nat, token: nat)
    requires token < s.nextToken && r < |s.rows.runs| && !Holds(s.rows, r, token)
    ensures token < Exec(s, steps).nextToken && !Holds(Exec(s, steps).rows, r, token)
  {
    if steps != [] {
      var before := steps[..|steps| - 1];
      SupersededForever(s, before, r, token);
      ExecGrows(s, before);
      StepKeepsSuperseded(Exec(s, before), steps[|steps| - 1], r, token);
    }
  }

  /** A superseded worker's own step leaves the run's row alone unless it is an effective approval pause:
      renew, persist, complete, release and the guard all miss. */
  lemma SupersededIsPowerless(s: State, w: nat, action: Action, r: nat)
    requires r < |s.rows.runs| && PcRun(PcAt(s, w)) == Some(r) && PcToken(PcAt(s, w)).Some? && !HasLease(s, w, r)
    requires !EffectivePause(s, Work(w, action), r)
    ensures Apply(s, Work(w, action)).rows.runs[r] == s.rows.runs[r]
  {
    StepOnRun(s, Work(w, action), r);
  }

  /** The release outside the error handler repeats the one inside it: whatever happens in between,
      the second one writes nothing. */
  lemma SecondReleaseIsNoOp(s: State, w: nat, between: seq<Step>)
    requires Inv(s) && PcAt(s, w).Releasing? && PcAt(s, w).again
    requires var t := Exec(ReleaseStep(s, w), between);
             PcAt(t, w).Releasing? && PcAt(t, w).run == PcAt(s, w).run && PcAt(t, w).token == PcAt(s, w).token
    ensures var t := Exec(ReleaseStep(s, w), between); ReleaseStep(t, w).rows == t.rows
  {
    var pc := PcAt(s, w);
    assert PcOk(s, pc);
    var first := ReleaseStep(s, w);
    assert !Holds(first.rows, pc.run, pc.token);
    SupersededForever(first, between, pc.run, pc.token);
  }

  // ---------------------------------------------------------------- generated text, success, terminal states

  /** generated_text is there exactly in status generated, so a worker that loads such a run goes straight
      to the guard with it: the missing-text branch and the re-validation failure cannot happen. */
  lemma GeneratedTextIsThere(workers: nat, steps: seq<Step>, r: nat)
    requires r < |Exec(Initial(workers), steps).rows.runs|
    ensures var s := Exec(Initial(workers), steps);
            && r < |s.trails|
            && (s.rows.runs[r].text.Some? <==> s.rows.runs[r].status.Generated?)
            && (s.rows.runs[r].text.Some? ==> s.rows.runs[r].text.value in s.trails[r].stored)
            && (forall w :: 0 <= w < |s.workers| && s.workers[w].pc.Loading? && s.workers[w].pc.run == r
                            && HasLease(s, w, r) && s.rows.runs[r].status.Generated?
                  ==> LoadStep(s, w, true).workers[w].pc == Guarding(r, s.workers[w].pc.token, s.rows.runs[r].text.value))
  {
    InitialInv(workers);
    ExecKeepsInv(Initial(workers), steps);
    var s := Exec(Initial(workers), steps);
    assert TrailOk(s, r) && RunOk(s.rows.runs[r], |s.rows.messages|, s.nextToken);
  }

  /** A succeeded run points to the committed message under its own key, whose text some persist step
      stored and which no later validation or strip would change. */
  lemma SucceededHasReply(workers: nat, steps: seq<Step>, r: nat)
    requires r < |Exec(Initial(workers), steps).rows.runs| && Exec(Initial(workers), steps).rows.runs[r].status.Succeeded?
    ensures var s := Exec(Initial(workers), steps);
            && s.rows.runs[r].outbound.Some?
            && ReplyOf(s, r, s.rows.runs[r].outbound.value)
            && IsDeliverable(s.rows.messages[s.rows.runs[r].outbound.value].text)
  {
    InitialInv(workers);
    ExecKeepsInv(Initial(workers), steps);
    assert TrailOk(Exec(Initial(workers), steps), r);
  }

  /** A succeeded or failed run is changed by a step exactly when the step is an effective approval pause. */
  lemma TerminalRunStep(s: State, step: Step, r: nat)
    requires Inv(s) && r < |s.rows.runs| && IsTerminal(s.rows.runs[r])
    ensures r < |Apply(s, step).rows.runs|
    ensures Apply(s, step).rows.runs[r] != s.rows.runs[r] <==> EffectivePause(s, step, r)
  {
    StepOnRun(s, step, r);
    assert RunOk(s.rows.runs[r], |s.rows.messages|, s.nextToken);
  }

  /** Every prefix of the run shows the same row r as the start. */
  ghost predicate RowStays(s: State, steps: seq<Step>, r: nat)
    requires r < |s.rows.runs|
  {
    steps != [] ==>
      && RowStays(s, steps[..|steps| - 1], r)
      && r < |Exec(s, steps).rows.runs| && Exec(s, steps).rows.runs[r] == s.rows.runs[r]
  }

  /** No step of the run is an effective pause of r. */
  ghost predicate NeverPaused(s: State, steps: seq<Step>, r: nat) {
    steps != [] ==>
      && NeverPaused(s, steps[..|steps| - 1], r)
      && !EffectivePause(Exec(s, steps[..|steps| - 1]), steps[|steps| - 1], r)
  }

  /** Over a whole run, a terminal row stays as it is exactly when no effective approval pause hits it. */
  lemma {:induction false} TerminalRunStays(s: State, steps: seq<Step>, r: nat)
    requires Inv(s) && r < |s.rows.runs| && IsTerminal(s.rows.runs[r])
    ensures RowStays(s, steps, r) <==> NeverPaused(s, steps, r)
  {
    if steps != [] {
      var before := steps[..|steps| - 1];
      TerminalRunStays(s, before, r);
      ExecKeepsInv(s, before);
      ExecGrows(s, before);
      if RowStays(s, before, r) {
        RowStaysAtEnd(s, before, r);
        TerminalRunStep(Exec(s, before), steps[|steps| - 1], r);
      }
    }
  }

  lemma RowStaysAtEnd(s: State, steps: seq<Step>, r: nat)
    requires r < |s.rows.runs| && RowStays(s, steps, r)
    ensures r < |Exec(s, steps).rows.runs| && Exec(s, steps).rows.runs[r] == s.rows.runs[r]
  {
  }

  /** The premise the source leaves to its caller: a pause made under the caller's live lease never hits a
      terminal run. */
  lemma PauseUnderLeaseHitsNoTerminalRun(s: State, step: Step, r: nat)
    requires Inv(s) && EffectivePause(s, step, r) && HasLease(s, step.w, r)
    ensures !IsTerminal(s.rows.runs[r])
  {
    assert RunOk(s.rows.runs[r], |s.rows.messages|, s.nextToken);
  }

  /** No worker is generating for run r. */
  ghost predicate NobodyWorksOn(s: State, r: nat) {
    forall w :: 0 <= w < |s.workers| ==> !(s.workers[w].pc.Working? && s.workers[w].pc.run == r)
  }

  lemma OnlyOwnWorker(s: State, w: nat, action: Action, v: nat)
    requires v != w
    ensures PcAt(ApplyAction(s, w, action), v) == PcAt(s, v)
  {
    hide PersistInbound, PostMessage, RequestHandoff, ClaimHandoff, ReleaseHandoff, ResolveHandoff, PersistText, CompleteRun,
         ReleaseRun, RenewLease, PauseForApproval, GuardDispatch, InsertRun, ClaimRun, LookupReply, CommitReply, SyncTrail,
         ValidateResponse, AnswerableMessage;
  }

  lemma OwnWorkerStarts(s: State, w: nat, action: Action)
    requires !action.Load? && PcAt(ApplyAction(s, w, action), w).Working?
    ensures PcAt(ApplyAction(s, w, action), w) == PcAt(s, w)
  {
    hide PersistInbound, PostMessage, RequestHandoff, ClaimHandoff, ReleaseHandoff, ResolveHandoff, PersistText, CompleteRun,
         ReleaseRun, RenewLease, PauseForApproval, GuardDispatch, InsertRun, ClaimRun, LookupReply, CommitReply, SyncTrail,
         ValidateResponse, AnswerableMessage;
  }

  /** A worker comes to generate only by loading a run whose lease it holds. */
  lemma StartsWorking(s: State, step: Step, v: nat)
    requires PcAt(Apply(s, step), v).Working?
    ensures PcAt(s, v).Working? || (PcAt(s, v).Loading? && Holds(s.rows, PcAt(s, v).run, PcAt(s, v).token))
    ensures PcRun(PcAt(Apply(s, step), v)) == PcRun(PcAt(s, v))
  {
    hide ApplyAction, PersistInbound, PostMessage, RequestHandoff, ClaimHandoff, ReleaseHandoff, ResolveHandoff;
    if step.Work? {
      if step.w != v { OnlyOwnWorker(s, step.w, step.action, v); }
      else if step.action.Load? { LoadStarts(s, v, step.action.usable); }
      else { OwnWorkerStarts(s, v, step.action); }
    }
  }

  lemma LoadStarts(s: State, w: nat, usable: bool)
    requires PcAt(ApplyAction(s, w, Load(usable)), w).Working?
    ensures PcRun(PcAt(ApplyAction(s, w, Load(usable)), w)) == PcRun(PcAt(s, w))
    ensures PcAt(s, w).Working? || (PcAt(s, w).Loading? && Holds(s.rows, PcAt(s, w).run, PcAt(s, w).token))
  {
    hide ValidateResponse;
  }

  lemma TerminalStepIsQuiet(s: State, step: Step, r: nat)
    requires Inv(s) && r < |s.rows.runs| && IsTerminal(s.rows.runs[r]) && NobodyWorksOn(s, r)
    ensures r < |Apply(s, step).rows.runs| && Apply(s, step).rows.runs[r] == s.rows.runs[r]
    ensures NobodyWorksOn(Apply(s, step), r)
  {
    hide Inv, Apply, StartStep;
    LeaseOfRun(s, r);
    TerminalRunStep(s, step, r);
    var t := Apply(s, step);
    forall v | 0 <= v < |t.workers| ensures !(t.workers[v].pc.Working? && t.workers[v].pc.run == r) {
      if t.workers[v].pc.Working? { StartsWorking(s, step, v); }
    }
  }

  ghost predicate KeepsRun(s: State, steps: seq<Step>, r: nat)
    requires r < |s.rows.runs|
  {
    r < |Exec(s, steps).rows.runs| && Exec(s, steps).rows.runs[r] == s.rows.runs[r]
  }

  lemma {:induction false} TerminalRunIsQuiet(s: State, steps: seq<Step>, r: nat)
    requires Inv(s) && r < |s.rows.runs| && IsTerminal(s.rows.runs[r]) && NobodyWorksOn(s, r)
    ensures KeepsRun(s, steps, r) && NobodyWorksOn(Exec(s, steps), r)
  {
    hide Inv, Apply, NobodyWorksOn;
    if steps != [] {
      TerminalRunIsQuiet(s, steps[..|steps| - 1], r);
      ExecKeepsInv(s, steps[..|steps| - 1]);
      TerminalStepIsQuiet(Exec(s, steps[..|steps| - 1]), steps[|steps| - 1], r);
    }
  }

  lemma ExecOne(s: State, a: Step, b: Step)
    ensures Exec(s, [a]) == Apply(s, a) && Exec(s, [a, b]) == Apply(Apply(s, a), b)
  {
    assert [a][..0] == [] && [a, b][..1] == [a];
  }

  /** A crash of the worker that holds the lock of a conversation frees it and changes no row. */
  lemma CrashFreesLock(s: State, u: nat, c: Thread)
    requires LocksOk(s) && TrailsOk(s) && c in s.locks && s.locks[c] == u
    ensures CrashStep(s, u).rows == s.rows && CrashStep(s, u).locks == s.locks - {c}
    ensures forall w :: 0 <= w < |s.workers| && w != u ==> CrashStep(s, u).workers[w] == s.workers[w]
    ensures |CrashStep(s, u).workers| == |s.workers|
  {
  }

  lemma WorkingReopens(s: State, w: nat, r: nat) returns (steps: seq<Step>)
    requires Inv(s) && r < |s.rows.runs| && IsTerminal(s.rows.runs[r])
    requires w < |s.workers| && s.workers[w].pc.Working? && s.workers[w].pc.run == r
    ensures !KeepsRun(s, steps, r)
  {
    hide Apply, Exec;
    var c := s.rows.runs[r].conversation;
    var pause := Work(w, ToolPause(true));
    if c in s.locks {
      var crash := Work(s.locks[c], Crash);
      steps := [crash, pause];
      ExecOne(s, crash, pause);
      assert Apply(s, crash) == CrashStep(s, s.locks[c]) by { CrashIs(s, s.locks[c]); }
      CrashFreesLock(s, s.locks[c], c);
      ApplyKeepsInv(s, crash);
      TerminalRunStep(Apply(s, crash), pause, r);
    } else {
      steps := [pause];
      ExecOne(s, pause, pause);
      TerminalRunStep(s, pause, r);
    }
  }

  lemma CrashIs(s: State, u: nat)
    ensures Apply(s, Work(u, Crash)) == CrashStep(s, u)
  {
  }

  /** A succeeded or failed run is final, whatever anybody does from now on, exactly when no worker is still generating
      for it. */
  lemma TerminalIsFinalExactly(s: State, r: nat)
    requires Inv(s) && r < |s.rows.runs| && IsTerminal(s.rows.runs[r])
    ensures (forall steps :: KeepsRun(s, steps, r)) <==> NobodyWorksOn(s, r)
  {
    hide Inv, KeepsRun;
    if NobodyWorksOn(s, r) {
      forall steps ensures KeepsRun(s, steps, r) { TerminalRunIsQuiet(s, steps, r); }
    }
    if w :| 0 <= w < |s.workers| && s.workers[w].pc.Working? && s.workers[w].pc.run == r {
      var steps := WorkingReopens(s, w, r);
    }
  }

  /** The release that fails a run. */
  ghost predicate ReleasesAsFinal(s: State, w: nat, action: Action, r: nat) {
    action.Release? && PcAt(s, w).Releasing? && PcAt(s, w).terminal && HasLease(s, w, r)
  }

  lemma LeaseActionFails(s: State, w: nat, action: Action, r: nat)
    requires r < |s.rows.runs| && !s.rows.runs[r].status.Failed?
    requires action.Claim? || action.Renew? || action.Persist? || action.Complete? || action.Release?
    ensures r < |ApplyAction(s, w, action).rows.runs|
    ensures ApplyAction(s, w, action).rows.runs[r].status.Failed? <==> ReleasesAsFinal(s, w, action, r)
  {
  }

  lemma PauseFailsNothing(s: State, w: nat, action: Action, r: nat)
    requires r < |s.rows.runs| && !s.rows.runs[r].status.Failed? && (action.ToolPause? || action.Guard?)
    ensures r < |ApplyAction(s, w, action).rows.runs| && !ApplyAction(s, w, action).rows.runs[r].status.Failed?
  {
  }

  lemma OperationFailsNothing(s: State, c: Thread, operation: Operation, r: nat)
    requires r < |s.rows.runs| && !s.rows.runs[r].status.Failed?
    ensures r < |ApplyOperation(s, c, operation).rows.runs|
    ensures !ApplyOperation(s, c, operation).rows.runs[r].status.Failed?
  {
    hide LatestResolved, LatestEvent;
  }

  /** A run becomes failed exactly when the holder of its lease releases it as final: whether its reply is committed
      plays no part. */
  lemma FailsExactly(s: State, step: Step, r: nat)
    requires r < |s.rows.runs| && !s.rows.runs[r].status.Failed?
    ensures r < |Apply(s, step).rows.runs|
    ensures Apply(s, step).rows.runs[r].status.Failed?
            <==> step.Work? && ReleasesAsFinal(s, step.w, step.action, r)
  {
    hide ApplyAction, ApplyOperation, ApplyEnvironment, ReleasesAsFinal;
    match step
    case Env(event) => EnvironmentOnRun(s, event);
    case Operator(c, operation) => OperationFailsNothing(s, c, operation, r);
    case Work(w, action) =>
      if action.ToolPause? || action.Guard? { PauseFailsNothing(s, w, action, r); }
      else if action.Insert? || action.Commit? { AppendsOnRun(s, w, action, r); }
      else if action.Claim? || action.Renew? || action.Persist? || action.Complete? || action.Release? {
        LeaseActionFails(s, w, action, r);
      } else { OthersKeepRows(s, w, action); }
      assert ReleasesAsFinal(s, w, action, r) ==> action.Release? by { OnlyReleases(s, w, action, r); }
  }

  lemma OnlyReleases(s: State, w: nat, action: Action, r: nat)
    ensures ReleasesAsFinal(s, w, action, r) ==> action.Release?
  {
  }

  // ---------------------------------------------------------------- handoffs

  /** At most one active handoff per conversation; a claimant exactly where the status says so; closed_at
      exactly on closed rows; and from any such state on, closed rows never change and sources stick. */
  lemma HandoffHistory(workers: nat, steps: seq<Step>, more: seq<Step>, h: nat)
    requires h < |Exec(Initial(workers), steps).rows.handoffs|
    ensures var s := Exec(Initial(workers), steps);
            var t := Exec(s, more);
            && (forall i :: 0 <= i < |s.rows.handoffs| && i != h && IsActive(s.rows.handoffs[i]) && IsActive(s.rows.handoffs[h])
                      ==> s.rows.handoffs[i].conversation != s.rows.handoffs[h].conversation)
            && HandoffOk(s.rows.handoffs[h], s.clock)
            && h < |t.rows.handoffs|
            && t.rows.handoffs[h].conversation == s.rows.handoffs[h].conversation
            && (!IsActive(s.rows.handoffs[h]) ==> t.rows.handoffs[h] == s.rows.handoffs[h])
            && (s.rows.handoffs[h].source.Some? ==> t.rows.handoffs[h].source == s.rows.handoffs[h].source)
  {
    InitialInv(workers);
    ExecKeepsInv(Initial(workers), steps);
    ExecGrows(Exec(Initial(workers), steps), more);
    assert HandoffEvolves(Exec(Initial(workers), steps).rows.handoffs[h], Exec(Exec(Initial(workers), steps), more).rows.handoffs[h]);
  }

  /** Replacing an active handoff by one that is still active leaves it the conversation's active one. */
  lemma StillActive(rows: Rows, c: Thread, h: nat, handoff: Handoff, clock: int)
    requires HandoffsOk(rows, clock) && ActiveHandoff(rows.handoffs, c) == Some(h)
    requires IsActive(handoff) && handoff.conversation == c
    ensures ActiveHandoff(rows.handoffs[h := handoff], c) == Some(h)
  {
    var after := rows.handoffs[h := handoff];
    forall i | 0 <= i < |after| && i != h && after[i].conversation == c ensures !IsActive(after[i]) {
      assert rows.handoffs[if i < h then i else h].conversation == c;
    }
    assert after[h] == handoff;
  }

  /** Claiming a queued handoff: the claimant may claim again without effect, everybody else is refused, nobody else
      releases it without an override, and the claimant's release restores the rows as they were. */
  lemma ClaimThenRelease(rows: Rows, c: Thread, h: nat, actor: nat, other: nat, clock: int)
    requires HandoffsOk(rows, clock) && ActiveHandoff(rows.handoffs, c) == Some(h) && rows.handoffs[h].status.Queued?
    ensures var (claimed, r) := ClaimHandoff(rows, c, actor);
            && r == Ok(h)
            && ClaimHandoff(claimed, c, actor) == (claimed, Ok(h))
            && (other != actor ==> ClaimHandoff(claimed, c, other) == (claimed, Err("handoff_already_claimed")))
            && (other != actor ==> ReleaseHandoff(claimed, c, other, false) == (claimed, Err("handoff_not_owner")))
            && ReleaseHandoff(claimed, c, other, true) == (rows, Ok(h))
            && ReleaseHandoff(claimed, c, actor, false) == (rows, Ok(h))
            && ReleaseHandoff(rows, c, other, true) == (rows, Err("handoff_not_claimed"))
  {
    var claimed := rows.handoffs[h].(status := Claimed, claimant := Some(actor));
    StillActive(rows, c, h, claimed, clock);
    assert HandoffOk(rows.handoffs[h], clock);
    assert rows.handoffs[h := claimed][h := rows.handoffs[h]] == rows.handoffs;
  }

  /** Resuming the source run of a handoff twice is the same as resuming it once. */
  lemma ResumeTwice(rows: Rows, c: Thread, h: nat)
    requires h < |rows.handoffs|
    ensures var (once, event) := ResumeRun(rows, c, h); ResumeRun(once, c, h) == (once, event)
  {
    var once := ResumeRun(rows, c, h).0;
    if once != rows {
      var r := rows.handoffs[h].source.value;
      assert once.runs[r := once.runs[r]] == once.runs;
      assert ResumeRun(once, c, h).0.runs == once.runs;
    }
  }

  /** A handoff closed now is the latest resolved one of its conversation. */
  lemma JustResolvedIsLatest(rows: Rows, c: Thread, h: nat, clock: int)
    requires HandoffsOk(rows, clock) && ActiveHandoff(rows.handoffs, c) == Some(h)
    ensures var closed := rows.handoffs[h].(status := Resolved, closedAt := Some(clock));
            LatestResolved(rows.handoffs[h := closed], c) == Some(h)
  {
    var after := rows.handoffs[h := rows.handoffs[h].(status := Resolved, closedAt := Some(clock))];
    assert after[h].status == Resolved;
    forall i | 0 <= i < |after| && i != h && after[i].conversation == c && after[i].status == Resolved
      ensures ClosedAt(after[i]) <= clock && i < h
    {
      assert HandoffOk(rows.handoffs[i], clock);
    }
  }

  /** resolve_handoff(resume_ai=True) asked again, by anyone and with any flags: nothing changes and the same
      handoff and event come back, exactly when the first call did not cancel an active handoff. */
  lemma ResolveAgain(rows: Rows, c: Thread, actor: nat, allow: bool, cancel: bool, now: int,
                     actor2: nat, allow2: bool, cancel2: bool, now2: int)
    requires HandoffsOk(rows, now) && ResolveHandoff(rows, c, actor, allow, true, cancel, now).1.Ok?
    ensures var first := ResolveHandoff(rows, c, actor, allow, true, cancel, now);
            ResolveHandoff(first.0, c, actor2, allow2, true, cancel2, now2) == first
            <==> ActiveHandoff(rows.handoffs, c).None? || !cancel
  {
    var first := ResolveHandoff(rows, c, actor, allow, true, cancel, now);
    match ActiveHandoff(rows.handoffs, c)
    case None => ResumeTwice(rows, c, LatestResolved(rows.handoffs, c).value);
    case Some(h) =>
      var closed := rows.handoffs[h].(status := if cancel then Cancelled else Resolved, closedAt := Some(now));
      var changed := rows.(handoffs := rows.handoffs[h := closed]);
      ResumeTwice(changed, c, h);
      assert first.0.handoffs == changed.handoffs;
      ClosedLeavesNoneActive(rows, c, h, closed, now);
      if !cancel { JustResolvedIsLatest(rows, c, h, now); }
  }

  lemma ClosedLeavesNoneActive(rows: Rows, c: Thread, h: nat, closed: Handoff, clock: int)
    requires HandoffsOk(rows, clock) && ActiveHandoff(rows.handoffs, c) == Some(h) && !IsActive(closed)
    ensures ActiveHandoff(rows.handoffs[h := closed], c).None?
  {
    forall i | 0 <= i < |rows.handoffs| && i != h && rows.handoffs[i].conversation == c ensures !IsActive(rows.handoffs[i]) {
      assert rows.handoffs[if i < h then i else h].conversation == c;
    }
  }
}
