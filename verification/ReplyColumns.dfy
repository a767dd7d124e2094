/** What becomes of a run's row, column by column, and what that means for a text that was stored and not yet sent. */
module ReplyColumns {
  import opened Outcomes
  import opened ReplyRows
  import opened ReplyProtocol
  import opened ReplyInvariant
  import opened ReplyTheorems
  import opened ReplyResume
  import opened ReplySoloRuns

  // ---------------------------------------------------------------- the writes of a run's row

  ghost predicate Claims(s: State, step: Step, r: nat)
    requires r < |s.rows.runs|
  {
    && step.Work? && step.action.Claim? && PcAt(s, step.w) == Claiming(r) && ClockReading(s, step.w, step.action.now)
    && IsOpen(s.rows.runs[r]) && (s.rows.runs[r].until.None? || s.rows.runs[r].until.value < step.action.now)
  }

  ghost predicate Renews(s: State, step: Step, r: nat)
    requires r < |s.rows.runs|
  {
    && step.Work? && step.action.Renew? && PcAt(s, step.w).Working? && HasLease(s, step.w, r)
    && ClockReading(s, step.w, step.action.now) && IsOpen(s.rows.runs[r])
  }

  ghost predicate Stores(s: State, step: Step, r: nat)
    requires r < |s.rows.runs|
  {
    && step.Work? && step.action.Persist? && PcAt(s, step.w).Persisting? && HasLease(s, step.w, r)
    && s.rows.runs[r].status.Pending?
  }

  ghost predicate Completes(s: State, step: Step, r: nat) {
    step.Work? && step.action.Complete? && PcAt(s, step.w).Completing? && HasLease(s, step.w, r)
  }

  ghost predicate FailsRun(s: State, step: Step, r: nat) {
    step.Work? && ReleasesAsFinal(s, step.w, step.action, r)
  }

  ghost predicate ReleasesForRetry(s: State, step: Step, r: nat) {
    && step.Work? && step.action.Release? && PcAt(s, step.w).Releasing? && !PcAt(s, step.w).terminal
    && HasLease(s, step.w, r)
  }

  /** The holder meets an active handoff before the send. */
  ghost predicate GuardPauses(s: State, step: Step, r: nat)
    requires r < |s.rows.runs|
  {
    && step.Work? && step.action.Guard? && PcAt(s, step.w).Guarding? && HasLease(s, step.w, r) && IsOpen(s.rows.runs[r])
    && s.rows.runs[r].conversation !in s.locks
    && exists h :: IsActiveOf(s.rows.handoffs, s.rows.runs[r].conversation, h)
  }

  /** An operator resolves the handoff whose source is the run, and asks the AI to go on. */
  ghost predicate Resumes(s: State, step: Step, r: nat)
    requires r < |s.rows.runs|
  {
    && step.Operator? && step.operation.ResolveIt? && step.operation.resume
    && exists h :: IsMeant(s.rows.handoffs, step.conversation, step.operation.actor, step.operation.allowOverride, true, h)
                   && Wakes(s.rows, step.conversation, h, r)
  }

  /** The row after a step, every column of it. */
  ghost function RunAfter(s: State, step: Step, r: nat): Run
    requires r < |s.rows.runs|
  {
    var run := s.rows.runs[r];
    var freed := run.(token := None, until := None);
    if Claims(s, step, r) then run.(token := Some(s.nextToken), until := Some(step.action.now + 180))
    else if Renews(s, step, r) then run.(until := Some(step.action.now + 180))
    else if Stores(s, step, r) then run.(status := Generated, text := Some(PcAt(s, step.w).text))
    else if Completes(s, step, r) then
      freed.(status := Succeeded, text := None, outbound := Some(PcAt(s, step.w).reply))
    else if FailsRun(s, step, r) then freed.(status := Failed, text := None)
    else if ReleasesForRetry(s, step, r) then freed
    else if GuardPauses(s, step, r) || EffectivePause(s, step, r) then freed.(status := Paused, text := None)
    else if Resumes(s, step, r) then freed.(status := Pending, text := None)
    else run
  }

  // ---------------------------------------------------------------- a step does exactly that

  lemma LeaseMoves(s: State, w: nat, action: Action, r: nat)
    requires |s.trails| == |s.rows.runs| && r < |s.rows.runs| && (action.Claim? || action.Renew?)
    ensures var t := ApplyAction(s, w, action);
            r < |t.rows.runs| && t.rows.runs[r] == RunAfter(s, Work(w, action), r)
  {
    hide GuardPauses, Resumes, EffectivePause, Stores, Completes, FailsRun, ReleasesForRetry;
    OtherCauses(s, w, action, r);
  }

  lemma HolderWrites(s: State, w: nat, action: Action, r: nat)
    requires |s.trails| == |s.rows.runs| && r < |s.rows.runs| && (action.Persist? || action.Complete? || action.Release?)
    ensures var t := ApplyAction(s, w, action);
            r < |t.rows.runs| && t.rows.runs[r] == RunAfter(s, Work(w, action), r)
  {
    hide GuardPauses, Resumes, EffectivePause, Claims, Renews, SyncTrail;
    OtherCauses(s, w, action, r);
  }

  lemma OtherCauses(s: State, w: nat, action: Action, r: nat)
    requires r < |s.rows.runs|
    ensures !action.Guard? ==> !GuardPauses(s, Work(w, action), r)
    ensures !action.ToolPause? ==> !EffectivePause(s, Work(w, action), r)
    ensures !Resumes(s, Work(w, action), r)
    ensures !action.Claim? ==> !Claims(s, Work(w, action), r)
    ensures !action.Renew? ==> !Renews(s, Work(w, action), r)
    ensures action.Claim? || action.Renew? ==>
              !Stores(s, Work(w, action), r) && !Completes(s, Work(w, action), r) && !FailsRun(s, Work(w, action), r)
              && !ReleasesForRetry(s, Work(w, action), r)
  {
  }

  lemma ToolPauseWrites(s: State, w: nat, action: Action, r: nat)
    requires r < |s.rows.runs| && action.ToolPause?
    ensures var t := ApplyAction(s, w, action);
            r < |t.rows.runs| && t.rows.runs[r] == RunAfter(s, Work(w, action), r)
  {
    hide RequestHandoff, ActiveHandoff, Resumes, GuardPauses, Stores, Completes, FailsRun, ReleasesForRetry;
    OtherCauses(s, w, action, r);
    PauseCauses(s, w, action, r);
    var pc := PcAt(s, w);
    if pc.Working? && pc.run < |s.rows.runs| {
      RequestKeepsRuns(s.rows, s.rows.runs[pc.run].conversation, Some(pc.run));
    }
  }

  lemma RequestKeepsRuns(rows: Rows, c: Thread, source: Option<nat>)
    ensures RequestHandoff(rows, c, source).0.runs == rows.runs
  {
  }

  lemma PauseCauses(s: State, w: nat, action: Action, r: nat)
    requires r < |s.rows.runs| && (action.ToolPause? || action.Guard?)
    ensures !Stores(s, Work(w, action), r) && !Completes(s, Work(w, action), r) && !FailsRun(s, Work(w, action), r)
    ensures !ReleasesForRetry(s, Work(w, action), r)
  {
  }

  lemma GuardWrites(s: State, w: nat, r: nat)
    requires r < |s.rows.runs| && HandoffsOk(s.rows, s.clock)
    ensures var t := ApplyAction(s, w, Guard);
            r < |t.rows.runs| && t.rows.runs[r] == RunAfter(s, Work(w, Guard), r)
  {
    hide HandoffsOk, ActiveHandoff, IsActiveOf, Resumes, EffectivePause, Stores, Completes, FailsRun, ReleasesForRetry;
    OtherCauses(s, w, Guard, r);
    PauseCauses(s, w, Guard, r);
    var c := s.rows.runs[r].conversation;
    forall h: nat ensures ActiveHandoff(s.rows.handoffs, c) == Some(h) <==> IsActiveOf(s.rows.handoffs, c, h) {
      ActiveIs(s.rows, c, s.clock, h);
    }
    if ActiveHandoff(s.rows.handoffs, c).Some? {
      assert IsActiveOf(s.rows.handoffs, c, ActiveHandoff(s.rows.handoffs, c).value);
    }
    if h :| IsActiveOf(s.rows.handoffs, c, h) { ActiveInside(s.rows.handoffs, c, h); }
  }

  lemma OtherActionWrites(s: State, w: nat, action: Action, r: nat)
    requires r < |s.rows.runs|
    requires !(action.Claim? || action.Renew? || action.Persist? || action.Complete? || action.Release?
               || action.ToolPause? || action.Guard?)
    ensures var t := ApplyAction(s, w, action); r < |t.rows.runs| && t.rows.runs[r] == s.rows.runs[r]
    ensures RunAfter(s, Work(w, action), r) == s.rows.runs[r]
  {
    hide Resumes;
    OtherCauses(s, w, action, r);
    if action.Insert? || action.Commit? { AppendsOnRun(s, w, action, r); } else { OthersKeepRows(s, w, action); }
  }

  lemma OperationWrites(s: State, c: Thread, operation: Operation, r: nat)
    requires r < |s.rows.runs| && HandoffsOk(s.rows, s.clock)
    ensures var t := ApplyOperation(s, c, operation);
            r < |t.rows.runs| && t.rows.runs[r] == RunAfter(s, Operator(c, operation), r)
  {
    hide HandoffsOk, ResolveHandoff, IsMeant;
    if operation.ResolveIt? {
      var actor, allow, resume := operation.actor, operation.allowOverride, operation.resume;
      ResolvesMeant(s.rows, c, actor, allow, resume, operation.cancel, s.clock, s.clock);
      var result := ResolveHandoff(s.rows, c, actor, allow, resume, operation.cancel, s.clock).1;
      if result.Ok? {
        var h := result.value.handoff;
        assert IsMeant(s.rows.handoffs, c, actor, allow, resume, h);
        ResolveWrites(s.rows, c, actor, allow, resume, operation.cancel, s.clock, s.clock, h);
        assert Resumes(s, Operator(c, operation), r) <==> resume && Wakes(s.rows, c, h, r);
      }
    }
  }

  /** A step leaves of a run's row exactly this. */
  lemma StepWritesRun(s: State, step: Step, r: nat)
    requires Inv(s) && r < |s.rows.runs|
    ensures r < |Apply(s, step).rows.runs| && Apply(s, step).rows.runs[r] == RunAfter(s, step, r)
  {
    hide RunAfter, ApplyAction, ApplyOperation, ApplyEnvironment;
    match step
    case Env(event) =>
      EnvironmentOnRun(s, event);
      assert RunAfter(s, step, r) == s.rows.runs[r] by { EnvironmentCauses(s, event, r); }
    case Operator(c, operation) => OperationWrites(s, c, operation, r);
    case Work(w, action) =>
      if action.ToolPause? { ToolPauseWrites(s, w, action, r); }
      else if action.Guard? { GuardWrites(s, w, r); }
      else if action.Claim? || action.Renew? { LeaseMoves(s, w, action, r); }
      else if action.Persist? || action.Complete? || action.Release? { HolderWrites(s, w, action, r); }
      else { OtherActionWrites(s, w, action, r); }
  }

  lemma EnvironmentCauses(s: State, event: Environment, r: nat)
    requires r < |s.rows.runs|
    ensures RunAfter(s, Env(event), r) == s.rows.runs[r]
  {
  }

  /** A release that is not final takes the lease and nothing else: status, text and every other column of every table
      stay as they are. */
  lemma RetryableReleaseKeepsRest(s: State, w: nat, r: nat)
    requires Inv(s) && r < |s.rows.runs| && ReleasesForRetry(s, Work(w, Release), r)
    ensures Apply(s, Work(w, Release)).rows
         == s.rows.(runs := s.rows.runs[r := s.rows.runs[r].(token := None, until := None)])
  {
    var t := Apply(s, Work(w, Release));
    forall q | 0 <= q < |s.rows.runs|
      ensures t.rows.runs[q] == s.rows.runs[r := s.rows.runs[r].(token := None, until := None)][q] {
      StepWritesRun(s, Work(w, Release), q);
    }
  }

  // ---------------------------------------------------------------- where a stored text goes

  /** The steps that take the text of a run away: its reply is delivered, the run fails, or it is paused. */
  ghost predicate TakesText(s: State, step: Step, r: nat)
    requires r < |s.rows.runs|
  {
    Completes(s, step, r) || FailsRun(s, step, r) || GuardPauses(s, step, r) || EffectivePause(s, step, r)
  }

  /** A stored text stays, with the status that shows it, through every other step. */
  lemma TextLeavesExactly(s: State, step: Step, r: nat)
    requires Inv(s) && r < |s.rows.runs| && s.rows.runs[r].text.Some?
    ensures r < |Apply(s, step).rows.runs|
    ensures Apply(s, step).rows.runs[r].text != s.rows.runs[r].text <==> TakesText(s, step, r)
    ensures !TakesText(s, step, r) ==> Apply(s, step).rows.runs[r].status.Generated?
  {
    hide Apply, GuardPauses, EffectivePause, Claims, Renews, Completes, ReleasesForRetry, FailsRun;
    StepWritesRun(s, step, r);
    LeaseOfRun(s, r);
    if Resumes(s, step, r) { OnlyWaitingResume(s, step, r); }
    Exclusive(s, step, r);
  }

  lemma OnlyWaitingResume(s: State, step: Step, r: nat)
    requires r < |s.rows.runs| && Resumes(s, step, r)
    ensures s.rows.runs[r].status.Paused? || s.rows.runs[r].status.Pending?
  {
  }

  /** One step, one cause. */
  lemma Exclusive(s: State, step: Step, r: nat)
    requires r < |s.rows.runs|
    ensures TakesText(s, step, r) ==> !Claims(s, step, r) && !Renews(s, step, r) && !Stores(s, step, r)
                                      && !ReleasesForRetry(s, step, r)
  {
    hide ClockReading, IsActiveOf;
  }

  /** A run without a text gets one exactly when the holder of its lease stores the text it validated. */
  lemma TextArrivesExactly(s: State, step: Step, r: nat)
    requires Inv(s) && r < |s.rows.runs| && s.rows.runs[r].text.None?
    ensures r < |Apply(s, step).rows.runs|
    ensures Apply(s, step).rows.runs[r].text.Some? <==> Stores(s, step, r)
    ensures Stores(s, step, r) ==> Apply(s, step).rows.runs[r].text == Some(PcAt(s, step.w).text)
  {
    hide Apply, GuardPauses, EffectivePause, Claims, Renews, Completes, ReleasesForRetry, FailsRun, Resumes;
    StepWritesRun(s, step, r);
    if Stores(s, step, r) { StoresOnly(s, step, r); }
  }

  lemma StoresOnly(s: State, step: Step, r: nat)
    requires r < |s.rows.runs| && Stores(s, step, r)
    ensures !Claims(s, step, r) && !Renews(s, step, r)
  {
  }

  ghost predicate TextNeverTaken(s: State, steps: seq<Step>, r: nat) {
    forall k :: 0 <= k < |steps| ==> r < |Exec(s, steps[..k]).rows.runs| && !TakesText(Exec(s, steps[..k]), steps[k], r)
  }

  ghost predicate TextStays(s: State, steps: seq<Step>, r: nat)
    requires r < |s.rows.runs|
  {
    forall k :: 0 <= k <= |steps| ==> HasText(Exec(s, steps[..k]), r, s.rows.runs[r].text)
  }

  ghost predicate HasText(s: State, r: nat, text: Option<string>) {
    r < |s.rows.runs| && s.rows.runs[r].text == text
  }

  lemma ExecNext(s: State, steps: seq<Step>, k: nat)
    requires k < |steps|
    ensures Exec(s, steps[..k + 1]) == Apply(Exec(s, steps[..k]), steps[k])
  {
    assert steps[..k + 1][..k] == steps[..k];
  }

  lemma StateInside(s: State, steps: seq<Step>, r: nat)
    requires Inv(s) && r < |s.rows.runs|
    ensures Inv(Exec(s, steps)) && r < |Exec(s, steps).rows.runs|
  {
    hide Inv, Exec;
    ExecKeepsInv(s, steps);
    ExecGrows(s, steps);
  }

  lemma {:induction false} TextStaysUpTo(s: State, steps: seq<Step>, r: nat, k: nat)
    requires Inv(s) && r < |s.rows.runs| && s.rows.runs[r].text.Some? && k <= |steps| && TextNeverTaken(s, steps, r)
    ensures HasText(Exec(s, steps[..k]), r, s.rows.runs[r].text)
  {
    hide Inv, Apply, TakesText;
    if k > 0 {
      TextStaysUpTo(s, steps, r, k - 1);
      StateInside(s, steps[..k - 1], r);
      ExecNext(s, steps, k - 1);
      TextLeavesExactly(Exec(s, steps[..k - 1]), steps[k - 1], r);
    }
  }

  /** Over any run a stored text stays exactly as long as no reply of the run is completed, nothing fails it and nothing
      pauses it, however many workers crash, lose the lease, or fail to send and release the run for another try. */
  lemma TextStaysExactly(s: State, steps: seq<Step>, r: nat)
    requires Inv(s) && r < |s.rows.runs| && s.rows.runs[r].text.Some?
    ensures TextStays(s, steps, r) <==> TextNeverTaken(s, steps, r)
  {
    hide Inv, Apply, TakesText, Exec;
    if TextNeverTaken(s, steps, r) {
      forall k | 0 <= k <= |steps| ensures HasText(Exec(s, steps[..k]), r, s.rows.runs[r].text) {
        TextStaysUpTo(s, steps, r, k);
      }
    }
    if TextStays(s, steps, r) {
      forall k | 0 <= k < |steps|
        ensures r < |Exec(s, steps[..k]).rows.runs| && !TakesText(Exec(s, steps[..k]), steps[k], r) {
        StateInside(s, steps[..k], r);
        ExecNext(s, steps, k);
        assert HasText(Exec(s, steps[..k]), r, s.rows.runs[r].text) && HasText(Exec(s, steps[..k + 1]), r, s.rows.runs[r].text);
        TextLeavesExactly(Exec(s, steps[..k]), steps[k], r);
      }
    }
  }

  lemma LoadsStored(s: State, w: nat, r: nat, token: nat)
    requires Inv(s) && r < |s.rows.runs| && s.rows.runs[r].text.Some?
    requires w < |s.workers| && s.workers[w].pc == Loading(r, token) && Holds(s.rows, r, token)
    ensures Apply(s, Work(w, Load(true))) == Go(s, w, Guarding(r, token, s.rows.runs[r].text.value))
  {
    assert TrailOk(s, r);
    LeaseOfRun(s, r);
  }

  /** The model is asked once: as long as the text stays, whoever claims the run next goes to the guard with that text,
      not back to the model. */
  lemma NextHolderSendsSameText(s: State, steps: seq<Step>, r: nat, w: nat, token: nat)
    requires Inv(s) && r < |s.rows.runs| && s.rows.runs[r].text.Some? && TextNeverTaken(s, steps, r)
    requires var t := Exec(s, steps);
             w < |t.workers| && t.workers[w].pc == Loading(r, token) && Holds(t.rows, r, token)
    ensures Exec(s, steps + [Work(w, Load(true))])
         == Go(Exec(s, steps), w, Guarding(r, token, s.rows.runs[r].text.value))
  {
    hide Inv, Apply, Exec, TakesText;
    assert steps[..|steps|] == steps;
    TextStaysUpTo(s, steps, r, |steps|);
    StateInside(s, steps, r);
    LoadsStored(Exec(s, steps), w, r, token);
    ExecConcat(s, steps, [Work(w, Load(true))]);
    ExecOnly(Exec(s, steps), Work(w, Load(true)));
  }

  // ---------------------------------------------------------------- failures, from the error to the row

  /** A send that fails: a refusal by the channel fails the run, any other error leaves it with its text and without a
      lease, to be sent again by the next worker. No message is added either way. */
  lemma FailedSend(s: State, w: nat, r: nat, token: nat, text: string, refusal: bool)
    requires Inv(s) && AtTheGuard(s, w, r, token, text) && Holds(s.rows, r, token)
    requires FindKey(s.rows.messages, ReplyKey(r)).None?
    ensures var t := Exec(s, Solo(w, [Guard, Send(false, refusal), Release]));
            && t.rows == s.rows.(runs := s.rows.runs[r := if refusal
                 then s.rows.runs[r].(status := Failed, text := None, token := None, until := None)
                 else s.rows.runs[r].(token := None, until := None)])
            && t.locks == s.locks && t.workers == s.workers[w := Worker(Idle, s.workers[w].seen)]
            && t.clock == s.clock && |t.trails| == |s.trails|
  {
    hide Exec, GuardStep, SendStep, Inv;
    ExecThree(s, w, Guard, Send(false, refusal), Release);
    PassesGuard(s, w, r, token, text);
    var a := GuardStep(s, w);
    RefusedSend(a, w, r, token, text, refusal);
    var b := SendStep(a, w, false, refusal);
    assert b.rows == s.rows;
  }

  lemma RefusedSend(s: State, w: nat, r: nat, token: nat, text: string, refusal: bool)
    requires w < |s.workers| && s.workers[w].pc == Guarded(r, token, text) && r < |s.rows.runs| == |s.trails|
    requires FindKey(s.rows.messages, ReplyKey(r)).None?
    ensures SendStep(s, w, false, refusal)
         == Go(Unlock(s, s.rows.runs[r].conversation), w, Releasing(r, token, refusal, false))
  {
  }

  /** While the model works: an error it calls final, or an answer that is no valid text, fails the run; any other error
      frees the run and leaves it pending. */
  lemma FailedGeneration(s: State, w: nat, r: nat, token: nat, action: Action)
    requires Inv(s) && w < |s.workers| && s.workers[w].pc == Working(r, token) && Holds(s.rows, r, token)
    requires action.FailWork? || action.Fault? || (action.Produce? && ValidateResponse(action.text).Err?)
    ensures var isFinal := action.Produce? || (action.FailWork? && action.terminal);
            r < |s.rows.runs|
            && Apply(Apply(s, Work(w, action)), Work(w, Release)).rows
               == s.rows.(runs := s.rows.runs[r := if isFinal
                    then s.rows.runs[r].(status := Failed, text := None, token := None, until := None)
                    else s.rows.runs[r].(token := None, until := None)])
  {
    hide Inv, ValidateResponse;
  }

  /** A worker that finds it has lost the run stops there and writes nothing: at a renewal, before it stores a text, when
      it loads the run, and at the guard when a person has the conversation. */
  lemma LosersStop(s: State, w: nat, r: nat, token: nat, action: Action)
    requires Inv(s) && w < |s.workers| && PcRun(s.workers[w].pc) == Some(r) && PcToken(s.workers[w].pc) == Some(token)
    requires !Holds(s.rows, r, token) && r < |s.rows.runs|
    requires || (s.workers[w].pc.Working? && action.Renew? && ClockReading(s, w, action.now))
             || (s.workers[w].pc.Persisting? && action.Persist?)
             || (s.workers[w].pc.Loading? && action.Load?)
             || (s.workers[w].pc.Guarding? && action.Guard? && s.rows.runs[r].conversation !in s.locks
                 && ActiveHandoff(s.rows.handoffs, s.rows.runs[r].conversation).Some?)
    ensures var t := Apply(s, Work(w, action)); PcAt(t, w).Idle? && t.rows == s.rows
  {
    hide Inv, ValidateResponse, ActiveHandoff;
    assert |s.trails| == |s.rows.runs| by { TrailsAre(s); }
  }

  /** A run that cannot be loaded any more, because its prompt or its account is gone, fails. */
  lemma FailedLoad(s: State, w: nat, r: nat, token: nat)
    requires Inv(s) && w < |s.workers| && s.workers[w].pc == Loading(r, token) && Holds(s.rows, r, token)
    ensures r < |s.rows.runs|
            && Apply(Apply(s, Work(w, Load(false))), Work(w, Release)).rows
               == s.rows.(runs := s.rows.runs[r := s.rows.runs[r].(status := Failed, text := None, token := None, until := None)])
  {
    hide Inv;
  }

  /** A send that reached the channel and was not committed is counted as lost; the run keeps its text for the next try,
      unless its key was taken in the meantime by another text, which fails it. */
  lemma FailedCommit(s: State, w: nat, r: nat, token: nat, text: string)
    requires Inv(s) && w < |s.workers| && s.workers[w].pc == Sent(r, token, text) && Holds(s.rows, r, token)
    ensures var t := Apply(Apply(s, Work(w, Commit(false))), Work(w, Release));
            && r < |s.rows.runs| && r < |s.trails| && r < |t.trails|
            && t.rows == s.rows.(runs := s.rows.runs[r := s.rows.runs[r].(token := None, until := None)])
            && t.trails[r].lost == s.trails[r].lost + (if s.rows.runs[r].channel.Telegram? then 1 else 0)
    ensures LookupReply(s.rows, s.rows.runs[r], r, text).Conflict? ==>
              Apply(Apply(s, Work(w, Commit(true))), Work(w, Release)).rows
              == s.rows.(runs := s.rows.runs[r := s.rows.runs[r].(status := Failed, text := None, token := None, until := None)])
  {
    hide Inv, LookupReply, ReplyMessage;
    assert |s.trails| == |s.rows.runs| by { TrailsAre(s); }
  }

  lemma TrailsAre(s: State)
    requires Inv(s)
    ensures |s.trails| == |s.rows.runs|
  {
  }

  // ---------------------------------------------------------------- paused runs

  /** A paused run goes on exactly when somebody resumes the handoff that names it as its source. */
  lemma PausedRunStep(s: State, step: Step, r: nat)
    requires Inv(s) && r < |s.rows.runs| && s.rows.runs[r].status.Paused?
    ensures r < |Apply(s, step).rows.runs|
    ensures Apply(s, step).rows.runs[r] != s.rows.runs[r] <==> Resumes(s, step, r)
  {
    hide Inv, Apply, Resumes, EffectivePause, Claims, Renews, Stores;
    StepWritesRun(s, step, r);
    LeaseOfRun(s, r);
    if Resumes(s, step, r) { ResumesOnly(s, step, r); }
    if Claims(s, step, r) || Renews(s, step, r) || Stores(s, step, r) { OnlyOpen(s, step, r); }
  }

  lemma ResumesOnly(s: State, step: Step, r: nat)
    requires r < |s.rows.runs| && Resumes(s, step, r)
    ensures !step.Work?
    ensures !Claims(s, step, r) && !Renews(s, step, r) && !Stores(s, step, r) && !EffectivePause(s, step, r)
  {
  }

  lemma OnlyOpen(s: State, step: Step, r: nat)
    requires r < |s.rows.runs| && (Claims(s, step, r) || Renews(s, step, r) || Stores(s, step, r))
    ensures IsOpen(s.rows.runs[r])
  {
  }

  /** A pause leaves an active handoff with a source: the run itself, unless an earlier run of the conversation is
      already named. */
  lemma PauseNamesSource(s: State, step: Step, r: nat)
    requires Inv(s) && r < |s.rows.runs| && (GuardPauses(s, step, r) || EffectivePause(s, step, r))
    ensures var c := s.rows.runs[r].conversation;
            var t := Apply(s, step);
            exists h: nat :: IsActiveOf(t.rows.handoffs, c, h)
                        && t.rows.handoffs[h].source
                           == if h < |s.rows.handoffs| && s.rows.handoffs[h].source.Some? then s.rows.handoffs[h].source
                              else Some(r)
  {
    hide Inv, HandoffsOk;
    var c := s.rows.runs[r].conversation;
    assert HandoffsOk(s.rows, s.clock) by { HandoffsAre(s); }
    var found := ActiveHandoff(s.rows.handoffs, c);
    var h := if found.Some? then found.value else |s.rows.handoffs|;
    if i :| IsActiveOf(s.rows.handoffs, c, i) { ActiveIs(s.rows, c, s.clock, i); }
    assert IsActiveOf(Apply(s, step).rows.handoffs, c, h);
  }

  lemma HandoffsAre(s: State)
    requires Inv(s)
    ensures HandoffsOk(s.rows, s.clock)
  {
  }

  /** So of several runs paused behind one handoff a resume wakes the first alone: one that the handoff does not name
      stays paused although no handoff is left in its conversation. */
  lemma OtherRunStaysPaused(s: State, r: nat, h: nat, actor: nat, allow: bool, cancel: bool)
    requires Inv(s) && r < |s.rows.runs| && s.rows.runs[r].status.Paused?
    requires IsMeant(s.rows.handoffs, s.rows.runs[r].conversation, actor, allow, true, h) && s.rows.handoffs[h].source != Some(r)
    ensures var t := Apply(s, Operator(s.rows.runs[r].conversation, ResolveIt(actor, allow, true, cancel)));
            && r < |t.rows.runs| && t.rows.runs[r] == s.rows.runs[r]
            && forall i :: !IsActiveOf(t.rows.handoffs, s.rows.runs[r].conversation, i)
  {
    hide Inv, HandoffsOk, IsMeant, ResolveHandoff, IsActiveOf;
    var c := s.rows.runs[r].conversation;
    var step := Operator(c, ResolveIt(actor, allow, true, cancel));
    HandoffsAre(s);
    PausedRunStep(s, step, r);
    if Resumes(s, step, r) {
      var i: nat :| IsMeant(s.rows.handoffs, c, actor, allow, true, i) && Wakes(s.rows, c, i, r);
      MeantIsUnique(s.rows, c, actor, allow, true, s.clock, h, i);
    }
    ResolveWrites(s.rows, c, actor, allow, true, cancel, s.clock, s.clock, h);
    NoneIsLeft(s.rows, c, actor, allow, cancel, s.clock, h);
  }

  lemma NoneIsLeft(rows: Rows, c: Thread, actor: nat, allow: bool, cancel: bool, now: int, h: nat)
    requires HandoffsOk(rows, now) && IsMeant(rows.handoffs, c, actor, allow, true, h)
    ensures var handoffs := if IsActiveOf(rows.handoffs, c, h)
                            then rows.handoffs[h := rows.handoffs[h].(status := if cancel then Cancelled else Resolved,
                                                                      closedAt := Some(now))]
                            else rows.handoffs;
            forall i :: !IsActiveOf(handoffs, c, i)
  {
    if IsActiveOf(rows.handoffs, c, h) {
      forall i | 0 <= i < |rows.handoffs| && i != h ensures !IsActiveOf(rows.handoffs, c, i) {
        if IsActiveOf(rows.handoffs, c, i) {
          ActiveIs(rows, c, now, i);
          ActiveIs(rows, c, now, h);
        }
      }
    }
  }
}
