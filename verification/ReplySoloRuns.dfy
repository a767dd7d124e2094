/** What one undisturbed worker achieves, and from that a run showing what the protocol does not promise:
    the approval pause of a superseded worker reopens a succeeded run, which then ends as failed. */
module ReplySoloRuns {
  import opened Outcomes
  import opened Whitespace
  import opened ReplyRows
  import opened ReplyProtocol

  lemma {:induction false} ExecConcat(s: State, a: seq<Step>, b: seq<Step>)
    ensures Exec(s, a + b) == Exec(Exec(s, a), b)
  {
    hide Apply;
    if b == [] {
      assert a + b == a;
    } else {
      var n := |b| - 1;
      ExecConcat(s, a, b[..n]);
      assert (a + b)[..|a + b| - 1] == a + b[..n];
    }
  }

  function Solo(w: nat, actions: seq<Action>): (steps: seq<Step>)
    ensures |steps| == |actions|
  {
    seq(|actions|, i requires 0 <= i < |actions| => Work(w, actions[i]))
  }

  lemma ExecThree(s: State, w: nat, a: Action, b: Action, c: Action)
    ensures Exec(s, Solo(w, [a, b, c])) == ApplyAction(ApplyAction(ApplyAction(s, w, a), w, b), w, c)
  {
    var steps := Solo(w, [a, b, c]);
    assert steps == [Work(w, a), Work(w, b), Work(w, c)];
    assert steps[..2][..1] == [Work(w, a)] && steps[..2][1] == Work(w, b);
    assert Exec(s, [Work(w, a)]) == ApplyAction(s, w, a);
    assert Exec(s, steps[..2]) == ApplyAction(ApplyAction(s, w, a), w, b);
  }

  /** Run r is open, its lease is free and event e asks for it. */
  ghost predicate Claimable(s: State, w: nat, e: nat, r: nat, now: int) {
    && w < |s.workers| && s.workers[w].pc.Idle? && s.workers[w].seen <= now <= s.clock
    && |s.trails| == |s.rows.runs| && r < |s.rows.runs|
    && AnswerableMessage(s.rows, e).Some?
    && FindRun(s.rows.runs, AnswerableMessage(s.rows, e).value) == Some(r)
    && IsOpen(s.rows.runs[r]) && (s.rows.runs[r].until.None? || s.rows.runs[r].until.value < now)
    && ActiveHandoff(s.rows.handoffs, s.rows.messages[s.rows.events[e].message.value].conversation).None?
  }

  lemma TakesOver(s: State, w: nat, e: nat, r: nat, now: int)
    requires Claimable(s, w, e, r, now)
    ensures var t := Exec(s, Solo(w, [Start(e), Resolve(true), Claim(now)]));
            && t.rows == SetRun(s.rows, r, s.rows.runs[r].(token := Some(s.nextToken), until := Some(now + LEASE_SECONDS)))
            && t.workers == s.workers[w := Worker(Loading(r, s.nextToken), now)]
            && t.locks == s.locks && t.clock == s.clock && |t.trails| == |s.trails| && t.nextToken == s.nextToken + 1
  {
    hide Exec;
    ExecThree(s, w, Start(e), Resolve(true), Claim(now));
    var a := StartStep(s, w, e);
    assert a == Go(s, w, Resolving(e));
    var b := ResolveStep(a, w, true);
    assert b == Go(s, w, Claiming(r));
  }

  /** Worker w is about to load a pending run whose lease it holds, in a conversation nobody else touches. */
  ghost predicate OnItsOwn(s: State, w: nat, r: nat, token: nat) {
    && w < |s.workers| && s.workers[w].pc == Loading(r, token)
    && |s.trails| == |s.rows.runs| && Holds(s.rows, r, token) && s.rows.runs[r].status.Pending?
    && s.rows.runs[r].conversation !in s.locks
    && ActiveHandoff(s.rows.handoffs, s.rows.runs[r].conversation).None?
  }

  lemma Generates(s: State, w: nat, r: nat, token: nat, text: string)
    requires OnItsOwn(s, w, r, token) && IsDeliverable(text)
    ensures var t := Exec(s, Solo(w, [Load(true), Produce(text), Persist]));
            && t.rows == SetRun(s.rows, r, s.rows.runs[r].(status := Generated, text := Some(text)))
            && t.workers == s.workers[w := Worker(Guarding(r, token, text), s.workers[w].seen)]
            && t.locks == s.locks && t.clock == s.clock && |t.trails| == |s.trails| && t.nextToken == s.nextToken
  {
    hide Exec;
    ExecThree(s, w, Load(true), Produce(text), Persist);
    var a := LoadStep(s, w, true);
    assert a == Go(s, w, Working(r, token));
    var b := ProduceStep(a, w, text);
    assert b == Go(s, w, Persisting(r, token, text));
  }

  /** Worker w is about to open the guarded transaction and no handoff is active. */
  ghost predicate AtTheGuard(s: State, w: nat, r: nat, token: nat, text: string) {
    && w < |s.workers| && s.workers[w].pc == Guarding(r, token, text)
    && |s.trails| == |s.rows.runs| && r < |s.rows.runs|
    && s.rows.runs[r].conversation !in s.locks
    && ActiveHandoff(s.rows.handoffs, s.rows.runs[r].conversation).None?
  }

  /** Worker w stands before the guarded transaction and its conversation is not locked. */
  ghost predicate BeforeTheGuard(s: State, w: nat, r: nat, token: nat, text: string) {
    && w < |s.workers| && s.workers[w].pc == Guarding(r, token, text)
    && |s.trails| == |s.rows.runs| && r < |s.rows.runs|
    && s.rows.runs[r].conversation !in s.locks
  }

  lemma PassesGuard(s: State, w: nat, r: nat, token: nat, text: string)
    requires AtTheGuard(s, w, r, token, text)
    ensures GuardStep(s, w) == Go(s.(locks := s.locks[s.rows.runs[r].conversation := w]), w, Guarded(r, token, text))
  {
  }

  lemma SendsFresh(s: State, w: nat, r: nat, token: nat, text: string)
    requires w < |s.workers| && s.workers[w].pc == Guarded(r, token, text) && r < |s.rows.runs| == |s.trails|
    requires LookupReply(s.rows, s.rows.runs[r], r, text).Fresh?
    ensures var t := SendStep(s, w, true, false);
            && t.rows == s.rows && t.locks == s.locks && t.clock == s.clock && t.nextToken == s.nextToken
            && |t.trails| == |s.trails| && t.workers == s.workers[w := Worker(Sent(r, token, text), s.workers[w].seen)]
  {
    hide LookupReply;
  }

  lemma CommitsFresh(s: State, w: nat, r: nat, token: nat, text: string)
    requires w < |s.workers| && s.workers[w].pc == Sent(r, token, text) && r < |s.rows.runs| == |s.trails|
    requires LookupReply(s.rows, s.rows.runs[r], r, text).Fresh?
    ensures var t := CommitStep(s, w, true);
            && t.rows == s.rows.(messages := s.rows.messages + [ReplyMessage(s.rows.runs[r], r, text)])
            && t.locks == s.locks - {s.rows.runs[r].conversation} && t.clock == s.clock && t.nextToken == s.nextToken
            && |t.trails| == |s.trails|
            && t.workers == s.workers[w := Worker(Completing(r, token, |s.rows.messages|), s.workers[w].seen)]
  {
    hide LookupReply, ReplyMessage;
  }

  /** The guard, the send and the commit look at neither lease nor status: superseded or not, the worker's text
      becomes the reply when there is none yet. */
  lemma DeliversWithoutLease(s: State, w: nat, r: nat, token: nat, text: string)
    requires AtTheGuard(s, w, r, token, text) && FindKey(s.rows.messages, ReplyKey(r)).None?
    ensures var t := Exec(s, Solo(w, [Guard, Send(true, false), Commit(true)]));
            && t.rows == s.rows.(messages := s.rows.messages + [ReplyMessage(s.rows.runs[r], r, text)])
            && t.workers == s.workers[w := Worker(Completing(r, token, |s.rows.messages|), s.workers[w].seen)]
            && t.locks == s.locks && t.clock == s.clock && |t.trails| == |s.trails| && t.nextToken == s.nextToken
  {
    hide Exec, GuardStep, SendStep, CommitStep, ReplyMessage;
    ExecThree(s, w, Guard, Send(true, false), Commit(true));
    PassesGuard(s, w, r, token, text);
    var a := GuardStep(s, w);
    SendsFresh(a, w, r, token, text);
    var b := SendStep(a, w, true, false);
    CommitsFresh(b, w, r, token, text);
  }

  lemma StopsAtGuard(s: State, w: nat, r: nat, token: nat, text: string)
    requires BeforeTheGuard(s, w, r, token, text) && ActiveHandoff(s.rows.handoffs, s.rows.runs[r].conversation).Some?
    ensures PcAt(CommitStep(SendStep(GuardStep(s, w), w, true, false), w, true), w).Idle?
    ensures CommitStep(SendStep(GuardStep(s, w), w, true, false), w, true).rows.messages == s.rows.messages
  {
  }

  lemma MeetsReply(s: State, w: nat, r: nat, token: nat, text: string)
    requires AtTheGuard(s, w, r, token, text)
    requires !LookupReply(s.rows, s.rows.runs[r], r, text).Fresh?
    ensures var t := CommitStep(SendStep(GuardStep(s, w), w, true, false), w, true);
            && t.rows == s.rows
            && PcAt(t, w) == match LookupReply(s.rows, s.rows.runs[r], r, text)
                             case Replayed(m) => Completing(r, token, m)
                             case _ => Releasing(r, token, true, false)
  {
    hide LookupReply;
    PassesGuard(s, w, r, token, text);
  }

  lemma MatchesOnlyItself(message: Message, run: Run, r: nat, text: string)
    requires message.key == Some(ReplyKey(r))
    ensures OutboundMatches(message, run.conversation, run.account, Strip(text), AI)
            <==> message == Message(Some(ReplyKey(r)), run.conversation, false, AI, Strip(text), Some(run.account))
  {
    hide Strip;
  }

  /** A worker past its persist step whose send succeeds gets its text delivered exactly when no handoff is active and the
      key is free or holds that very reply, with or without the lease: then the one message under the key is the AI's,
      with that text, in the run's conversation and account, and otherwise no message is added. */
  lemma DeliversExactly(s: State, w: nat, r: nat, token: nat, text: string)
    requires BeforeTheGuard(s, w, r, token, text)
    ensures var t := Exec(s, Solo(w, [Guard, Send(true, false), Commit(true)]));
            var run := s.rows.runs[r];
            var reply := Message(Some(ReplyKey(r)), run.conversation, false, AI, Strip(text), Some(run.account));
            var found := FindKey(s.rows.messages, ReplyKey(r));
            var delivers := ActiveHandoff(s.rows.handoffs, run.conversation).None?
                            && (found.Some? ==> s.rows.messages[found.value] == reply);
            && (PcAt(t, w).Completing? <==> delivers)
            && (!delivers ==> t.rows.messages == s.rows.messages)
            && (delivers ==> PcAt(t, w).reply < |t.rows.messages| && t.rows.messages[PcAt(t, w).reply] == reply)
  {
    hide Exec, GuardStep, SendStep, CommitStep, Strip;
    ExecThree(s, w, Guard, Send(true, false), Commit(true));
    var found := FindKey(s.rows.messages, ReplyKey(r));
    if found.Some? { MatchesOnlyItself(s.rows.messages[found.value], s.rows.runs[r], r, text); }
    if ActiveHandoff(s.rows.handoffs, s.rows.runs[r].conversation).Some? {
      StopsAtGuard(s, w, r, token, text);
    } else if LookupReply(s.rows, s.rows.runs[r], r, text).Fresh? {
      DeliversWithoutLease(s, w, r, token, text);
    } else {
      MeetsReply(s, w, r, token, text);
    }
  }

  /** A reply with another text is already there: the lease holder's own run ends as failed. */
  lemma ConflictFailsRun(s: State, w: nat, r: nat, token: nat, text: string)
    requires AtTheGuard(s, w, r, token, text) && Holds(s.rows, r, token)
    requires LookupReply(s.rows, s.rows.runs[r], r, text).Conflict?
    ensures var t := Exec(s, Solo(w, [Guard, Send(true, false), Release]));
            && t.rows == SetRun(s.rows, r, ClearLease(s.rows.runs[r]).(status := Failed, text := None))
            && t.workers == s.workers[w := Worker(Idle, s.workers[w].seen)]
  {
    hide Exec;
    ExecThree(s, w, Guard, Send(true, false), Release);
    var c := s.rows.runs[r].conversation;
    var a := GuardStep(s, w);
    assert a == Go(s.(locks := s.locks[c := w]), w, Guarded(r, token, text));
    var b := SendStep(a, w, true, false);
    assert b.rows == s.rows && b.workers == s.workers[w := Worker(Releasing(r, token, true, false), s.workers[w].seen)];
  }

  /** The row of a run whose reply is message m. */
  function Answered(run: Run, m: nat): Run {
    ClearLease(run).(status := Succeeded, text := None, outbound := Some(m))
  }

  /** No step is an approval pause. */
  predicate WithoutPause(steps: seq<Step>) {
    forall k :: 0 <= k < |steps| ==> !(steps[k].Work? && steps[k].action.ToolPause?)
  }

  lemma SoloWithoutPause(w: nat, actions: seq<Action>)
    requires forall k :: 0 <= k < |actions| ==> !actions[k].ToolPause?
    ensures WithoutPause(Solo(w, actions))
  {
  }

  lemma PauseFreeBoth(a: seq<Step>, b: seq<Step>)
    requires WithoutPause(a) && WithoutPause(b)
    ensures WithoutPause(a + b)
  {
  }

  lemma PauseFreeOne(step: Step)
    requires !(step.Work? && step.action.ToolPause?)
    ensures WithoutPause([step])
  {
  }

  lemma ReachesGuard(s: State, w: nat, e: nat, r: nat, now: int, text: string) returns (steps: seq<Step>, t: State)
    requires Claimable(s, w, e, r, now) && s.rows.runs[r].status.Pending? && IsDeliverable(text)
    requires s.rows.runs[r].conversation !in s.locks
    requires ActiveHandoff(s.rows.handoffs, s.rows.runs[r].conversation).None?
    ensures |steps| == 6 && t == Exec(s, steps) && WithoutPause(steps)
    ensures AtTheGuard(t, w, r, s.nextToken, text) && Holds(t.rows, r, s.nextToken)
    ensures t.rows == s.rows.(runs := t.rows.runs) && |t.rows.runs| == |s.rows.runs|
    ensures t.rows.runs == s.rows.runs[r := s.rows.runs[r].(token := Some(s.nextToken), until := Some(now + LEASE_SECONDS),
                                                            status := Generated, text := Some(text))]
    ensures t.workers == s.workers[w := Worker(Guarding(r, s.nextToken, text), now)]
    ensures t.locks == s.locks && t.clock == s.clock && t.nextToken == s.nextToken + 1
  {
    hide Exec, WithoutPause;
    TakesOver(s, w, e, r, now);
    var first := Solo(w, [Start(e), Resolve(true), Claim(now)]);
    var a := Exec(s, first);
    Generates(a, w, r, s.nextToken, text);
    var second := Solo(w, [Load(true), Produce(text), Persist]);
    ExecConcat(s, first, second);
    SoloWithoutPause(w, [Start(e), Resolve(true), Claim(now)]);
    SoloWithoutPause(w, [Load(true), Produce(text), Persist]);
    PauseFreeBoth(first, second);
    steps, t := first + second, Exec(a, second);
  }

  /** Progress: with the lease free, no handoff and no interference, ten steps of one worker answer the
      message with any deliverable text and leave the run succeeded. */
  lemma UndisturbedWorkerSucceeds(s: State, w: nat, e: nat, r: nat, now: int, text: string) returns (steps: seq<Step>, t: State)
    requires Claimable(s, w, e, r, now) && s.rows.runs[r].status.Pending? && IsDeliverable(text)
    requires s.rows.runs[r].conversation !in s.locks
    requires ActiveHandoff(s.rows.handoffs, s.rows.runs[r].conversation).None?
    requires FindKey(s.rows.messages, ReplyKey(r)).None?
    ensures |steps| == 10 && t == Exec(s, steps)
    ensures t.rows.messages == s.rows.messages + [ReplyMessage(s.rows.runs[r], r, text)]
    ensures t.rows.runs == s.rows.runs[r := Answered(s.rows.runs[r], |s.rows.messages|)]
    ensures t.rows.handoffs == s.rows.handoffs && t.rows.events == s.rows.events
    ensures t.workers == s.workers[w := Worker(Idle, now)]
    ensures t.locks == s.locks && t.clock == s.clock && t.nextToken == s.nextToken + 1 && |t.trails| == |s.trails|
  {
    hide Exec, CompleteStep, WithoutPause, ValidateResponse, AnswerableMessage;
    var before, b := ReachesGuard(s, w, e, r, now, text);
    DeliversWithoutLease(b, w, r, s.nextToken, text);
    var third := Solo(w, [Guard, Send(true, false), Commit(true)]);
    var c := Exec(b, third);
    ExecConcat(s, before, third);
    ExecConcat(s, before + third, [Work(w, Complete)]);
    ExecOnly(c, Work(w, Complete));
    steps, t := before + third + [Work(w, Complete)], CompleteStep(c, w);
    FinishesRun(c, w, r, s.nextToken, |s.rows.messages|);
    assert t.workers == s.workers[w := Worker(Idle, now)];
    assert t.rows.runs == s.rows.runs[r := Answered(s.rows.runs[r], |s.rows.messages|)];
  }

  lemma ExecOnly(s: State, step: Step)
    ensures Exec(s, [step]) == Apply(s, step)
  {
    assert [step][..0] == [];
  }

  lemma FinishesRun(c: State, w: nat, r: nat, token: nat, m: nat)
    requires w < |c.workers| && c.workers[w].pc == Completing(r, token, m) && Holds(c.rows, r, token) && |c.trails| == |c.rows.runs|
    ensures var t := CompleteStep(c, w);
            && t.rows == SetRun(c.rows, r, Answered(c.rows.runs[r], m))
            && t.workers == c.workers[w := Worker(Idle, c.workers[w].seen)]
            && t.locks == c.locks && t.clock == c.clock && t.nextToken == c.nextToken && |t.trails| == |c.trails|
  {
  }
}
