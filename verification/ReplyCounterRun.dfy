/** A run from the initial state that shows success is not final: the approval pause of a superseded worker
    reopens a succeeded run, which then ends as failed although its reply was delivered. */
module ReplyCounterRun {
  import opened Outcomes
  import opened Whitespace
  import opened ReplyRows
  import opened ReplyProtocol
  import opened ReplySoloRuns

  const CHAT := Thread(0, 0)
  const QUESTION := Message(Some(InboundKey(CHAT, 0)), CHAT, true, Customer, "q", None)
  const NEW_RUN := Run(0, CHAT, 0, Telegram, 0, Pending, None, None, None, None)

  lemma LetterIsText(c: char)
    requires 'a' <= c <= 'z'
    ensures Strip([c]) == [c] && IsDeliverable([c])
  {
    assert !IsSpace(c);
    StripFixesStripped([c]);
  }

  lemma Then(s: State, steps: seq<Step>, step: Step)
    ensures Exec(s, steps + [step]) == Apply(Exec(s, steps), step)
  {
    assert (steps + [step])[..|steps|] == steps;
  }

  /** Two idle workers, one run; `first` is worker 0. */
  ghost predicate Scene(s: State, run: Run, first: Worker) {
    && s.rows.events == [Event(0, 0, Received, Some(0))] && |s.rows.messages| >= 1 && s.rows.messages[0] == QUESTION
    && s.rows.runs == [run] && |s.trails| == 1
    && |s.workers| == 2 && s.workers[0] == first && s.workers[1].pc == Idle && s.workers[1].seen <= s.clock
    && s.locks == map[]
  }

  lemma Delivered() returns (s: State)
    ensures s == Exec(Initial(2), [Env(Ingest(CHAT, 0, 0, Some("q")))])
    ensures s.rows == Rows([Event(0, 0, Received, Some(0))], [QUESTION], [], []) && s.trails == [] && s.locks == map[]
    ensures s.workers == [Worker(Idle, 0), Worker(Idle, 0)] && s.clock == 0 && s.nextToken == 0
  {
    var ingest := Env(Ingest(CHAT, 0, 0, Some("q")));
    assert [ingest][..0] == [];
    s := ApplyEnvironment(Initial(2), ingest.event);
    assert s.rows.events == [Event(0, 0, Received, Some(0))] && s.rows.messages == [QUESTION];
  }

  lemma Arrives() returns (steps: seq<Step>, s: State)
    ensures s == Exec(Initial(2), steps) && WithoutPause(steps)
    ensures Scene(s, NEW_RUN, Worker(Claiming(0), 0)) && s.rows.handoffs == [] && |s.rows.messages| == 1
    ensures s.clock == 0 && s.nextToken == 0 && s.workers[1].seen == 0
  {
    hide Exec;
    LetterIsText('q');
    var a := Delivered();
    var ingest := [Env(Ingest(CHAT, 0, 0, Some("q")))];
    var work := Solo(0, [Start(0), Resolve(true), Insert(Telegram, 0)]);
    ExecThree(a, 0, Start(0), Resolve(true), Insert(Telegram, 0));
    ExecConcat(Initial(2), ingest, work);
    var b := StartStep(a, 0, 0);
    assert b == Go(a, 0, Resolving(0));
    var c := ResolveStep(b, 0, true);
    assert c == Go(a, 0, Inserting(0));
    steps, s := ingest + work, InsertStep(c, 0, Telegram, 0);
  }

  /** Worker 0 claims the run, starts to generate, and sleeps past its lease. */
  lemma Stalls() returns (steps: seq<Step>, s: State)
    ensures s == Exec(Initial(2), steps)
    ensures Scene(s, NEW_RUN.(token := Some(0), until := Some(180)), Worker(Working(0, 0), 0))
    ensures s.rows.handoffs == [] && |s.rows.messages| == 1 && s.clock == 181 && s.workers[1].seen == 0 && s.nextToken == 1
  {
    var before, a := Arrives();
    var b := ClaimStep(a, 0, 0);
    assert b.workers[0] == Worker(Loading(0, 0), 0) && b.rows.runs == [NEW_RUN.(token := Some(0), until := Some(180))];
    var c := LoadStep(b, 0, true);
    s := ApplyEnvironment(c, Tick(181));
    Then(Initial(2), before, Work(0, Claim(0)));
    Then(Initial(2), before + [Work(0, Claim(0))], Work(0, Load(true)));
    Then(Initial(2), before + [Work(0, Claim(0))] + [Work(0, Load(true))], Env(Tick(181)));
    steps := before + [Work(0, Claim(0))] + [Work(0, Load(true))] + [Env(Tick(181))];
  }

  /** Worker 1 takes the expired lease over and succeeds, while worker 0 is still generating. */
  lemma Overtaken() returns (steps: seq<Step>, s: State)
    ensures s == Exec(Initial(2), steps)
    ensures Scene(s, Answered(NEW_RUN, 1), Worker(Working(0, 0), 0))
    ensures s.rows.handoffs == [] && s.rows.messages == [QUESTION, ReplyMessage(NEW_RUN, 0, "a")] && s.clock == 181
  {
    LetterIsText('q');
    LetterIsText('a');
    var before, a := Stalls();
    var more;
    more, s := UndisturbedWorkerSucceeds(a, 1, 0, 0, 181, "a");
    ExecConcat(Initial(2), before, more);
    steps := before + more;
  }

  /** The pause of worker 0 reopens the succeeded run. */
  lemma SucceededRunReopened() returns (before: seq<Step>, s: State, t: State)
    ensures s == Exec(Initial(2), before) && t == Exec(Initial(2), before + [Work(0, ToolPause(true))])
    ensures s.rows.runs == [Answered(NEW_RUN, 1)] && s.rows.runs[0].status.Succeeded?
    ensures Scene(t, Answered(NEW_RUN, 1).(status := Paused), Worker(Idle, 0))
    ensures t.rows.messages == [QUESTION, ReplyMessage(NEW_RUN, 0, "a")] && t.clock == 181
    ensures t.rows.handoffs == [Handoff(CHAT, Queued, None, None, Some(0))]
  {
    before, s := Overtaken();
    Then(Initial(2), before, Work(0, ToolPause(true)));
    t := ToolPauseStep(s, 0, true);
  }

  /** An operator resumes the AI, worker 0 generates another text, and the unique key turns the run into a failure. */
  lemma ReopenedRunFails() returns (steps: seq<Step>)
    ensures var s := Exec(Initial(2), steps);
            && |s.rows.runs| == 1 && s.rows.runs[0].status.Failed?
            && s.rows.messages == [QUESTION, ReplyMessage(NEW_RUN, 0, "a")]
  {
    LetterIsText('q');
    LetterIsText('a');
    LetterIsText('b');
    var before, s, t := SucceededRunReopened();
    var paused := before + [Work(0, ToolPause(true))];
    var resolve := Operator(CHAT, ResolveIt(7, true, true, false));
    Then(Initial(2), paused, resolve);
    var a := ApplyOperation(t, CHAT, resolve.operation);
    Resumes(t, a);
    var more, b := ReachesGuard(a, 0, 0, 0, 181, "b");
    ExecConcat(Initial(2), paused + [resolve], more);
    var conflict := Solo(0, [Guard, Send(true, false), Release]);
    assert b.rows.messages[1].key == Some(ReplyKey(0));
    assert FindKey(b.rows.messages, ReplyKey(0)) == Some(1);
    ConflictFailsRun(b, 0, 0, a.nextToken, "b");
    ExecConcat(Initial(2), paused + [resolve] + more, conflict);
    steps := paused + [resolve] + more + conflict;
  }

  lemma Resumes(t: State, a: State)
    requires Scene(t, Answered(NEW_RUN, 1).(status := Paused), Worker(Idle, 0)) && t.clock == 181
    requires t.rows.handoffs == [Handoff(CHAT, Queued, None, None, Some(0))]
    requires a == ApplyOperation(t, CHAT, ResolveIt(7, true, true, false))
    ensures Scene(a, Answered(NEW_RUN, 1).(status := Pending), Worker(Idle, 0)) && a.clock == 181
    ensures a.rows.messages == t.rows.messages && ActiveHandoff(a.rows.handoffs, CHAT).None?
  {
    assert ActiveHandoff(t.rows.handoffs, CHAT) == Some(0);
  }

  // ---------------------------------------------------------------- a delivered run that fails without an approval pause

  lemma {:induction false} FindRunSame(runs: seq<Run>, r: nat, run: Run, message: nat)
    requires r < |runs| && run.message == runs[r].message
    ensures FindRun(runs[r := run], message) == FindRun(runs, message)
  {
    var n := |runs| - 1;
    if runs[n].message != message {
      if r < n {
        FindRunSame(runs[..n], r, run, message);
        assert runs[r := run][..n] == runs[..n][r := run];
      } else {
        assert runs[r := run][..n] == runs[..n];
      }
    }
  }

  /** Worker v is past its persist step with a stored text and its lease has run out; worker w may take the run over. */
  ghost predicate Overtakable(s: State, v: nat, w: nat, e: nat, r: nat, token: nat, now: int, text: string) {
    && Claimable(s, w, e, r, now) && v != w && v < |s.workers| && s.workers[v].pc == Guarding(r, token, text)
    && s.rows.runs[r].status.Generated? && s.rows.runs[r].text == Some(text) && IsDeliverable(text)
    && s.rows.runs[r].conversation == s.rows.messages[s.rows.events[e].message.value].conversation
    && s.rows.runs[r].conversation !in s.locks && FindKey(s.rows.messages, ReplyKey(r)).None?
  }

  /** The run as an operator's resume leaves it. */
  function Resumed(run: Run): Run {
    ClearLease(run).(status := Pending, text := None)
  }

  lemma TakesOverText(s: State, v: nat, w: nat, e: nat, r: nat, token: nat, now: int, text: string)
    returns (steps: seq<Step>, t: State)
    requires Overtakable(s, v, w, e, r, token, now, text)
    ensures t == Exec(s, steps) && WithoutPause(steps)
    ensures t.rows == SetRun(s.rows, r, s.rows.runs[r].(token := Some(s.nextToken), until := Some(now + LEASE_SECONDS)))
    ensures t.workers == s.workers[w := Worker(Guarding(r, s.nextToken, text), now)]
    ensures t.locks == s.locks && t.clock == s.clock && |t.trails| == |s.trails|
  {
    hide Exec;
    TakesOver(s, w, e, r, now);
    var first := Solo(w, [Start(e), Resolve(true), Claim(now)]);
    var a := Exec(s, first);
    Then(s, first, Work(w, Load(true)));
    steps, t := first + [Work(w, Load(true))], LoadStep(a, w, true);
  }

  /** An operator asks for the conversation, the guard pauses the run, and the operator resumes the AI. */
  lemma PausedAndResumed(s: State, w: nat, r: nat, token: nat, text: string, c: Thread) returns (t: State)
    requires BeforeTheGuard(s, w, r, token, text) && c == s.rows.runs[r].conversation
    requires Holds(s.rows, r, token) && IsOpen(s.rows.runs[r]) && ActiveHandoff(s.rows.handoffs, c).None?
    ensures t == Apply(Apply(Apply(s, Operator(c, RequestIt(None))), Work(w, Guard)),
                       Operator(c, ResolveIt(7, true, true, false)))
    ensures t.rows.messages == s.rows.messages && t.rows.events == s.rows.events
    ensures t.rows.runs == s.rows.runs[r := Resumed(s.rows.runs[r])]
    ensures ActiveHandoff(t.rows.handoffs, c).None?
    ensures t.workers == s.workers[w := Worker(Idle, s.workers[w].seen)]
    ensures t.locks == s.locks && t.clock == s.clock && |t.trails| == |t.rows.runs|
  {
    var h := |s.rows.handoffs|;
    var asked := Handoff(c, Queued, None, None, None);
    var a := Apply(s, Operator(c, RequestIt(None)));
    assert a.rows == s.rows.(handoffs := s.rows.handoffs + [asked]);
    assert ActiveHandoff(a.rows.handoffs, c) == Some(h);
    var b := Apply(a, Work(w, Guard));
    var sourced := asked.(source := Some(r));
    assert b.rows.handoffs == s.rows.handoffs + [sourced] && b.workers == s.workers[w := Worker(Idle, s.workers[w].seen)];
    assert b.rows.runs == s.rows.runs[r := ClearLease(s.rows.runs[r]).(status := Paused, text := None)];
    assert ActiveHandoff(b.rows.handoffs, c) == Some(h);
    t := Apply(b, Operator(c, ResolveIt(7, true, true, false)));
    ClosesOnly(b, t, c, h, r);
    assert t.rows.runs == s.rows.runs[r := Resumed(s.rows.runs[r])];
    assert t.rows.handoffs[..h] == s.rows.handoffs;
  }

  lemma ClosesOnly(b: State, t: State, c: Thread, h: nat, r: nat)
    requires ActiveHandoff(b.rows.handoffs, c) == Some(h) && b.rows.handoffs[h].status.Queued?
    requires b.rows.handoffs[h].source == Some(r) && r < |b.rows.runs| && b.rows.runs[r].conversation == c
    requires b.rows.runs[r].status.Paused? && t == Apply(b, Operator(c, ResolveIt(7, true, true, false)))
    ensures t.rows.handoffs == b.rows.handoffs[h := b.rows.handoffs[h].(status := Resolved, closedAt := Some(b.clock))]
    ensures t.rows.runs == b.rows.runs[r := Resumed(b.rows.runs[r])]
    ensures t.rows.messages == b.rows.messages && t.rows.events == b.rows.events
    ensures t.workers == b.workers && t.locks == b.locks && t.clock == b.clock && |t.trails| == |t.rows.runs|
  {
    hide LatestEvent, LatestResolved;
  }

  /** The same event asks for the run again once a message is stored and the run waits without a lease. */
  lemma ClaimableAgain(s: State, d: State, w: nat, e: nat, r: nat, now: int, run: Run, reply: Message)
    requires Claimable(s, w, e, r, now)
    requires s.rows.runs[r].conversation == s.rows.messages[s.rows.events[e].message.value].conversation
    requires d.rows.events == s.rows.events && d.rows.messages == s.rows.messages + [reply]
    requires d.rows.runs == s.rows.runs[r := run] && run.message == s.rows.runs[r].message
    requires run.status.Pending? && run.until.None? && |d.trails| == |d.rows.runs|
    requires ActiveHandoff(d.rows.handoffs, s.rows.runs[r].conversation).None?
    requires w < |d.workers| && d.workers[w] == Worker(Idle, now) && d.clock == s.clock
    ensures Claimable(d, w, e, r, now)
  {
    assert AnswerableMessage(d.rows, e) == AnswerableMessage(s.rows, e);
    FindRunSame(s.rows.runs, r, run, AnswerableMessage(s.rows, e).value);
  }

  lemma ReplyConflicts(rows: Rows, before: seq<Message>, r: nat, run: Run, text: string, other: string)
    requires rows.messages == before + [ReplyMessage(run, r, text)] && FindKey(before, ReplyKey(r)).None?
    requires IsDeliverable(text) && IsDeliverable(other) && text != other && r < |rows.runs|
    ensures LookupReply(rows, rows.runs[r], r, other).Conflict?
  {
    hide Strip;
    assert rows.messages[|before|].key == Some(ReplyKey(r));
    assert FindKey(rows.messages, ReplyKey(r)) == Some(|before|);
    DeliverableIs(text);
    DeliverableIs(other);
  }

  lemma DeliverableIs(text: string)
    requires IsDeliverable(text)
    ensures Strip(text) == text
  {
  }

  /** The overtaken worker delivers its text after the resume; the worker that takes the run over then stores another
      text, meets the reply and fails the run. */
  lemma DeliveredThenFailed(s: State, v: nat, w: nat, e: nat, r: nat, token: nat, now: int, text: string, other: string)
    returns (steps: seq<Step>)
    requires Overtakable(s, v, w, e, r, token, now, text) && IsDeliverable(other) && other != text
    ensures WithoutPause(steps)
    ensures var t := Exec(s, steps);
            && r < |t.rows.runs| && t.rows.runs[r].status.Failed?
            && t.rows.messages == s.rows.messages + [ReplyMessage(s.rows.runs[r], r, text)]
  {
    hide Exec, Apply, ReplyMessage, ValidateResponse, WithoutPause;
    var c := s.rows.runs[r].conversation;
    var first, a := TakesOverText(s, v, w, e, r, token, now, text);
    var b := PausedAndResumed(a, w, r, s.nextToken, text, c);
    var request, guard := Operator(c, RequestIt(None)), Work(w, Guard);
    var resume := Operator(c, ResolveIt(7, true, true, false));
    Then(s, first, request);
    Then(s, first + [request], guard);
    Then(s, first + [request] + [guard], resume);
    var paused := first + [request] + [guard] + [resume];
    DeliversWithoutLease(b, v, r, token, text);
    var deliver := Solo(v, [Guard, Send(true, false), Commit(true)]);
    var d := Exec(b, deliver);
    ExecConcat(s, paused, deliver);
    var reply := ReplyMessage(b.rows.runs[r], r, text);
    assert reply == ReplyMessage(s.rows.runs[r], r, text) by { SameReply(b.rows.runs[r], s.rows.runs[r], r, text); }
    assert b.rows.runs == s.rows.runs[r := Resumed(s.rows.runs[r])];
    ClaimableAgain(s, d, w, e, r, now, Resumed(s.rows.runs[r]), reply);
    var more, g := ReachesGuard(d, w, e, r, now, other);
    ExecConcat(s, paused + deliver, more);
    ReplyConflicts(g.rows, s.rows.messages, r, s.rows.runs[r], text, other);
    ConflictFailsRun(g, w, r, d.nextToken, other);
    var conflict := Solo(w, [Guard, Send(true, false), Release]);
    ExecConcat(s, paused + deliver + more, conflict);
    SoloWithoutPause(v, [Guard, Send(true, false), Commit(true)]);
    SoloWithoutPause(w, [Guard, Send(true, false), Release]);
    PauseFreeOne(request);
    PauseFreeOne(guard);
    PauseFreeOne(resume);
    PauseFreeBoth(first, [request]);
    PauseFreeBoth(first + [request], [guard]);
    PauseFreeBoth(first + [request] + [guard], [resume]);
    PauseFreeBoth(paused, deliver);
    PauseFreeBoth(paused + deliver, more);
    PauseFreeBoth(paused + deliver + more, conflict);
    steps := paused + deliver + more + conflict;
  }

  lemma SameReply(a: Run, b: Run, r: nat, text: string)
    requires a.conversation == b.conversation && a.account == b.account
    ensures ReplyMessage(a, r, text) == ReplyMessage(b, r, text)
  {
  }

  /** Worker 0 has claimed the run. */
  lemma FirstClaims() returns (steps: seq<Step>, s: State)
    ensures s == Exec(Initial(2), steps) && WithoutPause(steps)
    ensures Scene(s, NEW_RUN.(token := Some(0), until := Some(180)), Worker(Loading(0, 0), 0))
    ensures s.rows.handoffs == [] && |s.rows.messages| == 1 && s.clock == 0 && s.workers[1].seen == 0
  {
    hide Exec, WithoutPause;
    var before, a := Arrives();
    Then(Initial(2), before, Work(0, Claim(0)));
    PauseFreeOne(Work(0, Claim(0)));
    PauseFreeBoth(before, [Work(0, Claim(0))]);
    steps, s := before + [Work(0, Claim(0))], ClaimStep(a, 0, 0);
    assert s.rows.runs == [NEW_RUN.(token := Some(0), until := Some(180))];
  }

  /** Worker 0 stores "a" and sleeps past its lease before the guard. */
  lemma StoredAndStalled() returns (steps: seq<Step>, s: State)
    ensures s == Exec(Initial(2), steps) && WithoutPause(steps)
    ensures Overtakable(s, 0, 1, 0, 0, 0, 181, "a") && |s.rows.messages| == 1 && |s.rows.runs| == 1
  {
    hide Exec, WithoutPause;
    LetterIsText('a');
    var before, a := FirstClaims();
    Generates(a, 0, 0, 0, "a");
    var write := Solo(0, [Load(true), Produce("a"), Persist]);
    ExecConcat(Initial(2), before, write);
    var b := Exec(a, write);
    Then(Initial(2), before + write, Env(Tick(181)));
    PauseFreeOne(Env(Tick(181)));
    SoloWithoutPause(0, [Load(true), Produce("a"), Persist]);
    PauseFreeBoth(before, write);
    PauseFreeBoth(before + write, [Env(Tick(181))]);
    steps, s := before + write + [Env(Tick(181))], ApplyEnvironment(b, Tick(181));
    IsOvertakable(s);
  }

  lemma IsOvertakable(s: State)
    requires Scene(s, NEW_RUN.(token := Some(0), until := Some(180), status := Generated, text := Some("a")),
                   Worker(Guarding(0, 0, "a"), 0))
    requires s.rows.handoffs == [] && |s.rows.messages| == 1 && s.clock == 181 && s.workers[1].seen == 0
    ensures Overtakable(s, 0, 1, 0, 0, 0, 181, "a")
  {
    hide Strip;
    assert IsDeliverable("a") by { LetterIsText('a'); }
    assert Strip(QUESTION.text) != [] by { LetterIsText('q'); }
    assert s.rows.messages[0].key != Some(ReplyKey(0));
  }

  /** So a run of the system without any approval pause ends with a delivered reply and a failed run. */
  lemma DeliveredRunFails() returns (steps: seq<Step>)
    ensures WithoutPause(steps)
    ensures var s := Exec(Initial(2), steps);
            && |s.rows.runs| >= 1 && s.rows.runs[0].status.Failed?
            && |s.rows.messages| == 2 && s.rows.messages[1].key == Some(ReplyKey(0)) && s.rows.messages[1].text == "a"
  {
    hide Exec;
    LetterIsText('a');
    LetterIsText('b');
    var before, s := StoredAndStalled();
    var after := DeliveredThenFailed(s, 0, 1, 0, 0, 0, 181, "a", "b");
    ExecConcat(Initial(2), before, after);
    steps := before + after;
  }
}
