/** What decides whether the adapter is called for a tool execution, and what the call leaves: in terms of the requests, the
    answers and the decisions of people. */
module ToolApprovals {
  import opened Outcomes
  import ReplyRows
  import opened ToolRuntime
  import opened ToolTheorems

  // ---------------------------------------------------------------- the attempts

  function Allowed(q: Request): nat {
    if q.tool.isWrite && !q.tool.hasIdempotencyHeader then 1 else q.tool.maxAttempts
  }

  predicate MayRetry(answers: seq<Answer>, b: nat) {
    1 <= b <= |answers| && answers[b - 1].AdapterError? && answers[b - 1].retryable
  }

  /** The n-th answer is the one that counts: every earlier one may be retried, and it may not, or no attempt is left. */
  ghost predicate Decides(answers: seq<Answer>, allowed: nat, n: nat) {
    && 1 <= n <= allowed && n <= |answers|
    && (forall b :: 1 <= b < n ==> MayRetry(answers, b))
    && (MayRetry(answers, n) ==> n == allowed)
  }

  /** n calls of the adapter for a row, the row they leave, and the reply. Without an answer that counts the caller dies
      with the row still running, or was allowed no attempt. */
  ghost predicate Ran(q: Request, n: nat, before: Execution, after: Execution, reply: Reply) {
    if Decides(q.answers, Allowed(q), n) then
      match q.answers[n - 1]
      case Output(value) =>
        && after == before.(status := Succeeded, output := Some(value), error := None, attempts := n, updatedAt := q.now)
        && reply == Result(Succeeded, Some(value), None)
      case Invalid(code) => HasFailed(q, n, before, after, reply, code)
      case AdapterError(code, _) => HasFailed(q, n, before, after, reply, code)
    else
      && (forall m :: !Decides(q.answers, Allowed(q), m))
      && after == before.(status := Running, error := None, updatedAt := q.now)
      && n == (if Allowed(q) == 0 then 0 else |q.answers|)
      && reply == (if Allowed(q) == 0 then Raised("tool_execution_failed", false) else Died)
  }

  predicate HasFailed(q: Request, n: nat, before: Execution, after: Execution, reply: Reply, code: string) {
    && after == before.(status := Failed, output := None, error := Some(code), attempts := n, updatedAt := q.now)
    && reply == Result(Failed, None, Some(code))
  }

  function Verdicts(answer: Answer): Verdict {
    match answer
    case Output(value) => Success(value)
    case Invalid(code) => Failure(code)
    case AdapterError(code, _) => Failure(code)
  }

  /** The attempts end with the answer that counts, if there is one. */
  lemma {:induction false} AttemptsDecide(answers: seq<Answer>, attempt: nat, allowed: nat)
    requires 1 <= attempt && attempt - 1 <= |answers|
    requires forall b :: 1 <= b < attempt ==> MayRetry(answers, b)
    requires attempt <= allowed || attempt == 1
    ensures var (verdict, n) := Attempts(answers[attempt - 1..], attempt, allowed);
            if Decides(answers, allowed, n) then n >= attempt && verdict == Verdicts(answers[n - 1])
            else && (forall m :: !Decides(answers, allowed, m))
                 && (if allowed == 0 then verdict == Exhausted && n == 0 else verdict == NoVerdict && n == |answers|)
    decreases |answers| - attempt
  {
    AttemptsStep(answers, attempt, allowed);
    if MayRetry(answers, attempt) && attempt < allowed {
      AttemptsDecide(answers, attempt + 1, allowed);
    }
  }

  lemma PerformRan(t: Table, at: nat, q: Request) returns (n: nat)
    requires at < |t.rows|
    ensures var (u, reply) := Perform(t, at, q);
            && |u.rows| == |t.rows| && (forall i :: 0 <= i < |t.rows| && i != at ==> u.rows[i] == t.rows[i])
            && u.calls == t.calls + seq(n, _ => at)
            && Ran(q, n, t.rows[at], u.rows[at], reply)
  {
    hide Attempts, Decides;
    AttemptsDecide(q.answers, 1, Allowed(q));
    assert q.answers[0..] == q.answers;
    n := Attempts(q.answers, 1, Allowed(q)).1;
    assert Calls(at, n) == seq(n, _ => at);
    if Decides(q.answers, Allowed(q), n) { DecidesInside(q.answers, Allowed(q), n); }
  }

  lemma DecidesInside(answers: seq<Answer>, allowed: nat, n: nat)
    requires Decides(answers, allowed, n)
    ensures 1 <= n <= |answers|
  {
  }

  // ---------------------------------------------------------------- a call that has no row yet

  ghost predicate IsNew(t: Table, q: Request) {
    && q.refusal.None? && 1 <= q.ordinal <= MAX_CALLS
    && forall i :: 0 <= i < |t.rows| ==> t.rows[i].run != q.run || t.rows[i].ordinal != q.ordinal
  }

  /** The call's row is the last one, bound to what was asked. */
  ghost predicate AddsRow(t: Table, u: Table, q: Request) {
    && |u.rows| == |t.rows| + 1 && u.rows[..|t.rows|] == t.rows
    && var row := u.rows[|t.rows|];
       row.run == q.run && row.ordinal == q.ordinal && row.tool == q.tool.id && row.agent == q.agent && row.payload == q.payload
  }

  lemma NewHasNoRow(t: Table, q: Request)
    requires IsNew(t, q)
    ensures Find(t.rows, q.run, q.ordinal).None?
  {
  }

  /** A call that must be approved is put down and answered as such, one that is denied with the reason; the adapter is
      not called for either. When the policy itself fails, nothing is put down. */
  lemma NewCallIsHeld(t: Table, q: Request)
    requires IsNew(t, q)
    ensures var (u, reply) := Execute(t, q);
            && (q.policy == Allow(true) ==>
                  AddsRow(t, u, q) && u.calls == t.calls && reply == Result(ApprovalRequired, None, None))
            && (q.policy.Deny? ==>
                  AddsRow(t, u, q) && u.calls == t.calls && reply == Result(Denied, None, Some(q.policy.reason)))
            && (q.policy.PolicyFails? ==> u == t && reply == Raised(q.policy.code, true))
  {
    NewHasNoRow(t, q);
  }

  /** A call that needs no approval is made at once, and its row and reply are those of the answer that counts. */
  lemma NewCallRuns(t: Table, q: Request) returns (n: nat, created: Execution)
    requires IsNew(t, q) && q.policy == Allow(false)
    ensures var (u, reply) := Execute(t, q);
            && AddsRow(t, u, q) && u.calls == t.calls + seq(n, _ => |t.rows|)
            && created == Execution(q.run, q.ordinal, q.tool.id, q.agent, q.payload, Pending, NotRequired, None, None, 0, q.now)
            && Ran(q, n, created, u.rows[|t.rows|], reply)
  {
    hide Perform, Ran;
    NewHasNoRow(t, q);
    var with := t.(rows := t.rows + [NewRow(q)]);
    n := PerformRan(with, |t.rows|, q);
    created := NewRow(q);
    assert Execute(t, q) == Perform(with, |t.rows|, q);
    RanKeepsBinding(q, n, created, Execute(t, q).0.rows[|t.rows|], Execute(t, q).1);
  }

  lemma RanKeepsBinding(q: Request, n: nat, before: Execution, after: Execution, reply: Reply)
    requires Ran(q, n, before, after, reply)
    ensures after.run == before.run && after.ordinal == before.ordinal && after.tool == before.tool
    ensures after.agent == before.agent && after.payload == before.payload && after.approval == before.approval
  {
    hide Decides;
  }

  // ---------------------------------------------------------------- a call that has a row

  ghost predicate Asks(t: Table, at: nat, q: Request) {
    && at < |t.rows| && q.run == t.rows[at].run && q.ordinal == t.rows[at].ordinal && q.refusal.None?
    && q.tool.id == t.rows[at].tool && q.agent == t.rows[at].agent && q.payload == t.rows[at].payload
  }

  lemma AskedIsFound(t: Table, at: nat, q: Request)
    requires Inv(t) && Asks(t, at, q)
    ensures Find(t.rows, q.run, q.ordinal) == Some(at) && 1 <= q.ordinal <= MAX_ORDINAL && Execute(t, q) == Proceed(t, at, q)
  {
    hide Proceed;
    FindIs(t.rows, q.run, q.ordinal);
    InvRow(t, at);
  }

  /** While a call runs nobody else makes it, until its row has not been touched for the whole time its attempts may take;
      then it is made again. */
  lemma RunningCall(t: Table, at: nat, q: Request) returns (n: nat)
    requires Inv(t) && Asks(t, at, q) && t.rows[at].status.Running?
    ensures var (u, reply) := Execute(t, q);
            var attempts := if q.tool.maxAttempts < 1 then 1 else q.tool.maxAttempts;
            var patience := q.tool.timeout * attempts + 30;
            if q.now - t.rows[at].updatedAt <= (if patience < 60 then 60 else patience)
            then (u, reply) == (t, Raised("tool_execution_busy", true))
            else && |u.rows| == |t.rows| && u.calls == t.calls + seq(n, _ => at)
                 && Ran(q, n, t.rows[at], u.rows[at], reply)
  {
    hide Perform, Ran, Inv;
    AskedIsFound(t, at, q);
    assert RowOk(t.rows[at]) by { InvRow(t, at); }
    n := PerformRan(t, at, q);
  }

  /** After a person's yes the next call is made; after a no it is refused at once, at any later time. */
  lemma JudgedCall(t: Table, at: nat, q: Request, steps: seq<Step>) returns (n: nat)
    requires Inv(t) && Asks(t, at, q) && t.rows[at].approval.Awaiting?
    ensures Execute(t, q) == (t, Result(ApprovalRequired, t.rows[at].output, t.rows[at].error))
    ensures var (u, reply) := Execute(Decide(t, at, true), q);
            u.calls == t.calls + seq(n, _ => at) && |u.rows| == |t.rows|
            && Ran(q, n, t.rows[at].(approval := Approved), u.rows[at], reply)
    ensures var later := History(Decide(t, at, false), steps);
            Execute(later, q) == (later, Result(Denied, t.rows[at].output, Some("tool_approval_denied")))
  {
    hide Perform, Ran, Inv, History, Attempts;
    AskedIsFound(t, at, q);
    assert RowOk(t.rows[at]) by { InvRow(t, at); }
    var yes, no := Decide(t, at, true), Decide(t, at, false);
    DecideKeeps(t, at, true);
    DecideKeeps(t, at, false);
    AskedIsFound(yes, at, q);
    n := PerformRan(yes, at, q);
    RanFromPending(q, n, yes.rows[at], t.rows[at].(approval := Approved), Perform(yes, at, q).0.rows[at], Perform(yes, at, q).1);
    SettledReplay(no, steps, at, q);
  }

  lemma RanFromPending(q: Request, n: nat, a: Execution, b: Execution, after: Execution, reply: Reply)
    requires Ran(q, n, a, after, reply) && a == b.(status := a.status)
    ensures Ran(q, n, b, after, reply)
  {
    hide Decides;
  }

  // ---------------------------------------------------------------- approvals over histories

  /** What the first person who judges the row says. */
  function FirstJudgement(steps: seq<Step>, at: nat): Option<bool> {
    if steps == [] then None
    else
      var before := FirstJudgement(steps[..|steps| - 1], at);
      var last := steps[|steps| - 1];
      if before.None? && last.Judge? && last.at == at then Some(last.granted) else before
  }

  lemma ExecuteKeepsApproval(t: Table, q: Request, i: nat)
    requires i < |t.rows|
    ensures i < |Execute(t, q).0.rows| && Execute(t, q).0.rows[i].approval == t.rows[i].approval
  {
    hide Attempts;
  }

  lemma {:induction false} RoundsKeepApproval(t: Table, run: Id, decisions: seq<Decision>, calls: nat, i: nat)
    requires i < |t.rows|
    ensures i < |Rounds(t, run, decisions, calls).0.rows|
    ensures Rounds(t, run, decisions, calls).0.rows[i].approval == t.rows[i].approval
    decreases |decisions|
  {
    hide Execute;
    if decisions != [] && decisions[0].UseTool? && calls < MAX_CALLS {
      var q := RequestOf(run, calls + 1, decisions[0]);
      ExecuteKeepsApproval(t, q, i);
      RoundsKeepApproval(Execute(t, q).0, run, decisions[1..], calls + 1, i);
    }
  }

  /** Only a judgement changes the approval of a row, and only the first one. */
  lemma {:induction false} ApprovalOverHistory(t: Table, steps: seq<Step>, at: nat)
    requires at < |t.rows|
    ensures at < |History(t, steps).rows|
    ensures History(t, steps).rows[at].approval
         == if !t.rows[at].approval.Awaiting? then t.rows[at].approval
            else match FirstJudgement(steps, at)
                 case None => Awaiting
                 case Some(granted) => if granted then Approved else Refused
  {
    hide Rounds;
    if steps != [] {
      var init := steps[..|steps| - 1];
      ApprovalOverHistory(t, init, at);
      match steps[|steps| - 1]
      case Loop(run, decisions) => RoundsKeepApproval(History(t, init), run, decisions, 0, at);
      case Judge(_, _) =>
    }
  }

  lemma NewApproval(t: Table, q: Request)
    requires IsNew(t, q) && !q.policy.PolicyFails?
    ensures AddsRow(t, Execute(t, q).0, q)
    ensures Execute(t, q).0.rows[|t.rows|].approval
         == match q.policy case Deny(_) => Refused case Allow(needed) => if needed then Awaiting else NotRequired
  {
    hide Attempts;
    NewHasNoRow(t, q);
  }

  /** From the moment a call is put down, over any history: the adapter has been called for it only if the policy asked for
      no approval, or asked for one and the first person to judge it said yes. In particular never before that, never
      after a no, and never for a denied call. */
  lemma CalledOnlyOnceApproved(t: Table, q: Request, steps: seq<Step>, c: nat)
    requires Inv(t) && IsNew(t, q) && !q.policy.PolicyFails? && (q.ordinal > 1 ==> HasRow(t, q.run, q.ordinal - 1))
    requires c < |History(Execute(t, q).0, steps).calls| && History(Execute(t, q).0, steps).calls[c] == |t.rows|
    ensures q.policy.Allow? && (q.policy.needsApproval ==> FirstJudgement(steps, |t.rows|) == Some(true))
  {
    hide Execute, History, FirstJudgement, RowOk;
    var u := Execute(t, q).0;
    ExecuteKeeps(t, q);
    HistoryKeeps(u, steps);
    NewApproval(t, q);
    ApprovalOverHistory(u, steps, |t.rows|);
    CalledMayBe(History(u, steps), c);
  }

  lemma CalledMayBe(t: Table, c: nat)
    requires Inv(t) && c < |t.calls|
    ensures t.calls[c] < |t.rows| && MayBeCalled(t.rows[t.calls[c]])
  {
  }

  // ---------------------------------------------------------------- every call has its cause

  /** The row was put down for this decision of a loop. */
  predicate PutDownFor(row: Execution, run: Id, ordinal: nat, d: Decision) {
    && d.UseTool? && d.refusal.None? && row.run == run && row.ordinal == ordinal
    && row.tool == d.tool.id && row.agent == d.agent && row.payload == d.payload
    && match d.policy
       case PolicyFails(_) => false
       case Deny(_) => row.approval.Refused?
       case Allow(needed) => if needed then row.approval.Awaiting? else row.approval.NotRequired?
  }

  ghost predicate PutDownBy(row: Execution, run: Id, decisions: seq<Decision>, calls: nat) {
    exists d :: 0 <= d < |decisions| && PutDownFor(row, run, calls + d + 1, decisions[d])
  }

  lemma ExecutePutsDown(t: Table, q: Request, d: Decision)
    requires d.UseTool? && q == RequestOf(q.run, q.ordinal, d)
    ensures |t.rows| <= |Execute(t, q).0.rows| <= |t.rows| + 1
    ensures |Execute(t, q).0.rows| > |t.rows| ==> PutDownFor(Execute(t, q).0.rows[|t.rows|], q.run, q.ordinal, d)
  {
    hide Attempts;
  }

  ghost predicate SameBinding(a: Execution, b: Execution) {
    a.run == b.run && a.ordinal == b.ordinal && a.tool == b.tool && a.agent == b.agent && a.payload == b.payload
  }

  lemma ExecuteKeepsBinding(t: Table, q: Request, i: nat)
    requires i < |t.rows|
    ensures i < |Execute(t, q).0.rows| && SameBinding(t.rows[i], Execute(t, q).0.rows[i])
  {
    hide Attempts;
  }

  lemma {:induction false} RoundsKeepBinding(t: Table, run: Id, decisions: seq<Decision>, calls: nat, i: nat)
    requires i < |t.rows|
    ensures i < |Rounds(t, run, decisions, calls).0.rows|
    ensures SameBinding(t.rows[i], Rounds(t, run, decisions, calls).0.rows[i])
    decreases |decisions|
  {
    hide Execute;
    if decisions != [] && decisions[0].UseTool? && calls < MAX_CALLS {
      var q := RequestOf(run, calls + 1, decisions[0]);
      ExecuteKeepsBinding(t, q, i);
      RoundsKeepBinding(Execute(t, q).0, run, decisions[1..], calls + 1, i);
    }
  }

  lemma StillPutDown(a: Execution, b: Execution, run: Id, ordinal: nat, d: Decision)
    requires PutDownFor(a, run, ordinal, d) && SameBinding(a, b) && a.approval == b.approval
    ensures PutDownFor(b, run, ordinal, d)
  {
  }

  /** A row that a loop adds is that of one of its decisions. */
  lemma {:induction false} RoundsPutDown(t: Table, run: Id, decisions: seq<Decision>, calls: nat, i: nat)
    requires |t.rows| <= i < |Rounds(t, run, decisions, calls).0.rows|
    ensures PutDownBy(Rounds(t, run, decisions, calls).0.rows[i], run, decisions, calls)
    decreases |decisions|
  {
    hide Execute, PutDownFor;
    if decisions != [] && decisions[0].UseTool? && calls < MAX_CALLS {
      var q := RequestOf(run, calls + 1, decisions[0]);
      var (next, reply) := Execute(t, q);
      ExecutePutsDown(t, q, decisions[0]);
      var row := Rounds(t, run, decisions, calls).0.rows[i];
      if StopsLoop(reply, decisions[0].pause).None? {
        if i < |next.rows| {
          RoundsKeepBinding(next, run, decisions[1..], calls + 1, i);
          RoundsKeepApproval(next, run, decisions[1..], calls + 1, i);
          StillPutDown(next.rows[i], row, run, calls + 1, decisions[0]);
        } else {
          RoundsPutDown(next, run, decisions[1..], calls + 1, i);
          var d :| 0 <= d < |decisions[1..]| && PutDownFor(row, run, calls + 1 + d + 1, decisions[1..][d]);
          assert PutDownFor(row, run, calls + (d + 1) + 1, decisions[d + 1]);
        }
      } else {
        assert PutDownFor(row, run, calls + 0 + 1, decisions[0]);
      }
    }
  }

  lemma {:induction false} HistoryConcat(t: Table, a: seq<Step>, b: seq<Step>)
    ensures History(t, a + b) == History(History(t, a), b)
  {
    hide Apply;
    if b == [] {
      assert a + b == a;
    } else {
      HistoryConcat(t, a, b[..|b| - 1]);
      assert (a + b)[..|a + b| - 1] == a + b[..|b| - 1];
    }
  }

  lemma {:induction false} HistoryKeepsBinding(t: Table, steps: seq<Step>, at: nat)
    requires at < |t.rows|
    ensures at < |History(t, steps).rows| && SameBinding(t.rows[at], History(t, steps).rows[at])
  {
    hide Rounds;
    if steps != [] {
      var init := steps[..|steps| - 1];
      HistoryKeepsBinding(t, init, at);
      match steps[|steps| - 1]
      case Loop(run, decisions) => RoundsKeepBinding(History(t, init), run, decisions, 0, at);
      case Judge(_, _) =>
    }
  }

  /** Every row of every history was put down by some step. */
  lemma {:induction false} RowIsPutDown(steps: seq<Step>, at: nat) returns (k: nat)
    requires at < |History(Table([], []), steps).rows|
    ensures k < |steps| && steps[k].Loop?
    ensures |History(Table([], []), steps[..k]).rows| <= at < |History(Table([], []), steps[..k + 1]).rows|
  {
    hide Apply;
    var n := |steps| - 1;
    if at < |History(Table([], []), steps[..n]).rows| {
      k := RowIsPutDown(steps[..n], at);
      assert steps[..n][..k] == steps[..k] && steps[..n][..k + 1] == steps[..k + 1];
    } else {
      k := n;
      assert steps[..n + 1] == steps;
      JudgeAddsNothing(History(Table([], []), steps[..n]), steps[n]);
    }
  }

  lemma JudgeAddsNothing(t: Table, step: Step)
    ensures step.Judge? ==> |Apply(t, step).rows| == |t.rows|
  {
  }

  /** Every call of the adapter, in every history from the empty table, has its cause: a decision of the agent loop that
      the policy allowed without approval, or one that a person approved after it was put down. */
  lemma CallHasCause(steps: seq<Step>, c: nat) returns (k: nat, d: nat, first: Execution)
    requires c < |History(Table([], []), steps).calls|
    ensures var t := History(Table([], []), steps);
            && t.calls[c] < |t.rows| && k < |steps| && steps[k].Loop? && d < |steps[k].decisions|
            && PutDownFor(first, steps[k].run, d + 1, steps[k].decisions[d]) && SameBinding(first, t.rows[t.calls[c]])
            && steps[k].decisions[d].policy.Allow?
            && (steps[k].decisions[d].policy.needsApproval ==> FirstJudgement(steps[k + 1..], t.calls[c]) == Some(true))
  {
    hide Apply, Rounds, FirstJudgement, History;
    var t := History(Table([], []), steps);
    EmptyTable();
    HistoryKeeps(Table([], []), steps);
    CalledMayBe(t, c);
    var at := t.calls[c];
    k := RowIsPutDown(steps, at);
    var u := History(Table([], []), steps[..k + 1]);
    var before := History(Table([], []), steps[..k]);
    assert u == Rounds(before, steps[k].run, steps[k].decisions, 0).0 by { LoopStep(steps, k); }
    RoundsPutDown(before, steps[k].run, steps[k].decisions, 0, at);
    first := u.rows[at];
    d :| 0 <= d < |steps[k].decisions| && PutDownFor(first, steps[k].run, 0 + d + 1, steps[k].decisions[d]);
    assert steps == steps[..k + 1] + steps[k + 1..];
    HistoryConcat(Table([], []), steps[..k + 1], steps[k + 1..]);
    HistoryKeepsBinding(u, steps[k + 1..], at);
    ApprovalOverHistory(u, steps[k + 1..], at);
  }

  lemma LoopStep(steps: seq<Step>, k: nat)
    requires k < |steps| && steps[k].Loop?
    ensures History(Table([], []), steps[..k + 1])
         == Rounds(History(Table([], []), steps[..k]), steps[k].run, steps[k].decisions, 0).0
  {
    hide Rounds;
    assert steps[..k + 1][..k] == steps[..k];
  }

  // ---------------------------------------------------------------- how the agent loop ends

  /** The table after the first m rounds, when each of them lets the loop go on. */
  function AfterCalls(t: Table, run: Id, decisions: seq<Decision>, m: nat): Table
    requires m <= |decisions| && forall k :: 0 <= k < m ==> decisions[k].UseTool?
  {
    if m == 0 then t else Execute(AfterCalls(t, run, decisions, m - 1), RequestOf(run, m, decisions[m - 1])).0
  }

  /** The reply to tool call m + 1. */
  function ReplyTo(t: Table, run: Id, decisions: seq<Decision>, m: nat): Reply
    requires m < |decisions| && forall k :: 0 <= k <= m ==> decisions[k].UseTool?
  {
    Execute(AfterCalls(t, run, decisions, m), RequestOf(run, m + 1, decisions[m])).1
  }

  /** The first m decisions are tool calls with a result that does not wait for a person in an open handoff. */
  ghost predicate GoesOn(t: Table, run: Id, decisions: seq<Decision>, m: nat) {
    && m <= |decisions| && (forall k :: 0 <= k < m ==> decisions[k].UseTool?)
    && forall k :: 0 <= k < m ==>
         && ReplyTo(t, run, decisions, k).Result?
         && (ReplyTo(t, run, decisions, k).status.ApprovalRequired? ==> decisions[k].pause.NoHandoff?)
  }

  /** How the loop ends at round m + 1, and with which outcome. */
  ghost predicate EndsAt(t: Table, run: Id, decisions: seq<Decision>, m: nat, outcome: Outcome) {
    && GoesOn(t, run, decisions, m) && m <= 3
    && if m == |decisions| then outcome == Interrupted
       else
         match decisions[m]
         case Unusable(code, retryable) => outcome == Stopped(code, retryable)
         case Final(text) =>
           outcome == (match ReplyRows.ValidateResponse(text) case Ok(valid) => Answered(valid) case Err(code) => Stopped(code, false))
         case UseTool(_, _, _, _, _, _, _, pause) =>
           if m == 3 then outcome == LoopLimit
           else
             match ReplyTo(t, run, decisions, m)
             case Died => outcome == Interrupted
             case Raised(code, retryable) => outcome == Stopped(code, retryable)
             case Result(status, _, _) =>
               && status.ApprovalRequired?
               && match pause
                  case NoHandoff => false
                  case HandoffOpen => outcome == Paused
                  case PauseFails(code) => outcome == Stopped(code, true)
  }

  lemma {:induction false} LoopFrom(t: Table, run: Id, decisions: seq<Decision>, m: nat) returns (end: nat)
    requires GoesOn(t, run, decisions, m) && m <= MAX_CALLS
    ensures EndsAt(t, run, decisions, end, Rounds(AfterCalls(t, run, decisions, m), run, decisions[m..], m).1)
    decreases |decisions| - m
  {
    hide Execute;
    end := m;
    var here := AfterCalls(t, run, decisions, m);
    if m < |decisions| && decisions[m].UseTool? && m < MAX_CALLS {
      var (next, reply) := Execute(here, RequestOf(run, m + 1, decisions[m]));
      assert reply == ReplyTo(t, run, decisions, m);
      if StopsLoop(reply, decisions[m].pause).None? {
        assert next == AfterCalls(t, run, decisions, m + 1);
        assert decisions[m..][1..] == decisions[m + 1..];
        end := LoopFrom(t, run, decisions, m + 1);
      }
    }
  }

  /** A loop ends one way only. */
  lemma EndIsUnique(t: Table, run: Id, decisions: seq<Decision>, m: nat, n: nat, a: Outcome, b: Outcome)
    requires EndsAt(t, run, decisions, m, a) && EndsAt(t, run, decisions, n, b)
    ensures m == n && a == b
  {
    hide Execute, ReplyTo;
  }

  lemma LimitIsLast(t: Table, run: Id, decisions: seq<Decision>, m: nat)
    requires EndsAt(t, run, decisions, m, LoopLimit)
    ensures m == MAX_CALLS < |decisions| && decisions[m].UseTool?
  {
    hide Execute, ReplyTo;
  }

  /** The outcome of the loop, exactly: it is the one at the first round that does not let it go on. In particular the loop
      limit is reported exactly when three calls go on and the model then asks for a fourth. */
  lemma LoopEndsExactly(t: Table, run: Id, decisions: seq<Decision>, outcome: Outcome)
    ensures Rounds(t, run, decisions, 0).1 == outcome <==> exists m :: EndsAt(t, run, decisions, m, outcome)
    ensures Rounds(t, run, decisions, 0).1.LoopLimit?
            <==> |decisions| > 3 && decisions[3].UseTool? && GoesOn(t, run, decisions, 3)
  {
    hide Rounds, GoesOn, Execute;
    assert GoesOn(t, run, decisions, 0) by { NothingAsked(t, run, decisions); }
    var end := LoopFrom(t, run, decisions, 0);
    assert decisions[0..] == decisions;
    var result := Rounds(t, run, decisions, 0).1;
    if result.LoopLimit? { LimitIsLast(t, run, decisions, end); }
    if m: nat :| EndsAt(t, run, decisions, m, outcome) { EndIsUnique(t, run, decisions, m, end, outcome, result); }
    if |decisions| > MAX_CALLS && decisions[MAX_CALLS].UseTool? && GoesOn(t, run, decisions, MAX_CALLS) {
      assert EndsAt(t, run, decisions, MAX_CALLS, LoopLimit);
      EndIsUnique(t, run, decisions, MAX_CALLS, end, LoopLimit, result);
    }
  }

  lemma NothingAsked(t: Table, run: Id, decisions: seq<Decision>)
    ensures GoesOn(t, run, decisions, 0)
  {
  }

  /** A request that may not be made at all changes nothing, whether or not there is a row: a call number outside 1 to 20,
      a tool or agent that is not permitted, arguments that are not valid. */
  lemma RefusedRequest(t: Table, q: Request)
    ensures !(1 <= q.ordinal <= 20) ==> Execute(t, q) == (t, Raised("tool_call_ordinal_invalid", false))
    ensures 1 <= q.ordinal <= 20 && q.refusal.Some? ==> Execute(t, q) == (t, Raised(q.refusal.value, false))
  {
  }
}
