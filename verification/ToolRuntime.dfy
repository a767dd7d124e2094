/** Tool executions: a replayable record per call ordinal, approval, a retry loop, and the agent loop around them. */
module ToolRuntime {
  import opened Outcomes
  import ReplyRows

  type Id = nat
  const MAX_CALLS := 3
  const MAX_ROUNDS := 4
  const MAX_ORDINAL := 20

  datatype Status = Pending | ApprovalRequired | Running | Succeeded | Failed | Denied
  datatype Approval = NotRequired | Awaiting | Approved | Refused

  /** A row of tool_executions; its idempotency key is made of the run and the ordinal. */
  datatype Execution = Execution(run: Id, ordinal: nat, tool: Id, agent: Id, payload: string, status: Status,
                                 approval: Approval, output: Option<string>, error: Option<string>,
                                 attempts: nat, updatedAt: int)

  datatype Tool = Tool(id: Id, maxAttempts: nat, timeout: nat, isWrite: bool, hasIdempotencyHeader: bool)

  /** The policy engine's answer for a call that has no row yet. */
  datatype Policy = PolicyFails(code: string) | Deny(reason: string) | Allow(needsApproval: bool)

  /** What one adapter call comes to. */
  datatype Answer =
    | Output(value: string)
    | Invalid(code: string)                       // refused by the output schema
    | AdapterError(code: string, retryable: bool)

  /** A call by the agent loop. `refusal` is the error raised before the table is read (agent or tool not permitted,
      payload not valid). The adapter gives `answers` in turn; past their end the caller dies with an exception no
      handler catches, such as an oversize output, a bad credential or a crash. */
  datatype Request = Request(run: Id, ordinal: nat, agent: Id, tool: Tool, payload: string, refusal: Option<string>,
                             policy: Policy, now: int, answers: seq<Answer>)

  datatype Reply =
    | Result(status: Status, output: Option<string>, error: Option<string>)
    | Raised(code: string, retryable: bool)
    | Died

  /** The table, and the rows the adapter has been called for, in order. */
  datatype Table = Table(rows: seq<Execution>, calls: seq<nat>)

  // ---------------------------------------------------------------- one call

  function Find(rows: seq<Execution>, run: Id, ordinal: nat): (at: Option<nat>)
    ensures at.Some? ==> at.value < |rows| && rows[at.value].run == run && rows[at.value].ordinal == ordinal
  {
    if rows == [] then None
    else if rows[|rows| - 1].run == run && rows[|rows| - 1].ordinal == ordinal then Some(|rows| - 1)
    else Find(rows[..|rows| - 1], run, ordinal)
  }

  function NewRow(q: Request): Execution
    requires !q.policy.PolicyFails?
  {
    var status := if q.policy.Deny? then Denied else if q.policy.needsApproval then ApprovalRequired else Pending;
    var approval := if q.policy.Deny? then Refused else if q.policy.needsApproval then Awaiting else NotRequired;
    Execution(q.run, q.ordinal, q.tool.id, q.agent, q.payload, status, approval, None,
              if q.policy.Deny? then Some(q.policy.reason) else None, 0, q.now)
  }

  predicate Matches(row: Execution, q: Request) {
    row.tool == q.tool.id && row.agent == q.agent && row.payload == q.payload
  }

  predicate IsSettled(status: Status) {
    status.Succeeded? || status.Failed? || status.Denied?
  }

  function ResultOf(row: Execution): Reply {
    Result(row.status, row.output, row.error)
  }

  function StaleAfter(tool: Tool): nat {
    var allowance := tool.timeout * (if tool.maxAttempts < 1 then 1 else tool.maxAttempts) + 30;
    if allowance < 60 then 60 else allowance
  }

  /** A running row is left alone until it has not been touched for the whole allowance. */
  predicate IsBusy(row: Execution, q: Request) {
    row.status.Running? && row.updatedAt >= q.now - StaleAfter(q.tool)
  }

  function AttemptsAllowed(tool: Tool): nat {
    if tool.isWrite && !tool.hasIdempotencyHeader then 1 else tool.maxAttempts
  }

  datatype Verdict = Success(output: string) | Failure(code: string) | NoVerdict | Exhausted

  /** The attempts from `attempt` on: the verdict and the attempt it fell on. */
  function Attempts(answers: seq<Answer>, attempt: nat, allowed: nat): (Verdict, nat)
    requires attempt >= 1
    decreases |answers|
  {
    if attempt > allowed then (Exhausted, attempt - 1)
    else if answers == [] then (NoVerdict, attempt - 1)
    else
      match answers[0]
      case Output(value) => (Success(value), attempt)
      case Invalid(code) => (Failure(code), attempt)
      case AdapterError(code, retryable) =>
        if retryable && attempt < allowed then Attempts(answers[1..], attempt + 1, allowed) else (Failure(code), attempt)
  }

  lemma AttemptsStep(answers: seq<Answer>, attempt: nat, allowed: nat)
    requires 1 <= attempt && attempt - 1 <= |answers|
    ensures var here := Attempts(answers[attempt - 1..], attempt, allowed);
            if attempt > allowed then here == (Exhausted, attempt - 1)
            else if attempt > |answers| then here == (NoVerdict, attempt - 1)
            else match answers[attempt - 1]
                 case Output(value) => here == (Success(value), attempt)
                 case Invalid(code) => here == (Failure(code), attempt)
                 case AdapterError(code, retryable) =>
                   here == if retryable && attempt < allowed then Attempts(answers[attempt..], attempt + 1, allowed)
                           else (Failure(code), attempt)
  {
    if attempt <= |answers| { assert answers[attempt - 1..][1..] == answers[attempt..]; }
  }

  function Finished(row: Execution, verdict: Verdict, attempts: nat): Execution {
    match verdict
    case Success(output) => row.(status := Succeeded, output := Some(output), error := None, attempts := attempts)
    case Failure(code) => row.(status := Failed, output := None, error := Some(code), attempts := attempts)
    case _ => row
  }

  function ReplyOf(row: Execution, verdict: Verdict): Reply {
    match verdict
    case Success(_) => ResultOf(row)
    case Failure(_) => ResultOf(row)
    case NoVerdict => Died
    case Exhausted => Raised("tool_execution_failed", false)
  }

  function Calls(at: nat, count: nat): (calls: seq<nat>)
    ensures |calls| == count && forall i :: 0 <= i < count ==> calls[i] == at
  {
    seq(count, i => at)
  }

  /** From the moment the row is marked running. */
  function Perform(t: Table, at: nat, q: Request): (Table, Reply)
    requires at < |t.rows|
  {
    var running := t.rows[at].(status := Running, error := None, updatedAt := q.now);
    var (verdict, attempts) := Attempts(q.answers, 1, AttemptsAllowed(q.tool));
    var row := Finished(running, verdict, attempts);
    (Table(t.rows[at := row], t.calls + Calls(at, attempts)), ReplyOf(row, verdict))
  }

  /** From the moment there is a row. */
  function Proceed(t: Table, at: nat, q: Request): (Table, Reply)
    requires at < |t.rows|
  {
    var row := t.rows[at];
    if !Matches(row, q) then (t, Raised("tool_call_replay_mismatch", false))
    else if IsSettled(row.status) || row.status.ApprovalRequired? then (t, ResultOf(row))
    else if IsBusy(row, q) then (t, Raised("tool_execution_busy", true))
    else
      var reset := row.(status := Pending);
      if row.approval.Awaiting? then (t.(rows := t.rows[at := reset]), ResultOf(reset))
      else Perform(t, at, q)
  }

  /** execute_agent_tool. */
  function Execute(t: Table, q: Request): (Table, Reply) {
    if q.ordinal < 1 || q.ordinal > MAX_ORDINAL then (t, Raised("tool_call_ordinal_invalid", false))
    else if q.refusal.Some? then (t, Raised(q.refusal.value, false))
    else
      var found := Find(t.rows, q.run, q.ordinal);
      if found.Some? then Proceed(t, found.value, q)
      else if q.policy.PolicyFails? then (t, Raised(q.policy.code, true))
      else Proceed(t.(rows := t.rows + [NewRow(q)]), |t.rows|, q)
  }

  /** A person decides on a row that awaits approval. */
  function Decide(t: Table, at: nat, granted: bool): Table {
    if at >= |t.rows| || !t.rows[at].approval.Awaiting? then t
    else if granted then t.(rows := t.rows[at := t.rows[at].(approval := Approved, status := Pending)])
    else t.(rows := t.rows[at := t.rows[at].(approval := Refused, status := Denied, error := Some("tool_approval_denied"))])
  }

  // ---------------------------------------------------------------- the agent loop

  /** What the approval pause of a call comes to: no handoff under the policy, an open handoff, or an error. */
  datatype Pause = NoHandoff | HandoffOpen | PauseFails(code: string)

  /** One round of the model: no usable answer (an invalid decision, a routing error, a lost lease), the final text, or
      a tool call together with what its approval pause would come to. */
  datatype Decision =
    | Unusable(code: string, retryable: bool)
    | Final(text: string)
    | UseTool(agent: Id, tool: Tool, payload: string, refusal: Option<string>, policy: Policy, now: int,
              answers: seq<Answer>, pause: Pause)

  datatype Outcome = Answered(text: string) | LoopLimit | Paused | Stopped(code: string, retryable: bool) | Interrupted

  function RequestOf(run: Id, ordinal: nat, d: Decision): Request
    requires d.UseTool?
  {
    Request(run, ordinal, d.agent, d.tool, d.payload, d.refusal, d.policy, d.now, d.answers)
  }

  /** What a reply means for the loop: nothing, or the end of it. */
  function StopsLoop(reply: Reply, pause: Pause): Option<Outcome> {
    match reply
    case Result(status, _, _) =>
      if !status.ApprovalRequired? || pause.NoHandoff? then None
      else if pause.HandoffOpen? then Some(Paused)
      else Some(Stopped(pause.code, true))
    case Raised(code, retryable) => Some(Stopped(code, retryable))
    case Died => Some(Interrupted)
  }

  /** The final text is validated before it is returned. */
  function FinalAnswer(text: string): Outcome {
    match ReplyRows.ValidateResponse(text)
    case Ok(valid) => Answered(valid)
    case Err(code) => Stopped(code, false)
  }

  /** The rounds after `calls` tool calls; running out of decisions is a crash of the worker. */
  function Rounds(t: Table, run: Id, decisions: seq<Decision>, calls: nat): (Table, Outcome)
    decreases |decisions|
  {
    if decisions == [] then (t, Interrupted)
    else if decisions[0].Unusable? then (t, Stopped(decisions[0].code, decisions[0].retryable))
    else if decisions[0].Final? then (t, FinalAnswer(decisions[0].text))
    else if calls + 1 > MAX_CALLS then (t, LoopLimit)
    else
      var (next, reply) := Execute(t, RequestOf(run, calls + 1, decisions[0]));
      var stop := StopsLoop(reply, decisions[0].pause);
      if stop.Some? then (next, stop.value) else Rounds(next, run, decisions[1..], calls + 1)
  }

  class ToolStore {
    var rows: seq<Execution>
    var calls: seq<nat>

    ghost function Contents(): Table
      reads this
    {
      Table(rows, calls)
    }

    method MarkRunning(at: nat, now: int) returns (refused: Option<Reply>)
      requires at < |rows|
      modifies `rows
      ensures refused == if old(rows)[at].status.Running? then Some(Raised("tool_execution_busy", true))
                         else if !old(rows)[at].status.Pending? then Some(Raised("tool_execution_state_invalid", false))
                         else None
      ensures rows == if refused.Some? then old(rows)
                      else old(rows)[at := old(rows)[at].(status := Running, error := None, updatedAt := now)]
    {
      if rows[at].status.Running? { return Some(Raised("tool_execution_busy", true)); }
      if !rows[at].status.Pending? { return Some(Raised("tool_execution_state_invalid", false)); }
      rows := rows[at := rows[at].(status := Running, error := None, updatedAt := now)];
      return None;
    }

    /** _finish_execution checks no state: it writes whatever the row says. */
    method FinishExecution(at: nat, status: Status, output: Option<string>, error: Option<string>, attempts: nat)
      returns (r: Reply)
      requires at < |rows|
      modifies `rows
      ensures var row := old(rows)[at].(status := status, output := output, error := error, attempts := attempts);
              rows == old(rows)[at := row] && r == ResultOf(row)
    {
      rows := rows[at := rows[at].(status := status, output := output, error := error, attempts := attempts)];
      return ResultOf(rows[at]);
    }

    method PerformCall(at: nat, q: Request) returns (r: Reply)
      requires at < |rows| && rows[at].status.Pending?
      modifies this
      ensures (Contents(), r) == Perform(old(Contents()), at, q)
    {
      hide Perform, Attempts, Finished;
      var refused := MarkRunning(at, q.now);
      var allowed := q.tool.maxAttempts;
      if q.tool.isWrite && !q.tool.hasIdempotencyHeader { allowed := 1; }
      ghost var running := rows[at];
      for attempt := 1 to allowed + 1
        invariant rows == old(rows)[at := running]
        invariant calls == old(calls) + Calls(at, attempt - 1) && attempt - 1 <= |q.answers|
        invariant Attempts(q.answers, 1, allowed) == Attempts(q.answers[attempt - 1..], attempt, allowed)
      {
        AttemptsStep(q.answers, attempt, allowed);
        if attempt - 1 >= |q.answers| {
          PerformIs(old(Contents()), at, q, running, NoVerdict, attempt - 1);
          FinishedIs(running, attempt - 1, "", "");
          return Died;
        }
        assert Calls(at, attempt) == Calls(at, attempt - 1) + [at];
        calls := calls + [at];
        assert calls == old(calls) + Calls(at, attempt);
        match q.answers[attempt - 1] {
          case AdapterError(code, retryable) =>
            if retryable && attempt < allowed { continue; }
            r := FinishExecution(at, Failed, None, Some(code), attempt);
            PerformIs(old(Contents()), at, q, running, Failure(code), attempt);
            FinishedIs(running, attempt, "", code);
            return;
          case Invalid(code) =>
            r := FinishExecution(at, Failed, None, Some(code), attempt);
            PerformIs(old(Contents()), at, q, running, Failure(code), attempt);
            FinishedIs(running, attempt, "", code);
            return;
          case Output(value) =>
            r := FinishExecution(at, Succeeded, Some(value), None, attempt);
            PerformIs(old(Contents()), at, q, running, Success(value), attempt);
            FinishedIs(running, attempt, value, "");
            return;
        }
      }
      AttemptsStep(q.answers, allowed + 1, allowed);
      PerformIs(old(Contents()), at, q, running, Exhausted, allowed);
      FinishedIs(running, allowed, "", "");
      return Raised("tool_execution_failed", false);
    }

    method ExecuteAgentTool(q: Request) returns (r: Reply)
      modifies this
      ensures (Contents(), r) == Execute(old(Contents()), q)
    {
      hide Perform;
      if q.ordinal < 1 || q.ordinal > MAX_ORDINAL { return Raised("tool_call_ordinal_invalid", false); }
      if q.refusal.Some? { return Raised(q.refusal.value, false); }
      var found := Find(rows, q.run, q.ordinal);
      var at := |rows|;
      if found.Some? {
        at := found.value;
      } else {
        if q.policy.PolicyFails? { return Raised(q.policy.code, true); }
        rows := rows + [NewRow(q)];
      }
      ghost var with := Contents();
      var row := rows[at];
      if row.tool != q.tool.id || row.agent != q.agent { return Raised("tool_call_replay_mismatch", false); }
      if row.payload != q.payload { return Raised("tool_call_replay_mismatch", false); }
      if IsSettled(row.status) || row.status.ApprovalRequired? { return ResultOf(row); }
      if row.status.Running? {
        if row.updatedAt >= q.now - StaleAfter(q.tool) { return Raised("tool_execution_busy", true); }
        rows := rows[at := row.(status := Pending)];
      } else {
        assert rows == rows[at := row.(status := Pending)];
      }
      if rows[at].approval.Awaiting? { return ResultOf(rows[at]); }
      ResetIsLost(with, Contents(), at, q);
      r := PerformCall(at, q);
    }

    method GenerateToolAware(run: Id, decisions: seq<Decision>) returns (r: Outcome)
      modifies this
      ensures (Contents(), r) == Rounds(old(Contents()), run, decisions, 0)
    {
      hide Execute;
      var toolCalls := 0;
      var rounds := 0;
      while rounds < MAX_ROUNDS
        invariant rounds == toolCalls <= MAX_CALLS + 1 && rounds <= |decisions|
        invariant toolCalls <= MAX_CALLS
        invariant Rounds(old(Contents()), run, decisions, 0) == Rounds(Contents(), run, decisions[rounds..], toolCalls)
        decreases MAX_ROUNDS - rounds
      {
        if rounds >= |decisions| { return Interrupted; }
        var d := decisions[rounds];
        assert decisions[rounds..][1..] == decisions[rounds + 1..];
        rounds := rounds + 1;
        if d.Unusable? { return Stopped(d.code, d.retryable); }
        if d.Final? { return FinalAnswer(d.text); }
        toolCalls := toolCalls + 1;
        if toolCalls > MAX_CALLS { return LoopLimit; }
        var reply := ExecuteAgentTool(RequestOf(run, toolCalls, d));
        var stop := StopsLoop(reply, d.pause);
        if stop.Some? { return stop.value; }
      }
      assert false;
      return LoopLimit;
    }
  }

  lemma FinishedIs(row: Execution, attempts: nat, output: string, code: string)
    ensures Finished(row, Success(output), attempts)
         == row.(status := Succeeded, output := Some(output), error := None, attempts := attempts)
    ensures Finished(row, Failure(code), attempts)
         == row.(status := Failed, output := None, error := Some(code), attempts := attempts)
    ensures Finished(row, NoVerdict, attempts) == Finished(row, Exhausted, attempts) == row
  {
  }

  lemma PerformIs(t: Table, at: nat, q: Request, running: Execution, verdict: Verdict, attempts: nat)
    requires at < |t.rows| && running == t.rows[at].(status := Running, error := None, updatedAt := q.now)
    requires Attempts(q.answers, 1, AttemptsAllowed(q.tool)) == (verdict, attempts)
    ensures var row := Finished(running, verdict, attempts);
            Perform(t, at, q) == (Table(t.rows[at := running][at := row], t.calls + Calls(at, attempts)), ReplyOf(row, verdict))
    ensures t.rows[at := running][at := running] == t.rows[at := running]
  {
    assert t.rows[at := running][at := Finished(running, verdict, attempts)]
        == t.rows[at := Finished(running, verdict, attempts)];
  }

  /** Setting a stale row back to pending leaves no trace once it is marked running again. */
  lemma ResetIsLost(t: Table, u: Table, at: nat, q: Request)
    requires at < |t.rows| && u == t.(rows := t.rows[at := t.rows[at].(status := Pending)])
    ensures Perform(u, at, q) == Perform(t, at, q)
  {
    var running := t.rows[at].(status := Running, error := None, updatedAt := q.now);
    var (verdict, attempts) := Attempts(q.answers, 1, AttemptsAllowed(q.tool));
    assert u.rows[at := Finished(running, verdict, attempts)] == t.rows[at := Finished(running, verdict, attempts)];
  }
}
