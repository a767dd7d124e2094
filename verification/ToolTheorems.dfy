/** What every history of agent loops and approval decisions keeps. */
module ToolTheorems {
  import opened Outcomes
  import opened ToolRuntime

  /** The agent loop of a run (again, after a retry), or a person's decision about a row. */
  datatype Step = Loop(run: Id, decisions: seq<Decision>) | Judge(at: nat, granted: bool)

  function Apply(t: Table, step: Step): Table {
    match step
    case Loop(run, decisions) => Rounds(t, run, decisions, 0).0
    case Judge(at, granted) => Decide(t, at, granted)
  }

  function History(t: Table, steps: seq<Step>): Table {
    if steps == [] then t else Apply(History(t, steps[..|steps| - 1]), steps[|steps| - 1])
  }

  // ---------------------------------------------------------------- the invariant

  predicate HasRow(t: Table, run: Id, ordinal: nat) {
    Find(t.rows, run, ordinal).Some?
  }

  ghost predicate UniqueKeys(rows: seq<Execution>) {
    forall i, j :: 0 <= i < j < |rows| ==> rows[i].run != rows[j].run || rows[i].ordinal != rows[j].ordinal
  }

  predicate MayBeCalled(row: Execution) {
    row.approval.NotRequired? || row.approval.Approved?
  }

  /** Status and approval agree: a denied row was refused, one that awaits approval is not pending or running. */
  predicate RowOk(row: Execution) {
    && (row.status.ApprovalRequired? <==> row.approval.Awaiting?)
    && (row.status.Denied? <==> row.approval.Refused?)
    && (row.status.Succeeded? ==> row.output.Some?)
    && (row.status.Failed? ==> row.error.Some?)
    && 1 <= row.ordinal <= MAX_CALLS
  }

  ghost predicate Inv(t: Table) {
    && UniqueKeys(t.rows)
    && (forall i :: 0 <= i < |t.rows| ==> RowOk(t.rows[i]))
    && (forall i :: 0 <= i < |t.rows| && t.rows[i].ordinal > 1 ==> HasRow(t, t.rows[i].run, t.rows[i].ordinal - 1))
    && (forall c :: 0 <= c < |t.calls| ==> t.calls[c] < |t.rows| && MayBeCalled(t.rows[t.calls[c]]))
  }

  /** Rows stay, keep what they are bound to, and once settled keep everything. */
  predicate RowEvolves(a: Execution, b: Execution) {
    && a.run == b.run && a.ordinal == b.ordinal && a.tool == b.tool && a.agent == b.agent && a.payload == b.payload
    && (IsSettled(a.status) ==> a == b)
    && (!a.approval.Awaiting? ==> a.approval == b.approval)
  }

  ghost predicate Evolves(t: Table, u: Table) {
    && |t.rows| <= |u.rows| && |t.calls| <= |u.calls|
    && (forall i :: 0 <= i < |t.rows| ==> RowEvolves(t.rows[i], u.rows[i]))
    && (forall c :: 0 <= c < |t.calls| ==> u.calls[c] == t.calls[c])
    && (forall c :: |t.calls| <= c < |u.calls| ==>
          u.calls[c] < |u.rows| && (u.calls[c] < |t.rows| ==> !IsSettled(t.rows[u.calls[c]].status)))
  }

  lemma {:induction false} FindIs(rows: seq<Execution>, run: Id, ordinal: nat)
    ensures Find(rows, run, ordinal).None? ==> forall i :: 0 <= i < |rows| ==> rows[i].run != run || rows[i].ordinal != ordinal
  {
    if rows != [] { FindIs(rows[..|rows| - 1], run, ordinal); }
  }

  /** Rows keep their keys, so what was found is found again. */
  lemma StillThere(t: Table, u: Table, run: Id, ordinal: nat)
    requires Evolves(t, u) && HasRow(t, run, ordinal)
    ensures HasRow(u, run, ordinal)
  {
    var at := Find(t.rows, run, ordinal).value;
    FindIs(u.rows, run, ordinal);
    assert RowEvolves(t.rows[at], u.rows[at]);
  }

  lemma EvolvesTrans(t: Table, u: Table, v: Table)
    requires Evolves(t, u) && Evolves(u, v)
    ensures Evolves(t, v)
  {
    forall i | 0 <= i < |t.rows| ensures RowEvolves(t.rows[i], v.rows[i]) {
      assert RowEvolves(t.rows[i], u.rows[i]) && RowEvolves(u.rows[i], v.rows[i]);
    }
    forall c | |t.calls| <= c < |v.calls|
      ensures v.calls[c] < |v.rows| && (v.calls[c] < |t.rows| ==> !IsSettled(t.rows[v.calls[c]].status)) {
      var at := v.calls[c];
      if c < |u.calls| { assert at == u.calls[c]; }
      if at < |t.rows| { assert RowEvolves(t.rows[at], u.rows[at]); }
    }
  }

  // ---------------------------------------------------------------- attempts

  /** A verdict falls within the attempts allowed, and within the answers given. */
  lemma {:induction false} AttemptsBound(answers: seq<Answer>, attempt: nat, allowed: nat)
    requires 1 <= attempt <= allowed + 1
    ensures attempt - 1 <= Attempts(answers, attempt, allowed).1 <= allowed
    ensures Attempts(answers, attempt, allowed).1 <= attempt - 1 + |answers|
    ensures Attempts(answers, attempt, allowed).0.Exhausted? <==> attempt > allowed
    decreases |answers|
  {
    if answers != [] && attempt < allowed { AttemptsBound(answers[1..], attempt + 1, allowed); }
  }

  /** The raise after the retry loop is reached exactly when a tool that may be retried allows no attempt at all. */
  lemma ExhaustedExactlyWhenNoAttempts(q: Request)
    ensures Attempts(q.answers, 1, AttemptsAllowed(q.tool)).0.Exhausted?
            <==> q.tool.maxAttempts == 0 && !(q.tool.isWrite && !q.tool.hasIdempotencyHeader)
  {
    AttemptsBound(q.answers, 1, AttemptsAllowed(q.tool));
  }

  /** A call of the loop calls the adapter for one row only, at most max_attempts times, and at most once for a
      write that carries no idempotency header. */
  lemma CallsOfOneEpisode(t: Table, q: Request)
    ensures var u := Execute(t, q).0;
            && |t.calls| <= |u.calls| <= |t.calls| + AttemptsAllowed(q.tool)
            && (q.tool.isWrite && !q.tool.hasIdempotencyHeader ==> |u.calls| <= |t.calls| + 1)
            && forall c, d :: |t.calls| <= c < |u.calls| && |t.calls| <= d < |u.calls| ==> u.calls[c] == u.calls[d]
  {
    AttemptsBound(q.answers, 1, AttemptsAllowed(q.tool));
  }

  // ---------------------------------------------------------------- one step

  lemma UpdateEvolves(t: Table, at: nat, row: Execution, count: nat, u: Table)
    requires at < |t.rows| && RowEvolves(t.rows[at], row) && u == Table(t.rows[at := row], t.calls + Calls(at, count))
    requires count > 0 ==> !IsSettled(t.rows[at].status)
    ensures Evolves(t, u)
  {
    hide RowEvolves, IsSettled;
    forall i | 0 <= i < |t.rows| ensures RowEvolves(t.rows[i], u.rows[i]) { RowEvolvesSelf(t.rows[i]); }
  }

  lemma UpdateKeepsCalls(t: Table, at: nat, row: Execution, count: nat, u: Table)
    requires Inv(t) && at < |t.rows| && RowEvolves(t.rows[at], row) && (count > 0 ==> MayBeCalled(row))
    requires u == Table(t.rows[at := row], t.calls + Calls(at, count))
    ensures forall c :: 0 <= c < |u.calls| ==> u.calls[c] < |u.rows| && MayBeCalled(u.rows[u.calls[c]])
  {
    hide RowOk, HasRow, UniqueKeys, MayBeCalled, RowEvolves;
    forall c | 0 <= c < |u.calls| ensures u.calls[c] < |u.rows| && MayBeCalled(u.rows[u.calls[c]]) {
      if c < |t.calls| {
        RowEvolvesSelf(t.rows[t.calls[c]]);
        MayStillBeCalled(t.rows[t.calls[c]], u.rows[t.calls[c]]);
      }
    }
  }

  /** Rewriting one row, with calls of the adapter for it. */
  lemma UpdateKeeps(t: Table, at: nat, row: Execution, count: nat)
    requires Inv(t) && at < |t.rows| && RowEvolves(t.rows[at], row) && RowOk(row)
    requires count > 0 ==> MayBeCalled(row) && !IsSettled(t.rows[at].status)
    ensures var u := Table(t.rows[at := row], t.calls + Calls(at, count)); Inv(u) && Evolves(t, u)
  {
    hide RowEvolves, RowOk, Evolves, HasRow, UniqueKeys, MayBeCalled, IsSettled;
    var u := Table(t.rows[at := row], t.calls + Calls(at, count));
    UpdateEvolves(t, at, row, count, u);
    UpdateKeepsKeys(t, u);
    UpdateKeepsCalls(t, at, row, count, u);
  }

  lemma RowEvolvesSelf(row: Execution)
    ensures RowEvolves(row, row)
  {
  }

  lemma MayStillBeCalled(a: Execution, b: Execution)
    requires RowEvolves(a, b) && MayBeCalled(a)
    ensures MayBeCalled(b)
  {
  }

  lemma UpdateKeepsKeys(t: Table, u: Table)
    requires Inv(t) && Evolves(t, u) && |t.rows| == |u.rows|
    ensures UniqueKeys(u.rows)
    ensures forall i :: 0 <= i < |u.rows| && u.rows[i].ordinal > 1 ==> HasRow(u, u.rows[i].run, u.rows[i].ordinal - 1)
  {
    forall i | 0 <= i < |u.rows| && u.rows[i].ordinal > 1 ensures HasRow(u, u.rows[i].run, u.rows[i].ordinal - 1) {
      assert RowEvolves(t.rows[i], u.rows[i]);
      StillThere(t, u, u.rows[i].run, u.rows[i].ordinal - 1);
    }
    forall i, j | 0 <= i < j < |u.rows| ensures u.rows[i].run != u.rows[j].run || u.rows[i].ordinal != u.rows[j].ordinal {
      assert RowEvolves(t.rows[i], u.rows[i]) && RowEvolves(t.rows[j], u.rows[j]);
    }
  }

  lemma PerformKeeps(t: Table, at: nat, q: Request)
    requires Inv(t) && at < |t.rows| && (t.rows[at].status.Pending? || t.rows[at].status.Running?)
    ensures Inv(Perform(t, at, q).0) && Evolves(t, Perform(t, at, q).0)
  {
    hide Inv, Evolves;
    assert RowOk(t.rows[at]) by { InvRow(t, at); }
    var running := t.rows[at].(status := Running, error := None, updatedAt := q.now);
    var (verdict, attempts) := Attempts(q.answers, 1, AttemptsAllowed(q.tool));
    UpdateKeeps(t, at, Finished(running, verdict, attempts), attempts);
  }

  lemma InvRow(t: Table, at: nat)
    requires Inv(t) && at < |t.rows|
    ensures RowOk(t.rows[at])
  {
  }

  lemma ProceedKeeps(t: Table, at: nat, q: Request)
    requires Inv(t) && at < |t.rows|
    ensures Inv(Proceed(t, at, q).0) && Evolves(t, Proceed(t, at, q).0)
  {
    hide Perform;
    assert RowOk(t.rows[at]);
    var row := t.rows[at];
    if Matches(row, q) && !IsSettled(row.status) && !row.status.ApprovalRequired? && !IsBusy(row, q) {
      PerformKeeps(t, at, q);
    }
  }

  lemma CreateEvolves(t: Table, q: Request)
    requires !q.policy.PolicyFails? && forall c :: 0 <= c < |t.calls| ==> t.calls[c] < |t.rows|
    ensures Evolves(t, t.(rows := t.rows + [NewRow(q)]))
  {
    hide RowEvolves, NewRow;
    forall i | 0 <= i < |t.rows| ensures RowEvolves(t.rows[i], (t.rows + [NewRow(q)])[i]) {
      RowEvolvesSelf(t.rows[i]);
    }
  }

  /** The new row's key is new. */
  lemma CreateKeepsKeys(t: Table, q: Request)
    requires UniqueKeys(t.rows) && !HasRow(t, q.run, q.ordinal) && !q.policy.PolicyFails?
    ensures UniqueKeys(t.rows + [NewRow(q)])
  {
    hide Find;
    FindIs(t.rows, q.run, q.ordinal);
  }

  lemma CreateKeepsOrder(t: Table, q: Request, u: Table)
    requires Inv(t) && !q.policy.PolicyFails? && u == t.(rows := t.rows + [NewRow(q)]) && Evolves(t, u)
    requires q.ordinal > 1 ==> HasRow(t, q.run, q.ordinal - 1)
    ensures forall i :: 0 <= i < |u.rows| && u.rows[i].ordinal > 1 ==> HasRow(u, u.rows[i].run, u.rows[i].ordinal - 1)
  {
    hide Evolves, RowOk, HasRow, MayBeCalled, UniqueKeys;
    forall i | 0 <= i < |u.rows| && u.rows[i].ordinal > 1 ensures HasRow(u, u.rows[i].run, u.rows[i].ordinal - 1) {
      if i < |t.rows| { assert t.rows[i] == u.rows[i]; }
      StillThere(t, u, u.rows[i].run, u.rows[i].ordinal - 1);
    }
  }

  lemma CreateKeeps(t: Table, q: Request)
    requires Inv(t) && !HasRow(t, q.run, q.ordinal) && !q.policy.PolicyFails? && 1 <= q.ordinal <= MAX_CALLS
    requires q.ordinal > 1 ==> HasRow(t, q.run, q.ordinal - 1)
    ensures var u := t.(rows := t.rows + [NewRow(q)]); Inv(u) && Evolves(t, u)
  {
    hide Evolves, RowOk, HasRow, MayBeCalled, UniqueKeys, NewRow;
    CreateEvolves(t, q);
    CreateKeepsKeys(t, q);
    CreateKeepsOrder(t, q, t.(rows := t.rows + [NewRow(q)]));
    NewRowOk(q);
  }

  lemma NewRowOk(q: Request)
    requires !q.policy.PolicyFails? && 1 <= q.ordinal <= MAX_CALLS
    ensures RowOk(NewRow(q))
  {
  }

  /** One call; a reply that lets the loop go on means that the call's row exists. */
  lemma ExecuteKeeps(t: Table, q: Request)
    requires Inv(t) && 1 <= q.ordinal <= MAX_CALLS && (q.ordinal > 1 ==> HasRow(t, q.run, q.ordinal - 1))
    ensures Inv(Execute(t, q).0) && Evolves(t, Execute(t, q).0)
    ensures Execute(t, q).1.Result? ==> HasRow(Execute(t, q).0, q.run, q.ordinal)
  {
    hide Proceed, Inv, Evolves, Find, NewRow;
    EvolvesSelf(t);
    if q.refusal.None? {
      var found := Find(t.rows, q.run, q.ordinal);
      if found.Some? {
        ProceedKeeps(t, found.value, q);
        StillThere(t, Execute(t, q).0, q.run, q.ordinal);
      } else if !q.policy.PolicyFails? {
        CreateKeeps(t, q);
        var u := t.(rows := t.rows + [NewRow(q)]);
        ProceedKeeps(u, |t.rows|, q);
        EvolvesTrans(t, u, Execute(t, q).0);
        FindNew(t.rows, q);
        StillThere(u, Execute(t, q).0, q.run, q.ordinal);
      }
    }
  }

  lemma EvolvesSelf(t: Table)
    ensures Evolves(t, t)
  {
  }

  lemma FindNew(rows: seq<Execution>, q: Request)
    requires !q.policy.PolicyFails?
    ensures Find(rows + [NewRow(q)], q.run, q.ordinal).Some?
  {
  }

  lemma {:induction false} RoundsKeep(t: Table, run: Id, decisions: seq<Decision>, calls: nat)
    requires Inv(t) && calls <= MAX_CALLS && (calls > 0 ==> HasRow(t, run, calls))
    ensures Inv(Rounds(t, run, decisions, calls).0) && Evolves(t, Rounds(t, run, decisions, calls).0)
    decreases |decisions|
  {
    hide Execute, Inv, Evolves, HasRow;
    EvolvesSelf(t);
    if decisions != [] && decisions[0].UseTool? && calls < MAX_CALLS {
      var q := RequestOf(run, calls + 1, decisions[0]);
      ExecuteKeeps(t, q);
      var (next, reply) := Execute(t, q);
      if StopsLoop(reply, decisions[0].pause).None? {
        RoundsKeep(next, run, decisions[1..], calls + 1);
        EvolvesTrans(t, next, Rounds(t, run, decisions, calls).0);
      }
    }
  }

  lemma DecideKeeps(t: Table, at: nat, granted: bool)
    requires Inv(t)
    ensures Inv(Decide(t, at, granted)) && Evolves(t, Decide(t, at, granted))
  {
    hide Inv, Evolves;
    EvolvesSelf(t);
    if at < |t.rows| && t.rows[at].approval.Awaiting? {
      InvRow(t, at);
      var u := Decide(t, at, granted);
      UpdateKeeps(t, at, u.rows[at], 0);
      assert t.calls + Calls(at, 0) == t.calls;
    }
  }

  // ---------------------------------------------------------------- whole histories

  /** Every history keeps the invariant; rows keep what they are bound to and settled rows never change; the adapter
      is never called for a settled row. */
  lemma {:induction false} HistoryKeeps(t: Table, steps: seq<Step>)
    requires Inv(t)
    ensures Inv(History(t, steps)) && Evolves(t, History(t, steps))
  {
    hide Inv, Evolves, Rounds, Decide;
    EvolvesSelf(t);
    if steps != [] {
      var before := History(t, steps[..|steps| - 1]);
      HistoryKeeps(t, steps[..|steps| - 1]);
      match steps[|steps| - 1] {
        case Loop(run, decisions) => RoundsKeep(before, run, decisions, 0);
        case Judge(at, granted) => DecideKeeps(before, at, granted);
      }
      EvolvesTrans(t, before, History(t, steps));
    }
  }

  lemma EmptyTable()
    ensures Inv(Table([], []))
  {
  }

  /** Ordinals of a run are contiguous from one, and there are at most three. */
  lemma {:induction false} OrdinalsContiguous(steps: seq<Step>, run: Id, high: nat, low: nat)
    requires HasRow(History(Table([], []), steps), run, high) && 1 <= low <= high
    ensures high <= MAX_CALLS && HasRow(History(Table([], []), steps), run, low)
    decreases high
  {
    EmptyTable();
    HistoryKeeps(Table([], []), steps);
    hide History;
    var t := History(Table([], []), steps);
    var at := Find(t.rows, run, high).value;
    assert RowOk(t.rows[at]);
    if low < high { OrdinalsContiguous(steps, run, high - 1, low); }
  }

  /** The adapter is called only for rows that needed no approval or got it, never for a denied row or one that
      still awaits approval. */
  lemma CalledOnlyIfApproved(steps: seq<Step>, c: nat)
    requires c < |History(Table([], []), steps).calls|
    ensures var t := History(Table([], []), steps);
            t.calls[c] < |t.rows| && MayBeCalled(t.rows[t.calls[c]])
            && !t.rows[t.calls[c]].status.Denied? && !t.rows[t.calls[c]].status.ApprovalRequired?
  {
    EmptyTable();
    HistoryKeeps(Table([], []), steps);
    var t := History(Table([], []), steps);
    assert RowOk(t.rows[t.calls[c]]);
  }

  /** Replay: once a call has settled, asking again at any later time, whatever happened between, gives the stored
      result and changes nothing; asking with another tool, agent or payload is refused and changes nothing. */
  lemma SettledReplay(t: Table, steps: seq<Step>, at: nat, q: Request)
    requires Inv(t) && at < |t.rows| && IsSettled(t.rows[at].status)
    requires q.run == t.rows[at].run && q.ordinal == t.rows[at].ordinal && q.refusal.None?
    ensures var later := History(t, steps);
            Execute(later, q) == (later, if Matches(t.rows[at], q) then ResultOf(t.rows[at])
                                         else Raised("tool_call_replay_mismatch", false))
  {
    hide Perform, History, Find;
    HistoryKeeps(t, steps);
    var later := History(t, steps);
    assert RowEvolves(t.rows[at], later.rows[at]) && RowOk(t.rows[at]);
    FindIs(later.rows, q.run, q.ordinal);
  }

  /** A row that exists is bound to its tool, agent and payload at every later time. */
  lemma MismatchRefused(t: Table, steps: seq<Step>, at: nat, q: Request)
    requires Inv(t) && at < |t.rows|
    requires q.tool.id != t.rows[at].tool || q.agent != t.rows[at].agent || q.payload != t.rows[at].payload
    requires q.run == t.rows[at].run && q.ordinal == t.rows[at].ordinal && q.refusal.None?
    ensures var later := History(t, steps); Execute(later, q) == (later, Raised("tool_call_replay_mismatch", false))
  {
    hide Perform, History, Find;
    HistoryKeeps(t, steps);
    var later := History(t, steps);
    assert RowEvolves(t.rows[at], later.rows[at]) && RowOk(t.rows[at]);
    FindIs(later.rows, q.run, q.ordinal);
  }

  /** The loop limit is reported only when the first four answers of the model were all tool calls. */
  lemma {:induction false} LimitIsFourthCall(t: Table, run: Id, decisions: seq<Decision>, calls: nat)
    requires calls <= MAX_CALLS && Rounds(t, run, decisions, calls).1.LoopLimit?
    ensures |decisions| > MAX_CALLS - calls
    ensures forall k :: 0 <= k <= MAX_CALLS - calls ==> decisions[k].UseTool?
    decreases |decisions|
  {
    hide Execute;
    if calls < MAX_CALLS {
      var next := Execute(t, RequestOf(run, calls + 1, decisions[0])).0;
      LimitIsFourthCall(next, run, decisions[1..], calls + 1);
      forall k | 0 <= k <= MAX_CALLS - calls ensures decisions[k].UseTool? {
        if k > 0 { assert decisions[k] == decisions[1..][k - 1]; }
      }
    }
  }
}
