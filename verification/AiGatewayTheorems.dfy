/** The trace log and the answer of the gateway, described without its loops. */
module AiGatewayTheorems {
  import opened Outcomes
  import opened AiGateway

  // ---------------------------------------------------------------- which tries are made

  predicate Retried(answers: seq<Answer>, a: nat) {
    1 <= a <= |answers| && answers[a - 1].Fails? && answers[a - 1].retryable
  }

  /** A try made once its route is reached: the first, and each after a retryable failure. */
  ghost predicate Tried(p: Profile, answers: Answers, r: nat, a: nat)
    requires Fits(p, answers)
  {
    && r < |p.routes| && 1 <= a
    && if p.routes[r].adapter.Ready? then a <= p.attempts && forall b :: 1 <= b < a ==> Retried(answers[r], b) else a == 1
  }

  /** The answer of a try, where there is one. */
  function AnswerAt(p: Profile, answers: Answers, r: nat, a: nat): Option<Answer>
    requires Fits(p, answers)
  {
    if r < |p.routes| && p.routes[r].adapter.Ready? && 1 <= a <= p.attempts then Some(answers[r][a - 1]) else None
  }

  predicate IsFinal(answer: Option<Answer>) {
    answer.Some? && !answer.value.Fails?
  }

  ghost predicate RouteStops(p: Profile, answers: Answers, r: nat)
    requires Fits(p, answers)
  {
    exists a :: Tried(p, answers, r, a) && IsFinal(AnswerAt(p, answers, r, a))
  }

  /** A try reached by a search that starts at `from`: no route before it ended the search. */
  ghost predicate Reached(p: Profile, answers: Answers, from: nat, r: nat, a: nat)
    requires Fits(p, answers)
  {
    from <= r && Tried(p, answers, r, a) && forall q :: from <= q < r ==> !RouteStops(p, answers, q)
  }

  /** The trace a try leaves. */
  function Expected(p: Profile, answers: Answers, r: nat, a: nat): Trace
    requires Fits(p, answers) && r < |p.routes| && (p.routes[r].adapter.Ready? ==> 1 <= a <= p.attempts)
  {
    match p.routes[r].adapter
    case Missing => Trace(r, a, Some("provider_unavailable"))
    case Unsuited => Trace(r, a, Some("provider_capability_unavailable"))
    case Ready => TraceOf(r, a, answers[r][a - 1])
  }

  // ---------------------------------------------------------------- one route

  /** The attempts of a ready route: one trace each, every one but the last a retryable failure. */
  lemma {:induction false} AttemptsAre(route: nat, answers: seq<Answer>, attempt: nat, memo: Memo)
    requires 1 <= attempt <= |answers|
    ensures var v := Attempts(route, answers, attempt, memo);
            && 1 <= |v.traces| <= |answers| + 1 - attempt
            && (forall i :: 0 <= i < |v.traces| ==> v.traces[i] == TraceOf(route, attempt + i, answers[attempt + i - 1]))
            && (forall b :: attempt <= b < attempt + |v.traces| - 1 ==> Retried(answers, b))
            && EndIs(answers, attempt + |v.traces| - 1, v)
            && (v.memo.retryable
                <==> memo.retryable || exists b :: attempt <= b < attempt + |v.traces| && Retried(answers, b))
    decreases |answers| + 1 - attempt
  {
    var answer := answers[attempt - 1];
    assert Retried(answers, attempt) <==> answer.Fails? && answer.retryable;
    if answer.Fails? && answer.retryable && attempt < |answers| {
      var next := Memo(answer.code, true);
      AttemptsAre(route, answers, attempt + 1, next);
    }
  }

  /** How the last try of a route decides: an answer or a refusal ends the search, a failure does not. */
  ghost predicate EndIs(answers: seq<Answer>, last: nat, v: Visit) {
    && 1 <= last <= |answers|
    && match answers[last - 1]
       case Succeeds(value) => v.end == Some(Answered(value))
       case Refused(code) => v.end == Some(RoutingError(code, false))
       case Fails(code, retryable) => v.end == None && v.memo.code == code && (retryable ==> last == |answers|)
  }

  /** One route's visit, in terms of the tries it makes. */
  lemma VisitIs(p: Profile, answers: Answers, r: nat, memo: Memo)
    requires Fits(p, answers) && r < |p.routes| && p.attempts >= 1
    ensures var v := VisitRoute(p, answers, r, memo);
            && v.traces != []
            && (forall a: nat :: Tried(p, answers, r, a) <==> 1 <= a <= |v.traces|)
            && (p.routes[r].adapter.Ready? ==> |v.traces| <= p.attempts)
    ensures var v := VisitRoute(p, answers, r, memo);
            forall i :: 0 <= i < |v.traces| && (p.routes[r].adapter.Ready? ==> i < p.attempts)
                        ==> v.traces[i] == Expected(p, answers, r, i + 1)
  {
    if p.routes[r].adapter.Ready? {
      AttemptsAre(r, answers[r], 1, memo);
      var v := VisitRoute(p, answers, r, memo);
      var lastIsRetried := Retried(answers[r], |v.traces|);
      forall a: nat ensures Tried(p, answers, r, a) <==> 1 <= a <= |v.traces| {
        if 1 <= a <= |v.traces| {
          assert forall b :: 1 <= b < a ==> Retried(answers[r], b);
        }
      }
    }
  }

  lemma OnlyLastIsFinal(p: Profile, answers: Answers, r: nat, memo: Memo, a: nat)
    requires Fits(p, answers) && r < |p.routes| && p.attempts >= 1
    requires Tried(p, answers, r, a) && IsFinal(AnswerAt(p, answers, r, a))
    ensures a == |VisitRoute(p, answers, r, memo).traces|
  {
    VisitIs(p, answers, r, memo);
    AttemptsAre(r, answers[r], 1, memo);
    var isRetried := Retried(answers[r], a);
  }

  /** How a route's visit ends. */
  lemma VisitEnds(p: Profile, answers: Answers, r: nat, memo: Memo)
    requires Fits(p, answers) && r < |p.routes| && p.attempts >= 1
    ensures var v := VisitRoute(p, answers, r, memo);
            && |v.traces| >= 1
            && (v.end.Some? <==> RouteStops(p, answers, r))
            && (v.end.Some? ==> v.end.value == EndOf(AnswerAt(p, answers, r, |v.traces|)))
            && (v.end.None? ==> v.traces[|v.traces| - 1].error == Some(v.memo.code))
            && (forall i :: 0 <= i < |v.traces| && v.traces[i].error.None? ==> i == |v.traces| - 1 && v.end.Some?)
  {
    VisitIs(p, answers, r, memo);
    var v := VisitRoute(p, answers, r, memo);
    if p.routes[r].adapter.Ready? {
      AttemptsAre(r, answers[r], 1, memo);
      if v.end.Some? {
        assert Tried(p, answers, r, |v.traces|) && IsFinal(AnswerAt(p, answers, r, |v.traces|));
      }
      forall a: nat | Tried(p, answers, r, a) && IsFinal(AnswerAt(p, answers, r, a)) ensures a == |v.traces| {
        OnlyLastIsFinal(p, answers, r, memo, a);
      }
      forall i | 0 <= i < |v.traces| && v.traces[i].error.None? ensures i == |v.traces| - 1 && v.end.Some? {
        var isRetried := Retried(answers[r], i + 1);
      }
    }
  }

  function EndOf(answer: Option<Answer>): Outcome {
    match answer
    case Some(Succeeds(value)) => Answered(value)
    case Some(Refused(code)) => RoutingError(code, false)
    case _ => RoutingError("", false)
  }

  lemma VisitRetryable(p: Profile, answers: Answers, r: nat, memo: Memo)
    requires Fits(p, answers) && r < |p.routes| && p.attempts >= 1
    ensures VisitRoute(p, answers, r, memo).memo.retryable
            <==> memo.retryable || exists a :: Tried(p, answers, r, a) && RetryableAt(p, answers, r, a)
  {
    VisitIs(p, answers, r, memo);
    var v := VisitRoute(p, answers, r, memo);
    if p.routes[r].adapter.Ready? {
      AttemptsAre(r, answers[r], 1, memo);
      if a :| 1 <= a < 1 + |v.traces| && Retried(answers[r], a) {
        assert Tried(p, answers, r, a) && RetryableAt(p, answers, r, a);
      }
      if a: nat :| Tried(p, answers, r, a) && RetryableAt(p, answers, r, a) {
      }
    }
  }

  predicate RetryableAt(p: Profile, answers: Answers, r: nat, a: nat)
    requires Fits(p, answers)
  {
    r < |p.routes| && p.routes[r].adapter.Ready? && Retried(answers[r], a)
  }

  // ---------------------------------------------------------------- the whole search

  /** The trace of a reached try. */
  ghost predicate IsLogged(p: Profile, answers: Answers, from: nat, t: Trace)
    requires Fits(p, answers)
  {
    Reached(p, answers, from, t.route, t.attempt) && t == Expected(p, answers, t.route, t.attempt)
  }

  predicate Before(a: Trace, b: Trace) {
    a.route < b.route || (a.route == b.route && a.attempt < b.attempt)
  }

  ghost predicate InOrder(p: Profile, answers: Answers, from: nat, log: seq<Trace>)
    requires Fits(p, answers)
  {
    && (forall i :: 0 <= i < |log| ==> IsLogged(p, answers, from, log[i]))
    && forall i, j :: 0 <= i < j < |log| ==> Before(log[i], log[j])
  }

  /** The log in order: every trace is that of a reached try, and the tries increase. */
  lemma {:induction false} LogIsInOrder(p: Profile, answers: Answers, from: nat, memo: Memo)
    requires Fits(p, answers) && from <= |p.routes| && p.attempts >= 1
    ensures InOrder(p, answers, from, Search(p, answers, from, memo).0)
    decreases |p.routes| - from
  {
    hide VisitRoute, Attempts, RouteStops, Tried;
    if from < |p.routes| {
      var visit := VisitRoute(p, answers, from, memo);
      VisitIs(p, answers, from, memo);
      VisitEnds(p, answers, from, memo);
      var log := Search(p, answers, from, memo).0;
      forall i | 0 <= i < |visit.traces|
        ensures visit.traces[i].route == from && visit.traces[i].attempt == i + 1
        ensures IsLogged(p, answers, from, visit.traces[i]) {
        assert Tried(p, answers, from, i + 1);
      }
      if visit.end.None? {
        LogIsInOrder(p, answers, from + 1, visit.memo);
        var rest := Search(p, answers, from + 1, visit.memo).0;
        forall k | 0 <= k < |rest| ensures IsLogged(p, answers, from, rest[k]) && rest[k].route > from {
          assert IsLogged(p, answers, from + 1, rest[k]);
          assert forall q :: from <= q < rest[k].route ==> !RouteStops(p, answers, q);
        }
        forall i, j | 0 <= i < j < |log| ensures Before(log[i], log[j]) {
          if i >= |visit.traces| { assert Before(rest[i - |visit.traces|], rest[j - |visit.traces|]); }
        }
      }
    }
  }

  /** The log is complete: a reached try has its trace. */
  lemma {:induction false} LogIsComplete(p: Profile, answers: Answers, from: nat, memo: Memo, r: nat, a: nat)
    requires Fits(p, answers) && from <= |p.routes| && p.attempts >= 1 && Reached(p, answers, from, r, a)
    ensures exists i :: 0 <= i < |Search(p, answers, from, memo).0|
                        && Search(p, answers, from, memo).0[i].route == r
                        && Search(p, answers, from, memo).0[i].attempt == a
    decreases |p.routes| - from
  {
    hide VisitRoute, Attempts, Tried;
    assert r < |p.routes| by { TriedInside(p, answers, r, a); }
    var visit := VisitRoute(p, answers, from, memo);
    VisitIs(p, answers, from, memo);
    VisitEnds(p, answers, from, memo);
    var log := Search(p, answers, from, memo).0;
    if r == from {
      assert log[a - 1] == visit.traces[a - 1] == Expected(p, answers, from, a);
    } else {
      assert !RouteStops(p, answers, from);
      LogIsComplete(p, answers, from + 1, visit.memo, r, a);
      var rest := Search(p, answers, from + 1, visit.memo).0;
      var i :| 0 <= i < |rest| && rest[i].route == r && rest[i].attempt == a;
      assert log[|visit.traces| + i] == rest[i];
    }
  }

  lemma TriedInside(p: Profile, answers: Answers, r: nat, a: nat)
    requires Fits(p, answers) && Tried(p, answers, r, a)
    ensures r < |p.routes|
  {
  }

  /** At most one success is logged, and it comes last, with the answer. */
  lemma {:induction false} SuccessIsLast(p: Profile, answers: Answers, from: nat, memo: Memo)
    requires Fits(p, answers) && from <= |p.routes| && p.attempts >= 1
    ensures var (log, outcome) := Search(p, answers, from, memo);
            && (forall i :: 0 <= i < |log| && log[i].error.None? ==> i == |log| - 1 && outcome.Answered?)
            && (outcome.Answered? ==> log != [] && log[|log| - 1].error.None?)
            && (outcome.RoutingError? && log != [] ==> log[|log| - 1].error == Some(outcome.code))
            && (outcome.RoutingError? && log == [] ==> outcome.code == memo.code)
            && (from < |p.routes| ==> log != [])
    decreases |p.routes| - from
  {
    hide VisitRoute, Attempts, RouteStops, Tried;
    if from < |p.routes| {
      var visit := VisitRoute(p, answers, from, memo);
      VisitIs(p, answers, from, memo);
      VisitEnds(p, answers, from, memo);
      if visit.end.Some? {
        LastTrace(p, answers, from, memo);
      } else {
        SuccessIsLast(p, answers, from + 1, visit.memo);
      }
    }
  }

  lemma LastTrace(p: Profile, answers: Answers, r: nat, memo: Memo)
    requires Fits(p, answers) && r < |p.routes| && p.attempts >= 1 && VisitRoute(p, answers, r, memo).end.Some?
    ensures var v := VisitRoute(p, answers, r, memo);
            && v.traces != []
            && v.traces[|v.traces| - 1].error
               == match v.end.value case Answered(_) => None case RoutingError(code, _) => Some(code)
  {
    AttemptsAre(r, answers[r], 1, memo);
  }

  /** The search answers exactly when some reached try succeeds, and with that try's value. */
  lemma {:induction false} AnswersExactly(p: Profile, answers: Answers, from: nat, memo: Memo, value: string)
    requires Fits(p, answers) && from <= |p.routes| && p.attempts >= 1
    ensures Search(p, answers, from, memo).1 == Answered(value)
            <==> exists r, a :: Reached(p, answers, from, r, a) && AnswerAt(p, answers, r, a) == Some(Succeeds(value))
    decreases |p.routes| - from
  {
    hide VisitRoute, Attempts, Tried;
    if from == |p.routes| {
      if r: nat, a: nat :| Reached(p, answers, from, r, a) && AnswerAt(p, answers, r, a) == Some(Succeeds(value)) {
        TriedInside(p, answers, r, a);
      }
    } else {
      var visit := VisitRoute(p, answers, from, memo);
      VisitIs(p, answers, from, memo);
      VisitEnds(p, answers, from, memo);
      if visit.end.Some? {
        var k := |visit.traces|;
        assert Tried(p, answers, from, k);
        if visit.end.value == Answered(value) {
          assert Reached(p, answers, from, from, k) && AnswerAt(p, answers, from, k) == Some(Succeeds(value));
        }
        if r: nat, a: nat :| Reached(p, answers, from, r, a) && AnswerAt(p, answers, r, a) == Some(Succeeds(value)) {
          assert r == from;
          OnlyLastIsFinal(p, answers, from, memo, a);
        }
      } else {
        AnswersExactly(p, answers, from + 1, visit.memo, value);
        if r: nat, a: nat :| Reached(p, answers, from + 1, r, a) && AnswerAt(p, answers, r, a) == Some(Succeeds(value)) {
          assert Reached(p, answers, from, r, a);
        }
        if r: nat, a: nat :| Reached(p, answers, from, r, a) && AnswerAt(p, answers, r, a) == Some(Succeeds(value)) {
          assert r != from;
          assert Reached(p, answers, from + 1, r, a);
        }
      }
    }
  }

  /** The error says that a new try may help exactly when the search ran out of routes, not stopped by the billing
      check, and some provider failure on the way was retryable. */
  lemma {:induction false} RetryableExactly(p: Profile, answers: Answers, from: nat, memo: Memo)
    requires Fits(p, answers) && from <= |p.routes| && p.attempts >= 1
    requires Search(p, answers, from, memo).1.RoutingError?
    ensures Search(p, answers, from, memo).1.retryable
            <==> && (forall r :: from <= r < |p.routes| ==> !RouteStops(p, answers, r))
                 && (memo.retryable || exists r, a :: Reached(p, answers, from, r, a) && RetryableAt(p, answers, r, a))
    decreases |p.routes| - from
  {
    hide VisitRoute, Attempts, Tried, RouteStops;
    if from == |p.routes| {
      if r: nat, a: nat :| Reached(p, answers, from, r, a) && RetryableAt(p, answers, r, a) { TriedInside(p, answers, r, a); }
    } else {
      var visit := VisitRoute(p, answers, from, memo);
      VisitEnds(p, answers, from, memo);
      if visit.end.None? {
        VisitRetryable(p, answers, from, memo);
        RetryableExactly(p, answers, from + 1, visit.memo);
        if a: nat :| Tried(p, answers, from, a) && RetryableAt(p, answers, from, a) {
          assert Reached(p, answers, from, from, a);
        }
        if r: nat, a: nat :| Reached(p, answers, from + 1, r, a) && RetryableAt(p, answers, r, a) {
          assert Reached(p, answers, from, r, a);
        }
        if r: nat, a: nat :| Reached(p, answers, from, r, a) && RetryableAt(p, answers, r, a) {
          if r != from { assert Reached(p, answers, from + 1, r, a); }
        }
      }
    }
  }

  /** The initial code of the loop is never reported: a profile with routes and attempts leaves a trace. */
  lemma InitialCodeIsDead(p: Profile, answers: Answers)
    requires Fits(p, answers) && p.attempts >= 1 && p.routes != []
    ensures var (log, outcome) := Executed(Some(p), answers);
            log != [] && (outcome.RoutingError? ==> log[|log| - 1].error == Some(outcome.code))
  {
    SuccessIsLast(p, answers, 0, START);
  }

  /** Of a whole execution: it answers with a value exactly when a try it reaches from the first route succeeds with it;
      its error may be retried exactly when nothing stopped the search and some try it reached failed in a way that may
      be retried; without a profile or without routes nothing is tried and the error is final. */
  lemma ExecutesExactly(p: Profile, answers: Answers, value: string)
    requires Fits(p, answers) && p.attempts >= 1
    ensures Executed(None, answers) == ([], RoutingError("task_profile_not_configured", false))
    ensures p.routes == [] ==> Executed(Some(p), answers) == ([], RoutingError("task_profile_has_no_routes", false))
    ensures Executed(Some(p), answers).1 == Answered(value)
            <==> exists r, a :: Reached(p, answers, 0, r, a) && AnswerAt(p, answers, r, a) == Some(Succeeds(value))
    ensures Executed(Some(p), answers).1.RoutingError? && p.routes != [] ==>
              (Executed(Some(p), answers).1.retryable
               <==> && (forall r :: 0 <= r < |p.routes| ==> !RouteStops(p, answers, r))
                    && exists r, a :: Reached(p, answers, 0, r, a) && RetryableAt(p, answers, r, a))
  {
    hide Search, Reached, RouteStops, Tried;
    if p.routes == [] {
      if r: nat, a: nat :| Reached(p, answers, 0, r, a) { ReachedInside(p, answers, r, a); }
    } else {
      AnswersExactly(p, answers, 0, START, value);
      if Executed(Some(p), answers).1.RoutingError? { RetryableExactly(p, answers, 0, START); }
    }
  }

  lemma ReachedInside(p: Profile, answers: Answers, r: nat, a: nat)
    requires Fits(p, answers) && Reached(p, answers, 0, r, a)
    ensures r < |p.routes| && (p.routes[r].adapter.Ready? ==> 1 <= a <= p.attempts)
  {
  }
}
