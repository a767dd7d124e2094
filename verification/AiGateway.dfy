/** The gateway's two-level fallback: routes in priority order, attempts on each route, a trace for every try. */
module AiGateway {
  import opened Outcomes

  datatype Adapter = Missing | Unsuited | Ready
  datatype Route = Route(provider: string, model: string, adapter: Adapter)
  datatype Profile = Profile(routes: seq<Route>, attempts: nat)

  /** What a try on a ready route comes to: a refusal of the billing check, or the provider's answer. */
  datatype Answer = Refused(code: string) | Fails(code: string, retryable: bool) | Succeeds(value: string)

  /** The answer to attempt a on route r stands at [r][a - 1]. */
  type Answers = seq<seq<Answer>>

  datatype Trace = Trace(route: nat, attempt: nat, error: Option<string>)
  datatype Outcome = Answered(value: string) | RoutingError(code: string, retryable: bool)

  predicate Fits(p: Profile, answers: Answers) {
    |answers| == |p.routes| && forall r :: 0 <= r < |answers| ==> |answers[r]| == p.attempts
  }

  // ---------------------------------------------------------------- the search

  /** What the loop carries: the last error code, and whether any provider failure was retryable. */
  datatype Memo = Memo(code: string, retryable: bool)

  /** What a part of the search adds: traces, and either the end of it or what is carried on. */
  datatype Visit = Visit(traces: seq<Trace>, end: Option<Outcome>, memo: Memo)

  function TraceOf(route: nat, attempt: nat, answer: Answer): Trace {
    Trace(route, attempt, if answer.Succeeds? then None else Some(answer.code))
  }

  /** The attempts from `attempt` on, on a ready route. */
  function Attempts(route: nat, answers: seq<Answer>, attempt: nat, memo: Memo): Visit
    requires attempt >= 1
    decreases |answers| + 1 - attempt
  {
    if attempt > |answers| then Visit([], None, memo)
    else
      var answer := answers[attempt - 1];
      var here := [TraceOf(route, attempt, answer)];
      match answer
      case Refused(code) => Visit(here, Some(RoutingError(code, false)), memo)
      case Succeeds(value) => Visit(here, Some(Answered(value)), memo)
      case Fails(code, retryable) =>
        var next := Memo(code, memo.retryable || retryable);
        if retryable && attempt < |answers| then
          var rest := Attempts(route, answers, attempt + 1, next);
          rest.(traces := here + rest.traces)
        else Visit(here, None, next)
  }

  function VisitRoute(p: Profile, answers: Answers, route: nat, memo: Memo): Visit
    requires Fits(p, answers) && route < |p.routes|
  {
    match p.routes[route].adapter
    case Missing => Visit([Trace(route, 1, Some("provider_unavailable"))], None, memo.(code := "provider_unavailable"))
    case Unsuited =>
      Visit([Trace(route, 1, Some("provider_capability_unavailable"))], None,
            memo.(code := "provider_capability_unavailable"))
    case Ready => Attempts(route, answers[route], 1, memo)
  }

  function Search(p: Profile, answers: Answers, route: nat, memo: Memo): (seq<Trace>, Outcome)
    requires Fits(p, answers) && route <= |p.routes|
    decreases |p.routes| - route
  {
    if route == |p.routes| then ([], RoutingError(memo.code, memo.retryable))
    else
      var visit := VisitRoute(p, answers, route, memo);
      if visit.end.Some? then (visit.traces, visit.end.value)
      else
        var (traces, outcome) := Search(p, answers, route + 1, visit.memo);
        (visit.traces + traces, outcome)
  }

  lemma SearchStep(p: Profile, answers: Answers, route: nat, memo: Memo)
    requires Fits(p, answers) && route <= |p.routes|
    ensures route == |p.routes| ==> Search(p, answers, route, memo) == ([], RoutingError(memo.code, memo.retryable))
    ensures route < |p.routes| ==>
              var visit := VisitRoute(p, answers, route, memo);
              var rest := Search(p, answers, route + 1, visit.memo);
              Search(p, answers, route, memo)
              == if visit.end.Some? then (visit.traces, visit.end.value) else (visit.traces + rest.0, rest.1)
  {
  }

  const START := Memo("all_routes_failed", false)

  /** One execution: what it appends to the trace log and what it answers. */
  function Executed(profile: Option<Profile>, answers: Answers): (seq<Trace>, Outcome)
    requires profile.Some? ==> Fits(profile.value, answers)
  {
    if profile.None? then ([], RoutingError("task_profile_not_configured", false))
    else if profile.value.routes == [] then ([], RoutingError("task_profile_has_no_routes", false))
    else Search(profile.value, answers, 0, START)
  }

  class Gateway {
    var traces: seq<Trace>

    /** AIGateway._execute. */
    method Execute(profile: Option<Profile>, answers: Answers) returns (r: Outcome)
      requires profile.Some? ==> Fits(profile.value, answers)
      modifies this
      ensures traces == old(traces) + Executed(profile, answers).0 && r == Executed(profile, answers).1
    {
      hide Search;
      if profile.None? { return RoutingError("task_profile_not_configured", false); }
      var p := profile.value;
      if p.routes == [] { return RoutingError("task_profile_has_no_routes", false); }
      var lastErrorCode := "all_routes_failed";
      var anyRetryableFailure := false;
      ghost var goal := Search(p, answers, 0, START);
      for route := 0 to |p.routes|
        invariant old(traces) + goal.0
               == traces + Search(p, answers, route, Memo(lastErrorCode, anyRetryableFailure)).0
        invariant goal.1 == Search(p, answers, route, Memo(lastErrorCode, anyRetryableFailure)).1
      {
        ghost var memo := Memo(lastErrorCode, anyRetryableFailure);
        SearchStep(p, answers, route, memo);
        ghost var visit := VisitRoute(p, answers, route, memo);
        Regroup(traces, visit.traces, Search(p, answers, route + 1, visit.memo).0);
        if p.routes[route].adapter.Missing? {
          lastErrorCode := "provider_unavailable";
          traces := traces + [Trace(route, 1, Some(lastErrorCode))];
          continue;
        }
        if p.routes[route].adapter.Unsuited? {
          lastErrorCode := "provider_capability_unavailable";
          traces := traces + [Trace(route, 1, Some(lastErrorCode))];
          continue;
        }
        ghost var before := traces;
        for attempt := 1 to p.attempts + 1
          invariant Inside(route, answers[route], attempt, Memo(lastErrorCode, anyRetryableFailure), visit, before, traces)
        {
          match answers[route][attempt - 1] {
            case Refused(code) =>
              traces := traces + [Trace(route, attempt, Some(code))];
              return RoutingError(code, false);
            case Fails(code, retryable) =>
              lastErrorCode := code;
              anyRetryableFailure := anyRetryableFailure || retryable;
              traces := traces + [Trace(route, attempt, Some(code))];
              if !(retryable && attempt < p.attempts) {
                break;
              }
            case Succeeds(value) =>
              traces := traces + [Trace(route, attempt, None)];
              return Answered(value);
          }
        }
      }
      SearchStep(p, answers, |p.routes|, Memo(lastErrorCode, anyRetryableFailure));
      return RoutingError(lastErrorCode, anyRetryableFailure);
    }
  }

  lemma Regroup(a: seq<Trace>, b: seq<Trace>, c: seq<Trace>)
    ensures a + (b + c) == (a + b) + c
  {
  }

  /** Where the attempt loop stands: what is written so far and what is still to come make up the route's visit. */
  ghost predicate Inside(route: nat, answers: seq<Answer>, attempt: nat, memo: Memo, visit: Visit,
                         before: seq<Trace>, traces: seq<Trace>)
    requires attempt >= 1
  {
    var rest := Attempts(route, answers, attempt, memo);
    before + visit.traces == traces + rest.traces && visit.end == rest.end && visit.memo == rest.memo
  }
}
