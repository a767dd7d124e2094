/** Every trace the gateway records is offered to the ledger in the same transaction. */
module GatewayBilling {
  import opened Outcomes
  import opened AiGateway
  import opened AiGatewayTheorems
  import Charges
  import Ledger

  /** The execution as billing sees it: one row for each trace, numbered from `base`. */
  datatype Call = Call(base: nat, tenant: nat, usage: Charges.Usage, at: int, prices: seq<Charges.Price>)

  function Offered(p: Profile, call: Call, trace: Trace, i: nat): Ledger.Trace {
    var route := if trace.route < |p.routes| then p.routes[trace.route] else Route("", "", Missing);
    Ledger.Trace(call.base + i, call.tenant, trace.error.None?, route.provider, route.model, call.usage, call.at)
  }

  function ChargeAll(b: Ledger.Books, p: Profile, call: Call, log: seq<Trace>): Ledger.Books {
    if log == [] then b
    else
      var n := |log| - 1;
      Ledger.RecordCharge(ChargeAll(b, p, call, log[..n]), call.prices, Offered(p, call, log[n], n)).0
  }

  lemma {:induction false} FailuresAreFree(b: Ledger.Books, p: Profile, call: Call, log: seq<Trace>)
    requires forall i :: 0 <= i < |log| ==> log[i].error.Some?
    ensures ChargeAll(b, p, call, log) == b
  {
    if log != [] { FailuresAreFree(b, p, call, log[..|log| - 1]); }
  }

  /** An execution that fails on every try costs nothing; one that answers is charged for its last trace alone, so at
      most one entry is added however many routes and attempts it took. */
  lemma OneDebitPerExecution(b: Ledger.Books, p: Profile, answers: Answers, call: Call)
    requires Fits(p, answers) && p.attempts >= 1 && p.routes != []
    ensures var (log, outcome) := Executed(Some(p), answers);
            && log != []
            && (outcome.RoutingError? ==> ChargeAll(b, p, call, log) == b)
            && (outcome.Answered? ==>
                  ChargeAll(b, p, call, log)
                  == Ledger.RecordCharge(b, call.prices, Offered(p, call, log[|log| - 1], |log| - 1)).0)
            && |ChargeAll(b, p, call, log).entries| <= |b.entries| + 1
  {
    hide Search, Charges.Resolve, Charges.Charge;
    SuccessIsLast(p, answers, 0, START);
    var (log, outcome) := Executed(Some(p), answers);
    FailuresAreFree(b, p, call, log[..|log| - 1]);
  }

  /** What is paid for is the route that answered: the debit of an answered execution is the charge, for its use, at the
      price in force for the provider and the model of the route whose reached try succeeded. */
  lemma AnsweringRouteIsCharged(b: Ledger.Books, p: Profile, answers: Answers, call: Call, value: string)
    returns (r: nat, a: nat)
    requires Fits(p, answers) && p.attempts >= 1 && Executed(Some(p), answers).1 == Answered(value) && p.routes != []
    ensures Reached(p, answers, 0, r, a) && AnswerAt(p, answers, r, a) == Some(Succeeds(value)) && r < |p.routes|
    ensures var log := Executed(Some(p), answers).0;
            log != [] && ChargeAll(b, p, call, log)
            == Ledger.RecordCharge(b, call.prices,
                                   Ledger.Trace(call.base + |log| - 1, call.tenant, true, p.routes[r].provider,
                                                p.routes[r].model, call.usage, call.at)).0
  {
    hide Search, Charges.Resolve, Charges.Charge, ChargeAll, Reached, RouteStops, Tried, Ledger.RecordCharge;
    OneDebitPerExecution(b, p, answers, call);
    SuccessIsLast(p, answers, 0, START);
    LogIsInOrder(p, answers, 0, START);
    var log := Executed(Some(p), answers).0;
    var last := log[|log| - 1];
    assert IsLogged(p, answers, 0, last);
    r, a := last.route, last.attempt;
    ReachedInside(p, answers, r, a);
    LoggedSuccess(p, answers, r, a);
    ValueIsUnique(p, answers, r, a, value);
  }

  lemma LoggedSuccess(p: Profile, answers: Answers, r: nat, a: nat)
    requires Fits(p, answers) && Reached(p, answers, 0, r, a) && r < |p.routes|
    requires p.routes[r].adapter.Ready? ==> 1 <= a <= p.attempts
    requires Expected(p, answers, r, a).error.None?
    ensures AnswerAt(p, answers, r, a).Some? && AnswerAt(p, answers, r, a).value.Succeeds?
  {
  }

  /** The reached try that succeeds is the one whose value is answered. */
  lemma ValueIsUnique(p: Profile, answers: Answers, r: nat, a: nat, value: string)
    requires Fits(p, answers) && p.attempts >= 1 && Executed(Some(p), answers).1 == Answered(value) && p.routes != []
    requires Reached(p, answers, 0, r, a) && AnswerAt(p, answers, r, a).Some? && AnswerAt(p, answers, r, a).value.Succeeds?
    ensures AnswerAt(p, answers, r, a) == Some(Succeeds(value))
  {
    hide Search, Reached, RouteStops, Tried;
    var other := AnswerAt(p, answers, r, a).value.value;
    AnswersExactly(p, answers, 0, START, other);
  }
}
