/** The business wallet and its append-only ledger: credits by the owner, debits charged from execution traces. */
module Ledger {
  import opened Outcomes
  import opened Charges

  type Id = nat

  /** A row of ai_execution_traces, as far as billing reads it. */
  datatype Trace = Trace(id: Id, tenant: Id, succeeded: bool, provider: string, model: string, usage: Usage, at: int)

  datatype Kind = Credit | Debit(trace: Id)
  datatype Entry = Entry(tenant: Id, kind: Kind, amount: int, balanceAfter: int)

  datatype Books = Books(wallets: map<Id, int>, entries: seq<Entry>)

  // ---------------------------------------------------------------- the operations

  /** get_business_wallet creates the wallet it does not find. */
  function Open(b: Books, tenant: Id): Books {
    if tenant in b.wallets then b else b.(wallets := b.wallets[tenant := 0])
  }

  /** credit_business_wallet. */
  function CreditWallet(b: Books, tenant: Id, amount: int): Books {
    var balance := (if tenant in b.wallets then b.wallets[tenant] else 0) + amount;
    Books(b.wallets[tenant := balance], b.entries + [Entry(tenant, Credit, amount, balance)])
  }

  predicate IsCharged(entries: seq<Entry>, trace: Id) {
    if entries == [] then false
    else entries[|entries| - 1].kind == Debit(trace) || IsCharged(entries[..|entries| - 1], trace)
  }

  function RecordCharge(b: Books, prices: seq<Price>, trace: Trace): (Books, Result<Option<int>>) {
    var price := Resolve(prices, trace.provider, trace.model, trace.at);
    if !trace.succeeded || IsCharged(b.entries, trace.id) || price.None? then (b, Ok(None))
    else if trace.tenant !in b.wallets then (b, Err("business_wallet_missing"))
    else
      var amount := Charge(price.value, trace.usage);
      var balance := b.wallets[trace.tenant] - amount;
      (Books(b.wallets[trace.tenant := balance],
             b.entries + [Entry(trace.tenant, Debit(trace.id), amount, balance)]), Ok(Some(amount)))
  }

  /** ensure_can_execute, before a provider is called: the error, if any. */
  function Refusal(b: Books, prices: seq<Price>, tenant: Id, provider: string, model: string, now: int, requirePrice: bool)
    : Option<string>
  {
    if Resolve(prices, provider, model, now).None? then
      if requirePrice then Some("model_pricing_not_configured") else None
    else if tenant !in b.wallets || b.wallets[tenant] <= 0 then Some("insufficient_business_balance")
    else None
  }

  class BillingTables {
    var wallets: map<Id, int>
    var entries: seq<Entry>

    ghost function Contents(): Books
      reads this
    {
      Books(wallets, entries)
    }

    method GetBusinessWallet(tenant: Id) returns (balance: int)
      modifies this
      ensures Contents() == Open(old(Contents()), tenant) && tenant in wallets && balance == wallets[tenant]
    {
      if tenant !in wallets { wallets := wallets[tenant := 0]; }
      return wallets[tenant];
    }

    method CreditBusinessWallet(tenant: Id, amount: int)
      modifies this
      ensures Contents() == CreditWallet(old(Contents()), tenant, amount)
    {
      if tenant !in wallets { wallets := wallets[tenant := 0]; }
      wallets := wallets[tenant := wallets[tenant] + amount];
      entries := entries + [Entry(tenant, Credit, amount, wallets[tenant])];
    }

    method EnsureCanExecute(prices: seq<Price>, tenant: Id, provider: string, model: string, now: int, requirePrice: bool)
      returns (refusal: Option<string>)
      ensures refusal == Refusal(Contents(), prices, tenant, provider, model, now, requirePrice)
    {
      var price := Resolve(prices, provider, model, now);
      if price.None? {
        if requirePrice { return Some("model_pricing_not_configured"); }
        return None;
      }
      if tenant !in wallets || wallets[tenant] <= 0 { return Some("insufficient_business_balance"); }
      return None;
    }

    method RecordTraceCharge(prices: seq<Price>, trace: Trace) returns (r: Result<Option<int>>)
      modifies this
      ensures (Contents(), r) == RecordCharge(old(Contents()), prices, trace)
    {
      if !trace.succeeded { return Ok(None); }
      if IsCharged(entries, trace.id) { return Ok(None); }
      var price := Resolve(prices, trace.provider, trace.model, trace.at);
      if price.None? { return Ok(None); }
      if trace.tenant !in wallets { return Err("business_wallet_missing"); }
      var amount := Charge(price.value, trace.usage);
      wallets := wallets[trace.tenant := wallets[trace.tenant] - amount];
      entries := entries + [Entry(trace.tenant, Debit(trace.id), amount, wallets[trace.tenant])];
      return Ok(Some(amount));
    }
  }

  // ---------------------------------------------------------------- histories

  /** Any interleaving: each step runs under the lock of its wallet. A price list goes with every charge, since prices
      are added over time. */
  datatype Step = OpenWallet(tenant: Id) | AddCredit(tenant: Id, amount: int) | ChargeFor(prices: seq<Price>, trace: Trace)

  function Apply(b: Books, step: Step): Books {
    match step
    case OpenWallet(tenant) => Open(b, tenant)
    case AddCredit(tenant, amount) => CreditWallet(b, tenant, amount)
    case ChargeFor(prices, trace) => RecordCharge(b, prices, trace).0
  }

  const EMPTY := Books(map[], [])

  function History(steps: seq<Step>): Books {
    if steps == [] then EMPTY else Apply(History(steps[..|steps| - 1]), steps[|steps| - 1])
  }

  /** Credits less debits of one tenant. */
  function Net(entries: seq<Entry>, tenant: Id): int {
    if entries == [] then 0
    else
      var last := entries[|entries| - 1];
      Net(entries[..|entries| - 1], tenant)
      + if last.tenant != tenant then 0 else if last.kind.Credit? then last.amount else -last.amount
  }

  ghost predicate Inv(b: Books) {
    && (forall t: Id :: (if t in b.wallets then b.wallets[t] else 0) == Net(b.entries, t))
    && (forall i :: 0 <= i < |b.entries| ==> b.entries[i].balanceAfter == Net(b.entries[..i + 1], b.entries[i].tenant))
    && (forall i, j :: 0 <= i < j < |b.entries| && b.entries[i].kind.Debit? ==> b.entries[i].kind != b.entries[j].kind)
  }

  lemma {:induction false} ChargedIs(entries: seq<Entry>, trace: Id)
    ensures IsCharged(entries, trace) <==> exists i :: 0 <= i < |entries| && entries[i].kind == Debit(trace)
  {
    if entries != [] {
      ChargedIs(entries[..|entries| - 1], trace);
    }
  }

  lemma NetOfMore(entries: seq<Entry>, e: Entry, tenant: Id)
    ensures Net(entries + [e], tenant)
         == Net(entries, tenant) + if e.tenant != tenant then 0 else if e.kind.Credit? then e.amount else -e.amount
  {
    assert (entries + [e])[..|entries|] == entries;
  }

  /** One more entry that moves its wallet by what it says. */
  lemma AppendKeeps(b: Books, e: Entry)
    requires Inv(b)
    requires e.balanceAfter == Net(b.entries, e.tenant) + if e.kind.Credit? then e.amount else -e.amount
    requires forall i :: 0 <= i < |b.entries| && b.entries[i].kind.Debit? ==> b.entries[i].kind != e.kind
    ensures Inv(Books(b.wallets[e.tenant := e.balanceAfter], b.entries + [e]))
  {
    hide Net;
    var more, wallets := b.entries + [e], b.wallets[e.tenant := e.balanceAfter];
    forall t: Id ensures (if t in wallets then wallets[t] else 0) == Net(more, t) {
      NetOfMore(b.entries, e, t);
      assert (if t in b.wallets then b.wallets[t] else 0) == Net(b.entries, t);
    }
    forall i | 0 <= i < |more| ensures more[i].balanceAfter == Net(more[..i + 1], more[i].tenant) {
      if i < |b.entries| {
        assert more[..i + 1] == b.entries[..i + 1];
      } else {
        NetOfMore(b.entries, e, e.tenant);
        assert more[..i + 1] == more;
      }
    }
  }

  lemma ApplyKeeps(b: Books, step: Step)
    requires Inv(b)
    ensures Inv(Apply(b, step))
  {
    hide Charge, Resolve, Net, IsCharged;
    match step {
      case OpenWallet(tenant) =>
        assert Apply(b, step).entries == b.entries;
        forall t: Id ensures (if t in Open(b, tenant).wallets then Open(b, tenant).wallets[t] else 0) == Net(b.entries, t) {
          assert (if t in b.wallets then b.wallets[t] else 0) == Net(b.entries, t);
        }
      case AddCredit(tenant, amount) =>
        AppendKeeps(b, CreditWallet(b, tenant, amount).entries[|b.entries|]);
      case ChargeFor(prices, trace) =>
        var (after, r) := RecordCharge(b, prices, trace);
        ChargedIs(b.entries, trace.id);
        if r.Ok? && r.value.Some? { AppendKeeps(b, after.entries[|b.entries|]); }
    }
  }

  /** Conservation: under any interleaving every balance is credits less debits, every balance_after is the running
      sum of its tenant, and no trace is debited twice. */
  lemma {:induction false} HistoryKeeps(steps: seq<Step>)
    ensures Inv(History(steps))
  {
    hide Apply, Inv;
    if steps == [] {
      EmptyBooks();
    } else {
      HistoryKeeps(steps[..|steps| - 1]);
      ApplyKeeps(History(steps[..|steps| - 1]), steps[|steps| - 1]);
    }
  }

  lemma EmptyBooks()
    ensures Inv(EMPTY)
  {
  }

  /** The ledger is append-only. */
  lemma {:induction false} EntriesStay(steps: seq<Step>, k: nat)
    requires k <= |steps|
    ensures History(steps[..k]).entries <= History(steps).entries
  {
    hide Charge, Resolve;
    if k < |steps| {
      EntriesStay(steps[..|steps| - 1], k);
      assert steps[..|steps| - 1][..k] == steps[..k];
    } else {
      assert steps[..k] == steps;
    }
  }

  /** A debit is what a step charged: a succeeded trace of that tenant, at the price in force when it was made. */
  ghost predicate Causes(step: Step, e: Entry) {
    && step.ChargeFor? && e.kind == Debit(step.trace.id) && e.tenant == step.trace.tenant && step.trace.succeeded
    && var price := Resolve(step.prices, step.trace.provider, step.trace.model, step.trace.at);
       price.Some? && e.amount == Charge(price.value, step.trace.usage)
  }

  /** Failed traces are never debited: every debit has a succeeded trace and a price behind it. */
  lemma {:induction false} DebitHasCause(steps: seq<Step>, i: nat)
    requires i < |History(steps).entries| && History(steps).entries[i].kind.Debit?
    ensures exists k :: 0 <= k < |steps| && Causes(steps[k], History(steps).entries[i])
  {
    hide Charge, Resolve, IsCharged;
    var n := |steps| - 1;
    var before := History(steps[..n]);
    var e := History(steps).entries[i];
    if i < |before.entries| {
      assert before.entries[i] == e;
      DebitHasCause(steps[..n], i);
      var k :| 0 <= k < n && Causes(steps[..n][k], e);
      assert Causes(steps[k], e);
    } else {
      assert Causes(steps[n], e);
    }
  }

  /** Charging a trace again, at any later time, changes nothing. */
  lemma ChargedOnce(steps: seq<Step>, prices: seq<Price>, trace: Trace, more: seq<Step>, again: seq<Price>)
    requires RecordCharge(History(steps), prices, trace).1.Ok? && RecordCharge(History(steps), prices, trace).1.value.Some?
    ensures var later := History(steps + [ChargeFor(prices, trace)] + more);
            RecordCharge(later, again, trace) == (later, Ok(None))
  {
    hide Charge, Resolve, IsCharged;
    var all := steps + [ChargeFor(prices, trace)] + more;
    var k := |steps| + 1;
    assert all[..k] == steps + [ChargeFor(prices, trace)];
    assert all[..k][..|steps|] == steps;
    EntriesStay(all, k);
    var i := |History(steps).entries|;
    assert History(all[..k]).entries[i].kind == Debit(trace.id);
    assert History(all).entries[i].kind == Debit(trace.id);
    ChargedIs(History(all).entries, trace.id);
  }

  // ---------------------------------------------------------------- balances below zero

  /** A charge that debits. */
  predicate Debits(b: Books, prices: seq<Price>, trace: Trace) {
    var r := RecordCharge(b, prices, trace).1;
    r.Ok? && r.value.Some?
  }

  /** A debit leaves a negative balance exactly when it exceeds the balance it meets. */
  lemma NegativeExactly(b: Books, prices: seq<Price>, trace: Trace)
    requires Debits(b, prices, trace)
    ensures var price := Resolve(prices, trace.provider, trace.model, trace.at);
            var after := RecordCharge(b, prices, trace).0;
            && price.Some? && trace.tenant in b.wallets && trace.tenant in after.wallets
            && (after.wallets[trace.tenant] < 0 <==> b.wallets[trace.tenant] < Charge(price.value, trace.usage))
            && forall t :: t in b.wallets && t != trace.tenant ==> t in after.wallets && after.wallets[t] == b.wallets[t]
  {
    hide Charge, Resolve, IsCharged;
  }

  /** What the check before the call is worth: the balance was positive, so the debt after one charge stays below its
      amount; it is a debt exactly when the charge exceeds the balance. */
  lemma CheckedCallOwesLess(b: Books, prices: seq<Price>, trace: Trace, requirePrice: bool)
    requires Refusal(b, prices, trace.tenant, trace.provider, trace.model, trace.at, requirePrice).None?
    requires Debits(b, prices, trace)
    ensures var amount := Charge(Resolve(prices, trace.provider, trace.model, trace.at).value, trace.usage);
            var after := RecordCharge(b, prices, trace).0.wallets[trace.tenant];
            && b.wallets[trace.tenant] > 0 && -amount < after
            && (after < 0 <==> b.wallets[trace.tenant] < amount)
  {
    hide Charge, Resolve, IsCharged;
    NegativeExactly(b, prices, trace);
  }

  ghost predicate NonNegative(b: Books) {
    forall t :: t in b.wallets ==> b.wallets[t] >= 0
  }

  /** A debit of more than the balance it meets. */
  predicate Overdraws(b: Books, step: Step) {
    && step.ChargeFor? && Debits(b, step.prices, step.trace)
    && step.trace.tenant in b.wallets
    && b.wallets[step.trace.tenant] < RecordCharge(b, step.prices, step.trace).1.value.value
  }

  lemma StepNonNegative(b: Books, step: Step)
    requires NonNegative(b) && (step.AddCredit? ==> step.amount > 0)
    ensures NonNegative(Apply(b, step)) <==> !Overdraws(b, step)
  {
    hide Charge, Resolve, IsCharged;
    if step.ChargeFor? && Debits(b, step.prices, step.trace) { NegativeExactly(b, step.prices, step.trace); }
  }

  ghost predicate AlwaysNonNegative(steps: seq<Step>) {
    forall k :: 0 <= k <= |steps| ==> NonNegative(History(steps[..k]))
  }

  ghost predicate NeverOverdrawn(steps: seq<Step>) {
    forall k :: 0 <= k < |steps| ==> !Overdraws(History(steps[..k]), steps[k])
  }

  lemma {:induction false} NonNegativeUpTo(steps: seq<Step>, k: nat)
    requires k <= |steps| && NeverOverdrawn(steps)
    requires forall i :: 0 <= i < |steps| && steps[i].AddCredit? ==> steps[i].amount > 0
    ensures NonNegative(History(steps[..k]))
  {
    hide Apply, Overdraws;
    if k > 0 {
      NonNegativeUpTo(steps, k - 1);
      assert steps[..k][..k - 1] == steps[..k - 1];
      StepNonNegative(History(steps[..k - 1]), steps[k - 1]);
    }
  }

  /** Over any history of positive credits, no balance is ever negative exactly when no debit exceeds the balance it
      meets. */
  lemma NonNegativeExactly(steps: seq<Step>)
    requires forall i :: 0 <= i < |steps| && steps[i].AddCredit? ==> steps[i].amount > 0
    ensures AlwaysNonNegative(steps) <==> NeverOverdrawn(steps)
  {
    hide Apply, Overdraws, NonNegative;
    if AlwaysNonNegative(steps) {
      forall k | 0 <= k < |steps| ensures !Overdraws(History(steps[..k]), steps[k]) {
        assert steps[..k + 1][..k] == steps[..k];
        assert NonNegative(History(steps[..k])) && NonNegative(History(steps[..k + 1]));
        StepNonNegative(History(steps[..k]), steps[k]);
      }
    }
    if NeverOverdrawn(steps) {
      forall k | 0 <= k <= |steps| ensures NonNegative(History(steps[..k])) { NonNegativeUpTo(steps, k); }
    }
  }

  /** The check lets such a debit through: it passes on any positive balance, whatever the call will cost. */
  lemma MayGoNegative(trace: Trace, price: Price, credit: int, requirePrice: bool)
    requires trace.succeeded && Resolve([price], trace.provider, trace.model, trace.at) == Some(price)
    requires 0 < credit < Charge(price, trace.usage)
    ensures var before := History([AddCredit(trace.tenant, credit)]);
            Refusal(before, [price], trace.tenant, trace.provider, trace.model, trace.at, requirePrice).None?
    ensures var after := History([AddCredit(trace.tenant, credit), ChargeFor([price], trace)]);
            trace.tenant in after.wallets && after.wallets[trace.tenant] < 0
  {
    hide Charge, Resolve, Apply, IsCharged;
    HistoryMore([], AddCredit(trace.tenant, credit));
    HistoryMore([AddCredit(trace.tenant, credit)], ChargeFor([price], trace));
    assert [] + [AddCredit(trace.tenant, credit)] == [AddCredit(trace.tenant, credit)];
    assert [AddCredit(trace.tenant, credit)] + [ChargeFor([price], trace)]
        == [AddCredit(trace.tenant, credit), ChargeFor([price], trace)];
    CreditedOnce(trace.tenant, credit);
    ChargedAfterCredit(trace, price, credit);
  }

  lemma HistoryMore(steps: seq<Step>, step: Step)
    ensures History(steps + [step]) == Apply(History(steps), step)
    ensures History([]) == EMPTY
  {
    assert (steps + [step])[..|steps|] == steps;
  }

  lemma CreditedOnce(tenant: Id, credit: int)
    ensures Apply(EMPTY, AddCredit(tenant, credit))
         == Books(map[tenant := credit], [Entry(tenant, Credit, credit, credit)])
  {
  }

  lemma CreditIsNoCharge(credit: Entry, trace: Id)
    requires credit.kind.Credit?
    ensures !IsCharged([credit], trace)
  {
    assert [credit][..0] == [];
  }

  lemma ChargedAfterCredit(trace: Trace, price: Price, credit: int)
    requires trace.succeeded && Resolve([price], trace.provider, trace.model, trace.at) == Some(price)
    ensures var paid := Books(map[trace.tenant := credit], [Entry(trace.tenant, Credit, credit, credit)]);
            var after := Apply(paid, ChargeFor([price], trace));
            trace.tenant in after.wallets && after.wallets[trace.tenant] == credit - Charge(price, trace.usage)
  {
    hide Charge, Resolve, IsCharged;
    CreditIsNoCharge(Entry(trace.tenant, Credit, credit, credit), trace.id);
  }

  // ---------------------------------------------------------------- when a debit must be made

  /** Some price of the model had started by then. */
  ghost predicate HasPrice(prices: seq<Price>, provider: string, model: string, at: int) {
    exists i :: 0 <= i < |prices| && prices[i].provider == provider && prices[i].model == model && prices[i].effectiveFrom <= at
  }

  /** The trace has to be paid for, and its wallet is there. */
  ghost predicate IsDue(b: Books, prices: seq<Price>, trace: Trace) {
    && trace.succeeded && (forall i :: 0 <= i < |b.entries| ==> b.entries[i].kind != Debit(trace.id))
    && HasPrice(prices, trace.provider, trace.model, trace.at)
  }

  /** A trace is debited exactly when it succeeded, was not debited before, has a price in force and its tenant a wallet:
      one entry more, of the charge at that price, and the wallet less by as much. Without the wallet it is an error, and
      in every other case nothing happens. */
  lemma DebitsExactly(b: Books, prices: seq<Price>, trace: Trace)
    ensures Debits(b, prices, trace) <==> IsDue(b, prices, trace) && trace.tenant in b.wallets
    ensures IsDue(b, prices, trace) && trace.tenant in b.wallets ==>
              var amount := Charge(Resolve(prices, trace.provider, trace.model, trace.at).value, trace.usage);
              var balance := b.wallets[trace.tenant] - amount;
              RecordCharge(b, prices, trace)
              == (Books(b.wallets[trace.tenant := balance],
                        b.entries + [Entry(trace.tenant, Debit(trace.id), amount, balance)]), Ok(Some(amount)))
    ensures IsDue(b, prices, trace) && trace.tenant !in b.wallets ==>
              RecordCharge(b, prices, trace) == (b, Err("business_wallet_missing"))
    ensures !IsDue(b, prices, trace) ==> RecordCharge(b, prices, trace) == (b, Ok(None))
  {
    hide Charge, Resolve, IsCharged;
    ChargedIs(b.entries, trace.id);
    ResolveIsLatest(prices, trace.provider, trace.model, trace.at);
  }

  lemma DueHasPrice(b: Books, prices: seq<Price>, trace: Trace)
    requires IsDue(b, prices, trace)
    ensures Resolve(prices, trace.provider, trace.model, trace.at).Some?
  {
    hide Resolve;
    ResolveIsLatest(prices, trace.provider, trace.model, trace.at);
  }

  /** Exactly one debit, with the charge in force, stands in the ledger after a due trace is charged, however often it is
      charged again and whatever else happens. */
  lemma {:induction false} DueIsPaidOnce(steps: seq<Step>, prices: seq<Price>, trace: Trace, more: seq<Step>)
    requires IsDue(History(steps), prices, trace) && trace.tenant in History(steps).wallets
    ensures var entries := History(steps + [ChargeFor(prices, trace)] + more).entries;
            var i := |History(steps).entries|;
            && Resolve(prices, trace.provider, trace.model, trace.at).Some?
            && i < |entries| && entries[i].tenant == trace.tenant && entries[i].kind == Debit(trace.id)
            && entries[i].amount == Charge(Resolve(prices, trace.provider, trace.model, trace.at).value, trace.usage)
            && forall j :: 0 <= j < |entries| && entries[j].kind == Debit(trace.id) ==> j == i
  {
    hide Charge, Resolve, IsDue, RecordCharge;
    var all := steps + [ChargeFor(prices, trace)] + more;
    var k := |steps| + 1;
    assert all[..k] == steps + [ChargeFor(prices, trace)];
    HistoryMore(steps, ChargeFor(prices, trace));
    DueHasPrice(History(steps), prices, trace);
    DebitsExactly(History(steps), prices, trace);
    EntriesStay(all, k);
    HistoryKeeps(all);
    var i := |History(steps).entries|;
    assert History(all[..k]).entries[i] == History(all).entries[i];
  }

  /** A call is let through exactly when the tenant has a positive balance, or there is no price and none is required. */
  lemma LetThroughExactly(b: Books, prices: seq<Price>, tenant: Id, provider: string, model: string, now: int, requirePrice: bool)
    ensures Refusal(b, prices, tenant, provider, model, now, requirePrice).None?
            <==> if HasPrice(prices, provider, model, now)
                 then tenant in b.wallets && b.wallets[tenant] > 0 else !requirePrice
  {
    hide Resolve;
    ResolveIsLatest(prices, provider, model, now);
  }
}
