/** Prices in force, and what a use of a model costs. */
module Charges {
  import opened Outcomes

  const MILLION := 1_000_000

  datatype Price = Price(provider: string, model: string, inputPerMillion: nat, outputPerMillion: nat,
                         audioPerMinute: nat, effectiveFrom: int)

  // ---------------------------------------------------------------- the price in force

  predicate Applies(price: Price, provider: string, model: string, at: int) {
    price.provider == provider && price.model == model && price.effectiveFrom <= at
  }

  /** _resolve_price: the latest price that applies. */
  function Resolve(prices: seq<Price>, provider: string, model: string, at: int): Option<Price> {
    if prices == [] then None
    else
      var best := Resolve(prices[..|prices| - 1], provider, model, at);
      var last := prices[|prices| - 1];
      if Applies(last, provider, model, at) && (best.None? || best.value.effectiveFrom < last.effectiveFrom)
      then Some(last) else best
  }

  predicate SameStart(a: Price, b: Price) {
    a.provider == b.provider && a.model == b.model && a.effectiveFrom == b.effectiveFrom
  }

  /** One price for a provider, model and starting time. */
  ghost predicate OnePriceEach(prices: seq<Price>) {
    forall i, j :: 0 <= i < |prices| && 0 <= j < |prices| && SameStart(prices[i], prices[j]) ==> prices[i] == prices[j]
  }

  lemma {:induction false} ResolveIsLatest(prices: seq<Price>, provider: string, model: string, at: int)
    ensures var best := Resolve(prices, provider, model, at);
            && (best.None? <==> forall i :: 0 <= i < |prices| ==> !Applies(prices[i], provider, model, at))
            && (best.Some? ==> best.value in prices && Applies(best.value, provider, model, at))
            && (best.Some? ==> forall i :: 0 <= i < |prices| && Applies(prices[i], provider, model, at)
                                           ==> prices[i].effectiveFrom <= best.value.effectiveFrom)
  {
    if prices != [] {
      var init := prices[..|prices| - 1];
      ResolveIsLatest(init, provider, model, at);
      assert forall i :: 0 <= i < |init| ==> init[i] == prices[i];
    }
  }

  /** The price in force does not depend on the order in which prices were entered. */
  lemma ResolveIgnoresOrder(a: seq<Price>, b: seq<Price>, provider: string, model: string, at: int)
    requires OnePriceEach(a) && (forall p :: p in a <==> p in b)
    ensures Resolve(a, provider, model, at) == Resolve(b, provider, model, at)
  {
    ResolveIsLatest(a, provider, model, at);
    ResolveIsLatest(b, provider, model, at);
    var x, y := Resolve(a, provider, model, at), Resolve(b, provider, model, at);
    if x.Some? {
      var i :| 0 <= i < |b| && b[i] == x.value;
      var k :| 0 <= k < |a| && a[k] == x.value;
      if y.Some? {
        var j :| 0 <= j < |a| && a[j] == y.value;
      }
    }
  }

  // ---------------------------------------------------------------- the charge

  datatype Usage = Usage(input: Option<nat>, output: Option<nat>, audioSeconds: Option<real>)

  function OrZero(tokens: Option<nat>): nat {
    if tokens.None? then 0 else tokens.value
  }

  function SecondsOrZero(seconds: Option<real>): real {
    if seconds.None? then 0.0 else seconds.value
  }

  function Ceiling(x: real): int {
    -((-x).Floor)
  }

  function CostOf(price: Price, usage: Usage): real {
    OrZero(usage.input) as real / 1_000_000.0 * price.inputPerMillion as real
    + OrZero(usage.output) as real / 1_000_000.0 * price.outputPerMillion as real
    + SecondsOrZero(usage.audioSeconds) / 60.0 * price.audioPerMinute as real
  }

  /** calculate_charge_rial, without decimal rounding. */
  function Charge(price: Price, usage: Usage): int {
    Ceiling(CostOf(price, usage))
  }

  /** What the tokens weigh, in millionths of a Rial. */
  function Weight(price: Price, usage: Usage): nat {
    OrZero(usage.input) * price.inputPerMillion + OrZero(usage.output) * price.outputPerMillion
  }

  lemma CeilingIs(x: real, n: int)
    requires (n - 1) as real < x <= n as real
    ensures Ceiling(x) == n
  {
  }

  lemma CeilingBounds(x: real)
    ensures (Ceiling(x) - 1) as real < x <= Ceiling(x) as real
  {
  }

  lemma CeilingGrows(x: real, y: real)
    requires x <= y
    ensures Ceiling(x) <= Ceiling(y)
  {
  }

  lemma CostOfTokens(price: Price, usage: Usage)
    requires SecondsOrZero(usage.audioSeconds) == 0.0
    ensures CostOf(price, usage) * 1_000_000.0 == Weight(price, usage) as real
  {
    var a, p := OrZero(usage.input) as real, price.inputPerMillion as real;
    var b, q := OrZero(usage.output) as real, price.outputPerMillion as real;
    ProductAsReal(OrZero(usage.input), price.inputPerMillion);
    ProductAsReal(OrZero(usage.output), price.outputPerMillion);
    Millionths(a, p);
    Millionths(b, q);
  }

  lemma Millionths(a: real, p: real)
    ensures a / 1_000_000.0 * p * 1_000_000.0 == a * p
  {
    var m := a / 1_000_000.0;
    assert m * 1_000_000.0 == a;
    assert m * p * 1_000_000.0 == m * 1_000_000.0 * p;
  }

  lemma {:induction false} ProductAsReal(a: nat, b: nat)
    ensures (a * b) as real == a as real * b as real
  {
    if a > 0 {
      ProductAsReal(a - 1, b);
      assert a * b == (a - 1) * b + b;
    }
  }

  /** Without audio the charge is the exact integer ceiling of (in * p_in + out * p_out) / 10^6. */
  lemma ChargeIsExactCeiling(price: Price, usage: Usage, n: int)
    requires SecondsOrZero(usage.audioSeconds) == 0.0
    ensures Charge(price, usage) == n <==> (n - 1) * MILLION < Weight(price, usage) <= n * MILLION
  {
    CostOfTokens(price, usage);
    var x := CostOf(price, usage);
    CeilingBounds(x);
    if (n - 1) * MILLION < Weight(price, usage) <= n * MILLION {
      assert (n - 1) as real * 1_000_000.0 < x * 1_000_000.0 <= n as real * 1_000_000.0;
      CeilingIs(x, n);
    }
  }

  lemma QuotientGrows(a: real, b: real, c: real, d: real, unit: real)
    requires 0.0 <= a <= c && 0.0 <= b <= d && unit > 0.0
    ensures a / unit * b <= c / unit * d
  {
    assert 0.0 <= a / unit <= c / unit;
    assert a / unit * b <= c / unit * b;
    assert c / unit * b <= c / unit * d;
  }

  /** More use or a higher price never costs less, audio included. */
  lemma ChargeIsMonotone(p: Price, q: Price, u: Usage, v: Usage)
    requires p.inputPerMillion <= q.inputPerMillion && p.outputPerMillion <= q.outputPerMillion
    requires p.audioPerMinute <= q.audioPerMinute
    requires OrZero(u.input) <= OrZero(v.input) && OrZero(u.output) <= OrZero(v.output)
    requires 0.0 <= SecondsOrZero(u.audioSeconds) <= SecondsOrZero(v.audioSeconds)
    ensures Charge(p, u) <= Charge(q, v)
  {
    QuotientGrows(OrZero(u.input) as real, p.inputPerMillion as real,
                  OrZero(v.input) as real, q.inputPerMillion as real, 1_000_000.0);
    QuotientGrows(OrZero(u.output) as real, p.outputPerMillion as real,
                  OrZero(v.output) as real, q.outputPerMillion as real, 1_000_000.0);
    QuotientGrows(SecondsOrZero(u.audioSeconds), p.audioPerMinute as real,
                  SecondsOrZero(v.audioSeconds), q.audioPerMinute as real, 60.0);
    CeilingGrows(CostOf(p, u), CostOf(q, v));
  }

  // ---------------------------------------------------------------- splitting a use into calls

  function Tokens(input: nat, output: nat): Usage {
    Usage(Some(input), Some(output), None)
  }

  function Inputs(calls: seq<(nat, nat)>): nat {
    if calls == [] then 0 else calls[0].0 + Inputs(calls[1..])
  }

  function Outputs(calls: seq<(nat, nat)>): nat {
    if calls == [] then 0 else calls[0].1 + Outputs(calls[1..])
  }

  function TotalCharge(price: Price, calls: seq<(nat, nat)>): int {
    if calls == [] then 0 else Charge(price, Tokens(calls[0].0, calls[0].1)) + TotalCharge(price, calls[1..])
  }

  lemma WeightAdds(price: Price, a: nat, b: nat, c: nat, d: nat)
    ensures Weight(price, Tokens(a + c, b + d)) == Weight(price, Tokens(a, b)) + Weight(price, Tokens(c, d))
  {
    assert (a + c) * price.inputPerMillion == a * price.inputPerMillion + c * price.inputPerMillion;
    assert (b + d) * price.outputPerMillion == b * price.outputPerMillion + d * price.outputPerMillion;
  }

  /** Splitting a use into calls never costs less, and at most one Rial more for every further call. */
  lemma {:induction false} SplittingCosts(price: Price, calls: seq<(nat, nat)>)
    requires calls != []
    ensures var whole := Charge(price, Tokens(Inputs(calls), Outputs(calls)));
            whole <= TotalCharge(price, calls) <= whole + |calls| - 1
  {
    hide Charge, Weight;
    var first := Tokens(calls[0].0, calls[0].1);
    var c := Charge(price, first);
    assert TotalCharge(price, calls) == c + TotalCharge(price, calls[1..]);
    assert Inputs(calls) == calls[0].0 + Inputs(calls[1..]) && Outputs(calls) == calls[0].1 + Outputs(calls[1..]);
    ChargeIsExactCeiling(price, first, c);
    if |calls| == 1 {
      assert calls[1..] == [];
    } else {
      SplittingCosts(price, calls[1..]);
      var rest := Tokens(Inputs(calls[1..]), Outputs(calls[1..]));
      var all := Tokens(Inputs(calls), Outputs(calls));
      WeightAdds(price, calls[0].0, calls[0].1, Inputs(calls[1..]), Outputs(calls[1..]));
      var r, w := Charge(price, rest), Charge(price, all);
      ChargeIsExactCeiling(price, rest, r);
      ChargeIsExactCeiling(price, all, w);
    }
  }

  /** Both bounds are met: at one Rial per million tokens, two tokens cost one Rial together and two apart. */
  lemma SplittingMayCostMore()
    ensures var price := Price("p", "m", 1, 0, 0, 0);
            Charge(price, Tokens(2, 0)) == 1 && TotalCharge(price, [(1, 0), (1, 0)]) == 2
  {
    var price := Price("p", "m", 1, 0, 0, 0);
    ChargeIsExactCeiling(price, Tokens(2, 0), 1);
    ChargeIsExactCeiling(price, Tokens(1, 0), 1);
    assert [(1, 0), (1, 0)][1..] == [(1, 0)];
    assert [(1, 0)][1..] == [];
  }

  lemma Sixtieths(s: real, p: real)
    ensures s / 60.0 * p * 60_000_000.0 == s * p * 1_000_000.0
  {
    var m := s / 60.0;
    assert m * 60.0 == s;
    assert m * p * 60_000_000.0 == m * 60.0 * p * 1_000_000.0;
  }

  lemma CostInSixtieths(price: Price, usage: Usage)
    ensures CostOf(price, usage) * 60_000_000.0
         == (60 * Weight(price, usage)) as real
            + SecondsOrZero(usage.audioSeconds) * price.audioPerMinute as real * 1_000_000.0
  {
    var silent := usage.(audioSeconds := None);
    CostOfTokens(price, silent);
    Sixtieths(SecondsOrZero(usage.audioSeconds), price.audioPerMinute as real);
    var audio := SecondsOrZero(usage.audioSeconds) / 60.0 * price.audioPerMinute as real;
    assert CostOf(price, usage) == CostOf(price, silent) + audio;
    assert (60 * Weight(price, usage)) as real == 60.0 * Weight(price, usage) as real;
  }

  /** With audio: the least whole number of Rial that covers the tokens, priced by the million, and the seconds, priced by
      the minute. */
  lemma ChargeCovers(price: Price, usage: Usage, n: int)
    ensures Charge(price, usage) == n
            <==> var due := (60 * Weight(price, usage)) as real
                            + SecondsOrZero(usage.audioSeconds) * price.audioPerMinute as real * 1_000_000.0;
                 (n - 1) as real * 60_000_000.0 < due <= n as real * 60_000_000.0
  {
    hide CostOf, Weight;
    CostInSixtieths(price, usage);
    var x := CostOf(price, usage);
    CeilingBounds(x);
    if (n - 1) as real * 60_000_000.0 < x * 60_000_000.0 <= n as real * 60_000_000.0 { CeilingIs(x, n); }
  }
}
