/** Charging model calls to a mission's token budget (app/resources.py).  Money is counted in units of
    1e-8 USD; what the code rounds is rounded here to a whole unit, ties to even. */
module Budget {
  import opened Base
  import opened Runtimes

  const UNITS_PER_USD: real := 100000000.0
  const MILLION: real := 1000000.0

  function Round(x: real): int {
    var f := x.Floor;
    var d := x - f as real;
    if d < 0.5 then f else if d > 0.5 then f + 1 else if f % 2 == 0 then f else f + 1
  }

  lemma RoundIsNear(x: real)
    ensures x - 0.5 <= Round(x) as real <= x + 0.5
    ensures x >= 0.0 ==> Round(x) >= 0
    ensures (Round(x) as real == x - 0.5 || Round(x) as real == x + 0.5) ==> Round(x) % 2 == 0
  {
  }

  lemma RoundIsMonotone(x: real, y: real)
    requires x <= y
    ensures Round(x) <= Round(y)
  {
  }

  datatype Usage = Usage(input: nat, output: nat, reasoning: nat)

  datatype Prices = Prices(input: real, output: real, reasoning: Option<real>)

  function ReasoningRate(p: Prices): real {
    if p.reasoning.None? then p.output else p.reasoning.value
  }

  /** The exact cost in units, before rounding. */
  function ExactCost(u: Usage, p: Prices, markup: real): real {
    (u.input as real * p.input + u.output as real * p.output + u.reasoning as real * ReasoningRate(p))
    / MILLION * (if markup <= 0.0 then 1.25 else markup) * UNITS_PER_USD
  }

  predicate Priced(p: Prices) {
    p.input >= 0.0 && p.output >= 0.0 && ReasoningRate(p) >= 0.0
  }

  lemma Product(a: real, b: real)
    requires a >= 0.0 && b >= 0.0
    ensures a * b >= 0.0
  {
  }

  lemma ExactCostNotNegative(u: Usage, p: Prices, markup: real)
    requires Priced(p)
    ensures ExactCost(u, p, markup) >= 0.0
  {
    Product(u.input as real, p.input);
    Product(u.output as real, p.output);
    Product(u.reasoning as real, ReasoningRate(p));
    var raw := (u.input as real * p.input + u.output as real * p.output + u.reasoning as real * ReasoningRate(p))
               / MILLION;
    Product(raw, if markup <= 0.0 then 1.25 else markup);
  }

  /** What an operator has configured; a default price may be missing. */
  datatype Settings = Settings(defaultBudget: real, hardCap: real, defaultInput: Option<real>,
                               defaultOutput: Option<real>, markup: real, warningFraction: real, failOnUnknown: bool)

  predicate Sane(s: Settings) {
    && s.hardCap > 0.0 && 0.0 < s.warningFraction < 1.0
    && (s.defaultInput.Some? ==> s.defaultInput.value >= 0.0)
    && (s.defaultOutput.Some? ==> s.defaultOutput.value >= 0.0)
  }

  /** One completed model call as reported: its usage and the listed prices, if any. */
  datatype ModelCall = ModelCall(usage: Usage, listedInput: Option<real>, listedOutput: Option<real>)

  predicate Honest(c: ModelCall) {
    (c.listedInput.Some? ==> c.listedInput.value >= 0.0) && (c.listedOutput.Some? ==> c.listedOutput.value >= 0.0)
  }

  /** Listed prices, filled up with the defaults; None when a price stays unknown. */
  function ResolvePrices(s: Settings, c: ModelCall): (p: Option<Prices>)
    ensures p.Some? && Sane(s) && Honest(c) ==> Priced(p.value)
    ensures p.Some? ==> && Some(p.value.input) == (if c.listedInput.Some? then c.listedInput else s.defaultInput)
                        && Some(p.value.output) == (if c.listedOutput.Some? then c.listedOutput else s.defaultOutput)
                        && p.value.reasoning == None
    ensures p.None? <==> (c.listedInput.None? || c.listedOutput.None?)
                         && (s.defaultInput.None? || s.defaultOutput.None?)
  {
    if c.listedInput.Some? && c.listedOutput.Some? then Some(Prices(c.listedInput.value, c.listedOutput.value, None))
    else if s.defaultInput.None? || s.defaultOutput.None? then None
    else Some(Prices(if c.listedInput.Some? then c.listedInput.value else s.defaultInput.value,
                     if c.listedOutput.Some? then c.listedOutput.value else s.defaultOutput.value, None))
  }

  /** The exact cost of a call, or None when it cannot be known. */
  function CostOf(s: Settings, c: ModelCall): Option<real> {
    var p := ResolvePrices(s, c);
    if p.None? then None else Some(ExactCost(c.usage, p.value, s.markup))
  }

  /** Both prices of a call are listed, or both have a default. */
  predicate PricesKnown(s: Settings, c: ModelCall) {
    (c.listedInput.Some? && c.listedOutput.Some?) || (s.defaultInput.Some? && s.defaultOutput.Some?)
  }

  /** What the tokens cost: the listed or default price of each, marked up.  Prices are in dollars for a million
      tokens and costs in units of 1e-8 dollars, hence the factor of 100. */
  ghost function Fee(s: Settings, c: ModelCall): real
    requires PricesKnown(s, c)
  {
    var inPrice := if c.listedInput.Some? then c.listedInput.value else s.defaultInput.value;
    var outPrice := if c.listedOutput.Some? then c.listedOutput.value else s.defaultOutput.value;
    var dollars := c.usage.input as real * inPrice + (c.usage.output + c.usage.reasoning) as real * outPrice;
    dollars * (if s.markup > 0.0 then s.markup else 1.25) * 100.0
  }

  /** The cost the code works out, through dollars for each million, is that fee. */
  lemma CostIsFee(s: Settings, c: ModelCall)
    ensures CostOf(s, c).Some? <==> PricesKnown(s, c)
    ensures PricesKnown(s, c) ==> CostOf(s, c).value == Fee(s, c)
  {
    if PricesKnown(s, c) {
      var p := ResolvePrices(s, c).value;
      var m := if s.markup <= 0.0 then 1.25 else s.markup;
      SplitTokens(c.usage, p.output);
      var raw := c.usage.input as real * p.input + c.usage.output as real * p.output
                 + c.usage.reasoning as real * ReasoningRate(p);
      PerMillion(raw, m);
    }
  }

  lemma SplitTokens(u: Usage, rate: real)
    ensures (u.output + u.reasoning) as real * rate == u.output as real * rate + u.reasoning as real * rate
  {
  }

  lemma PerMillion(raw: real, m: real)
    ensures raw / MILLION * m * UNITS_PER_USD == raw * m * 100.0
  {
    var q := raw / MILLION;
    assert q * MILLION == raw;
    assert q * m * UNITS_PER_USD == (q * MILLION) * m * 100.0;
  }

  predicate HasTokens(u: Usage) {
    u.input + u.output + u.reasoning > 0
  }

  /** What a run of charges has amounted to exactly. */
  function ExactSum(s: Settings, calls: seq<ModelCall>): real {
    if calls == [] then 0.0
    else
      var last := CostOf(s, calls[|calls| - 1]);
      ExactSum(s, calls[..|calls| - 1]) + if last.Some? then last.value else 0.0
  }

  /** The sum of the fees of the calls whose cost is known. */
  lemma ExactSumAdds(s: Settings, calls: seq<ModelCall>, c: ModelCall)
    ensures ExactSum(s, []) == 0.0
    ensures ExactSum(s, calls + [c]) == ExactSum(s, calls) + if PricesKnown(s, c) then Fee(s, c) else 0.0
  {
    hide CostOf, Fee;
    CostIsFee(s, c);
    assert (calls + [c])[..|calls|] == calls;
  }

  /** The mission's token account. */
  class Account {
    const settings: Settings
    const limit: Option<real>
    var spent: int

    constructor (settings: Settings, limit: Option<real>)
      requires Sane(settings)
      ensures this.settings == settings && this.limit == limit && spent == 0
    {
      this.settings, this.limit, spent := settings, limit, 0;
    }

    /** The mission's own limit, or else the default. */
    function Wanted(): real {
      if limit.None? then settings.defaultBudget else limit.value
    }

    /** What is wanted, brought between zero and the hard cap. */
    function BudgetFor(): (b: int)
      requires Sane(settings)
      ensures 0 <= b <= Round(settings.hardCap * UNITS_PER_USD)
      ensures 0.0 <= Wanted() <= settings.hardCap ==> b == Round(Wanted() * UNITS_PER_USD)
      ensures Wanted() < 0.0 ==> b == 0
      ensures Wanted() > settings.hardCap ==> b == Round(settings.hardCap * UNITS_PER_USD)
    {
      var floor := if Wanted() < 0.0 then 0.0 else Wanted();
      var capped := if floor < settings.hardCap then floor else settings.hardCap;
      RoundIsNear(capped * UNITS_PER_USD);
      RoundIsMonotone(capped * UNITS_PER_USD, settings.hardCap * UNITS_PER_USD);
      Round(capped * UNITS_PER_USD)
    }

    function WarningThreshold(): (w: int)
      requires Sane(settings)
      ensures -0.5 <= w as real - BudgetFor() as real * settings.warningFraction <= 0.5
    {
      RoundIsNear(BudgetFor() as real * settings.warningFraction);
      Round(BudgetFor() as real * settings.warningFraction)
    }

    /** Refuses another call once the budget is used up. */
    method AuthorizeStart() returns (refusal: Option<PolicyError>)
      requires Sane(settings)
      ensures refusal == if spent > 0 && BudgetFor() - spent <= 0 then Some(ResourceExhausted) else None
    {
      if spent > 0 && BudgetFor() - spent <= 0 {
        return Some(ResourceExhausted);
      }
      return None;
    }

    /** Charges a completed call.  Going over budget is recorded before it is reported. */
    method Consume(c: ModelCall) returns (crossed: bool, refusal: Option<PolicyError>)
      requires Sane(settings) && Honest(c)
      modifies this
      // Unknown prices charge nothing; known ones charge the cost of the tokens to within half a unit.
      ensures !PricesKnown(settings, c) ==>
                && spent == old(spent) && !crossed
                && (refusal.Some? <==> settings.failOnUnknown
                                       && (c.usage.input > 0 || c.usage.output > 0 || c.usage.reasoning > 0))
      ensures PricesKnown(settings, c) ==>
                Fee(settings, c) - 0.5 <= (spent - old(spent)) as real <= Fee(settings, c) + 0.5
      ensures var cost := CostOf(settings, c);
              && (cost.None? ==> spent == old(spent) && !crossed
                                 && (refusal.Some? <==> HasTokens(c.usage) && settings.failOnUnknown))
              && (cost.Some? ==>
                    && spent == old(spent) + Round(cost.value) && spent >= old(spent)
                    && cost.value - 0.5 <= (spent - old(spent)) as real <= cost.value + 0.5
                    && (crossed <==> old(spent) < WarningThreshold() <= spent)
                    && (refusal.Some? <==> spent > BudgetFor()))
    {
      hide Fee, ExactCost, Round;
      CostIsFee(settings, c);
      var prices := ResolvePrices(settings, c);
      if prices.None? {
        return false, if HasTokens(c.usage) && settings.failOnUnknown then Some(ResourceExhausted) else None;
      }
      var exact := ExactCost(c.usage, prices.value, settings.markup);
      ExactCostNotNegative(c.usage, prices.value, settings.markup);
      RoundIsNear(exact);
      var previous := spent;
      spent := previous + Round(exact);
      crossed := previous < WarningThreshold() <= spent;
      refusal := if previous + Round(exact) > BudgetFor() then Some(ResourceExhausted) else None;
    }

    /** A run of calls, each authorized first, stopped by the first refusal.  `n` calls were charged. */
    method Spend(calls: seq<ModelCall>) returns (warnings: nat, refusal: Option<PolicyError>, n: nat, ghost before: int)
      requires Sane(settings) && forall i :: 0 <= i < |calls| ==> Honest(calls[i])
      requires spent <= BudgetFor()
      modifies this
      ensures n <= |calls| && (refusal.None? ==> n == |calls|)
      // It stops early only over budget, with the budget used up, or for a cost it may not leave unknown.
      ensures refusal.Some? ==>
                || (spent > 0 && spent >= BudgetFor())
                || (n > 0 && CostOf(settings, calls[n - 1]).None?
                    && HasTokens(calls[n - 1].usage) && settings.failOnUnknown)
      // Spend never decreases, and it was within budget before the last charge.
      ensures old(spent) <= before <= spent && before <= BudgetFor()
      // So overspending is at most one call's cost, and is always reported.
      ensures spent > BudgetFor() ==> refusal.Some? && n > 0 && CostOf(settings, calls[n - 1]).Some?
                                      && spent - before == Round(CostOf(settings, calls[n - 1]).value)
      ensures warnings == if old(spent) < WarningThreshold() <= spent then 1 else 0
      // After n charges the account is within n half-units of the exact sum.
      ensures ExactSum(settings, calls[..n]) - n as real * 0.5 <= (spent - old(spent)) as real
                <= ExactSum(settings, calls[..n]) + n as real * 0.5
    {
      hide ExactCost, Round, ResolvePrices, CostOf;
      warnings, refusal, n, before := 0, None, 0, spent;
      while n < |calls|
        invariant n <= |calls| && refusal.None? && old(spent) <= before <= spent <= BudgetFor()
        invariant warnings == if old(spent) < WarningThreshold() <= spent then 1 else 0
        invariant ExactSum(settings, calls[..n]) - n as real * 0.5 <= (spent - old(spent)) as real
                    <= ExactSum(settings, calls[..n]) + n as real * 0.5
      {
        refusal := AuthorizeStart();
        if refusal.Some? {
          return;
        }
        before := spent;
        var crossed;
        crossed, refusal := Consume(calls[n]);
        assert calls[..n + 1][..n] == calls[..n];
        n := n + 1;
        if crossed {
          warnings := warnings + 1;
        }
        if refusal.Some? {
          return;
        }
      }
    }
  }
}
