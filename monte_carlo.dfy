/** The deterministic parts of `PortfolioAnalyzer.monte_carlo_simulation`
    (app.py:1101-1189): the guard against a portfolio with nothing invested,
    each position's share of the invested total, and the expected monthly
    dividend. The simulated paths themselves are not modelled. */
module MonteCarlo {
  import opened Common
  import opened Builder

  /** The fields of a portfolio entry these parts read; `dividend_yield` may
      be absent from the dict. */
  datatype Position = Position(investAmount: real, weight: real, dividendYield: Option<real>)

  function PositionOf(h: Holding): Position {
    Position(h.investAmount, h.weight, Some(h.dividendYield))
  }

  function InvestOf(p: Position): real { p.investAmount }

  /** `p["weight"] * p.get("dividend_yield", 0) / 12`. */
  function MonthlyYieldOf(p: Position): real {
    p.weight * GetOr(p.dividendYield, 0.0) / 12.0
  }

  /** The deterministic outputs of a simulation that runs. */
  datatype Setup = Setup(totalInvest: real, weights: seq<real>, expectedMonthlyDividend: real, monthlyDividendPer10m: real)

  function TotalInvest(portfolio: seq<Position>): real {
    SumOf(portfolio, InvestOf)
  }

  /** `p["invest_amount"] / total_invest` for each position. */
  function Shares(portfolio: seq<Position>, total: real): (w: seq<real>)
    requires total != 0.0
    ensures |w| == |portfolio|
  {
    seq(|portfolio|, i requires 0 <= i < |portfolio| => portfolio[i].investAmount / total)
  }

  /** `expected_monthly_dividend * 10000000 / total_invest`. */
  function Per10m(expected: real, total: real): real
    requires total != 0.0
  {
    expected * 10000000.0 / total
  }

  /** `None` when nothing positive is invested; otherwise the invested total,
      the shares, the expected monthly dividend and that dividend per ten
      million invested. */
  function MonteCarloSpec(portfolio: seq<Position>): Option<Setup> {
    var total := TotalInvest(portfolio);
    if total <= 0.0 then None
    else
      var expected := total * SumOf(portfolio, MonthlyYieldOf);
      Some(Setup(total, Shares(portfolio, total), expected, Per10m(expected, total)))
  }

  lemma {:induction false} SharesPrefixSum(portfolio: seq<Position>, total: real, k: nat)
    requires total != 0.0 && k <= |portfolio|
    ensures Sum(Shares(portfolio, total)[..k]) * total == SumOf(portfolio[..k], InvestOf)
    decreases k
  {
    var w := Shares(portfolio, total);
    if k == 0 {
      assert w[..0] == [] && portfolio[..0] == [];
    } else {
      SharesPrefixSum(portfolio, total, k - 1);
      assert w[..k][..k - 1] == w[..k - 1];
      assert portfolio[..k][..k - 1] == portfolio[..k - 1];
      assert w[k - 1] * total == portfolio[k - 1].investAmount;
      assert Sum(w[..k]) == Sum(w[..k - 1]) + w[k - 1];
      assert Sum(w[..k]) * total == Sum(w[..k - 1]) * total + w[k - 1] * total;
    }
  }

  /** The simulation runs exactly when something positive is invested; its
      shares then sum to 1, each is the position's investment over the total,
      and the dividend per ten million is the monthly yield times ten million. */
  lemma MonteCarloProperties(portfolio: seq<Position>)
    ensures MonteCarloSpec(portfolio).None? <==> TotalInvest(portfolio) <= 0.0
    ensures MonteCarloSpec(portfolio).Some? ==>
              var s := MonteCarloSpec(portfolio).value;
              && s.totalInvest > 0.0
              && |s.weights| == |portfolio|
              && Sum(s.weights) == 1.0
              && (forall i :: 0 <= i < |portfolio| ==> s.weights[i] * s.totalInvest == portfolio[i].investAmount)
              && s.monthlyDividendPer10m == SumOf(portfolio, MonthlyYieldOf) * 10000000.0
  {
    var total := TotalInvest(portfolio);
    if total > 0.0 {
      var w := Shares(portfolio, total);
      SharesPrefixSum(portfolio, total, |portfolio|);
      assert w[..|w|] == w && portfolio[..|portfolio|] == portfolio;
      assert Sum(w) * total == total * 1.0;
      var m := SumOf(portfolio, MonthlyYieldOf);
      assert Per10m(total * m, total) == m * 10000000.0;
    }
  }

  /** A position from a holding whose amounts agree with its weight. */
  lemma HoldingDividend(h: Holding, seedMoney: real)
    requires AmountsAgree(h, seedMoney)
    ensures h.expectedMonthlyDividend == seedMoney * MonthlyYieldOf(PositionOf(h))
  {
    assert h.expectedMonthlyDividend * 12.0 == seedMoney * h.weight * h.dividendYield;
  }

  /** The positions the simulation reads from a list of holdings. */
  function PositionsOf(p: seq<Holding>): (r: seq<Position>)
    ensures |r| == |p| && forall i :: 0 <= i < |p| ==> r[i] == PositionOf(p[i])
  {
    seq(|p|, i requires 0 <= i < |p| => PositionOf(p[i]))
  }

  /** The invested total of holdings whose amounts add up to the seed. */
  lemma BuiltTotal(p: seq<Holding>, seedMoney: real)
    requires SumOf(p, InvestAmountOf) == seedMoney
    ensures TotalInvest(PositionsOf(p)) == seedMoney
  {
    PositionSums(p, |p|);
    assert p[..|p|] == p && PositionsOf(p)[..|p|] == PositionsOf(p);
  }

  /** Each share of a holding whose amounts agree with its weight. */
  lemma BuiltShares(p: seq<Holding>, seedMoney: real)
    requires seedMoney > 0.0
    requires forall h :: h in p ==> AmountsAgree(h, seedMoney)
    ensures forall i :: 0 <= i < |p| ==> Shares(PositionsOf(p), seedMoney)[i] == p[i].weight
  {
    forall i | 0 <= i < |p| ensures Shares(PositionsOf(p), seedMoney)[i] == p[i].weight {
      assert p[i] in p;
      DivMul(seedMoney, p[i].weight);
    }
  }

  /** The expected monthly dividend of holdings whose amounts agree. */
  lemma BuiltDividend(p: seq<Holding>, seedMoney: real)
    requires forall h :: h in p ==> AmountsAgree(h, seedMoney)
    ensures seedMoney * SumOf(PositionsOf(p), MonthlyYieldOf) == SumOf(p, MonthlyDividendOf)
  {
    assert SumOf(PositionsOf(p), MonthlyYieldOf) == SumOf(p, HoldingYieldOf) by {
      PositionSums(p, |p|);
      assert p[..|p|] == p && PositionsOf(p)[..|p|] == PositionsOf(p);
    }
    assert SumOf(p, MonthlyDividendOf) == seedMoney * SumOf(p, HoldingYieldOf) by {
      forall h | h in p ensures MonthlyDividendOf(h) == seedMoney * HoldingYieldOf(h) {
        HoldingDividend(h, seedMoney);
      }
      SumOfScale(p, HoldingYieldOf, MonthlyDividendOf, seedMoney);
    }
  }

  /** Holdings whose invested amounts add up to a positive seed are simulated
      with the seed as their total. */
  lemma SimulationOnSeed(p: seq<Holding>, seedMoney: real)
    requires seedMoney > 0.0
    requires SumOf(p, InvestAmountOf) == seedMoney
    ensures var r := MonteCarloSpec(PositionsOf(p));
            && r.Some?
            && r.value.totalInvest == seedMoney
            && r.value.weights == Shares(PositionsOf(p), seedMoney)
            && r.value.expectedMonthlyDividend == seedMoney * SumOf(PositionsOf(p), MonthlyYieldOf)
  {
    BuiltTotal(p, seedMoney);
  }

  /** On a portfolio built by `build_portfolio` from a positive seed (its
      invested amounts then add up to the seed), the simulation invests the
      seed, each share is the holding's weight, and the expected monthly
      dividend is the sum of the holdings' own expected monthly dividends. */
  lemma BuiltPortfolioSimulation(p: seq<Holding>, seedMoney: real)
    requires seedMoney > 0.0
    requires forall h :: h in p ==> AmountsAgree(h, seedMoney)
    requires SumOf(p, InvestAmountOf) == seedMoney
    ensures var r := MonteCarloSpec(PositionsOf(p));
            && r.Some?
            && r.value.totalInvest == seedMoney
            && (forall i :: 0 <= i < |p| ==> r.value.weights[i] == p[i].weight)
            && r.value.expectedMonthlyDividend == SumOf(p, MonthlyDividendOf)
  {
    SimulationOnSeed(p, seedMoney);
    BuiltShares(p, seedMoney);
    BuiltDividend(p, seedMoney);
  }

  lemma DivMul(d: real, x: real)
    requires d != 0.0
    ensures d * x / d == x
  {
  }

  function MonthlyDividendOf(h: Holding): real { h.expectedMonthlyDividend }

  function HoldingYieldOf(h: Holding): real { MonthlyYieldOf(PositionOf(h)) }

  lemma {:induction false} PositionSums(p: seq<Holding>, k: nat)
    requires k <= |p|
    ensures SumOf(PositionsOf(p)[..k], InvestOf) == SumOf(p[..k], InvestAmountOf)
    ensures SumOf(PositionsOf(p)[..k], MonthlyYieldOf) == SumOf(p[..k], HoldingYieldOf)
    decreases k
  {
    var positions := PositionsOf(p);
    if k == 0 {
      assert positions[..0] == [] && p[..0] == [];
    } else {
      PositionSums(p, k - 1);
      assert positions[..k][..k - 1] == positions[..k - 1];
      assert p[..k][..k - 1] == p[..k - 1];
    }
  }

  /** The guard, the loop collecting the shares (app.py:1109-1118) and the
      loop accumulating the monthly dividend (app.py:1172-1176). */
  method MonteCarloSetup(portfolio: seq<Position>) returns (r: Option<Setup>)
    ensures r == MonteCarloSpec(portfolio)
  {
    var total := TotalInvest(portfolio);
    if total <= 0.0 {
      return None;
    }
    var weights: seq<real> := [];
    for i := 0 to |portfolio|
      invariant weights == Shares(portfolio, total)[..i]
    {
      assert Shares(portfolio, total)[..i + 1] == Shares(portfolio, total)[..i] + [portfolio[i].investAmount / total];
      weights := weights + [portfolio[i].investAmount / total];
    }
    assert weights == Shares(portfolio, total) by {
      assert Shares(portfolio, total)[..|portfolio|] == Shares(portfolio, total);
    }
    var monthly := 0.0;
    for i := 0 to |portfolio|
      invariant monthly == SumOf(portfolio[..i], MonthlyYieldOf)
    {
      assert portfolio[..i + 1][..i] == portfolio[..i];
      monthly := monthly + portfolio[i].weight * GetOr(portfolio[i].dividendYield, 0.0) / 12.0;
    }
    assert monthly == SumOf(portfolio, MonthlyYieldOf) by {
      assert portfolio[..|portfolio|] == portfolio;
    }
    var expected := total * monthly;
    r := Some(Setup(total, weights, expected, Per10m(expected, total)));
    ghost var spec := MonteCarloSpec(portfolio);
    assert spec.Some?;
    assert r.value.totalInvest == spec.value.totalInvest;
    assert r.value.weights == spec.value.weights;
    assert r.value.expectedMonthlyDividend == spec.value.expectedMonthlyDividend;
    assert r.value.monthlyDividendPer10m == spec.value.monthlyDividendPer10m;
  }
}
