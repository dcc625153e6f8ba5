/** `PortfolioAnalyzer.stress_test_portfolio` (app.py:987-1099): look up one
    of four fixed scenarios, shock every asset by the scenario's market return
    plus its sector's extra impact, scaled by the asset's volatility relative
    to 0.15 and by the scenario's volatility multiplier, and total the
    changes. */
module StressTest {
  import opened Common
  import opened Builder

  /** The fields of a portfolio entry the stress test reads; `volatility` may
      be absent from the dict. */
  datatype Asset = Asset(ticker: string, name: string, category: string, investAmount: real, volatility: Option<real>)

  /** A holding from `build_portfolio` always carries its volatility. */
  function AssetOf(h: Holding): Asset {
    Asset(h.ticker, h.name, h.category, h.investAmount, Some(h.volatility))
  }

  /** The numeric part of a scenario; its display name and description are
      text only. */
  datatype Scenario = Scenario(marketReturn: real, volatilityMultiplier: real, sectorImpacts: map<string, real>)

  /** The scenario table of app.py:989-1044. */
  function ScenarioNamed(key: string): Option<Scenario> {
    if key == "bear_market" then
      Some(Scenario(-0.30, 2.0, map["DIV" := -0.05, "GRO" := -0.25, "BND" := 0.05, "CC" := -0.10, "RE" := -0.20, "COM" := 0.10]))
    else if key == "inflation" then
      Some(Scenario(-0.15, 1.5, map["DIV" := -0.05, "GRO" := -0.20, "BND" := -0.10, "CC" := -0.05, "RE" := -0.15, "COM" := 0.20]))
    else if key == "tech_crash" then
      Some(Scenario(-0.20, 1.8, map["DIV" := 0.05, "GRO" := -0.30, "BND" := 0.10, "CC" := -0.05, "RE" := 0.0, "COM" := 0.05]))
    else if key == "fed_pivot" then
      Some(Scenario(0.15, 0.7, map["DIV" := 0.05, "GRO" := 0.25, "BND" := 0.10, "CC" := 0.05, "RE" := 0.15, "COM" := -0.05]))
    else None
  }

  /** The categories every scenario lists an extra impact for. */
  const ListedSectors: set<string> := {"DIV", "GRO", "BND", "CC", "RE", "COM"}

  /** `sector_impacts.get(category, 0)`. */
  function SectorImpact(s: Scenario, category: string): real {
    if category in s.sectorImpacts then s.sectorImpacts[category] else 0.0
  }

  /** The table knows exactly four scenarios, each listing exactly the six
      sectors, with a positive volatility multiplier. */
  lemma ScenarioTable(key: string)
    ensures ScenarioNamed(key).Some? <==> key in {"bear_market", "inflation", "tech_crash", "fed_pivot"}
    ensures ScenarioNamed(key).Some? ==>
              ScenarioNamed(key).value.sectorImpacts.Keys == ListedSectors && ScenarioNamed(key).value.volatilityMultiplier > 0.0
  {
  }

  /** A category no scenario lists, such as a large-cap or international
      fund, gets no extra sector impact. */
  lemma UnlistedSectorUnshocked(key: string, category: string)
    requires ScenarioNamed(key).Some? && category !in ListedSectors
    ensures SectorImpact(ScenarioNamed(key).value, category) == 0.0
  {
    ScenarioTable(key);
  }

  /** The volatility adjustment: `volatility / 0.15`, or 1 when the asset has
      no volatility. */
  function VolatilityImpact(a: Asset): (r: real)
    ensures a.volatility.None? ==> r == 1.0
    ensures a.volatility.Some? ==> r * 0.15 == a.volatility.value
  {
    match a.volatility
    case None => 1.0
    case Some(v) => v / 0.15
  }

  /** `final_impact`: the scenario's combined shock for the asset. */
  function FinalImpact(a: Asset, s: Scenario): real {
    (s.marketReturn + SectorImpact(s, a.category)) * VolatilityImpact(a) * s.volatilityMultiplier
  }

  /** One entry of `asset_impacts`. */
  datatype AssetImpact = AssetImpact(
    ticker: string, name: string, category: string,
    currentValue: real, impact: real, valueChange: real, newValue: real)

  function ImpactOf(a: Asset, s: Scenario): AssetImpact {
    var f := FinalImpact(a, s);
    AssetImpact(a.ticker, a.name, a.category, a.investAmount, f, a.investAmount * f, a.investAmount * (1.0 + f))
  }

  function InvestOf(a: Asset): real { a.investAmount }

  function CurrentValueOf(x: AssetImpact): real { x.currentValue }

  function ValueChangeOf(x: AssetImpact): real { x.valueChange }

  function NewValueOf(x: AssetImpact): real { x.newValue }

  /** An asset's new value is its current value plus its change, and the
      change is the current value times the impact. */
  lemma ImpactAgrees(a: Asset, s: Scenario)
    ensures var x := ImpactOf(a, s);
            && x.currentValue == a.investAmount
            && x.newValue == x.currentValue + x.valueChange
            && x.valueChange == x.currentValue * x.impact
  {
    var f := FinalImpact(a, s);
    assert a.investAmount * (1.0 + f) == a.investAmount + a.investAmount * f;
  }

  function Impacts(portfolio: seq<Asset>, s: Scenario): (r: seq<AssetImpact>)
    ensures |r| == |portfolio|
  {
    seq(|portfolio|, i requires 0 <= i < |portfolio| => ImpactOf(portfolio[i], s))
  }

  /** What the stress test returns: an error for an unknown scenario, the
      report otherwise. */
  datatype StressOutcome =
    | UnknownScenario(key: string)
    | Report(key: string, portfolioImpact: real, totalInvestment: real, totalValueChange: real,
             newPortfolioValue: real, assetImpacts: seq<AssetImpact>)

  function TotalInvestment(portfolio: seq<Asset>): real {
    SumOf(portfolio, InvestOf)
  }

  /** The report of app.py:1046-1099. `portfolio_impact` divides by the total
      investment, so a known scenario needs a non-zero total. */
  function StressSpec(portfolio: seq<Asset>, key: string): StressOutcome
    requires ScenarioNamed(key).Some? ==> TotalInvestment(portfolio) != 0.0
  {
    match ScenarioNamed(key)
    case None => UnknownScenario(key)
    case Some(s) => ReportFor(portfolio, key, s)
  }

  /** The report for a known scenario. */
  function ReportFor(portfolio: seq<Asset>, key: string, s: Scenario): StressOutcome
    requires TotalInvestment(portfolio) != 0.0
  {
    var total := TotalInvestment(portfolio);
    var impacts := Impacts(portfolio, s);
    var change := SumOf(impacts, ValueChangeOf);
    Report(key, change / total, total, change, total + change, impacts)
  }

  lemma {:induction false} ImpactsPrefixSums(portfolio: seq<Asset>, s: Scenario, k: nat)
    requires k <= |portfolio|
    ensures var impacts := Impacts(portfolio, s)[..k];
            && SumOf(impacts, CurrentValueOf) == SumOf(portfolio[..k], InvestOf)
            && SumOf(impacts, NewValueOf) == SumOf(impacts, CurrentValueOf) + SumOf(impacts, ValueChangeOf)
    decreases k
  {
    var impacts := Impacts(portfolio, s);
    if k == 0 {
      assert impacts[..0] == [] && portfolio[..0] == [];
    } else {
      ImpactsPrefixSums(portfolio, s, k - 1);
      assert impacts[..k][..k - 1] == impacts[..k - 1];
      assert portfolio[..k][..k - 1] == portfolio[..k - 1];
      ImpactAgrees(portfolio[k - 1], s);
    }
  }

  /** A report on `portfolio` that is consistent: one impact per asset, the
      invested total, a new portfolio value equal to that total plus the total
      change and to the sum of the assets' new values, and a portfolio impact
      that is the total change as a share of the total. */
  predicate ConsistentReport(r: StressOutcome, portfolio: seq<Asset>) {
    && r.Report?
    && |r.assetImpacts| == |portfolio|
    && r.totalInvestment == SumOf(portfolio, InvestOf)
    && r.newPortfolioValue == r.totalInvestment + r.totalValueChange
    && r.newPortfolioValue == SumOf(r.assetImpacts, NewValueOf)
    && r.portfolioImpact * r.totalInvestment == r.totalValueChange
  }

  /** An unknown scenario yields the error and nothing else; a known one a
      consistent report. */
  lemma StressProperties(portfolio: seq<Asset>, key: string)
    requires ScenarioNamed(key).Some? ==> TotalInvestment(portfolio) != 0.0
    ensures var r := StressSpec(portfolio, key);
            && (r.UnknownScenario? <==> ScenarioNamed(key).None?)
            && (r.Report? ==> ConsistentReport(r, portfolio))
  {
    match ScenarioNamed(key)
    case None =>
    case Some(s) => ReportProperties(portfolio, key, s);
  }

  lemma ReportProperties(portfolio: seq<Asset>, key: string, s: Scenario)
    requires TotalInvestment(portfolio) != 0.0
    ensures ConsistentReport(ReportFor(portfolio, key, s), portfolio)
  {
    ImpactsSums(portfolio, s);
    DivTimes(SumOf(Impacts(portfolio, s), ValueChangeOf), TotalInvestment(portfolio));
  }

  /** Over the whole portfolio, the assets' current values add up to the
      invested total and their new values to that total plus the total change. */
  lemma ImpactsSums(portfolio: seq<Asset>, s: Scenario)
    ensures var impacts := Impacts(portfolio, s);
            && SumOf(impacts, CurrentValueOf) == SumOf(portfolio, InvestOf)
            && SumOf(impacts, NewValueOf) == SumOf(portfolio, InvestOf) + SumOf(impacts, ValueChangeOf)
  {
    ImpactsPrefixSums(portfolio, s, |portfolio|);
    assert Impacts(portfolio, s)[..|portfolio|] == Impacts(portfolio, s);
    assert portfolio[..|portfolio|] == portfolio;
  }

  lemma DivTimes(x: real, d: real)
    requires d != 0.0
    ensures (x / d) * d == x
  {
  }

  lemma MulPositive(x: real, y: real)
    requires x > 0.0 && y > 0.0
    ensures x * y > 0.0
  {
  }

  /** In the bear market a bond holding loses less than a growth holding of
      the same volatility. */
  lemma BondBeatsGrowthInBearMarket(bond: Asset, growth: Asset)
    requires bond.category == "BND" && growth.category == "GRO"
    requires bond.volatility == growth.volatility
    requires bond.volatility.None? || bond.volatility.value > 0.0
    ensures FinalImpact(bond, ScenarioNamed("bear_market").value) > FinalImpact(growth, ScenarioNamed("bear_market").value)
  {
    var bear := ScenarioNamed("bear_market").value;
    var k := VolatilityImpact(bond);
    assert VolatilityImpact(growth) == k;
    assert SectorImpact(bear, "BND") == 0.05 && SectorImpact(bear, "GRO") == -0.25;
    MulPositive(k, 2.0);
    assert FinalImpact(bond, bear) == -0.25 * (k * 2.0);
    assert FinalImpact(growth, bear) == -0.55 * (k * 2.0);
  }

  /** Every scenario's combined shock, market plus sector, is negative for
      every category in the bear market and positive in the Fed pivot. */
  lemma CombinedShockSign(category: string)
    ensures var bear := ScenarioNamed("bear_market").value;
            bear.marketReturn + SectorImpact(bear, category) < 0.0
    ensures var pivot := ScenarioNamed("fed_pivot").value;
            pivot.marketReturn + SectorImpact(pivot, category) > 0.0
  {
    ScenarioTable("bear_market");
    ScenarioTable("fed_pivot");
  }

  /** In the bear market every asset with a positive volatility loses value;
      in the Fed pivot every such asset gains. */
  lemma ScenarioDirections(a: Asset)
    requires a.volatility.None? || a.volatility.value > 0.0
    ensures FinalImpact(a, ScenarioNamed("bear_market").value) < 0.0
    ensures FinalImpact(a, ScenarioNamed("fed_pivot").value) > 0.0
  {
    var bear := ScenarioNamed("bear_market").value;
    var pivot := ScenarioNamed("fed_pivot").value;
    var k := VolatilityImpact(a);
    assert k > 0.0;
    CombinedShockSign(a.category);
    var b := bear.marketReturn + SectorImpact(bear, a.category);
    var p := pivot.marketReturn + SectorImpact(pivot, a.category);
    MulPositive(-b, k * 2.0);
    assert FinalImpact(a, bear) == -((-b) * (k * 2.0));
    MulPositive(p, k * 0.7);
    assert FinalImpact(a, pivot) == p * (k * 0.7);
  }

  /** `stress_test_portfolio`: the unknown-scenario guard, then the loop over
      the portfolio accumulating `asset_impacts`, then the totals. */
  method StressTestPortfolio(portfolio: seq<Asset>, key: string) returns (r: StressOutcome)
    requires ScenarioNamed(key).Some? ==> TotalInvestment(portfolio) != 0.0
    ensures r == StressSpec(portfolio, key)
  {
    var scenario := ScenarioNamed(key);
    if scenario.None? {
      return UnknownScenario(key);
    }
    var s := scenario.value;
    var total := TotalInvestment(portfolio);
    var impacts: seq<AssetImpact> := [];
    for i := 0 to |portfolio|
      invariant impacts == Impacts(portfolio, s)[..i]
    {
      var a := portfolio[i];
      var totalImpact := s.marketReturn + SectorImpact(s, a.category);
      var volImpact := 1.0;
      if a.volatility.Some? {
        volImpact := a.volatility.value / 0.15;
      }
      assert volImpact == VolatilityImpact(a);
      var finalImpact := totalImpact * volImpact * s.volatilityMultiplier;
      assert finalImpact == FinalImpact(a, s);
      var impact := AssetImpact(a.ticker, a.name, a.category, a.investAmount, finalImpact,
                                a.investAmount * finalImpact, a.investAmount * (1.0 + finalImpact));
      assert impact == ImpactOf(a, s);
      assert Impacts(portfolio, s)[..i + 1] == Impacts(portfolio, s)[..i] + [impact];
      impacts := impacts + [impact];
    }
    assert impacts == Impacts(portfolio, s) by {
      assert Impacts(portfolio, s)[..|portfolio|] == Impacts(portfolio, s);
    }
    var change := SumOf(impacts, ValueChangeOf);
    r := Report(key, change / total, total, change, total + change, impacts);
  }
}
