/** The deterministic skeleton of `PortfolioAnalyzer.generate_synthetic_backtest`
    (app.py:835-985): classify each ticker into an asset category, overlay the
    fixed market and category events on each month's base return and noise,
    take the weight-averaged portfolio return per month, compound it, and
    track the maximum drawdown from the running peak. The Gaussian noise is
    given as a parameter: `noise[j][i]` is the draw for ticker j in month i. */
module Backtest {
  import opened Common
  import opened Calendar

  /** The asset categories the classifier assigns. */
  datatype Category = DIV | CC | BND | LC | GRO | RE | INT | COM

  /** `sub` occurs in `s` starting at index i. */
  predicate OccursAt(s: string, sub: string, i: int) {
    0 <= i && i + |sub| <= |s| && s[i..i + |sub|] == sub
  }

  /** Python's `sub in s` for strings. */
  predicate Contains(s: string, sub: string) {
    exists i | 0 <= i <= |s| :: OccursAt(s, sub, i)
  }

  /** A string holding a non-empty `sub` is at least as long and holds its
      first character. */
  lemma ContainsFirst(s: string, sub: string)
    requires sub != [] && Contains(s, sub)
    ensures |sub| <= |s| && sub[0] in s
  {
    var i :| 0 <= i <= |s| && OccursAt(s, sub, i);
    assert s[i] == s[i..i + |sub|][0];
  }

  predicate DividendTicker(t: string) {
    Contains(t, "DIV") || Contains(t, "VYM") || Contains(t, "SCHD")
  }

  /** The ticker-to-category chain of app.py:882-898: the first test that
      matches decides, and a ticker matching none is a large-cap (LC). */
  function Categorize(t: string): Category {
    if DividendTicker(t) then DIV
    else if Contains(t, "JEPI") || Contains(t, "QYLD") || Contains(t, "DIVO") then CC
    else if Contains(t, "BND") || Contains(t, "AGG") || Contains(t, "TIP") then BND
    else if Contains(t, "QQQ") || Contains(t, "ARKK") || Contains(t, "VUG") then GRO
    else if Contains(t, "VNQ") || Contains(t, "SCHH") then RE
    else if Contains(t, "VXUS") || Contains(t, "EFA") then INT
    else if Contains(t, "GLD") || Contains(t, "SLV") then COM
    else LC
  }

  /** A string holding `sub ++ rest` holds `sub`. */
  lemma ContainsPrefix(s: string, sub: string, rest: string)
    requires Contains(s, sub + rest)
    ensures Contains(s, sub)
  {
    var i :| 0 <= i <= |s| && OccursAt(s, sub + rest, i);
    assert s[i..i + |sub|] == (sub + rest)[..|sub|];
    assert OccursAt(s, sub, i);
  }

  /** Every ticker holding "DIVO" already holds "DIV", so it is a dividend ETF:
      the "DIVO" test of the covered-call branch never decides anything, and
      a ticker is a covered-call ETF exactly when it holds "JEPI" or "QYLD"
      and none of the dividend markers. */
  lemma CoveredCallBranch(t: string)
    ensures Contains(t, "DIVO") ==> Categorize(t) == DIV
    ensures Categorize(t) == CC <==> !DividendTicker(t) && (Contains(t, "JEPI") || Contains(t, "QYLD"))
  {
    if Contains(t, "DIVO") {
      assert "DIV" + "O" == "DIVO";
      ContainsPrefix(t, "DIV", "O");
    }
  }

  /** Each marker ticker lands in its own category; in particular "DIVO",
      listed among the covered-call markers, is classified as a dividend ETF. */
  lemma MarkerTickers()
    ensures Categorize("SCHD") == DIV && Categorize("DIVO") == DIV
    ensures Categorize("JEPI") == CC && Categorize("QQQ") == GRO
  {
    assert OccursAt("SCHD", "SCHD", 0);
    assert OccursAt("DIVO", "DIV", 0);
    assert OccursAt("JEPI", "JEPI", 0);
    assert OccursAt("QQQ", "QQQ", 0);
    assert !DividendTicker("JEPI") by {
      if Contains("JEPI", "DIV") { ContainsFirst("JEPI", "DIV"); }
      if Contains("JEPI", "VYM") { ContainsFirst("JEPI", "VYM"); }
      if Contains("JEPI", "SCHD") { ContainsFirst("JEPI", "SCHD"); }
    }
    assert !DividendTicker("QQQ") by {
      if Contains("QQQ", "DIV") { ContainsFirst("QQQ", "DIV"); }
      if Contains("QQQ", "VYM") { ContainsFirst("QQQ", "VYM"); }
      if Contains("QQQ", "SCHD") { ContainsFirst("QQQ", "SCHD"); }
    }
    assert !(Contains("QQQ", "JEPI") || Contains("QQQ", "QYLD") || Contains("QQQ", "DIVO")) by {
      if Contains("QQQ", "JEPI") { ContainsFirst("QQQ", "JEPI"); }
      if Contains("QQQ", "QYLD") { ContainsFirst("QQQ", "QYLD"); }
      if Contains("QQQ", "DIVO") { ContainsFirst("QQQ", "DIVO"); }
    }
    assert !(Contains("QQQ", "BND") || Contains("QQQ", "AGG") || Contains("QQQ", "TIP")) by {
      if Contains("QQQ", "BND") { ContainsFirst("QQQ", "BND"); }
      if Contains("QQQ", "AGG") { ContainsFirst("QQQ", "AGG"); }
      if Contains("QQQ", "TIP") { ContainsFirst("QQQ", "TIP"); }
    }
  }

  /** The assumed mean monthly return of a category. */
  function BaseReturn(c: Category): (r: real)
    ensures 0.003 <= r <= 0.01
  {
    match c
    case DIV => 0.006
    case CC => 0.005
    case BND => 0.003
    case LC => 0.007
    case GRO => 0.01
    case RE => 0.006
    case INT => 0.006
    case COM => 0.003
  }

  /** The assumed monthly volatility of a category, the spread of its noise. */
  function BaseVolatility(c: Category): (r: real)
    ensures 0.01 <= r <= 0.06
  {
    match c
    case DIV => 0.03
    case CC => 0.025
    case BND => 0.01
    case LC => 0.04
    case GRO => 0.06
    case RE => 0.05
    case INT => 0.045
    case COM => 0.04
  }

  /** Growth has the highest assumed return and volatility, bonds the lowest
      volatility. */
  lemma CategoryTableOrder(c: Category)
    ensures BaseReturn(c) <= BaseReturn(GRO) && BaseVolatility(c) <= BaseVolatility(GRO)
    ensures BaseVolatility(BND) <= BaseVolatility(c)
  {
  }

  /** The months in which a market-wide event happened. */
  const MarketEventMonths: set<YearMonth> := {
    YearMonth(2018, 2), YearMonth(2018, 10), YearMonth(2020, 3), YearMonth(2020, 4), YearMonth(2020, 5),
    YearMonth(2021, 1), YearMonth(2022, 1), YearMonth(2022, 6), YearMonth(2023, 3), YearMonth(2023, 7)
  }

  /** `market_events.get(month, 0)`: the shock added to every ticker's return. */
  function MarketEvent(m: YearMonth): (r: real)
    ensures r != 0.0 <==> m in MarketEventMonths
    ensures -0.20 <= r <= 0.10
  {
    if m == YearMonth(2018, 2) then -0.04
    else if m == YearMonth(2018, 10) then -0.07
    else if m == YearMonth(2020, 3) then -0.20
    else if m == YearMonth(2020, 4) then 0.10
    else if m == YearMonth(2020, 5) then 0.05
    else if m == YearMonth(2021, 1) then 0.05
    else if m == YearMonth(2022, 1) then -0.05
    else if m == YearMonth(2022, 6) then -0.08
    else if m == YearMonth(2023, 3) then -0.03
    else if m == YearMonth(2023, 7) then 0.05
    else 0.0
  }

  /** The shock a category sees in a month on top of the market's: March 2020
      and January 2022 for every category, July 2023 for growth only. */
  function CategoryEvent(c: Category, m: YearMonth): (r: real)
    ensures r != 0.0 ==> m == YearMonth(2020, 3) || m == YearMonth(2022, 1) || (c == GRO && m == YearMonth(2023, 7))
    ensures m == YearMonth(2020, 3) ==> r < 0.0
  {
    if m == YearMonth(2020, 3) then
      match c
      case DIV => -0.15
      case CC => -0.10
      case BND => -0.05
      case LC => -0.20
      case GRO => -0.25
      case RE => -0.30
      case INT => -0.25
      case COM => -0.10
    else if m == YearMonth(2022, 1) then
      match c
      case DIV => 0.02
      case CC => 0.03
      case BND => -0.10
      case LC => -0.08
      case GRO => -0.15
      case RE => -0.10
      case INT => -0.05
      case COM => 0.10
    else if c == GRO && m == YearMonth(2023, 7) then 0.10
    else 0.0
  }

  /** One ticker's return in one month: the category's base return, the noise
      draw, and the market and category events of that month. */
  function MonthlyReturn(c: Category, m: YearMonth, z: real): real {
    BaseReturn(c) + z + MarketEvent(m) + CategoryEvent(c, m)
  }

  /** In a month without events the return is the base return plus the
      noise; in March 2020 every category loses more than the market's 20%
      shock on top of its base return and noise. */
  lemma EventOverlay(c: Category, m: YearMonth, z: real)
    ensures m !in MarketEventMonths && m != YearMonth(2022, 1) && m != YearMonth(2023, 7) ==>
              MonthlyReturn(c, m, z) == BaseReturn(c) + z
    ensures m == YearMonth(2020, 3) ==> MonthlyReturn(c, m, z) < BaseReturn(c) + z - 0.20
  {
    if m == YearMonth(2020, 3) {
      assert MarketEvent(m) == -0.20;
    }
  }

  /** The return series generated for one ticker. */
  function Series(t: string, months: seq<YearMonth>, z: seq<real>): (s: seq<real>)
    requires |z| == |months|
    ensures |s| == |months|
  {
    seq(|months|, i requires 0 <= i < |months| => MonthlyReturn(Categorize(t), months[i], z[i]))
  }

  /** Well-shaped noise: one draw per ticker and month. */
  predicate NoiseShape(noise: seq<seq<real>>, tickers: seq<string>, months: seq<YearMonth>) {
    |noise| == |tickers| && forall j :: 0 <= j < |noise| ==> |noise[j]| == |months|
  }

  /** The `ticker_returns` dict after the loop over `tickers`: a repeated
      ticker keeps the series generated last. */
  function ReturnTable(tickers: seq<string>, months: seq<YearMonth>, noise: seq<seq<real>>): (table: map<string, seq<real>>)
    requires NoiseShape(noise, tickers, months)
    ensures table.Keys == set t | t in tickers
    decreases |tickers|
  {
    if tickers == [] then map[]
    else
      var n := |tickers| - 1;
      ReturnTable(tickers[..n], months, noise[..n])[tickers[n] := Series(tickers[n], months, noise[n])]
  }

  /** The index of the last occurrence of a ticker. */
  function LastIndexOf(tickers: seq<string>, t: string): (k: nat)
    requires t in tickers
    ensures k < |tickers| && tickers[k] == t
    ensures forall j :: k < j < |tickers| ==> tickers[j] != t
    decreases |tickers|
  {
    if tickers[|tickers| - 1] == t then |tickers| - 1 else LastIndexOf(tickers[..|tickers| - 1], t)
  }

  /** Each ticker maps to the series generated from the noise of its last
      occurrence; with distinct tickers, to the series from its own noise. */
  lemma {:induction false} ReturnTableLookup(tickers: seq<string>, months: seq<YearMonth>, noise: seq<seq<real>>, t: string)
    requires NoiseShape(noise, tickers, months)
    requires t in tickers
    ensures ReturnTable(tickers, months, noise)[t] == Series(t, months, noise[LastIndexOf(tickers, t)])
    decreases |tickers|
  {
    var n := |tickers| - 1;
    if tickers[n] != t {
      assert t in tickers[..n] by {
        var j :| 0 <= j < |tickers| && tickers[j] == t;
        assert tickers[..n][j] == t;
      }
      ReturnTableLookup(tickers[..n], months, noise[..n], t);
    }
  }

  lemma DistinctLookup(tickers: seq<string>, months: seq<YearMonth>, noise: seq<seq<real>>, j: nat)
    requires NoiseShape(noise, tickers, months)
    requires j < |tickers|
    requires forall a, b :: 0 <= a < b < |tickers| ==> tickers[a] != tickers[b]
    ensures ReturnTable(tickers, months, noise)[tickers[j]] == Series(tickers[j], months, noise[j])
  {
    ReturnTableLookup(tickers, months, noise, tickers[j]);
  }

  /** The loop building `ticker_returns` (app.py:900-933). */
  method GenerateReturns(tickers: seq<string>, months: seq<YearMonth>, noise: seq<seq<real>>)
    returns (table: map<string, seq<real>>)
    requires NoiseShape(noise, tickers, months)
    ensures table == ReturnTable(tickers, months, noise)
  {
    table := map[];
    for j := 0 to |tickers|
      invariant table == ReturnTable(tickers[..j], months, noise[..j])
    {
      var c := Categorize(tickers[j]);
      var monthly: seq<real> := [];
      ghost var series := Series(tickers[j], months, noise[j]);
      for i := 0 to |months|
        invariant monthly == series[..i]
      {
        assert series[..i + 1] == series[..i] + [series[i]];
        var r := BaseReturn(c) + noise[j][i];
        r := r + MarketEvent(months[i]);
        r := r + CategoryEvent(c, months[i]);
        monthly := monthly + [r];
      }
      assert monthly == series by {
        assert series[..|months|] == series;
      }
      assert tickers[..j + 1][..j] == tickers[..j] && noise[..j + 1][..j] == noise[..j];
      assert tickers[..j + 1][j] == tickers[j] && noise[..j + 1][j] == noise[j];
      table := table[tickers[j] := monthly];
    }
    assert tickers[..|tickers|] == tickers && noise[..|noise|] == noise;
  }

  /** `sum(weights[j] * rows[j][i] for j in range(k))`, added left to right. */
  function WeightedPrefix(weights: seq<real>, rows: seq<seq<real>>, i: nat, k: nat): real
    requires k <= |weights| && k <= |rows|
    requires forall j :: 0 <= j < k ==> i < |rows[j]|
  {
    if k == 0 then 0.0 else WeightedPrefix(weights, rows, i, k - 1) + weights[k - 1] * rows[k - 1][i]
  }

  /** Rows of returns, one per ticker, each as long as the month list. */
  predicate RowShape(rows: seq<seq<real>>, count: nat) {
    forall j :: 0 <= j < |rows| ==> |rows[j]| == count
  }

  /** The per-ticker rows the weighted sum reads: `ticker_returns[tickers[j]]`. */
  function Rows(tickers: seq<string>, table: map<string, seq<real>>): (rows: seq<seq<real>>)
    requires forall t :: t in tickers ==> t in table
    ensures |rows| == |tickers|
  {
    seq(|tickers|, j requires 0 <= j < |tickers| => table[tickers[j]])
  }

  /** `portfolio_returns`: one weighted sum per month. */
  function PortfolioReturnsSpec(weights: seq<real>, rows: seq<seq<real>>, count: nat): (r: seq<real>)
    requires |weights| == |rows| && RowShape(rows, count)
    ensures |r| == count
  {
    seq(count, i requires 0 <= i < count => WeightedPrefix(weights, rows, i, |weights|))
  }

  lemma MulBetween(w: real, x: real, lo: real, hi: real)
    requires w >= 0.0 && lo <= x <= hi
    ensures w * lo <= w * x <= w * hi
  {
    MulNonNegative(w, x - lo);
    MulNonNegative(w, hi - x);
  }

  /** With non-negative weights, a weighted prefix sum lies between the
      smallest and largest return times the prefix's weight total. */
  lemma {:induction false} WeightedPrefixBetween(weights: seq<real>, rows: seq<seq<real>>, i: nat, k: nat, lo: real, hi: real)
    requires k <= |weights| && k <= |rows|
    requires forall j :: 0 <= j < k ==> i < |rows[j]| && lo <= rows[j][i] <= hi && weights[j] >= 0.0
    ensures Sum(weights[..k]) * lo <= WeightedPrefix(weights, rows, i, k) <= Sum(weights[..k]) * hi
    decreases k
  {
    if k > 0 {
      WeightedPrefixBetween(weights, rows, i, k - 1, lo, hi);
      assert weights[..k][..k - 1] == weights[..k - 1];
      assert Sum(weights[..k]) == Sum(weights[..k - 1]) + weights[k - 1];
      MulBetween(weights[k - 1], rows[k - 1][i], lo, hi);
    } else {
      assert weights[..0] == [];
    }
  }

  /** With non-negative weights summing to 1, each month's portfolio return is
      a weighted average: it lies between the lowest and the highest return of
      its tickers that month. */
  lemma PortfolioReturnIsAverage(weights: seq<real>, rows: seq<seq<real>>, count: nat, i: nat, lo: real, hi: real)
    requires |weights| == |rows| && RowShape(rows, count) && i < count
    requires Sum(weights) == 1.0 && forall j :: 0 <= j < |weights| ==> weights[j] >= 0.0
    requires forall j :: 0 <= j < |rows| ==> lo <= rows[j][i] <= hi
    ensures lo <= PortfolioReturnsSpec(weights, rows, count)[i] <= hi
  {
    WeightedPrefixBetween(weights, rows, i, |weights|, lo, hi);
    assert weights[..|weights|] == weights;
  }

  /** The monthly portfolio returns (app.py:935-940). */
  method PortfolioReturns(weights: seq<real>, rows: seq<seq<real>>, count: nat) returns (portfolioReturns: seq<real>)
    requires |weights| == |rows| && RowShape(rows, count)
    ensures portfolioReturns == PortfolioReturnsSpec(weights, rows, count)
  {
    portfolioReturns := [];
    for i := 0 to count
      invariant portfolioReturns == PortfolioReturnsSpec(weights, rows, count)[..i]
    {
      var total := 0.0;
      for j := 0 to |weights|
        invariant total == WeightedPrefix(weights, rows, i, j)
      {
        total := total + weights[j] * rows[j][i];
      }
      portfolioReturns := portfolioReturns + [total];
    }
  }

  /** The growth of one unit over a run of monthly returns: the product of
      `1 + r` over them. */
  function Growth(portfolioReturns: seq<real>): real
    decreases |portfolioReturns|
  {
    if portfolioReturns == [] then 1.0 else Growth(portfolioReturns[..|portfolioReturns| - 1]) * (1.0 + portfolioReturns[|portfolioReturns| - 1])
  }

  /** Returns above -100% keep the growth positive. */
  lemma {:induction false} GrowthPositive(portfolioReturns: seq<real>)
    requires forall i :: 0 <= i < |portfolioReturns| ==> portfolioReturns[i] > -1.0
    ensures Growth(portfolioReturns) > 0.0
    decreases |portfolioReturns|
  {
    if portfolioReturns != [] {
      var n := |portfolioReturns| - 1;
      GrowthPositive(portfolioReturns[..n]);
      MulNonNegative(Growth(portfolioReturns[..n]), 1.0 + portfolioReturns[n]);
    }
  }

  /** Growth over a run is the growth over its first part times the growth
      over the rest. */
  lemma {:induction false} GrowthAppend(a: seq<real>, b: seq<real>)
    ensures Growth(a + b) == Growth(a) * Growth(b)
    decreases |b|
  {
    if b == [] {
      assert a + b == a;
    } else {
      var n := |b| - 1;
      assert (a + b)[..|a + b| - 1] == a + b[..n];
      GrowthAppend(a, b[..n]);
    }
  }

  /** `cumulative_returns` after dropping the leading 1.0: entry i is the
      growth over the first i + 1 months. */
  function CumulativeSpec(portfolioReturns: seq<real>): (c: seq<real>)
    ensures |c| == |portfolioReturns|
  {
    seq(|portfolioReturns|, i requires 0 <= i < |portfolioReturns| => Growth(portfolioReturns[..i + 1]))
  }

  /** The compounding loop of app.py:943-946 and the slice that drops the
      seed value. */
  method Compound(portfolioReturns: seq<real>) returns (cumulative: seq<real>)
    ensures cumulative == CumulativeSpec(portfolioReturns)
  {
    var running := [1.0];
    for i := 0 to |portfolioReturns|
      invariant |running| == i + 1
      invariant forall k :: 0 <= k <= i ==> running[k] == Growth(portfolioReturns[..k])
    {
      assert portfolioReturns[..i + 1][..i] == portfolioReturns[..i];
      running := running + [running[|running| - 1] * (1.0 + portfolioReturns[i])];
    }
    cumulative := running[1..];
  }

  /** `total_return`: the last cumulative value less one. An empty month list
      would index an empty list, so the source needs at least one month. */
  function TotalReturn(portfolioReturns: seq<real>): (r: real)
    requires portfolioReturns != []
    ensures r + 1.0 == Growth(portfolioReturns)
  {
    assert portfolioReturns[..|portfolioReturns|] == portfolioReturns;
    CumulativeSpec(portfolioReturns)[|portfolioReturns| - 1] - 1.0
  }

  /** Each cumulative value is the previous one compounded by that month's
      return, so non-negative returns never lower it. */
  lemma CumulativeSteps(portfolioReturns: seq<real>)
    ensures var c := CumulativeSpec(portfolioReturns);
            && (portfolioReturns != [] ==> c[0] == 1.0 + portfolioReturns[0])
            && (forall i :: 0 < i < |c| ==> c[i] == c[i - 1] * (1.0 + portfolioReturns[i]))
  {
    var c := CumulativeSpec(portfolioReturns);
    if portfolioReturns != [] {
      assert portfolioReturns[..1][..0] == [];
      assert Growth(portfolioReturns[..1]) == Growth(portfolioReturns[..1][..0]) * (1.0 + portfolioReturns[0]);
    }
    forall i | 0 < i < |c| ensures c[i] == c[i - 1] * (1.0 + portfolioReturns[i]) {
      assert portfolioReturns[..i + 1][..i] == portfolioReturns[..i];
    }
  }

  lemma NonNegativeReturnsRise(portfolioReturns: seq<real>)
    requires forall i :: 0 <= i < |portfolioReturns| ==> portfolioReturns[i] >= 0.0
    ensures NonDecreasing(CumulativeSpec(portfolioReturns))
  {
    var c := CumulativeSpec(portfolioReturns);
    CumulativeSteps(portfolioReturns);
    forall i | 0 <= i < |c| ensures c[i] >= 1.0 {
      GrowthAtLeastOne(portfolioReturns[..i + 1]);
    }
    forall i, j | 0 <= i <= j < |c| ensures c[i] <= c[j] {
      NonDecreasingSteps(c, portfolioReturns, i, j);
    }
  }

  lemma {:induction false} GrowthAtLeastOne(portfolioReturns: seq<real>)
    requires forall i :: 0 <= i < |portfolioReturns| ==> portfolioReturns[i] >= 0.0
    ensures Growth(portfolioReturns) >= 1.0
    decreases |portfolioReturns|
  {
    if portfolioReturns != [] {
      var n := |portfolioReturns| - 1;
      GrowthAtLeastOne(portfolioReturns[..n]);
      MulNonNegative(Growth(portfolioReturns[..n]) - 1.0, portfolioReturns[n]);
      MulNonNegative(Growth(portfolioReturns[..n]), portfolioReturns[n]);
    }
  }

  lemma {:induction false} NonDecreasingSteps(c: seq<real>, portfolioReturns: seq<real>, i: nat, j: nat)
    requires |c| == |portfolioReturns| && i <= j < |c|
    requires forall k :: 0 <= k < |portfolioReturns| ==> portfolioReturns[k] >= 0.0
    requires forall k :: 0 <= k < |c| ==> c[k] >= 0.0
    requires forall k :: 0 < k < |c| ==> c[k] == c[k - 1] * (1.0 + portfolioReturns[k])
    ensures c[i] <= c[j]
    decreases j - i
  {
    if i < j {
      NonDecreasingSteps(c, portfolioReturns, i, j - 1);
      MulNonNegative(c[j - 1], portfolioReturns[j]);
    }
  }

  predicate NonDecreasing(c: seq<real>) {
    forall i, j :: 0 <= i <= j < |c| ==> c[i] <= c[j]
  }

  /** The running peak: the largest cumulative value up to index i. */
  function Peak(c: seq<real>, i: nat): (p: real)
    requires i < |c|
    ensures p >= c[0] && p >= c[i]
  {
    if i == 0 then c[0]
    else
      var before := Peak(c, i - 1);
      if c[i] > before then c[i] else before
  }

  /** The running peak is the largest of the values so far: at least each of
      them, and one of them. */
  lemma {:induction false} PeakIsMaximum(c: seq<real>, i: nat)
    requires i < |c|
    ensures forall k :: 0 <= k <= i ==> c[k] <= Peak(c, i)
    ensures exists k :: 0 <= k <= i && c[k] == Peak(c, i)
  {
    if i > 0 {
      PeakIsMaximum(c, i - 1);
    }
  }

  /** The drawdown at index i: how far the value sits below the running peak,
      as a share of the peak. Defined where the peak is not zero. */
  function DrawdownAt(c: seq<real>, i: nat): real
    requires i < |c| && Peak(c, i) != 0.0
  {
    (Peak(c, i) - c[i]) / Peak(c, i)
  }

  /** The value `max_drawdown` holds. The cumulative values are numpy floats,
      so dividing by a zero peak does not raise: a fall below a zero peak gives
      +inf, shown here as `Unbounded`, and 0/0 gives NaN, which never compares
      greater and so changes nothing. */
  datatype Drawdown = Finite(value: real) | Unbounded

  /** `max_drawdown` after the first k values: 0 to start with, raised to
      each larger drawdown. */
  function MaxDrawdownUpTo(c: seq<real>, k: nat): Drawdown
    requires k <= |c|
  {
    if k == 0 then Finite(0.0)
    else
      var before := MaxDrawdownUpTo(c, k - 1);
      if Peak(c, k - 1) == 0.0 then
        (if c[k - 1] < 0.0 then Unbounded else before)
      else
        var dd := DrawdownAt(c, k - 1);
        if before.Finite? && dd > before.value then Finite(dd) else before
  }

  /** The share by which v sits below a non-zero p not smaller than it. */
  lemma FallBounds(p: real, v: real)
    requires p != 0.0 && v <= p
    ensures p > 0.0 ==> (p - v) / p >= 0.0
    ensures p < 0.0 ==> (p - v) / p <= 0.0
    ensures v > 0.0 ==> (p - v) / p < 1.0
    ensures v == p ==> (p - v) / p == 0.0
  {
    var d := (p - v) / p;
    assert d * p == p - v;
    if p > 0.0 && d < 0.0 {
      MulNonNegative(-d, p);
    }
    if p < 0.0 && d > 0.0 {
      MulNonNegative(d, -p);
    }
    if v > 0.0 && d >= 1.0 {
      MulNonNegative(d - 1.0, p);
    }
  }

  /** Below a positive peak the drawdown is a share in [0, 1]; below a
      negative one it is never positive; at the peak it is 0. */
  lemma DrawdownBounds(c: seq<real>, i: nat)
    requires i < |c| && Peak(c, i) != 0.0
    ensures Peak(c, i) > 0.0 ==> DrawdownAt(c, i) >= 0.0
    ensures Peak(c, i) < 0.0 ==> DrawdownAt(c, i) <= 0.0
    ensures c[i] > 0.0 ==> DrawdownAt(c, i) < 1.0
    ensures c[i] == Peak(c, i) ==> DrawdownAt(c, i) == 0.0
  {
    var p := Peak(c, i);
    assert DrawdownAt(c, i) == (p - c[i]) / p;
    FallBounds(p, c[i]);
  }

  /** d is the maximum drawdown of the first k values: unbounded exactly when
      one of them falls below a zero peak, and otherwise at least 0, at least
      every drawdown, and 0 or one of them. */
  predicate IsMaxDrawdown(c: seq<real>, k: nat, d: Drawdown)
    requires k <= |c|
  {
    && (d.Unbounded? <==> exists i :: 0 <= i < k && FallsBelowZeroPeak(c, i))
    && (d.Finite? ==>
          && d.value >= 0.0
          && (forall i :: 0 <= i < k && Peak(c, i) != 0.0 ==> DrawdownAt(c, i) <= d.value)
          && (d.value == 0.0 || exists i :: 0 <= i < k && Peak(c, i) != 0.0 && d.value == DrawdownAt(c, i)))
  }

  lemma MaxDrawdownIsMaximum(c: seq<real>, k: nat)
    requires k <= |c|
    ensures IsMaxDrawdown(c, k, MaxDrawdownUpTo(c, k))
  {
    UnboundedExactlyOnFall(c, k);
    FiniteIsLargest(c, k);
  }

  /** The value at index i falls below a running peak of zero, where numpy
      divides a positive number by zero. */
  predicate FallsBelowZeroPeak(c: seq<real>, i: nat)
    requires i < |c|
  {
    Peak(c, i) == 0.0 && c[i] < 0.0
  }

  /** `max_drawdown` becomes +inf at the first fall below a zero peak and
      stays there. */
  lemma {:induction false} UnboundedExactlyOnFall(c: seq<real>, k: nat)
    requires k <= |c|
    ensures MaxDrawdownUpTo(c, k).Unbounded? <==> exists i :: 0 <= i < k && FallsBelowZeroPeak(c, i)
    decreases k
  {
    if k > 0 {
      var i := k - 1;
      UnboundedExactlyOnFall(c, i);
      if FallsBelowZeroPeak(c, i) {
        assert MaxDrawdownUpTo(c, k) == Unbounded;
      } else {
        assert MaxDrawdownUpTo(c, k).Unbounded? == MaxDrawdownUpTo(c, i).Unbounded?;
      }
    }
  }

  /** A finite `max_drawdown` is at least 0, at least every drawdown, and 0
      or one of them. */
  lemma {:induction false} FiniteIsLargest(c: seq<real>, k: nat)
    requires k <= |c|
    ensures var d := MaxDrawdownUpTo(c, k);
            d.Finite? ==>
              && d.value >= 0.0
              && (forall i :: 0 <= i < k && Peak(c, i) != 0.0 ==> DrawdownAt(c, i) <= d.value)
              && (d.value == 0.0 || exists i :: 0 <= i < k && Peak(c, i) != 0.0 && d.value == DrawdownAt(c, i))
    decreases k
  {
    if k > 0 {
      var i := k - 1;
      FiniteIsLargest(c, i);
      if Peak(c, i) != 0.0 {
        DrawdownBounds(c, i);
      }
    }
  }

  /** A series that starts positive has a finite maximum drawdown, one whose
      values are all positive has it in [0, 1), and one that never falls has
      it 0, whatever its sign. */
  lemma MaxDrawdownProperties(c: seq<real>)
    ensures c != [] && c[0] > 0.0 ==> MaxDrawdownUpTo(c, |c|).Finite?
    ensures (forall i :: 0 <= i < |c| ==> c[i] > 0.0) ==> MaxDrawdownUpTo(c, |c|).Finite? && MaxDrawdownUpTo(c, |c|).value < 1.0
    ensures NonDecreasing(c) ==> MaxDrawdownUpTo(c, |c|) == Finite(0.0)
  {
    MaxDrawdownIsMaximum(c, |c|);
    forall i | 0 <= i < |c|
      ensures c[0] > 0.0 ==> Peak(c, i) > 0.0
      ensures Peak(c, i) != 0.0 && c[i] > 0.0 ==> DrawdownAt(c, i) < 1.0
      ensures NonDecreasing(c) ==> c[i] == Peak(c, i)
    {
      if Peak(c, i) != 0.0 {
        DrawdownBounds(c, i);
      }
      if NonDecreasing(c) {
        PeakIsMaximum(c, i);
        var k :| 0 <= k <= i && c[k] == Peak(c, i);
        assert c[k] <= c[i];
      }
    }
    if NonDecreasing(c) {
      forall i | 0 <= i < |c| && Peak(c, i) != 0.0 ensures DrawdownAt(c, i) == 0.0 {
        DrawdownBounds(c, i);
      }
    }
  }

  /** The drawdown loop of app.py:957-965, under numpy's division rules. The
      first value is the first peak, so the series must not be empty. */
  method MaxDrawdown(c: seq<real>) returns (maxDrawdown: Drawdown)
    requires c != []
    ensures maxDrawdown == MaxDrawdownUpTo(c, |c|)
  {
    var peak := c[0];
    maxDrawdown := Finite(0.0);
    for i := 0 to |c|
      invariant i > 0 ==> peak == Peak(c, i - 1)
      invariant i == 0 ==> peak == c[0]
      invariant maxDrawdown == MaxDrawdownUpTo(c, i)
    {
      var value := c[i];
      if value > peak {
        peak := value;
      }
      assert peak == Peak(c, i);
      if peak == 0.0 {
        // (0 - value) / 0 is +inf for a negative value and NaN for zero
        if value < 0.0 {
          maxDrawdown := Unbounded;
        }
      } else {
        var dd := (peak - value) / peak;
        if maxDrawdown.Finite? && dd > maxDrawdown.value {
          maxDrawdown := Finite(dd);
        }
      }
    }
  }

  /** One entry of `return_series`. */
  datatype ReturnPoint = ReturnPoint(date: YearMonth, monthReturn: real, cumulative: real)

  /** The exact part of the backtest result; the annualised return, volatility
      and Sharpe ratio are not modelled. */
  datatype BacktestResult = BacktestResult(series: seq<ReturnPoint>, totalReturn: real, maxDrawdown: Drawdown)

  function SeriesOf(months: seq<YearMonth>, portfolioReturns: seq<real>, cumulative: seq<real>): (s: seq<ReturnPoint>)
    requires |portfolioReturns| == |months| && |cumulative| == |months|
    ensures |s| == |months|
  {
    seq(|months|, i requires 0 <= i < |months| => ReturnPoint(months[i], portfolioReturns[i], cumulative[i]))
  }

  /** The monthly portfolio returns of a backtest. */
  function BacktestReturns(tickers: seq<string>, weights: seq<real>, start: Date, end: Date, noise: seq<seq<real>>): (r: seq<real>)
    requires |weights| == |tickers| && NoiseShape(noise, tickers, MonthsSpec(start, end))
    ensures |r| == |MonthsSpec(start, end)|
  {
    var months := MonthsSpec(start, end);
    var table := ReturnTable(tickers, months, noise);
    var rows := Rows(tickers, table);
    assert RowShape(rows, |months|) by {
      forall j | 0 <= j < |rows| ensures |rows[j]| == |months| {
        ReturnTableLookup(tickers, months, noise, tickers[j]);
      }
    }
    PortfolioReturnsSpec(weights, rows, |months|)
  }

  /** What the backtest reports, apart from the statistics it does not model. */
  function BacktestSpec(tickers: seq<string>, weights: seq<real>, start: Date, end: Date, noise: seq<seq<real>>): BacktestResult
    requires |weights| == |tickers| && NoiseShape(noise, tickers, MonthsSpec(start, end))
    requires MonthsSpec(start, end) != []
  {
    var months := MonthsSpec(start, end);
    var portfolioReturns := BacktestReturns(tickers, weights, start, end, noise);
    var cumulative := CumulativeSpec(portfolioReturns);
    BacktestResult(SeriesOf(months, portfolioReturns, cumulative), TotalReturn(portfolioReturns), MaxDrawdownUpTo(cumulative, |cumulative|))
  }

  /** The reported total return is the compounded growth less one, and the
      reported drawdown is the maximum drawdown of the cumulative series,
      finite when the first month keeps some value; the series pairs each
      month with its return and the growth up to it. */
  lemma BacktestProperties(tickers: seq<string>, weights: seq<real>, start: Date, end: Date, noise: seq<seq<real>>)
    requires |weights| == |tickers| && NoiseShape(noise, tickers, MonthsSpec(start, end))
    requires MonthsSpec(start, end) != []
    ensures var r := BacktestSpec(tickers, weights, start, end, noise);
            var portfolioReturns := BacktestReturns(tickers, weights, start, end, noise);
            var c := CumulativeSpec(portfolioReturns);
            && r.totalReturn + 1.0 == Growth(portfolioReturns)
            && |r.series| == |MonthsSpec(start, end)|
            && r.series[|r.series| - 1].cumulative == r.totalReturn + 1.0
            && IsMaxDrawdown(c, |c|, r.maxDrawdown)
            && (1.0 + portfolioReturns[0] > 0.0 ==> r.maxDrawdown.Finite?)
            && forall i :: 0 <= i < |r.series| ==>
                 && r.series[i].date == MonthsSpec(start, end)[i]
                 && r.series[i].monthReturn == portfolioReturns[i]
                 && r.series[i].cumulative == Growth(portfolioReturns[..i + 1])
  {
    var portfolioReturns := BacktestReturns(tickers, weights, start, end, noise);
    var cumulative := CumulativeSpec(portfolioReturns);
    CumulativeSteps(portfolioReturns);
    MaxDrawdownIsMaximum(cumulative, |cumulative|);
    MaxDrawdownProperties(cumulative);
  }

  /** `generate_synthetic_backtest` without the statistics: enumerate the
      months, generate the ticker returns, take the weighted monthly sums,
      compound them and track the drawdown. */
  method SyntheticBacktest(tickers: seq<string>, weights: seq<real>, start: Date, end: Date, noise: seq<seq<real>>)
    returns (result: BacktestResult)
    requires ValidDate(start) && ValidDate(end)
    requires |weights| == |tickers| && NoiseShape(noise, tickers, MonthsSpec(start, end))
    requires MonthsSpec(start, end) != []
    ensures result == BacktestSpec(tickers, weights, start, end, noise)
  {
    var months := EnumerateMonths(start, end);
    var table := GenerateReturns(tickers, months, noise);
    var rows := Rows(tickers, table);
    assert RowShape(rows, |months|) by {
      forall j | 0 <= j < |rows| ensures |rows[j]| == |months| {
        ReturnTableLookup(tickers, months, noise, tickers[j]);
      }
    }
    var portfolioReturns := PortfolioReturns(weights, rows, |months|);
    var cumulative := Compound(portfolioReturns);
    var maxDrawdown := MaxDrawdown(cumulative);
    assert |portfolioReturns| == |months|;
    assert portfolioReturns[..|portfolioReturns|] == portfolioReturns;
    result := BacktestResult(SeriesOf(months, portfolioReturns, cumulative), cumulative[|cumulative| - 1] - 1.0, maxDrawdown);
  }
}
