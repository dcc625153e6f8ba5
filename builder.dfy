/** `PortfolioOptimizer.build_portfolio` (app.py:723-750): the weights are
    rescaled to sum to 1 unless they already do within 1e-6, each ETF is
    zipped with its weight into a holding that invests `seed_money * weight`,
    and the holdings are returned sorted by weight, largest first. */
module Builder {
  import opened Common
  import opened Etf
  import opened Sorting

  /** The tolerance under which the weights are taken to sum to 1. */
  const WeightTolerance: real := 0.000001

  /** One entry of the returned portfolio. */
  datatype Holding = Holding(
    name: string,
    ticker: string,
    weight: real,
    investAmount: real,
    dividendYield: real,
    annualReturn: real,
    riskLevel: int,
    category: string,
    volatility: real,
    beta: real,
    expectedMonthlyDividend: real,
    expectedAnnualReturnValue: real,
    dividendQuality: real)

  function WeightOf(h: Holding): real { h.weight }

  function InvestAmountOf(h: Holding): real { h.investAmount }

  /** Whether `build_portfolio` divides the weights by their total. */
  predicate NeedsRescaling(weights: seq<real>) {
    Abs(Sum(weights) - 1.0) > WeightTolerance
  }

  /** `[w / total for w in weights]`. */
  function Divided(weights: seq<real>, total: real): (r: seq<real>)
    requires weights != [] ==> total != 0.0
    ensures |r| == |weights|
  {
    seq(|weights|, i requires 0 <= i < |weights| => weights[i] / total)
  }

  /** The weights `build_portfolio` zips with the ETFs. A non-empty weight list
      summing to 0 would be divided by zero, so the caller must not pass one. */
  function Renormalized(weights: seq<real>): (r: seq<real>)
    requires weights != [] ==> Sum(weights) != 0.0
    ensures |r| == |weights|
  {
    if NeedsRescaling(weights) then Divided(weights, Sum(weights)) else weights
  }

  lemma {:induction false} SumDividedPrefix(weights: seq<real>, total: real, k: nat)
    requires total != 0.0 && k <= |weights|
    ensures Sum(Divided(weights, total)[..k]) == Sum(weights[..k]) / total
    decreases k
  {
    var r := Divided(weights, total);
    if k > 0 {
      SumDividedPrefix(weights, total, k - 1);
      assert r[..k][..k - 1] == r[..k - 1];
      assert weights[..k][..k - 1] == weights[..k - 1];
      assert Sum(r[..k]) == Sum(r[..k - 1]) + r[k - 1];
      assert Sum(weights[..k]) == Sum(weights[..k - 1]) + weights[k - 1];
    } else {
      assert r[..0] == [] && weights[..0] == [];
    }
  }

  /** After renormalising, a non-empty weight list sums to 1 exactly when it was
      rescaled, and within the tolerance of 1 otherwise; rescaling keeps the
      proportions between the weights. */
  lemma RenormalizedSum(weights: seq<real>)
    requires weights != [] ==> Sum(weights) != 0.0
    ensures NeedsRescaling(weights) && weights != [] ==> Sum(Renormalized(weights)) == 1.0
    ensures NeedsRescaling(weights) ==>
              forall i :: 0 <= i < |weights| ==> Renormalized(weights)[i] * Sum(weights) == weights[i]
    ensures !NeedsRescaling(weights) ==> Renormalized(weights) == weights
    ensures weights != [] ==> Abs(Sum(Renormalized(weights)) - 1.0) <= WeightTolerance
  {
    if NeedsRescaling(weights) && weights != [] {
      var total := Sum(weights);
      SumDividedPrefix(weights, total, |weights|);
      var r := Renormalized(weights);
      assert r == Divided(weights, total);
      assert r[..|weights|] == r && weights[..|weights|] == weights;
      assert Sum(r) == total / total;
      DivSelf(total);
    }
  }

  lemma DivSelf(x: real)
    requires x != 0.0
    ensures x / x == 1.0
  {
  }

  /** Renormalising twice is renormalising once. */
  lemma RenormalizedIdempotent(weights: seq<real>)
    requires weights != [] ==> Sum(weights) != 0.0
    ensures Renormalized(weights) != [] ==> Sum(Renormalized(weights)) != 0.0
    ensures Renormalized(Renormalized(weights)) == Renormalized(weights)
  {
    RenormalizedSum(weights);
    if weights != [] {
      RenormalizedSum(Renormalized(weights));
    }
  }

  /** The dict `build_portfolio` appends for one ETF and its weight. */
  function HoldingFor(e: Etf, weight: real, seedMoney: real): Holding {
    var investAmount := seedMoney * weight;
    Holding(
      e.name, e.ticker, weight, investAmount, e.dividendYield, e.cagr1y, e.riskLevel, e.category,
      e.volatility, e.beta, investAmount * e.dividendYield / 12.0, investAmount * e.cagr1y, e.dividendQuality)
  }

  /** `zip(etfs, weights)` turned into holdings: as long as the shorter list. */
  function Holdings(etfs: seq<Etf>, weights: seq<real>, seedMoney: real): (hs: seq<Holding>)
    ensures |hs| == Min(|etfs|, |weights|)
  {
    seq(Min(|etfs|, |weights|), i requires 0 <= i < Min(|etfs|, |weights|) => HoldingFor(etfs[i], weights[i], seedMoney))
  }

  /** The list `build_portfolio` returns. */
  function PortfolioSpec(etfs: seq<Etf>, weights: seq<real>, seedMoney: real): seq<Holding>
    requires weights != [] ==> Sum(weights) != 0.0
  {
    SortDesc(Holdings(etfs, Renormalized(weights), seedMoney), WeightOf)
  }

  lemma {:induction false} SumOfHoldingsPrefix(etfs: seq<Etf>, weights: seq<real>, seedMoney: real, k: nat)
    requires |etfs| == |weights| && k <= |weights|
    ensures SumOf(Holdings(etfs, weights, seedMoney)[..k], WeightOf) == Sum(weights[..k])
    decreases k
  {
    var hs := Holdings(etfs, weights, seedMoney);
    if k > 0 {
      SumOfHoldingsPrefix(etfs, weights, seedMoney, k - 1);
      assert hs[..k][..k - 1] == hs[..k - 1];
      assert weights[..k][..k - 1] == weights[..k - 1];
      assert SumOf(hs[..k], WeightOf) == SumOf(hs[..k - 1], WeightOf) + hs[k - 1].weight;
      assert Sum(weights[..k]) == Sum(weights[..k - 1]) + weights[k - 1];
    } else {
      assert hs[..0] == [] && weights[..0] == [];
    }
  }

  /** What the returned portfolio holds: one holding per zipped pair, largest
      weight first, each carrying its ETF's fields and its renormalised weight. */
  lemma PortfolioContents(etfs: seq<Etf>, weights: seq<real>, seedMoney: real)
    requires weights != [] ==> Sum(weights) != 0.0
    ensures var p := PortfolioSpec(etfs, weights, seedMoney);
            && |p| == Min(|etfs|, |weights|)
            && multiset(p) == multiset(Holdings(etfs, Renormalized(weights), seedMoney))
            && SortedDescBy(p, WeightOf)
            && (forall h :: h in p ==>
                  exists i :: 0 <= i < Min(|etfs|, |weights|) && h == HoldingFor(etfs[i], Renormalized(weights)[i], seedMoney))
  {
    var p := PortfolioSpec(etfs, weights, seedMoney);
    var r := Renormalized(weights);
    var hs := Holdings(etfs, r, seedMoney);
    forall h | h in p
      ensures exists i :: 0 <= i < Min(|etfs|, |weights|) && h == HoldingFor(etfs[i], r[i], seedMoney)
    {
      assert h in multiset(hs);
      var i :| 0 <= i < |hs| && hs[i] == h;
    }
  }

  /** The amounts a holding reports agree with its weight: it invests
      `seed_money * weight`, expects a twelfth of the yearly dividend on that
      amount each month and the 1-year CAGR on it each year. */
  predicate AmountsAgree(h: Holding, seedMoney: real) {
    && h.investAmount == seedMoney * h.weight
    && h.expectedMonthlyDividend * 12.0 == h.investAmount * h.dividendYield
    && h.expectedAnnualReturnValue == h.investAmount * h.annualReturn
  }

  lemma HoldingAmountsAgree(e: Etf, weight: real, seedMoney: real)
    ensures AmountsAgree(HoldingFor(e, weight, seedMoney), seedMoney)
  {
    var h := HoldingFor(e, weight, seedMoney);
    assert h.expectedMonthlyDividend == h.investAmount * h.dividendYield / 12.0;
  }

  lemma HoldingsAgree(etfs: seq<Etf>, weights: seq<real>, seedMoney: real)
    ensures forall h :: h in Holdings(etfs, weights, seedMoney) ==> AmountsAgree(h, seedMoney)
  {
    var hs := Holdings(etfs, weights, seedMoney);
    forall h | h in hs ensures AmountsAgree(h, seedMoney) {
      var i :| 0 <= i < |hs| && hs[i] == h;
      HoldingAmountsAgree(etfs[i], weights[i], seedMoney);
    }
  }

  /** Holdings whose amounts agree with their weights invest `seed_money` times
      their total weight: all of it when the weights sum to 1. */
  lemma InvestedTotal(p: seq<Holding>, seedMoney: real)
    requires forall h :: h in p ==> AmountsAgree(h, seedMoney)
    ensures SumOf(p, InvestAmountOf) == seedMoney * SumOf(p, WeightOf)
    ensures SumOf(p, WeightOf) == 1.0 ==> SumOf(p, InvestAmountOf) == seedMoney
  {
    SumOfScale(p, WeightOf, InvestAmountOf, seedMoney);
  }

  lemma PortfolioAgree(etfs: seq<Etf>, weights: seq<real>, seedMoney: real)
    requires weights != [] ==> Sum(weights) != 0.0
    ensures forall h :: h in PortfolioSpec(etfs, weights, seedMoney) ==> AmountsAgree(h, seedMoney)
  {
    var hs := Holdings(etfs, Renormalized(weights), seedMoney);
    HoldingsAgree(etfs, Renormalized(weights), seedMoney);
    forall h | h in PortfolioSpec(etfs, weights, seedMoney) ensures AmountsAgree(h, seedMoney) {
      assert h in multiset(hs);
    }
  }

  /** With as many weights as ETFs the portfolio's weights are the
      renormalised weights: they sum to 1 within 1e-6, exactly to 1 when they
      had to be rescaled, and to the given total otherwise. */
  lemma PortfolioWeightSum(etfs: seq<Etf>, weights: seq<real>, seedMoney: real)
    requires |etfs| == |weights| && weights != [] && Sum(weights) != 0.0
    ensures SumOf(PortfolioSpec(etfs, weights, seedMoney), WeightOf) == Sum(Renormalized(weights))
    ensures Abs(SumOf(PortfolioSpec(etfs, weights, seedMoney), WeightOf) - 1.0) <= WeightTolerance
    ensures NeedsRescaling(weights) ==> SumOf(PortfolioSpec(etfs, weights, seedMoney), WeightOf) == 1.0
  {
    var p := PortfolioSpec(etfs, weights, seedMoney);
    var r := Renormalized(weights);
    var hs := Holdings(etfs, r, seedMoney);
    RenormalizedSum(weights);
    SumOfPermutation(p, hs, WeightOf);
    SumOfHoldingsPrefix(etfs, r, seedMoney, |r|);
    assert hs[..|r|] == hs && r[..|r|] == r;
  }

  /** `build_portfolio`: the loop over `zip(etfs, weights)`, then the sort. */
  method BuildPortfolio(etfs: seq<Etf>, weights: seq<real>, seedMoney: real) returns (portfolio: seq<Holding>)
    requires weights != [] ==> Sum(weights) != 0.0
    ensures portfolio == PortfolioSpec(etfs, weights, seedMoney)
  {
    var totalWeight := Sum(weights);
    var w := weights;
    if Abs(totalWeight - 1.0) > WeightTolerance {
      w := Divided(weights, totalWeight);
    }
    var built: seq<Holding> := [];
    ghost var hs := Holdings(etfs, w, seedMoney);
    for i := 0 to Min(|etfs|, |w|)
      invariant built == hs[..i]
    {
      assert hs[..i + 1] == hs[..i] + [hs[i]];
      built := built + [HoldingFor(etfs[i], w[i], seedMoney)];
    }
    assert built == hs;
    portfolio := SortDesc(built, WeightOf);
  }
}
