/** ETF records and the validity filter of `PortfolioOptimizer.filter_valid_etfs`
    (app.py:368-401): an ETF is kept only when its 1-year CAGR is positive,
    its dividend yield is replaced by an effective yield, and absent fields
    receive fixed defaults. */
module Etf {
  import opened Common

  /** An ETF record as the catalog supplies it; `None` is a key absent from the dict. */
  datatype RawEtf = RawEtf(
    ticker: string,
    name: string,
    cagr1y: Option<real>,
    dividendYield: Option<real>,
    expectedDividendYield: Option<real>,
    category: Option<string>,
    riskLevel: Option<int>,
    cagr3y: Option<real>,
    cagr5y: Option<real>,
    volatility: Option<real>,
    beta: Option<real>,
    maxDrawdown: Option<real>,
    dividendQuality: Option<real>,
    dividendGrowth: Option<real>,
    dividendConsistency: Option<real>)

  /** A validated ETF: every field present. */
  datatype Etf = Etf(
    ticker: string,
    name: string,
    dividendYield: real,
    cagr1y: real,
    cagr3y: real,
    cagr5y: real,
    volatility: real,
    beta: real,
    maxDrawdown: real,
    riskLevel: int,
    category: string,
    dividendQuality: real,
    dividendGrowth: real,
    dividendConsistency: real)

  const DefaultVolatility: real := 0.15
  const DefaultBeta: real := 1.0
  const DefaultMaxDrawdown: real := -0.2
  const DefaultRiskLevel: int := 5
  const DefaultCategory: string := "UNKNOWN"
  const DefaultDividendQuality: real := 0.5
  const DefaultDividendGrowth: real := 0.02
  const DefaultDividendConsistency: real := 0.5

  /** `etf.get("cagr_1y", 0) > 0`. */
  predicate IsValid(e: RawEtf) {
    GetOr(e.cagr1y, 0.0) > 0.0
  }

  /** The expected yield replaces the trailing one only when it is positive and
      the trailing yield exceeds it by more than half (a stale or abnormal spike). */
  function EffectiveYield(current: real, expected: real): (y: real)
    ensures y == current || y == expected
    ensures y <= current
    ensures y != current ==> 0.0 < y && 3.0 * y < 2.0 * current
    ensures y == current <== (expected <= 0.0 || current <= expected * 1.5)
    ensures y == expected <== (expected > 0.0 && current > expected * 1.5)
  {
    if expected > 0.0 && current > expected * 1.5 then expected else current
  }

  /** The record `filter_valid_etfs` appends for a valid ETF: each optional
      field is copied when present and takes its default when absent. */
  function Normalize(e: RawEtf): (r: Etf)
    requires IsValid(e)
    ensures r.ticker == e.ticker && r.name == e.name
    ensures r.cagr1y == e.cagr1y.value && r.cagr1y > 0.0
    ensures r.dividendYield == EffectiveYield(GetOr(e.dividendYield, 0.0), GetOr(e.expectedDividendYield, 0.0))
    ensures e.cagr3y.None? ==> r.cagr3y == 0.9 * r.cagr1y
    ensures e.cagr5y.None? ==> r.cagr5y == 0.8 * r.cagr1y
    ensures e.volatility.None? ==> r.volatility == DefaultVolatility
    ensures e.beta.None? ==> r.beta == DefaultBeta
    ensures e.maxDrawdown.None? ==> r.maxDrawdown == DefaultMaxDrawdown
    ensures e.riskLevel.None? ==> r.riskLevel == DefaultRiskLevel
    ensures e.category.None? ==> r.category == DefaultCategory
    ensures e.dividendQuality.None? ==> r.dividendQuality == DefaultDividendQuality
    ensures e.dividendGrowth.None? ==> r.dividendGrowth == DefaultDividendGrowth
    ensures e.dividendConsistency.None? ==> r.dividendConsistency == DefaultDividendConsistency
    ensures e.cagr3y.Some? ==> r.cagr3y == e.cagr3y.value
    ensures e.cagr5y.Some? ==> r.cagr5y == e.cagr5y.value
    ensures e.volatility.Some? ==> r.volatility == e.volatility.value
    ensures e.beta.Some? ==> r.beta == e.beta.value
    ensures e.maxDrawdown.Some? ==> r.maxDrawdown == e.maxDrawdown.value
    ensures e.riskLevel.Some? ==> r.riskLevel == e.riskLevel.value
    ensures e.category.Some? ==> r.category == e.category.value
    ensures e.dividendQuality.Some? ==> r.dividendQuality == e.dividendQuality.value
    ensures e.dividendGrowth.Some? ==> r.dividendGrowth == e.dividendGrowth.value
    ensures e.dividendConsistency.Some? ==> r.dividendConsistency == e.dividendConsistency.value
  {
    var cagr1y := e.cagr1y.value;
    Etf(
      e.ticker,
      e.name,
      EffectiveYield(GetOr(e.dividendYield, 0.0), GetOr(e.expectedDividendYield, 0.0)),
      cagr1y,
      GetOr(e.cagr3y, cagr1y * 0.9),
      GetOr(e.cagr5y, cagr1y * 0.8),
      GetOr(e.volatility, DefaultVolatility),
      GetOr(e.beta, DefaultBeta),
      GetOr(e.maxDrawdown, DefaultMaxDrawdown),
      GetOr(e.riskLevel, DefaultRiskLevel),
      GetOr(e.category, DefaultCategory),
      GetOr(e.dividendQuality, DefaultDividendQuality),
      GetOr(e.dividendGrowth, DefaultDividendGrowth),
      GetOr(e.dividendConsistency, DefaultDividendConsistency))
  }

  /** The list `filter_valid_etfs` returns for the first |s| catalog entries. */
  function ValidEtfs(s: seq<RawEtf>): seq<Etf> {
    if s == [] then []
    else
      var last := s[|s| - 1];
      ValidEtfs(s[..|s| - 1]) + (if IsValid(last) then [Normalize(last)] else [])
  }

  /** Filtering distributes over concatenation: the kept entries of a + b are the
      kept entries of a followed by those of b, so input order is preserved. */
  lemma {:induction false} ValidEtfsAppend(a: seq<RawEtf>, b: seq<RawEtf>)
    ensures ValidEtfs(a + b) == ValidEtfs(a) + ValidEtfs(b)
    decreases |b|
  {
    if b == [] {
      assert a + b == a;
    } else {
      var b' := b[..|b| - 1];
      assert (a + b)[..|a + b| - 1] == a + b';
      ValidEtfsAppend(a, b');
    }
  }

  /** Exactly the valid ETFs are kept: every kept entry is the normalised form of
      a valid catalog entry, every valid catalog entry is kept, and nothing else. */
  lemma {:induction false} ValidEtfsKeepsExactlyValid(s: seq<RawEtf>)
    ensures |ValidEtfs(s)| <= |s|
    ensures forall x :: x in ValidEtfs(s) ==> x.cagr1y > 0.0
    ensures forall x :: x in ValidEtfs(s) ==>
              exists i :: 0 <= i < |s| && IsValid(s[i]) && x == Normalize(s[i])
    ensures forall i :: 0 <= i < |s| && IsValid(s[i]) ==> Normalize(s[i]) in ValidEtfs(s)
    decreases |s|
  {
    if s != [] {
      var init := s[..|s| - 1];
      ValidEtfsKeepsExactlyValid(init);
      forall x | x in ValidEtfs(s)
        ensures exists i :: 0 <= i < |s| && IsValid(s[i]) && x == Normalize(s[i])
      {
        if x in ValidEtfs(init) {
          var i :| 0 <= i < |init| && IsValid(init[i]) && x == Normalize(init[i]);
          assert s[i] == init[i];
        } else {
          assert IsValid(s[|s| - 1]) && x == Normalize(s[|s| - 1]);
        }
      }
      forall i | 0 <= i < |s| && IsValid(s[i]) ensures Normalize(s[i]) in ValidEtfs(s) {
        if i < |s| - 1 {
          assert s[i] == init[i];
        }
      }
    }
  }

  /** `filter_valid_etfs`: the append loop over the catalog. */
  method FilterValidEtfs(etfs: seq<RawEtf>) returns (valid: seq<Etf>)
    ensures valid == ValidEtfs(etfs)
    ensures forall x :: x in valid ==> x.cagr1y > 0.0
  {
    valid := [];
    for i := 0 to |etfs|
      invariant valid == ValidEtfs(etfs[..i])
    {
      var etf := etfs[i];
      assert etfs[..i + 1][..i] == etfs[..i];
      if GetOr(etf.cagr1y, 0.0) <= 0.0 {
        continue;
      }
      valid := valid + [Normalize(etf)];
    }
    assert etfs[..|etfs|] == etfs;
    ValidEtfsKeepsExactlyValid(etfs);
  }
}
