/** `PortfolioOptimizer.recommend_portfolio` (app.py:320-366): filter the
    catalog, pick the candidates (by profile when one is given, by focus
    otherwise), weight them with the chosen method and build the portfolio. */
module Recommend {
  import opened Common
  import opened Sorting
  import opened Etf
  import opened TopSelection
  import opened ProfileSelection
  import opened Optimizer
  import opened Builder

  /** `if investor_profile:`: no profile and the empty dict are both falsy. */
  predicate UsesProfile(profile: Option<Profile>) {
    profile.Some? && !IsEmptyProfile(profile.value)
  }

  /** The ETF records of scored entries. */
  function EtfsOf(s: seq<Scored>): (r: seq<Etf>)
    ensures |r| == |s| && forall i :: 0 <= i < |s| ==> r[i] == s[i].etf
  {
    seq(|s|, i requires 0 <= i < |s| => s[i].etf)
  }

  /** The candidates `recommend_portfolio` weights. */
  function Candidates(valid: seq<Etf>, focus: string, seedMoney: real, targetValue: real, profile: Option<Profile>): seq<Etf> {
    if UsesProfile(profile) then EtfsOf(SelectByProfileSpec(valid, profile.value, targetValue, seedMoney))
    else SelectTopSpec(valid, focus, targetValue, seedMoney)
  }

  /** Candidates drawn from `valid`: at most eight, each one of the valid
      ETFs, and at least one when some ETF is valid. */
  predicate DrawnFrom(c: seq<Etf>, valid: seq<Etf>) {
    && |c| <= MaxCandidates
    && (|valid| > 0 ==> |c| > 0)
    && forall e :: e in c ==> e in valid
  }

  lemma ProfileCandidatesDrawn(valid: seq<Etf>, p: Profile, targetValue: real, seedMoney: real)
    ensures DrawnFrom(EtfsOf(SelectByProfileSpec(valid, p, targetValue, seedMoney)), valid)
  {
    var r := SelectByProfileSpec(valid, p, targetValue, seedMoney);
    var c := EtfsOf(r);
    SelectByProfileProperties(valid, p, targetValue, seedMoney);
    forall e | e in c ensures e in valid {
      var i :| 0 <= i < |c| && c[i] == e;
      assert r[i] in r;
    }
  }

  lemma TopCandidatesDrawn(valid: seq<Etf>, focus: string, targetValue: real, seedMoney: real)
    ensures DrawnFrom(SelectTopSpec(valid, focus, targetValue, seedMoney), valid)
  {
    var c := SelectTopSpec(valid, focus, targetValue, seedMoney);
    SelectTopProperties(valid, focus, targetValue, seedMoney);
    forall e | e in c ensures e in valid {
      assert e in multiset(c);
    }
  }

  /** Whichever way they are chosen, the candidates are valid ETFs, at most
      eight of them, and at least one when some ETF is valid. */
  lemma CandidatesProperties(valid: seq<Etf>, focus: string, seedMoney: real, targetValue: real, profile: Option<Profile>)
    ensures DrawnFrom(Candidates(valid, focus, seedMoney, targetValue, profile), valid)
  {
    if UsesProfile(profile) {
      ProfileCandidatesDrawn(valid, profile.value, targetValue, seedMoney);
    } else {
      TopCandidatesDrawn(valid, focus, targetValue, seedMoney);
    }
  }

  /** The weights `recommend_portfolio` passes to `build_portfolio`. */
  function WeightsFor(top: seq<Etf>, focus: string, seedMoney: real, targetValue: real, methodName: string,
                      solve: Problem -> SolverOutcome): (w: seq<real>)
    requires |top| > 0
    requires SolverHonoursConstraints(solve)
    ensures |w| == |top| && Sum(w) == 1.0
  {
    ChooseWeightsProperties(top, methodName, focus, targetValue, seedMoney, solve);
    ChooseWeights(top, methodName, focus, targetValue, seedMoney, solve)
  }

  /** What `recommend_portfolio` returns, without the efficient-frontier data it
      attaches to every holding. */
  function RecommendSpec(catalog: seq<RawEtf>, focus: string, seedMoney: real, targetValue: real,
                         profile: Option<Profile>, methodName: string, solve: Problem -> SolverOutcome): seq<Holding>
    requires SolverHonoursConstraints(solve)
  {
    var valid := ValidEtfs(catalog);
    if valid == [] then []
    else
      var top := Candidates(valid, focus, seedMoney, targetValue, profile);
      CandidatesProperties(valid, focus, seedMoney, targetValue, profile);
      PortfolioSpec(top, WeightsFor(top, focus, seedMoney, targetValue, methodName, solve), seedMoney)
  }

  /** A holding that comes from a valid entry of the catalog: it carries that
      entry's ticker and its positive 1-year CAGR. */
  predicate FromCatalog(h: Holding, catalog: seq<RawEtf>) {
    exists i ::
      && 0 <= i < |catalog|
      && IsValid(catalog[i])
      && h.ticker == catalog[i].ticker
      && h.annualReturn == catalog[i].cagr1y.value
      && h.annualReturn > 0.0
  }

  /** The valid list is empty exactly when no catalog entry is valid, and each
      valid ETF is the normalised form of a valid catalog entry. */
  lemma ValidEtfsEmpty(catalog: seq<RawEtf>)
    ensures ValidEtfs(catalog) == [] <==> forall i :: 0 <= i < |catalog| ==> !IsValid(catalog[i])
    ensures forall x :: x in ValidEtfs(catalog) ==>
              exists i :: 0 <= i < |catalog| && IsValid(catalog[i]) && x == Normalize(catalog[i])
  {
    var valid := ValidEtfs(catalog);
    ValidEtfsKeepsExactlyValid(catalog);
    if valid != [] {
      assert valid[0] in valid;
    }
  }

  /** The portfolio built from candidates drawn from the valid ETFs, with
      weights that already sum to 1: as many holdings as candidates, largest
      weight first, each from a valid catalog entry, the weights summing to 1
      and each one of the weights chosen. */
  lemma BuiltFromCandidates(top: seq<Etf>, w: seq<real>, seedMoney: real, catalog: seq<RawEtf>)
    requires |w| == |top| && w != [] && Sum(w) == 1.0
    requires forall e :: e in top ==> e in ValidEtfs(catalog)
    ensures var p := PortfolioSpec(top, w, seedMoney);
            && |p| == |top|
            && SortedDescBy(p, WeightOf)
            && (forall h :: h in p ==> FromCatalog(h, catalog))
            && SumOf(p, WeightOf) == 1.0
            && (forall h :: h in p ==> exists k :: 0 <= k < |w| && h.weight == w[k])
  {
    var p := PortfolioSpec(top, w, seedMoney);
    ValidEtfsEmpty(catalog);
    PortfolioContents(top, w, seedMoney);
    RenormalizedSum(w);
    assert Renormalized(w) == w;
    forall h | h in p ensures FromCatalog(h, catalog) {
      var k :| 0 <= k < |top| && h == HoldingFor(top[k], w[k], seedMoney);
      assert top[k] in top;
      var i :| 0 <= i < |catalog| && IsValid(catalog[i]) && top[k] == Normalize(catalog[i]);
    }
    PortfolioWeightSum(top, w, seedMoney);
  }

  /** A recommendation drawn from the catalog: at most eight holdings, largest
      weight first, each an ETF with a positive 1-year CAGR taken from the
      catalog, with weights summing to 1 when there is any and each within
      [0.05, 0.4] when there are at least three. */
  predicate Recommendation(p: seq<Holding>, catalog: seq<RawEtf>) {
    && |p| <= MaxCandidates
    && SortedDescBy(p, WeightOf)
    && (forall h :: h in p ==> FromCatalog(h, catalog))
    && (p != [] ==> SumOf(p, WeightOf) == 1.0)
    && (|p| >= 3 ==> forall h :: h in p ==> LowerWeight <= h.weight <= UpperWeight)
  }

  /** The recommendation is empty exactly when no catalog entry is valid, and
      it is always a recommendation drawn from the catalog. */
  lemma RecommendProperties(catalog: seq<RawEtf>, focus: string, seedMoney: real, targetValue: real,
                            profile: Option<Profile>, methodName: string, solve: Problem -> SolverOutcome)
    requires SolverHonoursConstraints(solve)
    ensures var p := RecommendSpec(catalog, focus, seedMoney, targetValue, profile, methodName, solve);
            && (p == [] <==> forall i :: 0 <= i < |catalog| ==> !IsValid(catalog[i]))
            && Recommendation(p, catalog)
  {
    var valid := ValidEtfs(catalog);
    ValidEtfsEmpty(catalog);
    if valid != [] {
      var top := Candidates(valid, focus, seedMoney, targetValue, profile);
      CandidatesProperties(valid, focus, seedMoney, targetValue, profile);
      var w := WeightsFor(top, focus, seedMoney, targetValue, methodName, solve);
      ChooseWeightsProperties(top, methodName, focus, targetValue, seedMoney, solve);
      CandidatePortfolio(top, w, seedMoney, catalog);
    }
  }

  /** The portfolio built from at most eight valid candidates, weighted as
      `ChooseWeights` promises, is a non-empty recommendation. */
  lemma CandidatePortfolio(top: seq<Etf>, w: seq<real>, seedMoney: real, catalog: seq<RawEtf>)
    requires 0 < |top| <= MaxCandidates && |w| == |top| && Sum(w) == 1.0
    requires forall e :: e in top ==> e in ValidEtfs(catalog)
    requires 3 <= |top| <= 20 ==> forall i :: 0 <= i < |w| ==> LowerWeight <= w[i] <= UpperWeight
    ensures var p := PortfolioSpec(top, w, seedMoney);
            && p != []
            && Recommendation(p, catalog)
  {
    BuiltFromCandidates(top, w, seedMoney, catalog);
    var p := PortfolioSpec(top, w, seedMoney);
    if |p| >= 3 {
      forall h | h in p ensures LowerWeight <= h.weight <= UpperWeight {
        var k :| 0 <= k < |w| && h.weight == w[k];
      }
    }
  }

  /** `recommend_portfolio`. */
  method RecommendPortfolio(catalog: seq<RawEtf>, focus: string, seedMoney: real, targetValue: real,
                            profile: Option<Profile>, methodName: string, solve: Problem -> SolverOutcome)
    returns (portfolio: seq<Holding>)
    requires SolverHonoursConstraints(solve)
    ensures portfolio == RecommendSpec(catalog, focus, seedMoney, targetValue, profile, methodName, solve)
  {
    var valid := FilterValidEtfs(catalog);
    if valid == [] {
      return [];
    }
    var top: seq<Etf>;
    if UsesProfile(profile) {
      var scored := SelectEtfsByProfile(valid, profile.value, targetValue, seedMoney);
      top := EtfsOf(scored);
    } else {
      top := SelectTopEtfs(valid, focus, targetValue, seedMoney);
    }
    CandidatesProperties(valid, focus, seedMoney, targetValue, profile);
    var weights := WeightsFor(top, focus, seedMoney, targetValue, methodName, solve);
    portfolio := BuildPortfolio(top, weights, seedMoney);
  }
}
