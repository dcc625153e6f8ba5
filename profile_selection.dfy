/** Candidate selection for an investor profile:
    `PortfolioOptimizer.select_etfs_by_profile` (app.py:465-561).

    Every valid ETF gets a profile score: a risk score (lower risk level is
    better, with a penalty above the profile's ceiling) times three category
    multipliers (horizon, income need, focus), a closeness-to-target score and a
    dividend-quality factor. The eight best scores are kept. A top-up meant to
    reach three categories follows; `SelectByProfileSimplified` proves that it
    can never add an ETF. */
module ProfileSelection {
  import opened Common
  import opened Sorting
  import opened Etf
  import opened TopSelection

  /** The investor profile dict; `None` is a key absent from it. */
  datatype Profile = Profile(
    riskTolerance: Option<string>,
    investmentHorizon: Option<string>,
    incomeNeeds: Option<string>,
    investmentFocus: Option<string>)

  /** Python truthiness of the dict: an empty profile selects without it. */
  predicate IsEmptyProfile(p: Profile) {
    p.riskTolerance.None? && p.investmentHorizon.None? && p.incomeNeeds.None? && p.investmentFocus.None?
  }

  function Horizon(p: Profile): string { GetOr(p.investmentHorizon, "medium") }
  function IncomeNeed(p: Profile): string { GetOr(p.incomeNeeds, "medium") }
  function Focus(p: Profile): string { GetOr(p.investmentFocus, "balanced") }

  const ProfileCandidates: nat := 8
  const MinCategories: nat := 3

  /** `risk_limits.get(risk_tolerance, 6)`, with an absent tolerance read as
      "moderate": 4 for conservative, 10 for aggressive, and 6 for moderate,
      an absent tolerance or any other string. */
  function MaxRisk(p: Profile): (m: int)
    ensures 4 <= m <= 10
    ensures GetOr(p.riskTolerance, "moderate") == "conservative" <==> m == 4
    ensures GetOr(p.riskTolerance, "moderate") == "aggressive" <==> m == 10
    ensures GetOr(p.riskTolerance, "moderate") !in {"conservative", "aggressive"} <==> m == 6
  {
    var limits := map["conservative" := 4, "moderate" := 6, "aggressive" := 10];
    var t := GetOr(p.riskTolerance, "moderate");
    if t in limits then limits[t] else 6
  }

  /** Category multipliers by investment horizon. */
  const HorizonWeights: map<string, map<string, real>> := map[
    "short" := map["BND" := 2.0, "DIV" := 1.5, "LV" := 1.2],
    "medium" := map["DIV" := 1.5, "LV" := 1.2, "LC" := 1.2],
    "long" := map["GRO" := 1.5, "LC" := 1.2, "SC" := 1.2]]

  /** Category multipliers by income need. */
  const IncomeWeights: map<string, map<string, real>> := map[
    "low" := map["GRO" := 1.5, "LC" := 1.2],
    "medium" := map["DIV" := 1.2, "CC" := 1.2],
    "high" := map["DIV" := 2.0, "CC" := 1.8, "BND" := 1.5]]

  /** Category multipliers by investment focus. */
  const FocusWeights: map<string, map<string, real>> := map[
    "dividend" := map["DIV" := 2.0, "CC" := 1.8, "RE" := 1.3],
    "growth" := map["GRO" := 2.0, "LC" := 1.5],
    "balanced" := map["DIV" := 1.3, "LC" := 1.3, "BND" := 1.3]]

  /** `table.get(row, {}).get(category, 1.0)`. */
  function Multiplier(table: map<string, map<string, real>>, row: string, category: string): real {
    if row in table && category in table[row] then table[row][category] else 1.0
  }

  /** Every multiplier of the three tables lies in [1, 2], so a table never
      lowers a score and at most doubles it. */
  lemma MultipliersBounded(row: string, category: string)
    ensures 1.0 <= Multiplier(HorizonWeights, row, category) <= 2.0
    ensures 1.0 <= Multiplier(IncomeWeights, row, category) <= 2.0
    ensures 1.0 <= Multiplier(FocusWeights, row, category) <= 2.0
  {
    TableBounded(HorizonWeights, row, category);
    TableBounded(IncomeWeights, row, category);
    TableBounded(FocusWeights, row, category);
  }

  lemma TableBounded(table: map<string, map<string, real>>, row: string, category: string)
    requires table == HorizonWeights || table == IncomeWeights || table == FocusWeights
    ensures 1.0 <= Multiplier(table, row, category) <= 2.0
  {
    if row in table && category in table[row] {
      var m := table[row];
      var rows := [
        map["BND" := 2.0, "DIV" := 1.5, "LV" := 1.2],
        map["DIV" := 1.5, "LV" := 1.2, "LC" := 1.2],
        map["GRO" := 1.5, "LC" := 1.2, "SC" := 1.2],
        map["GRO" := 1.5, "LC" := 1.2],
        map["DIV" := 1.2, "CC" := 1.2],
        map["DIV" := 2.0, "CC" := 1.8, "BND" := 1.5],
        map["DIV" := 2.0, "CC" := 1.8, "RE" := 1.3],
        map["GRO" := 2.0, "LC" := 1.5],
        map["DIV" := 1.3, "LC" := 1.3, "BND" := 1.3]];
      assert m in rows;
      var k :| 0 <= k < |rows| && rows[k] == m;
      assert category in rows[k];
    }
  }

  /** `1 - level/10`, lowered by 0.2 per level above the ceiling and clamped at 0.
      Within the ceiling the score is exactly `1 - level/10`; above it, it is that
      less 0.2 per level over, floored at 0, so lower or zero; it is never negative under a ceiling of at most 10, and it is zero
      from two levels above a ceiling of at least 4. */
  function RiskScore(level: int, maxRisk: int): (r: real)
    ensures level <= maxRisk ==> r == 1.0 - (level as real) / 10.0
    ensures level > maxRisk ==> r >= 0.0 && (r == 0.0 || r < 1.0 - (level as real) / 10.0)
    ensures level > maxRisk ==>
              var penalised := 1.0 - (level as real) / 10.0 - 0.2 * ((level - maxRisk) as real);
              r == (if penalised > 0.0 then penalised else 0.0)
    ensures maxRisk <= 10 ==> r >= 0.0
    ensures maxRisk >= 4 && level >= maxRisk + 2 ==> r == 0.0
  {
    var base := 1.0 - (level as real) / 10.0;
    if level > maxRisk then
      var penalised := base - ((level - maxRisk) as real) * 0.2;
      if penalised > 0.0 then penalised else 0.0
    else base
  }

  /** Under any profile's ceiling, a riskier ETF never scores better on risk. */
  lemma RiskScoreAntitone(l1: int, l2: int, p: Profile)
    requires l1 <= l2
    ensures RiskScore(l1, MaxRisk(p)) >= RiskScore(l2, MaxRisk(p))
  {
    var m := MaxRisk(p);
    assert (l2 as real) / 10.0 - (l1 as real) / 10.0 == ((l2 - l1) as real) / 10.0;
    if l1 > m {
      assert ((l2 - m) as real) * 0.2 - ((l1 - m) as real) * 0.2 == ((l2 - l1) as real) * 0.2;
    }
  }

  /** Closeness to the target: yield against the target yield for the dividend
      focus, 1-year CAGR against the target return otherwise. */
  function TargetScore(e: Etf, focus: string, targetValue: real, seedMoney: real): (r: real)
    ensures 0.0 < r <= 1.0
    ensures r == 1.0 <==> Distance(RankingFor(focus, targetValue, seedMoney), e) == 0.0
  {
    if focus == "dividend" then 1.0 / (1.0 + Abs(e.dividendYield - TargetYield(targetValue, seedMoney)) * 10.0)
    else 1.0 / (1.0 + Abs(e.cagr1y - targetValue) * 5.0)
  }

  /** Closer to the target means a higher target score. */
  lemma TargetScoreCloserIsBetter(e1: Etf, e2: Etf, focus: string, targetValue: real, seedMoney: real)
    requires Distance(RankingFor(focus, targetValue, seedMoney), e1) <= Distance(RankingFor(focus, targetValue, seedMoney), e2)
    ensures TargetScore(e1, focus, targetValue, seedMoney) >= TargetScore(e2, focus, targetValue, seedMoney)
  {
    var k := if focus == "dividend" then 10.0 else 5.0;
    var d1 := Distance(RankingFor(focus, targetValue, seedMoney), e1);
    var d2 := Distance(RankingFor(focus, targetValue, seedMoney), e2);
    assert TargetScore(e1, focus, targetValue, seedMoney) == 1.0 / (1.0 + d1 * k);
    assert TargetScore(e2, focus, targetValue, seedMoney) == 1.0 / (1.0 + d2 * k);
    ReciprocalAntitone(1.0 + d1 * k, 1.0 + d2 * k);
  }

  lemma ReciprocalAntitone(a: real, b: real)
    requires 0.0 < a <= b
    ensures 1.0 / a >= 1.0 / b
  {
    assert 1.0 / a * a == 1.0;
    assert 1.0 / b * b == 1.0;
    assert (1.0 / a) * b >= (1.0 / a) * a;
  }

  /** `0.5 + 0.5 * dividend_quality` for a dividend focus or a high income need, else 1. */
  function DividendFactor(e: Etf, p: Profile): (r: real)
    ensures Focus(p) != "dividend" && IncomeNeed(p) != "high" ==> r == 1.0
    ensures 0.0 <= e.dividendQuality <= 1.0 ==> 0.5 <= r <= 1.0
  {
    if Focus(p) == "dividend" || IncomeNeed(p) == "high" then 0.5 + 0.5 * e.dividendQuality else 1.0
  }

  /** `risk_score * horizon * income * focus * target_score * dividend_factor`. */
  function Product(r: real, h: real, i: real, f: real, t: real, d: real): real {
    r * h * i * f * t * d
  }

  /** The final profile score of one ETF. */
  function ProfileScore(e: Etf, p: Profile, targetValue: real, seedMoney: real): real {
    Product(
      RiskScore(e.riskLevel, MaxRisk(p)),
      Multiplier(HorizonWeights, Horizon(p), e.category),
      Multiplier(IncomeWeights, IncomeNeed(p), e.category),
      Multiplier(FocusWeights, Focus(p), e.category),
      TargetScore(e, Focus(p), targetValue, seedMoney),
      DividendFactor(e, p))
  }

  /** A score is never negative while the dividend quality is at least -1, and it is
      zero exactly when the risk score is zero or the dividend factor is. */
  lemma ProfileScoreSign(e: Etf, p: Profile, targetValue: real, seedMoney: real)
    requires e.dividendQuality >= -1.0
    ensures ProfileScore(e, p, targetValue, seedMoney) >= 0.0
    ensures ProfileScore(e, p, targetValue, seedMoney) == 0.0 <==>
              RiskScore(e.riskLevel, MaxRisk(p)) == 0.0 || DividendFactor(e, p) == 0.0
  {
    MultipliersBounded(Horizon(p), e.category);
    MultipliersBounded(IncomeNeed(p), e.category);
    MultipliersBounded(Focus(p), e.category);
    ProductSign(
      RiskScore(e.riskLevel, MaxRisk(p)),
      Multiplier(HorizonWeights, Horizon(p), e.category),
      Multiplier(IncomeWeights, IncomeNeed(p), e.category),
      Multiplier(FocusWeights, Focus(p), e.category),
      TargetScore(e, Focus(p), targetValue, seedMoney),
      DividendFactor(e, p));
  }

  /** The sign of the six-factor product when the four middle factors are positive. */
  lemma ProductSign(r: real, h: real, i: real, f: real, t: real, d: real)
    requires r >= 0.0 && h > 0.0 && i > 0.0 && f > 0.0 && t > 0.0 && d >= 0.0
    ensures Product(r, h, i, f, t, d) >= 0.0
    ensures Product(r, h, i, f, t, d) == 0.0 <==> r == 0.0 || d == 0.0
  {
    ScalePositive(r, h);
    ScalePositive(r * h, i);
    ScalePositive(r * h * i, f);
    ScalePositive(r * h * i * f, t);
    MulNonNegative(r * h * i * f * t, d);
  }

  /** Multiplying by a positive factor keeps the sign and zero-ness. */
  lemma ScalePositive(x: real, k: real)
    requires k > 0.0
    ensures x * k >= 0.0 <==> x >= 0.0
    ensures x * k == 0.0 <==> x == 0.0
  {
    if x < 0.0 {
      assert x * k < 0.0;
    } else if x > 0.0 {
      assert x * k > 0.0;
    }
  }

  /** An ETF with its score; `None` for an entry without a `profile_score` key. */
  datatype Scored = Scored(etf: Etf, profileScore: Option<real>)

  /** `x.get('profile_score', 0)`. */
  function ScoreOf(x: Scored): real {
    GetOr(x.profileScore, 0.0)
  }

  /** The scoring loop's output for the first |s| valid ETFs. */
  function ScoreAll(s: seq<Etf>, p: Profile, targetValue: real, seedMoney: real): (r: seq<Scored>)
    ensures |r| == |s|
    ensures forall i :: 0 <= i < |s| ==> r[i] == Scored(s[i], Some(ProfileScore(s[i], p, targetValue, seedMoney)))
  {
    if s == [] then []
    else ScoreAll(s[..|s| - 1], p, targetValue, seedMoney) + [Scored(s[|s| - 1], Some(ProfileScore(s[|s| - 1], p, targetValue, seedMoney)))]
  }

  /** `set(etf['category'] for etf in s)`. */
  function Categories(s: seq<Scored>): (cats: set<string>)
    ensures forall x :: x in s ==> x.etf.category in cats
    ensures forall c :: c in cats ==> exists x :: x in s && x.etf.category == c
  {
    if s == [] then {}
    else
      var init := s[..|s| - 1];
      var cats := Categories(init);
      assert forall x :: x in s ==> x in init || x == s[|s| - 1];
      cats + {s[|s| - 1].etf.category}
  }

  /** `[e for e in valid if e['category'] not in categories and e not in selected]`;
      the entries carry no score. */
  function Missing(valid: seq<Etf>, cats: set<string>, selected: seq<Scored>): (r: seq<Scored>)
    ensures forall x :: x in r ==> x.etf in valid && x.etf.category !in cats && x.profileScore.None?
    ensures forall x :: x in r ==> x !in selected
    ensures forall e :: e in valid && e.category !in cats && Scored(e, None) !in selected ==> Scored(e, None) in r
  {
    if valid == [] then []
    else
      var e := valid[|valid| - 1];
      Missing(valid[..|valid| - 1], cats, selected)
        + (if e.category !in cats && Scored(e, None) !in selected then [Scored(e, None)] else [])
  }

  /** The diversity top-up (app.py:551-559): append until three categories or eight entries. */
  function Diversify(missing: seq<Scored>, selected: seq<Scored>, cats: set<string>): seq<Scored>
    decreases |missing|
  {
    if missing == [] || |cats| >= MinCategories || |selected| >= ProfileCandidates then selected
    else Diversify(missing[1..], selected + [missing[0]], cats + {missing[0].etf.category})
  }

  /** The `ProfileCandidates` best-scored entries, in non-increasing score order. */
  function Ranked(valid: seq<Etf>, p: Profile, targetValue: real, seedMoney: real): seq<Scored> {
    var ranked := SortDesc(ScoreAll(valid, p, targetValue, seedMoney), ScoreOf);
    ranked[..Min(ProfileCandidates, |ranked|)]
  }

  /** `select_etfs_by_profile` as written, the diversity top-up included. */
  function SelectByProfileSpec(valid: seq<Etf>, p: Profile, targetValue: real, seedMoney: real): seq<Scored> {
    var selected := Ranked(valid, p, targetValue, seedMoney);
    var cats := Categories(selected);
    if |cats| < MinCategories && |valid| > |selected| then
      var missing := SortDesc(Missing(valid, cats, selected), ScoreOf);
      Diversify(missing, selected, cats)
    else selected
  }

  /** The top-up is dead code: it runs only when fewer than all valid ETFs were
      kept, which means eight were kept, and then it stops before appending. */
  lemma SelectByProfileSimplified(valid: seq<Etf>, p: Profile, targetValue: real, seedMoney: real)
    ensures SelectByProfileSpec(valid, p, targetValue, seedMoney) == Ranked(valid, p, targetValue, seedMoney)
  {
    var selected := Ranked(valid, p, targetValue, seedMoney);
    var cats := Categories(selected);
    if |cats| < MinCategories && |valid| > |selected| {
      assert |selected| == ProfileCandidates;
      var missing := SortDesc(Missing(valid, cats, selected), ScoreOf);
      assert Diversify(missing, selected, cats) == selected;
    }
  }

  /** What `select_etfs_by_profile` promises: min(8, |valid|) entries, each a valid
      ETF carrying its own profile score, in non-increasing score order, and no
      valid ETF left out scores higher than the last one kept. */
  lemma SelectByProfileProperties(valid: seq<Etf>, p: Profile, targetValue: real, seedMoney: real)
    ensures var r := SelectByProfileSpec(valid, p, targetValue, seedMoney);
            && |r| == Min(ProfileCandidates, |valid|)
            && SortedDescBy(r, ScoreOf)
            && (forall x :: x in r ==> x.etf in valid && x.profileScore == Some(ProfileScore(x.etf, p, targetValue, seedMoney)))
            && multiset(r) <= multiset(ScoreAll(valid, p, targetValue, seedMoney))
            && (|valid| > 0 ==> forall x :: x in ScoreAll(valid, p, targetValue, seedMoney) && x !in r ==> ScoreOf(x) <= ScoreOf(r[|r| - 1]))
  {
    SelectByProfileSimplified(valid, p, targetValue, seedMoney);
    RankedProperties(valid, p, targetValue, seedMoney);
  }

  lemma RankedProperties(valid: seq<Etf>, p: Profile, targetValue: real, seedMoney: real)
    ensures var r := Ranked(valid, p, targetValue, seedMoney);
            && |r| == Min(ProfileCandidates, |valid|)
            && SortedDescBy(r, ScoreOf)
            && (forall x :: x in r ==> x.etf in valid && x.profileScore == Some(ProfileScore(x.etf, p, targetValue, seedMoney)))
            && multiset(r) <= multiset(ScoreAll(valid, p, targetValue, seedMoney))
            && (|valid| > 0 ==> forall x :: x in ScoreAll(valid, p, targetValue, seedMoney) && x !in r ==> ScoreOf(x) <= ScoreOf(r[|r| - 1]))
  {
    RankedPrefix(valid, p, targetValue, seedMoney);
    ScoreAllEntries(valid, p, targetValue, seedMoney);
    var all := ScoreAll(valid, p, targetValue, seedMoney);
    var r := Ranked(valid, p, targetValue, seedMoney);
    forall x | x in r ensures x in all {
      assert x in multiset(r);
    }
  }

  /** The ranked entries are the best-scored prefix of the scored list. */
  lemma RankedPrefix(valid: seq<Etf>, p: Profile, targetValue: real, seedMoney: real)
    ensures var r := Ranked(valid, p, targetValue, seedMoney);
            var all := ScoreAll(valid, p, targetValue, seedMoney);
            && |r| == Min(ProfileCandidates, |valid|)
            && SortedDescBy(r, ScoreOf)
            && multiset(r) <= multiset(all)
            && (|valid| > 0 ==> forall x :: x in all && x !in r ==> ScoreOf(x) <= ScoreOf(r[|r| - 1]))
  {
    BestPrefix(ScoreAll(valid, p, targetValue, seedMoney));
  }

  /** The best-scored prefix of any scored list. */
  lemma BestPrefix(all: seq<Scored>)
    ensures var r := SortDesc(all, ScoreOf)[..Min(ProfileCandidates, |all|)];
            && |r| == Min(ProfileCandidates, |all|)
            && SortedDescBy(r, ScoreOf)
            && multiset(r) <= multiset(all)
            && (|all| > 0 ==> forall x :: x in all && x !in r ==> ScoreOf(x) <= ScoreOf(r[|r| - 1]))
  {
    var n := Min(ProfileCandidates, |all|);
    if n > 0 {
      SortDescPrefix(all, ScoreOf, n);
    }
  }

  /** Every scored entry is a valid ETF carrying its own profile score. */
  lemma ScoreAllEntries(valid: seq<Etf>, p: Profile, targetValue: real, seedMoney: real)
    ensures forall x :: x in ScoreAll(valid, p, targetValue, seedMoney) ==>
              x.etf in valid && x.profileScore == Some(ProfileScore(x.etf, p, targetValue, seedMoney))
  {
    var all := ScoreAll(valid, p, targetValue, seedMoney);
    forall x | x in all ensures x.etf in valid && x.profileScore == Some(ProfileScore(x.etf, p, targetValue, seedMoney)) {
      var i :| 0 <= i < |all| && all[i] == x;
    }
  }

  // ---------------------------------------------------------------------------
  // The loops of select_etfs_by_profile, each proved to compute its specification.

  /** The scoring loop (app.py:497-538). */
  method ScoreEtfs(valid: seq<Etf>, p: Profile, targetValue: real, seedMoney: real)
    returns (scored: seq<Scored>)
    ensures scored == ScoreAll(valid, p, targetValue, seedMoney)
  {
    var maxRisk := MaxRisk(p);
    scored := [];
    for i := 0 to |valid|
      invariant scored == ScoreAll(valid[..i], p, targetValue, seedMoney)
    {
      var etf := valid[i];
      var riskScore := 1.0 - (etf.riskLevel as real) / 10.0;
      if etf.riskLevel > maxRisk {
        var riskPenalty := ((etf.riskLevel - maxRisk) as real) * 0.2;
        riskScore := if riskScore - riskPenalty > 0.0 then riskScore - riskPenalty else 0.0;
      }
      var horizonMultiplier := Multiplier(HorizonWeights, Horizon(p), etf.category);
      var incomeMultiplier := Multiplier(IncomeWeights, IncomeNeed(p), etf.category);
      var focusMultiplier := Multiplier(FocusWeights, Focus(p), etf.category);
      var targetScore := 1.0;
      if Focus(p) == "dividend" {
        var targetDivYield := TargetYield(targetValue, seedMoney);
        targetScore := 1.0 / (1.0 + Abs(etf.dividendYield - targetDivYield) * 10.0);
      } else {
        targetScore := 1.0 / (1.0 + Abs(etf.cagr1y - targetValue) * 5.0);
      }
      var dividendFactor := 1.0;
      if Focus(p) == "dividend" || IncomeNeed(p) == "high" {
        dividendFactor := 0.5 + 0.5 * etf.dividendQuality;
      }
      assert riskScore == RiskScore(etf.riskLevel, maxRisk);
      assert targetScore == TargetScore(etf, Focus(p), targetValue, seedMoney);
      assert dividendFactor == DividendFactor(etf, p);
      var finalScore := Product(riskScore, horizonMultiplier, incomeMultiplier, focusMultiplier, targetScore, dividendFactor);
      assert finalScore == ProfileScore(etf, p, targetValue, seedMoney);
      assert valid[..i + 1][..i] == valid[..i];
      scored := scored + [Scored(etf, Some(finalScore))];
    }
    assert valid[..|valid|] == valid;
  }

  /** The diversity loop (app.py:551-559). */
  method DiversityTopUp(missing: seq<Scored>, selected0: seq<Scored>, cats0: set<string>)
    returns (selected: seq<Scored>)
    ensures selected == Diversify(missing, selected0, cats0)
  {
    selected := selected0;
    var categories := cats0;
    for i := 0 to |missing|
      invariant Diversify(missing[i..], selected, categories) == Diversify(missing, selected0, cats0)
    {
      assert missing[i..][1..] == missing[i + 1..];
      if |categories| >= MinCategories || |selected| >= ProfileCandidates {
        break;
      }
      var etf := missing[i];
      selected := selected + [etf];
      categories := categories + {etf.etf.category};
    }
  }

  /** `select_etfs_by_profile`. */
  method SelectEtfsByProfile(valid: seq<Etf>, p: Profile, targetValue: real, seedMoney: real)
    returns (selected: seq<Scored>)
    ensures selected == SelectByProfileSpec(valid, p, targetValue, seedMoney)
    ensures selected == Ranked(valid, p, targetValue, seedMoney)
  {
    var scored := ScoreEtfs(valid, p, targetValue, seedMoney);
    var ranked := SortDesc(scored, ScoreOf);
    selected := ranked[..Min(ProfileCandidates, |ranked|)];
    var categories := Categories(selected);
    if |categories| < MinCategories && |valid| > |selected| {
      var missing := SortDesc(Missing(valid, categories, selected), ScoreOf);
      selected := DiversityTopUp(missing, selected, categories);
    }
    SelectByProfileSimplified(valid, p, targetValue, seedMoney);
  }
}
