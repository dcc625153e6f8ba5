/** Candidate selection without an investor profile:
    `PortfolioOptimizer.select_top_etfs` (app.py:403-463).

    The valid ETFs are sorted by distance to the target (dividend yield for the
    "dividend" focus, 1-year CAGR otherwise). A greedy pass then keeps at most 3
    ETFs per category (dividend) or at most 2 per category and 5 in all (other
    focus). A final pass keeps at most 8. Two top-up loops meant to reach 3
    candidates follow; `SelectTopSimplified` proves that neither can ever add
    an ETF. */
module TopSelection {
  import opened Common
  import opened Sorting
  import opened Etf

  const DividendCategoryCap: nat := 3
  const GrowthCategoryCap: nat := 2
  const GrowthFirstPassLimit: nat := 5
  const MaxCandidates: nat := 8
  const MinCandidates: nat := 3

  /** What the ETFs are ranked against. */
  datatype Ranking = ByYield(targetYield: real) | ByReturn(targetReturn: real)

  /** `(target_value * 12) / seed_money if seed_money > 0 else 0`: the annual
      yield that pays `target_value` every month. */
  function TargetYield(targetValue: real, seedMoney: real): (y: real)
    ensures seedMoney > 0.0 ==> y * seedMoney == targetValue * 12.0
    ensures seedMoney <= 0.0 ==> y == 0.0
  {
    if seedMoney > 0.0 then (targetValue * 12.0) / seedMoney else 0.0
  }

  function RankingFor(focus: string, targetValue: real, seedMoney: real): Ranking {
    if focus == "dividend" then ByYield(TargetYield(targetValue, seedMoney)) else ByReturn(targetValue)
  }

  /** The sort key: absolute distance of the ranked figure from the target. */
  function Distance(rk: Ranking, e: Etf): (d: real)
    ensures d >= 0.0
    ensures d == 0.0 <==> (if rk.ByYield? then e.dividendYield == rk.targetYield else e.cagr1y == rk.targetReturn)
  {
    match rk
    case ByYield(t) => Abs(e.dividendYield - t)
    case ByReturn(t) => Abs(e.cagr1y - t)
  }

  function DistanceKey(rk: Ranking): Etf -> real {
    e => Distance(rk, e)
  }

  /** How many entries of s belong to category c. */
  function CatCount(s: seq<Etf>, c: string): nat {
    if s == [] then 0
    else CatCount(s[..|s| - 1], c) + (if s[|s| - 1].category == c then 1 else 0)
  }

  /** `category_count[c]` of a `defaultdict(int)`. */
  function CountIn(counts: map<string, nat>, c: string): nat {
    if c in counts then counts[c] else 0
  }

  /** The dictionary of counts agrees with the entries selected so far. */
  ghost predicate CountsMatch(counts: map<string, nat>, s: seq<Etf>) {
    forall c :: CountIn(counts, c) == CatCount(s, c)
  }

  lemma CatCountSnoc(s: seq<Etf>, e: Etf)
    ensures forall c :: CatCount(s + [e], c) == CatCount(s, c) + (if e.category == c then 1 else 0)
  {
    assert (s + [e])[..|s|] == s;
  }

  lemma {:induction false} CatCountAtMostLength(s: seq<Etf>, c: string)
    ensures CatCount(s, c) <= |s|
    decreases |s|
  {
    if s != [] {
      CatCountAtMostLength(s[..|s| - 1], c);
    }
  }

  lemma {:induction false} CatCountPrefix(s: seq<Etf>, k: nat, c: string)
    requires k <= |s|
    ensures CatCount(s[..k], c) <= CatCount(s, c)
    decreases |s|
  {
    if k < |s| {
      assert s[..|s| - 1][..k] == s[..k];
      CatCountPrefix(s[..|s| - 1], k, c);
    } else {
      assert s[..k] == s;
    }
  }

  /** Appending one entry and bumping its category's counter keeps them in step. */
  lemma CountsMatchSnoc(counts: map<string, nat>, s: seq<Etf>, e: Etf)
    requires CountsMatch(counts, s)
    ensures CountsMatch(counts[e.category := CountIn(counts, e.category) + 1], s + [e])
  {
    CatCountSnoc(s, e);
  }

  /** The greedy pass over s: an ETF is taken while fewer than `limit` are taken
      and fewer than `cap` of its category are. Defined on the last entry, so
      `Pick(s[..i], ...)` is the selection after the loop has seen i entries. */
  function Pick(s: seq<Etf>, cap: nat, limit: nat): (r: seq<Etf>)
    ensures |r| <= |s| && |r| <= limit
  {
    if s == [] then []
    else
      var init, e := s[..|s| - 1], s[|s| - 1];
      var p := Pick(init, cap, limit);
      if |p| < limit && CatCount(p, e.category) < cap then p + [e] else p
  }

  /** The selection respects the per-category cap and draws only from its input. */
  lemma {:induction false} PickBounded(s: seq<Etf>, cap: nat, limit: nat)
    ensures forall c :: CatCount(Pick(s, cap, limit), c) <= cap
    ensures multiset(Pick(s, cap, limit)) <= multiset(s)
    decreases |s|
  {
    if s != [] {
      var init, e := s[..|s| - 1], s[|s| - 1];
      PickBounded(init, cap, limit);
      CatCountSnoc(Pick(init, cap, limit), e);
      assert s == init + [e];
    }
  }

  /** One more step of the pass: the entry at index i is taken ... */
  lemma PickTakes(s: seq<Etf>, i: nat, cap: nat, limit: nat)
    requires i < |s|
    requires |Pick(s[..i], cap, limit)| < limit && CatCount(Pick(s[..i], cap, limit), s[i].category) < cap
    ensures Pick(s[..i + 1], cap, limit) == Pick(s[..i], cap, limit) + [s[i]]
  {
    assert s[..i + 1][..i] == s[..i];
  }

  /** ... or turned away. */
  lemma PickSkips(s: seq<Etf>, i: nat, cap: nat, limit: nat)
    requires i < |s|
    requires |Pick(s[..i], cap, limit)| >= limit || CatCount(Pick(s[..i], cap, limit), s[i].category) >= cap
    ensures Pick(s[..i + 1], cap, limit) == Pick(s[..i], cap, limit)
  {
    assert s[..i + 1][..i] == s[..i];
  }

  /** Once `limit` entries are taken, the rest of the list changes nothing: the
      `break` at app.py:421-422 loses no candidate. */
  lemma {:induction false} PickSaturated(s: seq<Etf>, i: nat, cap: nat, limit: nat)
    requires i <= |s| && |Pick(s[..i], cap, limit)| >= limit
    ensures Pick(s, cap, limit) == Pick(s[..i], cap, limit)
    decreases |s| - i
  {
    if i < |s| {
      assert s[..i + 1][..i] == s[..i];
      PickSaturated(s, i + 1, cap, limit);
    } else {
      assert s[..i] == s;
    }
  }

  /** The selection keeps the order of its input: a sorted input gives a sorted selection. */
  lemma {:induction false} PickSorted(s: seq<Etf>, cap: nat, limit: nat, key: Etf -> real)
    requires SortedBy(s, key)
    ensures SortedBy(Pick(s, cap, limit), key)
    decreases |s|
  {
    if s != [] {
      var init, e := s[..|s| - 1], s[|s| - 1];
      PickSorted(init, cap, limit, key);
      var p := Pick(init, cap, limit);
      PickBounded(init, cap, limit);
      forall j | 0 <= j < |p| ensures key(p[j]) <= key(e) {
        assert p[j] in multiset(init);
        var k :| 0 <= k < |init| && init[k] == p[j];
      }
    }
  }

  /** Greedy maximality: an entry of s that was not taken was turned away because
      its category was full or the selection was. */
  lemma {:induction false} PickMaximal(s: seq<Etf>, cap: nat, limit: nat)
    ensures forall e :: e in s ==>
              e in Pick(s, cap, limit) || CatCount(Pick(s, cap, limit), e.category) >= cap
              || |Pick(s, cap, limit)| >= limit
    decreases |s|
  {
    if s != [] {
      var init, last := s[..|s| - 1], s[|s| - 1];
      PickMaximal(init, cap, limit);
      var p := Pick(init, cap, limit);
      CatCountSnoc(p, last);
      forall e | e in s
        ensures e in Pick(s, cap, limit) || CatCount(Pick(s, cap, limit), e.category) >= cap
                || |Pick(s, cap, limit)| >= limit
      {
        if e != last {
          assert e in init by {
            var k :| 0 <= k < |s| && s[k] == e;
            assert k < |s| - 1 && init[k] == e;
          }
        }
      }
    }
  }

  /** When no category exceeds `cap` already, the greedy pass just truncates to `limit`. */
  lemma {:induction false} PickOfCapped(s: seq<Etf>, cap: nat, limit: nat)
    requires forall c :: CatCount(s, c) <= cap
    ensures Pick(s, cap, limit) == s[..if |s| < limit then |s| else limit]
    decreases |s|
  {
    if s != [] {
      var init, e := s[..|s| - 1], s[|s| - 1];
      CatCountSnoc(init, e);
      assert s == init + [e];
      forall c ensures CatCount(init, c) <= cap {
        assert CatCount(init, c) <= CatCount(s, c);
      }
      PickOfCapped(init, cap, limit);
      var p := Pick(init, cap, limit);
      if |init| < limit {
        assert p == init;
        assert CatCount(p, e.category) < cap by {
          assert CatCount(s, e.category) == CatCount(init, e.category) + 1;
        }
        assert Pick(s, cap, limit) == init + [e];
      } else {
        assert p == init[..limit];
        assert Pick(s, cap, limit) == p;
        assert init[..limit] == s[..limit];
      }
    }
  }

  /** The first top-up (app.py:427-433): walk the sorted list and add ETFs not yet
      selected whose category has fewer than `cap`, stopping at `goal`. */
  function Fill(s: seq<Etf>, sel: seq<Etf>, cap: nat, goal: nat): seq<Etf> {
    if s == [] then sel
    else
      var e := s[0];
      if e !in sel && CatCount(sel, e.category) < cap then
        var sel' := sel + [e];
        if |sel'| >= goal then sel' else Fill(s[1..], sel', cap, goal)
      else Fill(s[1..], sel, cap, goal)
  }

  /** When every candidate is already selected or its category is full, the top-up adds nothing. */
  lemma {:induction false} FillNoop(s: seq<Etf>, sel: seq<Etf>, cap: nat, goal: nat)
    requires forall e :: e in s ==> e in sel || CatCount(sel, e.category) >= cap
    ensures Fill(s, sel, cap, goal) == sel
    decreases |s|
  {
    if s != [] {
      assert s[0] in s;
      FillNoop(s[1..], sel, cap, goal);
    }
  }

  /** `[e for e in s if e not in t]`. */
  function Without(s: seq<Etf>, t: seq<Etf>): (r: seq<Etf>)
    ensures forall e :: e in r ==> e in s && e !in t
  {
    if s == [] then []
    else Without(s[..|s| - 1], t) + (if s[|s| - 1] in t then [] else [s[|s| - 1]])
  }

  lemma {:induction false} WithoutAll(s: seq<Etf>, t: seq<Etf>)
    requires forall e :: e in s ==> e in t
    ensures Without(s, t) == []
    decreases |s|
  {
    if s != [] {
      assert s[|s| - 1] in s;
      WithoutAll(s[..|s| - 1], t);
    }
  }

  /** The second top-up (app.py:447-461): append from `rem` until 8 are selected,
      a dividend category is full, or `extra` more have been added. */
  function Extend(rem: seq<Etf>, top: seq<Etf>, dividend: bool, extra: int): seq<Etf> {
    if rem == [] then top
    else
      var e := rem[0];
      if |top| >= MaxCandidates || (dividend && CatCount(top, e.category) >= DividendCategoryCap) then top
      else if extra - 1 <= 0 then top + [e]
      else Extend(rem[1..], top + [e], dividend, extra - 1)
  }

  /** The first pass with its top-up (app.py:408-433). */
  function FirstPass(sorted: seq<Etf>, dividend: bool): seq<Etf> {
    if dividend then Pick(sorted, DividendCategoryCap, |sorted|)
    else
      var first := Pick(sorted, GrowthCategoryCap, GrowthFirstPassLimit);
      if |first| < MinCandidates then Fill(sorted, first, GrowthCategoryCap, MinCandidates) else first
  }

  /** The overall cap with its top-up (app.py:435-461). */
  function FinalPass(selected: seq<Etf>, key: Etf -> real, dividend: bool): seq<Etf> {
    var top := Pick(selected, if dividend then DividendCategoryCap else MaxCandidates, MaxCandidates);
    if |top| < MinCandidates then
      Extend(SortAsc(Without(selected, top), key), top, dividend, MinCandidates - |top|)
    else top
  }

  /** `select_top_etfs` as written, dead top-ups included. */
  function SelectTopSpec(valid: seq<Etf>, focus: string, targetValue: real, seedMoney: real): seq<Etf> {
    var dividend := focus == "dividend";
    var key := DistanceKey(RankingFor(focus, targetValue, seedMoney));
    FinalPass(FirstPass(SortAsc(valid, key), dividend), key, dividend)
  }

  /** Neither top-up ever adds an ETF, and the final cap-3 pass of the dividend
      path only truncates: the selection is the first 8 of the capped sorted list
      (dividend) or the capped first pass (other focus). */
  lemma SelectTopSimplified(valid: seq<Etf>, focus: string, targetValue: real, seedMoney: real)
    ensures var sorted := SortAsc(valid, DistanceKey(RankingFor(focus, targetValue, seedMoney)));
            SelectTopSpec(valid, focus, targetValue, seedMoney) ==
              if focus == "dividend" then
                var p := Pick(sorted, DividendCategoryCap, |sorted|);
                p[..if |p| < MaxCandidates then |p| else MaxCandidates]
              else Pick(sorted, GrowthCategoryCap, GrowthFirstPassLimit)
  {
    var dividend := focus == "dividend";
    var key := DistanceKey(RankingFor(focus, targetValue, seedMoney));
    var sorted := SortAsc(valid, key);
    var selected;
    if dividend {
      selected := Pick(sorted, DividendCategoryCap, |sorted|);
      PickBounded(sorted, DividendCategoryCap, |sorted|);
      PickOfCapped(selected, DividendCategoryCap, MaxCandidates);
    } else {
      var first := Pick(sorted, GrowthCategoryCap, GrowthFirstPassLimit);
      if |first| < MinCandidates {
        PickMaximal(sorted, GrowthCategoryCap, GrowthFirstPassLimit);
        FillNoop(sorted, first, GrowthCategoryCap, MinCandidates);
      }
      selected := first;
      forall c ensures CatCount(selected, c) <= MaxCandidates {
        CatCountAtMostLength(selected, c);
      }
      PickOfCapped(selected, MaxCandidates, MaxCandidates);
      assert selected[..|selected|] == selected;
    }
    var top := Pick(selected, if dividend then DividendCategoryCap else MaxCandidates, MaxCandidates);
    if |top| < MinCandidates {
      assert top == selected;
      WithoutAll(selected, top);
    }
  }

  /** The promises of `select_top_etfs`: size and per-category caps, order by
      distance to the target, and every candidate drawn from the valid list. */
  lemma SelectTopProperties(valid: seq<Etf>, focus: string, targetValue: real, seedMoney: real)
    ensures var top := SelectTopSpec(valid, focus, targetValue, seedMoney);
            && (focus == "dividend" ==> |top| <= MaxCandidates && forall c :: CatCount(top, c) <= DividendCategoryCap)
            && (focus != "dividend" ==> |top| <= GrowthFirstPassLimit && forall c :: CatCount(top, c) <= GrowthCategoryCap)
            && SortedBy(top, DistanceKey(RankingFor(focus, targetValue, seedMoney)))
            && multiset(top) <= multiset(valid)
            && (|valid| > 0 ==> |top| > 0)
  {
    var key := DistanceKey(RankingFor(focus, targetValue, seedMoney));
    var sorted := SortAsc(valid, key);
    var top := SelectTopSpec(valid, focus, targetValue, seedMoney);
    SelectTopSimplified(valid, focus, targetValue, seedMoney);
    var cap, limit, k;
    if focus == "dividend" {
      cap, limit := DividendCategoryCap, |sorted|;
      var p := Pick(sorted, cap, limit);
      k := if |p| < MaxCandidates then |p| else MaxCandidates;
      assert top == p[..k];
    } else {
      cap, limit := GrowthCategoryCap, GrowthFirstPassLimit;
      var p := Pick(sorted, cap, limit);
      k := |p|;
      assert top == p[..k];
    }
    PickPrefixFacts(sorted, cap, limit, k, key);
    if |valid| > 0 {
      PickNonEmpty(sorted, cap, limit);
    }
  }

  /** A prefix of the selection is sorted, capped and drawn from the input;
      it is non-empty when the input, the cap, the limit and k are. */
  lemma PickPrefixFacts(s: seq<Etf>, cap: nat, limit: nat, k: nat, key: Etf -> real)
    requires SortedBy(s, key)
    requires k <= |Pick(s, cap, limit)|
    ensures var t := Pick(s, cap, limit)[..k];
            && SortedBy(t, key)
            && multiset(t) <= multiset(s)
            && (forall c :: CatCount(t, c) <= cap)
            && (|s| > 0 && cap > 0 && limit > 0 && k > 0 ==> |t| > 0)
  {
    var p := Pick(s, cap, limit);
    PickSorted(s, cap, limit, key);
    PickBounded(s, cap, limit);
    assert p == p[..k] + p[k..];
    forall c ensures CatCount(p[..k], c) <= cap {
      CatCountPrefix(p, k, c);
    }
  }

  /** The first entry is always taken when the cap and the limit are positive. */
  lemma PickNonEmpty(s: seq<Etf>, cap: nat, limit: nat)
    requires |s| > 0 && cap > 0 && limit > 0
    ensures |Pick(s, cap, limit)| > 0
  {
    assert s[..1][..0] == [];
    assert |Pick(s[..1], cap, limit)| == 1;
    PickPrefixLength(s, 1, cap, limit);
  }

  /** The selection never shrinks as the pass goes on. */
  lemma {:induction false} PickPrefixLength(s: seq<Etf>, i: nat, cap: nat, limit: nat)
    requires i <= |s|
    ensures |Pick(s[..i], cap, limit)| <= |Pick(s, cap, limit)|
    decreases |s| - i
  {
    if i < |s| {
      assert s[..i + 1][..i] == s[..i];
      PickPrefixLength(s, i + 1, cap, limit);
    } else {
      assert s[..i] == s;
    }
  }

  // ---------------------------------------------------------------------------
  // The loops of select_top_etfs, each proved to compute its specification.

  /** Dividend path, first pass (app.py:409-414): at most 3 per category. */
  method CapPerCategory(sorted: seq<Etf>) returns (selected: seq<Etf>)
    ensures selected == Pick(sorted, DividendCategoryCap, |sorted|)
  {
    selected := [];
    var counts: map<string, nat> := map[];
    for i := 0 to |sorted|
      invariant selected == Pick(sorted[..i], DividendCategoryCap, |sorted|)
      invariant CountsMatch(counts, selected)
    {
      var etf := sorted[i];
      assert CountIn(counts, etf.category) == CatCount(selected, etf.category);
      if CountIn(counts, etf.category) < DividendCategoryCap {
        PickTakes(sorted, i, DividendCategoryCap, |sorted|);
        CountsMatchSnoc(counts, selected, etf);
        selected := selected + [etf];
        counts := counts[etf.category := CountIn(counts, etf.category) + 1];
      } else {
        PickSkips(sorted, i, DividendCategoryCap, |sorted|);
      }
    }
    assert sorted[..|sorted|] == sorted;
  }

  /** Other focus, first pass (app.py:418-425): at most 2 per category, stop at 5. */
  method CapPerCategoryUpToFive(sorted: seq<Etf>) returns (selected: seq<Etf>, counts: map<string, nat>)
    ensures selected == Pick(sorted, GrowthCategoryCap, GrowthFirstPassLimit)
    ensures CountsMatch(counts, selected)
  {
    selected, counts := [], map[];
    var i := 0;
    while i < |sorted|
      invariant 0 <= i <= |sorted|
      invariant selected == Pick(sorted[..i], GrowthCategoryCap, GrowthFirstPassLimit)
      invariant CountsMatch(counts, selected)
    {
      if |selected| >= GrowthFirstPassLimit {
        PickSaturated(sorted, i, GrowthCategoryCap, GrowthFirstPassLimit);
        break;
      }
      var etf := sorted[i];
      assert CountIn(counts, etf.category) == CatCount(selected, etf.category);
      if CountIn(counts, etf.category) < GrowthCategoryCap {
        PickTakes(sorted, i, GrowthCategoryCap, GrowthFirstPassLimit);
        CountsMatchSnoc(counts, selected, etf);
        selected := selected + [etf];
        counts := counts[etf.category := CountIn(counts, etf.category) + 1];
      } else {
        PickSkips(sorted, i, GrowthCategoryCap, GrowthFirstPassLimit);
      }
      i := i + 1;
    }
    if i == |sorted| {
      assert sorted[..i] == sorted;
    }
  }

  /** The first top-up loop (app.py:426-433). */
  method FillToMinimum(sorted: seq<Etf>, selected0: seq<Etf>, counts0: map<string, nat>)
    returns (selected: seq<Etf>, counts: map<string, nat>)
    requires CountsMatch(counts0, selected0)
    ensures selected == Fill(sorted, selected0, GrowthCategoryCap, MinCandidates)
    ensures CountsMatch(counts, selected)
  {
    selected, counts := selected0, counts0;
    var i := 0;
    while i < |sorted|
      invariant 0 <= i <= |sorted|
      invariant Fill(sorted[i..], selected, GrowthCategoryCap, MinCandidates)
                == Fill(sorted, selected0, GrowthCategoryCap, MinCandidates)
      invariant CountsMatch(counts, selected)
    {
      var etf := sorted[i];
      assert sorted[i..][1..] == sorted[i + 1..];
      if etf !in selected && CountIn(counts, etf.category) < GrowthCategoryCap {
        CountsMatchSnoc(counts, selected, etf);
        selected := selected + [etf];
        counts := counts[etf.category := CountIn(counts, etf.category) + 1];
        if |selected| >= MinCandidates {
          break;
        }
      }
      i := i + 1;
    }
  }

  /** One step of the overall cap on an unsaturated selection: the entry is
      turned away exactly when dividend focus has three of its category, and
      otherwise taken with its category's count raised by one. */
  lemma CapStep(selected: seq<Etf>, i: nat, dividend: bool, top: seq<Etf>, counts: map<string, nat>)
    requires i < |selected| && |top| < MaxCandidates
    requires top == Pick(selected[..i], if dividend then DividendCategoryCap else MaxCandidates, MaxCandidates)
    requires CountsMatch(counts, top)
    ensures var cap := if dividend then DividendCategoryCap else MaxCandidates;
            var e := selected[i];
            if dividend && CountIn(counts, e.category) >= DividendCategoryCap
            then Pick(selected[..i + 1], cap, MaxCandidates) == top
            else Pick(selected[..i + 1], cap, MaxCandidates) == top + [e]
                 && CountsMatch(counts[e.category := CountIn(counts, e.category) + 1], top + [e])
  {
    var cap: nat := if dividend then DividendCategoryCap else MaxCandidates;
    var e := selected[i];
    assert CountIn(counts, e.category) == CatCount(top, e.category);
    if dividend && CountIn(counts, e.category) >= DividendCategoryCap {
      PickSkips(selected, i, cap, MaxCandidates);
    } else {
      CatCountAtMostLength(top, e.category);
      PickTakes(selected, i, cap, MaxCandidates);
      CountsMatchSnoc(counts, top, e);
    }
  }

  /** The overall cap (app.py:436-445): at most 8, and for dividend focus at most 3 per category. */
  method CapAtEight(selected: seq<Etf>, dividend: bool) returns (top: seq<Etf>, counts: map<string, nat>)
    ensures top == Pick(selected, if dividend then DividendCategoryCap else MaxCandidates, MaxCandidates)
    ensures CountsMatch(counts, top)
  {
    var cap: nat := if dividend then DividendCategoryCap else MaxCandidates;
    top, counts := [], map[];
    for i := 0 to |selected|
      invariant top == Pick(selected[..i], cap, MaxCandidates)
      invariant CountsMatch(counts, top)
    {
      if |top| >= MaxCandidates {
        PickSaturated(selected, i, cap, MaxCandidates);
        return;
      }
      var etf := selected[i];
      CapStep(selected, i, dividend, top, counts);
      if dividend && CountIn(counts, etf.category) >= DividendCategoryCap {
        continue;
      }
      top := top + [etf];
      counts := counts[etf.category := CountIn(counts, etf.category) + 1];
    }
    assert selected[..|selected|] == selected;
  }

  /** The second top-up loop (app.py:447-461). */
  method TopUpToMinimum(remaining: seq<Etf>, top0: seq<Etf>, counts0: map<string, nat>, dividend: bool)
    returns (top: seq<Etf>)
    requires CountsMatch(counts0, top0)
    ensures top == Extend(remaining, top0, dividend, MinCandidates - |top0|)
  {
    var extraNeeded := MinCandidates - |top0|;
    top := top0;
    var counts: map<string, nat> := counts0;
    for i := 0 to |remaining|
      invariant Extend(remaining[i..], top, dividend, extraNeeded)
                == Extend(remaining, top0, dividend, MinCandidates - |top0|)
      invariant CountsMatch(counts, top)
    {
      var etf := remaining[i];
      assert remaining[i..][1..] == remaining[i + 1..];
      if |top| >= MaxCandidates || (dividend && CountIn(counts, etf.category) >= DividendCategoryCap) {
        break;
      }
      CountsMatchSnoc(counts, top, etf);
      top := top + [etf];
      counts := counts[etf.category := CountIn(counts, etf.category) + 1];
      extraNeeded := extraNeeded - 1;
      if extraNeeded <= 0 {
        break;
      }
    }
  }

  /** app.py:408-433: the first pass for the focus, then the first top-up. */
  method RunFirstPass(sorted: seq<Etf>, dividend: bool) returns (selected: seq<Etf>)
    ensures selected == FirstPass(sorted, dividend)
  {
    if dividend {
      selected := CapPerCategory(sorted);
    } else {
      var counts;
      selected, counts := CapPerCategoryUpToFive(sorted);
      if |selected| < MinCandidates {
        selected, counts := FillToMinimum(sorted, selected, counts);
      }
    }
  }

  /** app.py:435-461: the overall cap, then the second top-up. */
  method RunFinalPass(selected: seq<Etf>, key: Etf -> real, dividend: bool) returns (top: seq<Etf>)
    ensures top == FinalPass(selected, key, dividend)
  {
    var counts;
    top, counts := CapAtEight(selected, dividend);
    if |top| < MinCandidates {
      var remaining := SortAsc(Without(selected, top), key);
      top := TopUpToMinimum(remaining, top, counts, dividend);
    }
  }

  /** `select_top_etfs`. The caller's list is sorted in place in the source; the
      model sorts a copy (the caller does not read the list again). */
  method SelectTopEtfs(validEtfs: seq<Etf>, focus: string, targetValue: real, seedMoney: real)
    returns (top: seq<Etf>)
    ensures top == SelectTopSpec(validEtfs, focus, targetValue, seedMoney)
    ensures focus == "dividend" ==> |top| <= MaxCandidates && forall c :: CatCount(top, c) <= DividendCategoryCap
    ensures focus != "dividend" ==> |top| <= GrowthFirstPassLimit && forall c :: CatCount(top, c) <= GrowthCategoryCap
    ensures SortedBy(top, DistanceKey(RankingFor(focus, targetValue, seedMoney)))
    ensures multiset(top) <= multiset(validEtfs)
    ensures |validEtfs| > 0 ==> |top| > 0
  {
    var dividend := focus == "dividend";
    var key := DistanceKey(RankingFor(focus, targetValue, seedMoney));
    var sorted := SortAsc(validEtfs, key);
    var selected := RunFirstPass(sorted, dividend);
    top := RunFinalPass(selected, key, dividend);
    SelectTopProperties(validEtfs, focus, targetValue, seedMoney);
  }
}
