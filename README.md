# ETF portfolio optimizer — a verified model of its decision logic

This project models in Dafny the deterministic core of the two engine classes of
`app.py`:

- `PortfolioOptimizer` filters the ETF catalog and selects candidates, either by
  investment focus or by investor profile. It builds the constant-correlation
  covariance matrix and the objective functions, and dispatches on the
  optimisation method, falling back to equal weights. It then builds the
  portfolio.
- `PortfolioAnalyzer` contributes:
  - the deterministic skeleton of the synthetic backtest: months, the ticker
    classifier, the event overlay, the weighted monthly sum, compounding and
    maximum drawdown;
  - the stress test;
  - the guard, the shares and the expected dividend of the Monte Carlo
    simulation.

All amounts are Dafny `real`, so every identity below is exact over the
rationals. The numerical solver, random numbers and statistics with square roots
or fractional powers are outside the model (see "Left out").

The modules follow the program's structure:

| file | module | what |
|---|---|---|
| common.dfy | `Common` | `Option`, sums over sequences, `Square` |
| sorting.dfy | `Sorting` | Python's stable `sort`/`sorted`, by key, ascending and with `reverse=True` |
| etf.dfy | `Etf` | catalog records and `filter_valid_etfs` |
| top_selection.dfy | `TopSelection` | `select_top_etfs` |
| profile_selection.dfy | `ProfileSelection` | `select_etfs_by_profile` |
| optimizer.dfy | `Optimizer` | covariance, objectives, `optimize_*` fallback and method dispatch |
| builder.dfy | `Builder` | `build_portfolio` |
| recommend.dfy | `Recommend` | `recommend_portfolio` |
| calendar.dfy | `Calendar` | the month loop of `generate_synthetic_backtest` |
| backtest.dfy | `Backtest` | the rest of `generate_synthetic_backtest` |
| stress_test.dfy | `StressTest` | `stress_test_portfolio` |
| monte_carlo.dfy | `MonteCarlo` | the deterministic parts of `monte_carlo_simulation` |

Code written as loops that append to lists and update `category_count`
dictionaries is modelled as a `method` with loop invariants. Each such method is
proved equal to a specification function, and the properties are lemmas about
that function. Formulas and table lookups are functions. SLSQP appears as a
function parameter `solve` that may report failure. The Gaussian noise of the
backtest is a parameter `noise`.

Where the prose description of the system and the code disagree, the model
follows the code:

- **Top-ups.** The description says selection relaxes the category cap or tops
  up to reach three candidates, and that profile selection ensures three
  categories. In the code both top-up loops of `select_top_etfs` and the
  diversity loop of `select_etfs_by_profile` never add anything.
  `TopSelection.SelectTopSimplified` and
  `ProfileSelection.SelectByProfileSimplified` prove this. No selection
  guarantees three categories or three candidates.
- **Weight bounds.** The description says every optimiser output lies in
  [0.05, 0.40]. The equal-weight fallback `1/n` does so only for 3 ≤ n ≤ 20
  (`Optimizer.EqualWeightsProperties`). With one or two candidates the
  portfolio holds weights of 1 or 1/2.
- **Missing errors.** The description names an `InsufficientCandidates` error
  and a zero-capital guard for the backtest. The code has neither:
  - with no valid ETF, `recommend_portfolio` returns an empty list;
  - with an empty month range, the backtest indexes an empty list (app.py:949,
    app.py:957). This is a precondition here.

## Model

| member | source | states |
|---|---|---|
| Etf.EffectiveYield | app.py:377-379 | the expected yield is used exactly when it is positive and the current yield exceeds 1.5 times it, and the current yield otherwise; the result never exceeds the current yield |
| Etf.Normalize | app.py:381-399 | a kept entry carries its ticker, name and positive 1-year CAGR and the effective yield; each optional field present in the record is copied unchanged, and each missing field gets its default (3y = 0.9·1y, 5y = 0.8·1y, volatility 0.15, beta 1.0, max drawdown −0.2, risk level 5, category "UNKNOWN", quality 0.5, growth 0.02, consistency 0.5) |
| Etf.ValidEtfsKeepsExactlyValid | app.py:371-374 | the filtered list holds exactly the normalised entries with positive 1-year CAGR, every valid entry is in it, and it is no longer than the input |
| Etf.ValidEtfsAppend | app.py:370-401 | filtering distributes over concatenation, so input order is kept |
| Etf.FilterValidEtfs | app.py:368-401 | the append loop returns the filtered list, every entry with positive 1-year CAGR |
| Sorting.SortAsc | app.py:407 | the sorted list is a permutation of the input, ascending by the key |
| Sorting.SortDesc | app.py:545 | `sorted(..., reverse=True)` is a permutation of the input, descending by the key |
| Sorting.SortAscOfSorted | app.py:407 | sorting a list already in key order leaves it unchanged (stability) |
| Sorting.SortDescPrefix | app.py:545 | the first n of the descending sort come from the input, and every entry left out scores no more than the last one kept |
| TopSelection.TargetYield | app.py:406 | the target yield times the seed is twelve times the target value for a positive seed, and 0 otherwise |
| TopSelection.Distance | app.py:407 | the sort key is non-negative and zero exactly when the ranked figure equals the target |
| TopSelection.PickBounded | app.py:409-414 | the greedy capped pass keeps at most `cap` per category and only entries of its input |
| TopSelection.PickSorted | app.py:411-414 | the capped pass keeps the order of its input, so a sorted input gives a sorted selection |
| TopSelection.PickMaximal | app.py:421-426 | an entry the pass did not take was turned away because its category or the selection was full |
| TopSelection.PickSaturated | app.py:422-423 | once the limit is reached the rest of the list changes nothing, so the `break` loses no candidate |
| TopSelection.PickOfCapped | app.py:439-445 | when no category already exceeds the cap, the final pass only truncates to its limit |
| TopSelection.FillNoop | app.py:427-433 | the growth top-up adds nothing when every candidate is selected already or has a full category |
| TopSelection.WithoutAll | app.py:449 | `remaining` is empty when every entry is in the top list |
| TopSelection.SelectTopSimplified | app.py:403-463 | neither top-up adds anything; the result is the first 8 of the cap-3 pass (dividend) or the cap-2, at most 5, pass (other focus) |
| TopSelection.SelectTopProperties | app.py:403-463 | dividend focus: at most 8 ETFs, at most 3 per category; other focus: at most 5, at most 2 per category; always ascending distance to the target, drawn from the input, non-empty when the input is |
| TopSelection.CapPerCategory | app.py:409-415 | the dividend loop returns the cap-3 pass over the sorted list |
| TopSelection.CapPerCategoryUpToFive | app.py:419-426 | the growth loop returns the cap-2 pass limited to 5 and a count dictionary that matches it |
| TopSelection.FillToMinimum | app.py:427-433 | the first top-up loop returns its specification and keeps the counts in step |
| TopSelection.CapStep | app.py:442-445 | one step of the overall cap: the ETF is skipped exactly when dividend focus already has 3 of its category, and otherwise appended with its count raised by one |
| TopSelection.CapAtEight | app.py:436-445 | the overall-cap loop returns the cap pass limited to 8 with matching counts |
| TopSelection.TopUpToMinimum | app.py:447-461 | the second top-up loop returns its specification |
| TopSelection.SelectTopEtfs | app.py:403-463 | `select_top_etfs` returns its specification together with the caps, the ordering, the provenance and non-emptiness |
| ProfileSelection.MaxRisk | app.py:468-473 | the risk ceiling is 4 exactly for conservative, 10 exactly for aggressive, and 6 exactly for moderate, an absent tolerance or any other string, so always in [4, 10] |
| ProfileSelection.MultipliersBounded | app.py:476-514 | every horizon, income and focus multiplier lies in [1, 2], so a table never lowers a score and at most doubles it |
| ProfileSelection.RiskScore | app.py:503-508 | the risk score is 1 − level/10 within the ceiling; above it, it is 1 − level/10 − 0.2·(level − ceiling) floored at 0, so lower or zero, and is 0 two levels past the ceiling |
| ProfileSelection.RiskScoreAntitone | app.py:503-508 | a riskier ETF never scores higher on risk |
| ProfileSelection.TargetScore | app.py:517-522 | the target score lies in (0, 1] and is 1 exactly on target |
| ProfileSelection.TargetScoreCloserIsBetter | app.py:517-522 | an ETF closer to the target gets at least the target score of one further away |
| ProfileSelection.DividendFactor | app.py:525-527 | the dividend factor is 1 unless the focus is dividend or income need is high, and lies in [0.5, 1] for a quality in [0, 1] |
| ProfileSelection.ProfileScoreSign | app.py:530-537 | the score is non-negative and zero exactly when the risk score or the dividend factor is |
| ProfileSelection.ScoreAll | app.py:500-542 | one scored entry per valid ETF, in order, each carrying its own profile score |
| ProfileSelection.ScoreEtfs | app.py:500-542 | the scoring loop returns the scored list |
| ProfileSelection.Categories | app.py:548 | the category set is exactly the categories of the selection |
| ProfileSelection.Missing | app.py:550-552 | the missing list holds exactly the unscored valid ETFs of categories not yet selected that are not in the selection: each listed entry is one, and each one is listed |
| ProfileSelection.RankedProperties | app.py:545 | the top min(8, n) by score: descending, drawn from the scored list, each with its own score, and no left-out ETF scores above the last kept |
| ProfileSelection.BestPrefix | app.py:545 | the first min(8, n) of a descending sort are sorted, drawn from the input and dominate every entry left out |
| ProfileSelection.SelectByProfileSimplified | app.py:547-559 | the diversity top-up never changes the selection: it runs only when 8 were kept, and it then stops at once |
| ProfileSelection.SelectByProfileProperties | app.py:465-561 | `select_etfs_by_profile` returns min(8, n) valid ETFs in non-increasing score order, the best-scored ones |
| ProfileSelection.DiversityTopUp | app.py:555-559 | the diversity loop returns its specification |
| ProfileSelection.SelectEtfsByProfile | app.py:465-561 | `select_etfs_by_profile` returns its specification, which is the top-8 ranking |
| Optimizer.Volatilities | app.py:573 | the volatility vector holds each ETF's volatility in order |
| Optimizer.CovarianceMatrix | app.py:573-576 | the covariance matrix is n×n |
| Optimizer.CovarianceMatrixShape | app.py:573-576 | the matrix is symmetric with diagonal vol_i² and off-diagonal 0.5·vol_i·vol_j |
| Optimizer.MatVec | app.py:610 | each marginal contribution is the dot product of its covariance row with the weights |
| Optimizer.MarginalClosedForm | app.py:610 | (C w)_i = ½·vol_i·(vol·w) + ½·vol_i²·w_i |
| Optimizer.VarianceClosedForm | app.py:643-644 | wᵀCw = ½·(vol·w)² + ½·Σ(vol_i·w_i)² |
| Optimizer.VarianceNonNegative | app.py:643-644 | the portfolio variance is never negative |
| Optimizer.RiskContributionsSum | app.py:608-612 | with positive variance the risk contributions sum to 1; otherwise they are the weights |
| Optimizer.SquaredDeviationZero | app.py:617 | a sum of squared deviations is non-negative and zero exactly when every term equals the target |
| Optimizer.RiskParityObjectiveZero | app.py:614-617 | the risk-parity objective is non-negative and zero exactly at equal risk contributions 1/n |
| Optimizer.TargetReturnObjectiveBound | app.py:676-680 | the target-return objective is at least 100·(return − target)² ≥ 0 and is zero only on target |
| Optimizer.TargetDividendObjectiveBound | app.py:704-709 | the target-dividend objective is at least −quality and reaches it exactly on the target yield |
| Optimizer.NegativeSharpe | app.py:578-582 | with positive deviation −Sharpe·σ = rf − return, negative exactly when the return beats the risk-free rate; zero with no deviation |
| Optimizer.EqualWeights | app.py:586 | n weights, each 1/n |
| Optimizer.EqualWeightsProperties | app.py:586 | the equal weights sum to 1 and lie in [0.05, 0.4] exactly when 3 ≤ n ≤ 20 |
| Optimizer.ProblemFor | app.py:584-586 | every method poses bounds [0.05, 0.4], n weights and the equal-weight start |
| Optimizer.Optimize | app.py:584-594 | no weights for no ETFs; the solver's weights when it converges; otherwise exactly the starting weights `[1/n]*n`, which sum to 1 |
| Optimizer.ObjectiveFor | app.py:338-353 | the four method names have an objective and any other has none; target_return with dividend focus minimises the dividend objective at 12·target/seed (0 for a non-positive seed) |
| Optimizer.ChooseWeights | app.py:338-356 | an unknown method name yields the equal weights, which sum to 1 |
| Optimizer.ChooseWeightsProperties | app.py:338-356 | with a solver honouring its constraints, the weights are one per ETF, sum to 1, and lie in [0.05, 0.4] when 3 ≤ n ≤ 20 |
| Optimizer.FallbackIsEqualWeights | app.py:591-594 | when the solver does not converge on the problem the method name poses, or the name is unknown, the weights are exactly `[1/n]*n` |
| Builder.RenormalizedSum | app.py:726-730 | weights off by more than 1e-6 are divided by their total and then sum to 1; otherwise they are kept; either way the sum is within 1e-6 of 1 |
| Builder.RenormalizedIdempotent | app.py:726-730 | renormalising twice changes nothing more |
| Builder.Holdings | app.py:732 | `zip` yields as many holdings as the shorter list |
| Builder.HoldingAmountsAgree | app.py:733-746 | each holding invests seed·weight and expects invest·yield/12 monthly and invest·CAGR yearly |
| Builder.PortfolioContents | app.py:732-750 | the portfolio is a permutation of the zipped holdings with renormalised weights, sorted by weight descending |
| Builder.PortfolioAgree | app.py:732-750 | every holding of the built portfolio invests seed·weight with the matching monthly dividend and annual return value |
| Builder.InvestedTotal | app.py:733 | the invested amounts sum to seed times the weight sum, hence to the seed when the weights sum to 1 |
| Builder.PortfolioWeightSum | app.py:726-750 | the portfolio's weights sum to the renormalised sum, within 1e-6 of 1, and exactly 1 after renormalising |
| Builder.BuildPortfolio | app.py:723-750 | the append loop and sort return the portfolio specification |
| Recommend.EtfsOf | app.py:332 | the profile path's candidates are the ETFs of the scored entries, in order |
| Recommend.CandidatesProperties | app.py:331-335 | either way, at most 8 candidates, all valid, and at least one when any ETF is valid |
| Recommend.WeightsFor | app.py:338-356 | the dispatched weights are one per candidate and sum to 1 |
| Recommend.ValidEtfsEmpty | app.py:324-328 | the valid list is empty exactly when no catalog entry is valid |
| Recommend.BuiltFromCandidates | app.py:359 | the built portfolio has one holding per candidate, sorted by weight, each from a valid catalog entry, weights summing to 1 |
| Recommend.CandidatePortfolio | app.py:358-359 | built from at most 8 valid candidates, the portfolio is a non-empty recommendation |
| Recommend.RecommendProperties | app.py:320-366 | empty exactly when no ETF is valid; otherwise at most 8 holdings by descending weight from the catalog, weights summing to 1 and each in [0.05, 0.4] when there are at least 3 |
| Recommend.RecommendPortfolio | app.py:320-366 | `recommend_portfolio` returns its specification |
| Calendar.MonthAt | app.py:843 | the month with a given number is a real month with that number |
| Calendar.MonthNumberInjective | app.py:843 | a month is determined by its number |
| Calendar.NextMonthIsFirstOfNext | app.py:845-848 | the loop step moves to the first of the following month |
| Calendar.SuccIsNextNumber | app.py:845-848 | the month after a month is the one numbered one higher |
| Calendar.MonthsProperties | app.py:840-848 | (ey−sy)·12 + (em−sm) + 1 months when start ≤ end and none otherwise, from the start's month to the end's, each the successor of the one before |
| Calendar.MonthNumberOrder | app.py:842 | comparing valid months by number agrees with comparing them by year, then month |
| Calendar.FirstOfMonthNotAfter | app.py:842-848 | the first of a month records that month, and is not after a date exactly when its month is not after the date's |
| Calendar.EnumerateMonths | app.py:840-848 | the `while current <= end` loop returns the month list |
| Backtest.CoveredCallBranch | app.py:883-886 | a ticker containing "DIVO" is DIV, since the first test wins, so only JEPI or QYLD reach CC |
| Backtest.MarkerTickers | app.py:882-898 | SCHD and DIVO are DIV, JEPI is CC, QQQ is GRO |
| Backtest.BaseReturn | app.py:905-908 | every base monthly return lies in [0.003, 0.01] |
| Backtest.BaseVolatility | app.py:910-913 | every base monthly volatility lies in [0.01, 0.06] |
| Backtest.CategoryTableOrder | app.py:905-913 | growth has the highest base return and volatility; bonds the lowest volatility |
| Backtest.MarketEvent | app.py:851-862 | the market shock is non-zero exactly in the ten listed months and lies in [−0.20, 0.10] |
| Backtest.CategoryEvent | app.py:865-874 | a category shock occurs only in 2020-03, 2022-01, or 2023-07 for growth; every 2020-03 shock is negative |
| Backtest.EventOverlay | app.py:918-930 | a month without events returns base plus noise; March 2020 returns less than base plus noise minus 0.20 |
| Backtest.ReturnTable | app.py:900-932 | the table has one series per ticker |
| Backtest.ReturnTableLookup | app.py:932 | a repeated ticker's series is the one computed last |
| Backtest.DistinctLookup | app.py:932 | with distinct tickers each ticker's series uses its own noise |
| Backtest.GenerateReturns | app.py:900-932 | the per-ticker loop returns the table |
| Backtest.PortfolioReturnIsAverage | app.py:935-940 | with non-negative weights summing to 1, each monthly portfolio return lies between the least and greatest asset returns |
| Backtest.PortfolioReturns | app.py:935-940 | the weighted-sum loop returns its specification |
| Backtest.GrowthPositive | app.py:943-946 | compounding returns above −1 gives a positive growth factor |
| Backtest.GrowthAppend | app.py:943-946 | the growth of consecutive periods is the product of their growths |
| Backtest.CumulativeSteps | app.py:943-946 | cumulative[0] = 1 + r_0, and each later entry is the previous times (1 + r_i) |
| Backtest.Compound | app.py:943-946 | the compounding loop returns the cumulative series |
| Backtest.TotalReturn | app.py:949 | total return plus 1 is the product of all (1 + r) |
| Backtest.NonNegativeReturnsRise | app.py:943-946 | non-negative returns give a non-decreasing cumulative series |
| Backtest.GrowthAtLeastOne | app.py:943-946 | non-negative returns compound to at least 1 |
| Backtest.Peak | app.py:957-962 | the running peak is at least the first value and the current value |
| Backtest.PeakIsMaximum | app.py:957-962 | the running peak is the largest value so far and is attained |
| Backtest.DrawdownBounds | app.py:963 | a drawdown below a positive peak is non-negative, below a negative peak non-positive, below 1 for a positive value, and 0 at the peak |
| Backtest.UnboundedExactlyOnFall | app.py:960-965 | the maximum drawdown is +inf exactly when some value falls below a zero running peak |
| Backtest.FiniteIsLargest | app.py:958-965 | a finite maximum drawdown is at least 0, bounds every drawdown at a non-zero peak, and is 0 or one of them |
| Backtest.MaxDrawdownIsMaximum | app.py:958-965 | the maximum drawdown is +inf exactly on a fall below a zero peak, and otherwise the largest drawdown or 0 |
| Backtest.MaxDrawdownProperties | app.py:957-965 | the maximum drawdown is finite when the first value is positive, lies in [0, 1) for a positive series, and is 0 for any non-decreasing one |
| Backtest.MaxDrawdown | app.py:957-965 | the running-peak loop, with numpy's division by a zero peak, returns the maximum drawdown |
| Backtest.BacktestReturns | app.py:935-940 | one portfolio return per month |
| Backtest.BacktestProperties | app.py:835-985 | the series has one point per month with its date, return and growth so far, ends at total return + 1, total return + 1 is the product of (1 + r), and the reported drawdown is the maximum drawdown of the cumulative series, finite when the first month keeps some value |
| Backtest.SyntheticBacktest | app.py:835-985 | `generate_synthetic_backtest` returns its specification for any month returns, a first-month loss of 100% or more included |
| StressTest.ScenarioTable | app.py:989-1048 | exactly four scenarios are known, each listing exactly the six sectors, with a positive volatility multiplier |
| StressTest.UnlistedSectorUnshocked | app.py:1062 | a category no scenario lists gets no sector shock |
| StressTest.VolatilityImpact | app.py:1066-1069 | the volatility adjustment is 1 without a volatility and volatility/0.15 with one |
| StressTest.ImpactAgrees | app.py:1073-1082 | each asset's new value is its current value plus its change, and the change is its value times the impact |
| StressTest.ImpactsSums | app.py:1053-1088 | the assets' current values add up to the invested total, and their new values to that total plus the total change |
| StressTest.ReportProperties | app.py:1053-1099 | a known scenario yields a consistent report: one impact per asset, new value = total + change = Σ new values, impact × total = change |
| StressTest.StressProperties | app.py:1048-1099 | the error is returned exactly for an unknown scenario, and a report is always consistent |
| StressTest.BondBeatsGrowthInBearMarket | app.py:990-1001 | in the bear market a BND holding loses less than a GRO holding of the same volatility |
| StressTest.CombinedShockSign | app.py:989-1044 | the combined shock is negative for every category in the bear market and positive in the Fed pivot |
| StressTest.ScenarioDirections | app.py:1072 | in the bear market every asset with positive volatility loses; in the Fed pivot every one gains |
| StressTest.StressTestPortfolio | app.py:987-1099 | the guard and the impact loop return the stress specification |
| MonteCarlo.MonteCarloProperties | app.py:1103-1188 | `None` exactly when nothing positive is invested; otherwise the shares sum to 1, each share times the total is the position's amount, and the dividend per 10m is ten million times the monthly yield |
| MonteCarlo.BuiltTotal | app.py:1103 | holdings whose amounts sum to the seed have the seed as their invested total |
| MonteCarlo.BuiltShares | app.py:1117 | on a built portfolio each share is the holding's weight |
| MonteCarlo.BuiltDividend | app.py:1173-1176 | on a built portfolio the expected monthly dividend is the sum of the holdings' monthly dividends |
| MonteCarlo.BuiltPortfolioSimulation | app.py:1101-1176 | on a portfolio built from a positive seed the simulation runs with the seed as total, shares equal to the weights, and the holdings' summed dividend |
| MonteCarlo.MonteCarloSetup | app.py:1103-1188 | the guard and the two loops return the simulation's deterministic outputs |

## Left out

- Streamlit pages, session state, spinners, warnings and font setup: presentation only.
- `ETFDataManager`: CSV I/O, file ages and random mock data. The catalog is an input list of `RawEtf` records.
- SLSQP (`scipy.optimize.minimize`) is a foreign solver. It is the parameter `solve`, which either fails or returns weights. `SolverHonoursConstraints` assumes converged weights meet the problem's bounds and sum to 1; optimality is not modelled.
- The exception path of the `optimize_*` methods is the same as a failed solve: both return the start weights.
- `np.random`: the backtest's Gaussian noise is the `noise` parameter, one value per ticker and month. The Monte Carlo paths, frontier sampling and random mock data are not modelled.
- Statistics with square roots, fractional powers, means, standard deviations or percentiles are not modelled: the Sharpe ratio's `sqrt`, the backtest's annualised return, volatility and Sharpe ratio, the daily conversion in the Monte Carlo simulation and its percentiles. `Optimizer.NegativeSharpe` takes the standard deviation as a parameter.
- `generate_efficient_frontier`, attached to every holding by `recommend_portfolio`: random sampling. `RecommendSpec` returns the holdings without it.
- `PortfolioVisualizer`: matplotlib rendering.
- `strptime`/`strftime`: dates are (year, month, day) triples, and recorded months are (year, month) pairs instead of "YYYY-MM" text.
- The scenario names, descriptions and the error message text of the stress test.
- Floating-point rounding: every amount is an exact real. The one IEEE rule modelled is numpy's division by a zero running peak in the drawdown loop: +inf for a fall, NaN (never greater) for 0/0.
- `select_top_etfs` sorts the caller's list in place. The model sorts a value, since no caller reads that list again.
- `filter_valid_etfs` raises `KeyError` for a kept record (one with positive `cagr_1y`) that has no `ticker` or no `name` (app.py:385-386). The model's record always has both. A record without `cagr_1y` raises nothing: `etf.get("cagr_1y", 0)` counts it as 0 and skips it (app.py:373), as the model does.
- `investor_profile` is a dict in the source, and any non-empty dict takes the profile path (app.py:331), even one holding only keys other than the four the selection reads. The model's `Profile` has just those four optional fields, so `IsEmptyProfile` treats such a dict as no profile.
- Divisions by zero and indexing of empty lists are preconditions: `StressTest.StressSpec` requires a non-zero total investment (app.py:1087) and `Backtest.BacktestProperties` a non-empty month list (app.py:949, app.py:957).
- `Builder.BuildPortfolio` requires a non-zero weight sum (app.py:730).
- `MonteCarlo.BuiltPortfolioSimulation`: requires that the holdings' invested amounts add up to the seed. `build_portfolio` guarantees this for weights summing to 1 (`Builder.InvestedTotal`). For unrenormalised weights, which are within 1e-6 of 1, the total differs from the seed by up to seed·1e-6, and that case is not covered.
- `Backtest.BacktestProperties`: does not bound the drawdown below 1, because that needs every cumulative value positive; `Backtest.MaxDrawdownProperties` states it under that assumption.
