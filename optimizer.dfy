/** The weight-optimisation scaffolding of `PortfolioOptimizer`
    (app.py:563-721) and the method dispatch of `recommend_portfolio`
    (app.py:338-356).

    Every `optimize_*` method builds the same constant-correlation covariance
    matrix, poses a problem to SLSQP (weights in [0.05, 0.4] summing to 1,
    starting from equal weights) and falls back to the starting weights when
    the solver reports failure or raises. The solver is an oracle: a function
    from the posed problem to its outcome. */
module Optimizer {
  import opened Common
  import opened Etf

  const LowerWeight: real := 0.05
  const UpperWeight: real := 0.4
  const OffDiagonalCorrelation: real := 0.5
  const SharpeRiskFreeRate: real := 0.03

  // ---------------------------------------------------------------------------
  // Vectors and the covariance matrix

  /** Σ_{j<k} a_j b_j. */
  function DotPrefix(a: seq<real>, b: seq<real>, k: nat): real
    requires |a| == |b| && k <= |a|
  {
    if k == 0 then 0.0 else DotPrefix(a, b, k - 1) + a[k - 1] * b[k - 1]
  }

  /** `np.sum(a * b)` / `np.dot(a, b)`. */
  function Dot(a: seq<real>, b: seq<real>): real
    requires |a| == |b|
  {
    DotPrefix(a, b, |a|)
  }

  lemma {:induction false} DotPrefixCommutes(a: seq<real>, b: seq<real>, k: nat)
    requires |a| == |b| && k <= |a|
    ensures DotPrefix(a, b, k) == DotPrefix(b, a, k)
    decreases k
  {
    if k > 0 {
      DotPrefixCommutes(a, b, k - 1);
    }
  }

  /** Σ_{j<k} (a_j b_j)². */
  function SquaredProductsPrefix(a: seq<real>, b: seq<real>, k: nat): (r: real)
    requires |a| == |b| && k <= |a|
    ensures r >= 0.0
  {
    if k == 0 then 0.0 else SquaredProductsPrefix(a, b, k - 1) + Square(a[k - 1] * b[k - 1])
  }

  /** Σ (a_i b_i)², the diagonal part of the portfolio variance. */
  function SquaredProducts(a: seq<real>, b: seq<real>): real
    requires |a| == |b|
  {
    SquaredProductsPrefix(a, b, |a|)
  }

  function Volatilities(etfs: seq<Etf>): (v: seq<real>)
    ensures |v| == |etfs| && forall i :: 0 <= i < |etfs| ==> v[i] == etfs[i].volatility
  {
    seq(|etfs|, i requires 0 <= i < |etfs| => etfs[i].volatility)
  }

  function Returns(etfs: seq<Etf>): (r: seq<real>)
    ensures |r| == |etfs| && forall i :: 0 <= i < |etfs| ==> r[i] == etfs[i].cagr1y
  {
    seq(|etfs|, i requires 0 <= i < |etfs| => etfs[i].cagr1y)
  }

  function DividendYields(etfs: seq<Etf>): (r: seq<real>)
    ensures |r| == |etfs| && forall i :: 0 <= i < |etfs| ==> r[i] == etfs[i].dividendYield
  {
    seq(|etfs|, i requires 0 <= i < |etfs| => etfs[i].dividendYield)
  }

  function DividendQualities(etfs: seq<Etf>): (r: seq<real>)
    ensures |r| == |etfs| && forall i :: 0 <= i < |etfs| ==> r[i] == etfs[i].dividendQuality
  {
    seq(|etfs|, i requires 0 <= i < |etfs| => etfs[i].dividendQuality)
  }

  predicate IsSquare(c: seq<seq<real>>, n: nat) {
    |c| == n && forall i :: 0 <= i < n ==> |c[i]| == n
  }

  /** Entry (i, j) of `np.outer(vols, vols) * corr`, the correlation being 1 on
      the diagonal and 0.5 elsewhere (app.py:573-576). */
  function Covariance(vols: seq<real>, i: nat, j: nat): real
    requires i < |vols| && j < |vols|
  {
    vols[i] * vols[j] * (if i == j then 1.0 else OffDiagonalCorrelation)
  }

  /** The constant-correlation covariance matrix. */
  function CovarianceMatrix(vols: seq<real>): (c: seq<seq<real>>)
    ensures IsSquare(c, |vols|)
  {
    var n := |vols|;
    seq(n, i requires 0 <= i < n => seq(n, j requires 0 <= j < n => Covariance(vols, i, j)))
  }

  /** The covariance matrix is symmetric, holds the variances on the diagonal and
      half the product of the volatilities off it. */
  lemma CovarianceMatrixShape(vols: seq<real>)
    ensures var c := CovarianceMatrix(vols);
            && (forall i, j :: 0 <= i < |vols| && 0 <= j < |vols| ==> c[i][j] == c[j][i])
            && (forall i :: 0 <= i < |vols| ==> c[i][i] == Square(vols[i]))
            && (forall i, j :: 0 <= i < |vols| && 0 <= j < |vols| && i != j ==> c[i][j] == OffDiagonalCorrelation * vols[i] * vols[j])
  {
    var c := CovarianceMatrix(vols);
    forall i, j | 0 <= i < |vols| && 0 <= j < |vols| ensures c[i][j] == c[j][i] {
      assert vols[i] * vols[j] == vols[j] * vols[i];
    }
    forall i | 0 <= i < |vols| ensures c[i][i] == Square(vols[i]) {
      SquareIsProduct(vols[i]);
    }
  }

  /** `np.dot(cov, w)`: the marginal contributions. */
  function MatVec(c: seq<seq<real>>, w: seq<real>): (m: seq<real>)
    requires IsSquare(c, |w|)
    ensures |m| == |w| && forall i :: 0 <= i < |w| ==> m[i] == Dot(c[i], w)
  {
    seq(|c|, i requires 0 <= i < |c| => Dot(c[i], w))
  }

  /** `np.dot(w.T, np.dot(cov, w))`. */
  function Variance(c: seq<seq<real>>, w: seq<real>): real
    requires IsSquare(c, |w|)
  {
    Dot(w, MatVec(c, w))
  }

  /** Row i of the covariance matrix against the first k weights: half of v_i
      times the weighted volatility so far, plus half of v_i² w_i once i is reached. */
  predicate RowPrefixClosed(row: seq<real>, vols: seq<real>, w: seq<real>, i: nat, k: nat)
    requires |row| == |w| == |vols| && i < |vols| && k <= |vols|
  {
    DotPrefix(row, w, k) == 0.5 * vols[i] * DotPrefix(vols, w, k) + (if i < k then 0.5 * Square(vols[i]) * w[i] else 0.0)
  }

  /** `row` is row i of the covariance matrix. */
  predicate IsCovarianceRow(row: seq<real>, vols: seq<real>, i: nat)
    requires i < |vols|
  {
    |row| == |vols| && forall j :: 0 <= j < |vols| ==> row[j] == Covariance(vols, i, j)
  }

  /** A row whose products with the weights are a times those of x, plus b w_i
      at column i, has a times x's dot product, plus b w_i once i is reached. */
  lemma {:induction false} DotPrefixLinear(row: seq<real>, x: seq<real>, w: seq<real>, a: real, b: real, i: nat, k: nat)
    requires |row| == |x| == |w| && i < |w| && k <= |w|
    requires forall j :: 0 <= j < |w| ==> row[j] * w[j] == a * (x[j] * w[j]) + (if j == i then b * w[j] else 0.0)
    ensures DotPrefix(row, w, k) == a * DotPrefix(x, w, k) + (if i < k then b * w[i] else 0.0)
    decreases k
  {
    if k > 0 {
      DotPrefixLinear(row, x, w, a, b, i, k - 1);
      var j := k - 1;
      LinearStep(DotPrefix(row, w, j), DotPrefix(x, w, j), row[j] * w[j], x[j] * w[j], a,
                 if i < j then b * w[i] else 0.0, if j == i then b * w[j] else 0.0);
    }
  }

  /** One step of `DotPrefixLinear`: adding a term of the same shape keeps the
      shape. */
  lemma LinearStep(prev: real, prevX: real, term: real, termX: real, a: real, c: real, e: real)
    requires prev == a * prevX + c && term == a * termX + e
    ensures prev + term == a * (prevX + termX) + (c + e)
  {
  }

  /** One entry of a covariance row against a weight. */
  lemma CovarianceTerm(vi: real, vj: real, wj: real, c: real, same: bool)
    requires same ==> vj == vi
    requires c == vi * vj * (if same then 1.0 else OffDiagonalCorrelation)
    ensures c * wj == 0.5 * vi * (vj * wj) + (if same then 0.5 * (vi * vi) * wj else 0.0)
  {
  }

  lemma CovarianceRowPrefix(row: seq<real>, vols: seq<real>, w: seq<real>, i: nat, k: nat)
    requires |w| == |vols| && i < |vols| && k <= |vols| && IsCovarianceRow(row, vols, i)
    ensures RowPrefixClosed(row, vols, w, i, k)
  {
    var a, b := 0.5 * vols[i], 0.5 * Square(vols[i]);
    forall j | 0 <= j < |w| ensures row[j] * w[j] == a * (vols[j] * w[j]) + (if j == i then b * w[j] else 0.0) {
      SquareIsProduct(vols[i]);
      CovarianceTerm(vols[i], vols[j], w[j], row[j], i == j);
    }
    DotPrefixLinear(row, vols, w, a, b, i, k);
  }

  /** One entry of the marginal contributions in closed form. */
  lemma MarginalClosedForm(vols: seq<real>, w: seq<real>, i: nat)
    requires |w| == |vols| && i < |vols|
    ensures MatVec(CovarianceMatrix(vols), w)[i] == 0.5 * vols[i] * Dot(vols, w) + 0.5 * Square(vols[i]) * w[i]
  {
    CovarianceRowPrefix(CovarianceMatrix(vols)[i], vols, w, i, |vols|);
  }

  /** Each term of the variance splits: twice w_j m_j is the scaled cross term
      plus the squared product. */
  predicate TermsSplit(m: seq<real>, dv: seq<real>, vols: seq<real>, w: seq<real>)
    requires |m| == |dv| == |w| == |vols|
  {
    forall j :: 0 <= j < |vols| ==> 2.0 * (w[j] * m[j]) == dv[j] * w[j] + Square(vols[j] * w[j])
  }

  /** The variance over the first k weights: twice it is the scaled cross term
      plus the squared products so far. */
  predicate VariancePrefixClosed(m: seq<real>, dv: seq<real>, vols: seq<real>, w: seq<real>, k: nat)
    requires |m| == |dv| == |w| == |vols| && k <= |vols|
  {
    2.0 * DotPrefix(w, m, k) == DotPrefix(dv, w, k) + SquaredProductsPrefix(vols, w, k)
  }

  lemma {:induction false} VariancePrefix(m: seq<real>, dv: seq<real>, vols: seq<real>, w: seq<real>, k: nat)
    requires |m| == |dv| == |w| == |vols| && k <= |vols| && TermsSplit(m, dv, vols, w)
    ensures VariancePrefixClosed(m, dv, vols, w, k)
    decreases k
  {
    if k > 0 {
      VariancePrefix(m, dv, vols, w, k - 1);
      var j := k - 1;
      assert 2.0 * (w[j] * m[j]) == dv[j] * w[j] + Square(vols[j] * w[j]);
      HalvesStep(DotPrefix(w, m, j), DotPrefix(dv, w, j), SquaredProductsPrefix(vols, w, j),
                 w[j] * m[j], dv[j] * w[j], Square(vols[j] * w[j]));
    }
  }

  /** One step of `VariancePrefix`: twice a sum splits into two sums when each
      term does. */
  lemma HalvesStep(total: real, left: real, right: real, t: real, l: real, r: real)
    requires 2.0 * total == left + right && 2.0 * t == l + r
    ensures 2.0 * (total + t) == (left + l) + (right + r)
  {
  }

  /** One term of the variance: twice w_j m_j is the scaled cross term plus the
      squared product. */
  lemma VarianceTerm(vj: real, wj: real, mj: real, dvj: real, d: real)
    requires 2.0 * mj == vj * d + Square(vj) * wj
    requires dvj == d * vj
    ensures 2.0 * (wj * mj) == dvj * wj + Square(vj * wj)
  {
    SquareOfProduct(vj, wj);
  }

  lemma SquareOfProduct(v: real, w: real)
    ensures Square(v * w) == Square(v) * w * w
  {
    SquareIsProduct(v * w);
    SquareIsProduct(v);
  }

  /** Scaling one vector scales the dot product. */
  lemma {:induction false} DotPrefixScale(vols: seq<real>, w: seq<real>, d: real, k: nat)
    requires |vols| == |w| && k <= |w|
    ensures DotPrefix(Scaled(vols, d), w, k) == d * DotPrefix(vols, w, k)
    decreases k
  {
    if k > 0 {
      var dv := Scaled(vols, d);
      DotPrefixScale(vols, w, d, k - 1);
      var j := k - 1;
      ScaleStep(DotPrefix(dv, w, j), DotPrefix(vols, w, j), dv[j], vols[j], w[j], d);
    }
  }

  /** One step of `DotPrefixScale`. */
  lemma ScaleStep(prev: real, prevV: real, dvj: real, vj: real, wj: real, d: real)
    requires prev == d * prevV && dvj == d * vj
    ensures prev + dvj * wj == d * (prevV + vj * wj)
  {
  }

  /** The volatilities scaled by d. */
  function Scaled(vols: seq<real>, d: real): (dv: seq<real>)
    ensures |dv| == |vols| && forall j :: 0 <= j < |vols| ==> dv[j] == d * vols[j]
  {
    seq(|vols|, j requires 0 <= j < |vols| => d * vols[j])
  }

  /** Closed form of the variance: half the squared weighted volatility plus
      half the sum of squared weighted volatilities. */
  lemma VarianceClosedForm(vols: seq<real>, w: seq<real>)
    requires |w| == |vols|
    ensures Variance(CovarianceMatrix(vols), w) == 0.5 * Square(Dot(vols, w)) + 0.5 * SquaredProducts(vols, w)
  {
    var m := MatVec(CovarianceMatrix(vols), w);
    var d := Dot(vols, w);
    var dv := Scaled(vols, d);
    MarginalTermsSplit(vols, w);
    VariancePrefix(m, dv, vols, w, |vols|);
    DotPrefixScale(vols, w, d, |vols|);
    SquareIsProduct(d);
    VarianceFinish(Dot(w, m), DotPrefix(dv, w, |vols|), SquaredProducts(vols, w), Square(d), d);
  }

  /** Each term of the variance splits once the marginals are in closed form. */
  lemma MarginalTermsSplit(vols: seq<real>, w: seq<real>)
    requires |w| == |vols|
    ensures TermsSplit(MatVec(CovarianceMatrix(vols), w), Scaled(vols, Dot(vols, w)), vols, w)
  {
    var m := MatVec(CovarianceMatrix(vols), w);
    var d := Dot(vols, w);
    var dv := Scaled(vols, d);
    forall j | 0 <= j < |vols| ensures 2.0 * (w[j] * m[j]) == dv[j] * w[j] + Square(vols[j] * w[j]) {
      MarginalClosedForm(vols, w, j);
      VarianceTerm(vols[j], w[j], m[j], dv[j], d);
    }
  }

  /** The last step of `VarianceClosedForm`. */
  lemma VarianceFinish(v: real, cross: real, squares: real, sq: real, d: real)
    requires 2.0 * v == cross + squares && cross == d * d && sq == d * d
    ensures v == 0.5 * sq + 0.5 * squares
  {
  }

  /** The covariance matrix is positive semi-definite: no weighting has negative
      variance, so the minimum-variance objective is bounded below by 0. */
  lemma VarianceNonNegative(vols: seq<real>, w: seq<real>)
    requires |w| == |vols|
    ensures Variance(CovarianceMatrix(vols), w) >= 0.0
  {
    VarianceClosedForm(vols, w);
  }

  // ---------------------------------------------------------------------------
  // The objective functions

  /** Risk contributions (app.py:608-612): `w_i (Cw)_i / var` when the variance is
      positive, the weights themselves otherwise. */
  function RiskContributions(c: seq<seq<real>>, w: seq<real>): (rc: seq<real>)
    requires IsSquare(c, |w|)
    ensures |rc| == |w|
  {
    var v := Variance(c, w);
    if v > 0.0 then Contributions(MatVec(c, w), w, v) else w
  }

  /** `w * (C w) / var`, elementwise. */
  function Contributions(m: seq<real>, w: seq<real>, v: real): (rc: seq<real>)
    requires |m| == |w| && v != 0.0
    ensures |rc| == |w|
  {
    seq(|w|, i requires 0 <= i < |w| => m[i] * w[i] / v)
  }

  lemma {:induction false} ScaledProductsPrefix(m: seq<real>, w: seq<real>, v: real, k: nat)
    requires |m| == |w| && v > 0.0 && k <= |w|
    ensures Sum(Contributions(m, w, v)[..k]) == DotPrefix(m, w, k) / v
    decreases k
  {
    var s := Contributions(m, w, v);
    if k > 0 {
      ScaledProductsPrefix(m, w, v, k - 1);
      assert s[..k][..k - 1] == s[..k - 1];
      assert Sum(s[..k]) == Sum(s[..k - 1]) + s[k - 1];
    } else {
      assert s[..0] == [];
    }
  }

  /** With positive variance the risk contributions split the variance: they sum
      to 1 (Euler's decomposition). Otherwise they are the weights. */
  lemma RiskContributionsSum(c: seq<seq<real>>, w: seq<real>)
    requires IsSquare(c, |w|)
    ensures Variance(c, w) > 0.0 ==> Sum(RiskContributions(c, w)) == 1.0
    ensures Variance(c, w) <= 0.0 ==> RiskContributions(c, w) == w
  {
    var v := Variance(c, w);
    var m := MatVec(c, w);
    if v > 0.0 {
      var s := Contributions(m, w, v);
      ScaledProductsPrefix(m, w, v, |w|);
      assert s[..|w|] == s;
      DotPrefixCommutes(m, w, |w|);
      assert Sum(s) == v / v;
    }
  }

  /** Σ (x_i - t)². */
  function SquaredDeviation(s: seq<real>, t: real): real {
    if s == [] then 0.0 else SquaredDeviation(s[..|s| - 1], t) + Square(s[|s| - 1] - t)
  }

  /** A sum of squared deviations is never negative and is zero exactly when
      every term equals the target. */
  lemma {:induction false} SquaredDeviationZero(s: seq<real>, t: real)
    ensures SquaredDeviation(s, t) >= 0.0
    ensures SquaredDeviation(s, t) == 0.0 <==> forall i :: 0 <= i < |s| ==> s[i] == t
    decreases |s|
  {
    if s != [] {
      var init := s[..|s| - 1];
      SquaredDeviationZero(init, t);
      if SquaredDeviation(s, t) == 0.0 {
        forall i | 0 <= i < |s| ensures s[i] == t {
          if i < |init| {
            assert s[i] == init[i];
          }
        }
      }
    }
  }

  /** `risk_parity_objective` (app.py:614-617): squared distance of the risk
      contributions from the equal share 1/n. */
  function RiskParityObjective(c: seq<seq<real>>, w: seq<real>): real
    requires IsSquare(c, |w|) && |w| > 0
  {
    SquaredDeviation(RiskContributions(c, w), 1.0 / (|w| as real))
  }

  /** The risk-parity objective is minimal (zero) exactly at equal risk contributions. */
  lemma RiskParityObjectiveZero(c: seq<seq<real>>, w: seq<real>)
    requires IsSquare(c, |w|) && |w| > 0
    ensures RiskParityObjective(c, w) >= 0.0
    ensures RiskParityObjective(c, w) == 0.0 <==>
              forall i :: 0 <= i < |w| ==> RiskContributions(c, w)[i] == 1.0 / (|w| as real)
  {
    SquaredDeviationZero(RiskContributions(c, w), 1.0 / (|w| as real));
  }

  /** `objective` of `optimize_target_return` (app.py:676-680). */
  function TargetReturnObjective(annualReturns: seq<real>, c: seq<seq<real>>, target: real, w: seq<real>): real
    requires |annualReturns| == |w| && IsSquare(c, |w|)
  {
    Square(Dot(annualReturns, w) - target) * 100.0 + Variance(c, w) * 10.0
  }

  /** Under the constant-correlation matrix the target-return objective is at
      least the return penalty, hence never negative, and it is zero only when
      the weighted return hits the target. */
  lemma TargetReturnObjectiveBound(annualReturns: seq<real>, vols: seq<real>, target: real, w: seq<real>)
    requires |annualReturns| == |w| == |vols|
    ensures TargetReturnObjective(annualReturns, CovarianceMatrix(vols), target, w)
              >= Square(Dot(annualReturns, w) - target) * 100.0 >= 0.0
    ensures TargetReturnObjective(annualReturns, CovarianceMatrix(vols), target, w) == 0.0 ==>
              Dot(annualReturns, w) == target
  {
    VarianceNonNegative(vols, w);
  }

  /** `objective` of `optimize_target_dividend` (app.py:704-709). */
  function TargetDividendObjective(divYields: seq<real>, qualities: seq<real>, target: real, w: seq<real>): real
    requires |divYields| == |w| == |qualities|
  {
    Square(Dot(divYields, w) - target) * 100.0 - Dot(qualities, w)
  }

  /** The dividend objective never goes below minus the weighted quality, and
      reaches it exactly when the weighted yield hits the target. */
  lemma TargetDividendObjectiveBound(divYields: seq<real>, qualities: seq<real>, target: real, w: seq<real>)
    requires |divYields| == |w| == |qualities|
    ensures TargetDividendObjective(divYields, qualities, target, w) >= -Dot(qualities, w)
    ensures TargetDividendObjective(divYields, qualities, target, w) == -Dot(qualities, w) <==> Dot(divYields, w) == target
  {
  }

  /** `negative_sharpe` (app.py:578-582). `stddev` is the square root of the
      variance, which the model does not compute. */
  function NegativeSharpe(annualReturns: seq<real>, riskFreeRate: real, w: seq<real>, stddev: real): (r: real)
    requires |annualReturns| == |w|
    ensures stddev > 0.0 ==> r * stddev == riskFreeRate - Dot(annualReturns, w)
    ensures stddev > 0.0 ==> (r < 0.0 <==> Dot(annualReturns, w) > riskFreeRate)
    ensures stddev <= 0.0 ==> r == 0.0
  {
    if stddev > 0.0 then -((Dot(annualReturns, w) - riskFreeRate) / stddev) else 0.0
  }

  // ---------------------------------------------------------------------------
  // The problems posed to the solver, the oracle and the fallback

  datatype Objective =
    | MaxSharpe(annualReturns: seq<real>, cov: seq<seq<real>>, riskFreeRate: real)
    | RiskParity(cov: seq<seq<real>>)
    | MinVariance(cov: seq<seq<real>>)
    | TargetReturn(annualReturns: seq<real>, cov: seq<seq<real>>, targetReturn: real)
    | TargetDividend(divYields: seq<real>, qualities: seq<real>, targetYield: real)

  /** `minimize(objective, initial_weights, method='SLSQP', bounds=..., constraints=...)`:
      weights of length n within [lower, upper] summing to 1, starting at `start`. */
  datatype Problem = Problem(objective: Objective, n: nat, lower: real, upper: real, start: seq<real>)

  /** What the call to the solver can end in. */
  datatype SolverOutcome = Converged(x: seq<real>) | NotConverged | Raised

  /** `np.array([1.0 / n for _ in range(n)])`. */
  function EqualWeights(n: nat): (w: seq<real>)
    requires n > 0
    ensures |w| == n && forall i :: 0 <= i < n ==> w[i] == 1.0 / (n as real)
  {
    seq(n, i => 1.0 / (n as real))
  }

  /** The equal weights sum to 1, and they lie within the solver's bounds
      [0.05, 0.4] exactly when there are between 3 and 20 ETFs. */
  lemma EqualWeightsProperties(n: nat)
    requires n > 0
    ensures Sum(EqualWeights(n)) == 1.0
    ensures (LowerWeight <= 1.0 / (n as real) <= UpperWeight) <==> 3 <= n <= 20
  {
    SumConstant(EqualWeights(n), 1.0 / (n as real));
    var x := 1.0 / (n as real);
    assert x * (n as real) == 1.0;
    if n < 3 {
      assert (n as real) * UpperWeight < 1.0;
    }
    if n > 20 {
      assert (n as real) * LowerWeight > 1.0;
    }
    if 3 <= n <= 20 {
      assert (n as real) * UpperWeight >= 1.0;
      assert (n as real) * LowerWeight <= 1.0;
    }
  }

  /** The problem every `optimize_*` method poses for n ETFs. */
  function ProblemFor(objective: Objective, n: nat): (p: Problem)
    requires n > 0
    ensures p.lower == LowerWeight && p.upper == UpperWeight && p.n == n
    ensures p.start == EqualWeights(n)
  {
    Problem(objective, n, LowerWeight, UpperWeight, EqualWeights(n))
  }

  /** The shared tail of the `optimize_*` methods: no ETFs give no weights;
      otherwise the solver's answer when it converges, the equal starting
      weights (which sum to 1) when it fails or raises. */
  function Optimize(objective: Objective, n: nat, solve: Problem -> SolverOutcome): (w: seq<real>)
    ensures n == 0 ==> w == []
    ensures n > 0 && solve(ProblemFor(objective, n)).Converged? ==> w == solve(ProblemFor(objective, n)).x
    ensures n > 0 && !solve(ProblemFor(objective, n)).Converged? ==> w == EqualWeights(n) && Sum(w) == 1.0
  {
    if n == 0 then []
    else
      var p := ProblemFor(objective, n);
      match solve(p)
      case Converged(x) => x
      case NotConverged => EqualWeightsProperties(n); p.start
      case Raised => EqualWeightsProperties(n); p.start
  }

  /** The objective each method name poses for the candidates; `None` for an
      unknown name. For the dividend focus, "target_return" targets the
      dividend yield that pays `target_value` a month. */
  function ObjectiveFor(etfs: seq<Etf>, methodName: string, focus: string, targetValue: real, seedMoney: real): (o: Option<Objective>)
    ensures o.None? <==> methodName !in {"sharpe", "risk_parity", "min_variance", "target_return"}
    ensures methodName == "target_return" && focus == "dividend" ==>
              o == Some(TargetDividend(DividendYields(etfs), DividendQualities(etfs),
                                       if seedMoney > 0.0 then (targetValue * 12.0) / seedMoney else 0.0))
  {
    var cov := CovarianceMatrix(Volatilities(etfs));
    if methodName == "sharpe" then Some(MaxSharpe(Returns(etfs), cov, SharpeRiskFreeRate))
    else if methodName == "risk_parity" then Some(RiskParity(cov))
    else if methodName == "min_variance" then Some(MinVariance(cov))
    else if methodName == "target_return" then
      if focus == "dividend" then
        Some(TargetDividend(DividendYields(etfs), DividendQualities(etfs),
                            if seedMoney > 0.0 then (targetValue * 12.0) / seedMoney else 0.0))
      else Some(TargetReturn(Returns(etfs), cov, targetValue))
    else None
  }

  /** The weights `recommend_portfolio` hands to `build_portfolio`. An unknown
      method name divides by the number of candidates, so it needs one. */
  function ChooseWeights(etfs: seq<Etf>, methodName: string, focus: string, targetValue: real, seedMoney: real,
                         solve: Problem -> SolverOutcome): (w: seq<real>)
    requires ObjectiveFor(etfs, methodName, focus, targetValue, seedMoney).None? ==> |etfs| > 0
    ensures ObjectiveFor(etfs, methodName, focus, targetValue, seedMoney).None? ==> w == EqualWeights(|etfs|) && Sum(w) == 1.0
  {
    match ObjectiveFor(etfs, methodName, focus, targetValue, seedMoney)
    case Some(objective) => Optimize(objective, |etfs|, solve)
    case None => EqualWeightsProperties(|etfs|); EqualWeights(|etfs|)
  }

  /** A successful SLSQP run satisfies the problem's constraints: one weight per
      ETF, each within the bounds, summing to 1. */
  ghost predicate SolverHonoursConstraints(solve: Problem -> SolverOutcome) {
    forall p :: solve(p).Converged? ==>
      && |solve(p).x| == p.n
      && Sum(solve(p).x) == 1.0
      && (forall i :: 0 <= i < |solve(p).x| ==> p.lower <= solve(p).x[i] <= p.upper)
  }

  /** With a solver that honours its constraints, every method gives one weight
      per candidate and the weights sum to 1; they lie within [0.05, 0.4]
      whenever the solver converged or there are between 3 and 20 candidates. */
  lemma ChooseWeightsProperties(etfs: seq<Etf>, methodName: string, focus: string, targetValue: real, seedMoney: real,
                                solve: Problem -> SolverOutcome)
    requires |etfs| > 0
    requires SolverHonoursConstraints(solve)
    ensures var w := ChooseWeights(etfs, methodName, focus, targetValue, seedMoney, solve);
            && |w| == |etfs|
            && Sum(w) == 1.0
            && (3 <= |etfs| <= 20 ==> forall i :: 0 <= i < |w| ==> LowerWeight <= w[i] <= UpperWeight)
  {
    var w := ChooseWeights(etfs, methodName, focus, targetValue, seedMoney, solve);
    var n := |etfs|;
    EqualWeightsProperties(n);
    match ObjectiveFor(etfs, methodName, focus, targetValue, seedMoney)
    case Some(objective) =>
      var p := ProblemFor(objective, n);
      if solve(p).Converged? {
        assert w == solve(p).x;
      } else {
        assert w == EqualWeights(n);
      }
    case None =>
  }

  /** When the solver does not converge on the problem the method name poses,
      or the name is unknown, the weights are the equal weights `[1/n]*n`:
      the fallback and the unknown-name default coincide. */
  lemma FallbackIsEqualWeights(etfs: seq<Etf>, methodName: string, focus: string, targetValue: real, seedMoney: real,
                               solve: Problem -> SolverOutcome)
    requires |etfs| > 0
    requires var o := ObjectiveFor(etfs, methodName, focus, targetValue, seedMoney);
             o.Some? ==> !solve(ProblemFor(o.value, |etfs|)).Converged?
    ensures ChooseWeights(etfs, methodName, focus, targetValue, seedMoney, solve) == EqualWeights(|etfs|)
  {
  }
}
