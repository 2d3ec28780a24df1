/**
 * The Wilson confidence interval of the survival endpoint, in exact reals.  The algebra is done on
 * w = z*z/n and t = z*sqrt(p(1-p)/n + z*z/(4n*n)), so that t*t == w*p*(1-p) + w*w/4.
 */
module Wilson {
  import opened Common
  import opened RealOrder

  ghost predicate Margin(p: real, w: real, t: real) {
    && 0.0 <= p <= 1.0 && w > 0.0 && t >= 0.0
    && t * t == w * (p * (1.0 - p)) + w * w / 4.0
  }

  function Lower(p: real, w: real, t: real): real
    requires w > 0.0
  {
    (p + w / 2.0 - t) / (1.0 + w)
  }

  function Upper(p: real, w: real, t: real): real
    requires w > 0.0
  {
    (p + w / 2.0 + t) / (1.0 + w)
  }

  /** The equation whose two solutions are the endpoints: (p - x)^2 = w x (1 - x). */
  function Defect(p: real, w: real, x: real): real {
    (p - x) * (p - x) - w * (x * (1.0 - x))
  }

  lemma Scaled(p: real, w: real, t: real)
    requires w > 0.0
    ensures Lower(p, w, t) * (1.0 + w) == p + w / 2.0 - t
    ensures Upper(p, w, t) * (1.0 + w) == p + w / 2.0 + t
  {
  }

  lemma StrictSquare(a: real, b: real)
    requires a > b >= 0.0
    ensures a * a > b * b
  {
    Positive(a - b, a + b);
    assert (a - b) * (a + b) == a * a - b * b;
  }

  /** Comparing nonnegative numbers by their squares. */
  lemma SquareOrder(a: real, b: real)
    requires b >= 0.0
    requires a * a <= b * b
    ensures a <= b
  {
    if a > b { StrictSquare(a, b); }
  }

  lemma Vieta(p: real, w: real, t: real)
    requires Margin(p, w, t)
    ensures var l, u, d := Lower(p, w, t), Upper(p, w, t), 1.0 + w;
      && d * (l + u) == 2.0 * p + w
      && d * (l * u) == p * p
  {
    var l, u, d := Lower(p, w, t), Upper(p, w, t), 1.0 + w;
    var c := p + w / 2.0;
    Scaled(p, w, t);
    assert (l * d) * (u * d) == (c - t) * (c + t);
    assert (c - t) * (c + t) == c * c - t * t;
    assert c * c == p * p + p * w + w * w / 4.0;
    assert c * c - t * t == p * p + p * w - w * (p * (1.0 - p));
    assert w * (p * (1.0 - p)) == p * w - w * (p * p);
    assert c * c - t * t == d * (p * p);
    assert (l * d) * (u * d) == d * (d * (l * u));
    assert d * (d * (l * u)) == d * (p * p);
  }

  /** The defect factors over the endpoints. */
  lemma Factored(p: real, w: real, t: real, x: real)
    requires Margin(p, w, t)
    ensures Defect(p, w, x) == (1.0 + w) * ((x - Lower(p, w, t)) * (x - Upper(p, w, t)))
  {
    var l, u, d := Lower(p, w, t), Upper(p, w, t), 1.0 + w;
    Vieta(p, w, t);
    assert (x - l) * (x - u) == x * x - (l + u) * x + l * u;
    assert d * ((x - l) * (x - u)) == d * (x * x) - (d * (l + u)) * x + d * (l * u);
    assert d * ((x - l) * (x - u)) == d * (x * x) - (2.0 * p + w) * x + p * p;
    assert Defect(p, w, x) == p * p - 2.0 * (p * x) + x * x - w * x + w * (x * x);
    assert d * (x * x) == x * x + w * (x * x);
    assert (2.0 * p + w) * x == 2.0 * (p * x) + w * x;
  }

  /** The endpoints are exactly the solutions of (p - x)^2 = w x (1 - x). */
  lemma EndpointsAreRoots(p: real, w: real, t: real, x: real)
    requires Margin(p, w, t)
    ensures Defect(p, w, x) == 0.0 <==> x == Lower(p, w, t) || x == Upper(p, w, t)
  {
    Factored(p, w, t, x);
    var a, b := x - Lower(p, w, t), x - Upper(p, w, t);
    ProductZero(1.0 + w, a * b);
    ProductZero(a, b);
  }

  /** How the margin compares with w(1/2 - p). */
  lemma MarginBounds(p: real, w: real, t: real)
    requires Margin(p, w, t)
    ensures t >= w / 2.0
    ensures w / 2.0 - w * p <= t && w * p - w / 2.0 <= t
    ensures t <= p + w / 2.0 && t <= 1.0 - p + w / 2.0
  {
    Nonnegative(p, 1.0 - p);
    Nonnegative(w, p * (1.0 - p));
    var q := p * (1.0 - p);
    SquareOrder(w / 2.0, t);
    var h := w * (0.5 - p);
    assert h * h == w * w / 4.0 - w * (w * q) by {
      assert (0.5 - p) * (0.5 - p) == 0.25 - q;
      assert h * h == w * (w * ((0.5 - p) * (0.5 - p)));
    }
    Nonnegative(w, w * q);
    SquareOrder(h, t);
    assert (-h) * (-h) == h * h;
    SquareOrder(-h, t);
    assert h == w / 2.0 - w * p;
    UpperMargin(p, w, t);
    UpperMargin(1.0 - p, w, t);
  }

  lemma UpperMargin(p: real, w: real, t: real)
    requires Margin(p, w, t)
    ensures t <= p + w / 2.0
  {
    var c := p + w / 2.0;
    assert c * c == p * p + p * w + w * w / 4.0;
    assert w * (p * (1.0 - p)) == p * w - w * (p * p);
    Nonnegative(p, p);
    Nonnegative(w, p * p);
    SquareOrder(t, c);
  }

  lemma MarginMirror(p: real, w: real, t: real)
    requires Margin(p, w, t)
    ensures Margin(1.0 - p, w, t)
  {
    assert p * (1.0 - p) == (1.0 - p) * (1.0 - (1.0 - p));
  }

  /** Bracketing, told by the multiples of the three numbers by d. */
  lemma BracketFromMultiples(l: real, p: real, u: real, d: real, ld: real, pd: real, ud: real)
    requires d > 0.0 && l * d == ld && p * d == pd && u * d == ud
    requires 0.0 <= ld <= pd <= ud <= d
    ensures 0.0 <= l <= p <= u <= 1.0
  {
    ScaledOrder(0.0, l, d, 0.0, ld);
    ScaledOrder(l, p, d, ld, pd);
    ScaledOrder(p, u, d, pd, ud);
    ScaledOrder(u, 1.0, d, ud, d);
  }

  /** 0 <= lower <= p <= upper <= 1: the clamps of the endpoint never act. */
  lemma EndpointsBracket(p: real, w: real, t: real)
    requires Margin(p, w, t)
    ensures 0.0 <= Lower(p, w, t) <= p <= Upper(p, w, t) <= 1.0
  {
    var wp := w * p;
    Scaled(p, w, t);
    MarginBounds(p, w, t);
    assert p * (1.0 + w) == p + wp;
    BracketFromMultiples(Lower(p, w, t), p, Upper(p, w, t), 1.0 + w, p + w / 2.0 - t, p + wp, p + w / 2.0 + t);
  }

  /** Exchanging successes and failures mirrors the interval. */
  lemma Mirrored(p: real, w: real, t: real)
    requires Margin(p, w, t)
    ensures Lower(1.0 - p, w, t) == 1.0 - Upper(p, w, t)
    ensures Upper(1.0 - p, w, t) == 1.0 - Lower(p, w, t)
  {
    Scaled(p, w, t);
    Scaled(1.0 - p, w, t);
    var d := 1.0 + w;
    assert (1.0 - Upper(p, w, t)) * d == d - Upper(p, w, t) * d;
    assert (1.0 - Lower(p, w, t)) * d == d - Lower(p, w, t) * d;
    SameQuotient(Lower(1.0 - p, w, t), 1.0 - Upper(p, w, t), d);
    SameQuotient(Upper(1.0 - p, w, t), 1.0 - Lower(p, w, t), d);
  }

  /** For equal sample size both endpoints grow strictly with the success rate. */
  lemma GrowsWithSuccesses(p: real, p': real, w: real, t: real, t': real)
    requires Margin(p, w, t) && Margin(p', w, t') && p < p'
    ensures Lower(p, w, t) < Lower(p', w, t')
    ensures Upper(p, w, t) < Upper(p', w, t')
  {
    MarginStep(p, p', w, t, t');
    MarginMirror(p, w, t);
    MarginMirror(p', w, t');
    MarginStep(1.0 - p', 1.0 - p, w, t', t);
    EndpointsOrder(p, p', w, t, t');
  }

  lemma EndpointsOrder(p: real, p': real, w: real, t: real, t': real)
    requires w > 0.0 && t' - t < p' - p && t - t' < p' - p
    ensures Lower(p, w, t) < Lower(p', w, t')
    ensures Upper(p, w, t) < Upper(p', w, t')
  {
    Scaled(p, w, t);
    Scaled(p', w, t');
    ScaledOrder(Lower(p, w, t), Lower(p', w, t'), 1.0 + w, p + w / 2.0 - t, p' + w / 2.0 - t');
    ScaledOrder(Upper(p, w, t), Upper(p', w, t'), 1.0 + w, p + w / 2.0 + t, p' + w / 2.0 + t');
  }

  /** The margin grows more slowly than the success rate. */
  lemma MarginStep(p: real, p': real, w: real, t: real, t': real)
    requires Margin(p, w, t) && Margin(p', w, t') && p < p'
    ensures t' - t < p' - p
  {
    var c := SteeperThanSlope(p, p', w, t, t');
    MarginsDiffer(p, p', w, t, t');
    QuotientBelow(t' - t, p' - p, t + t', c);
  }

  lemma SteeperThanSlope(p: real, p': real, w: real, t: real, t': real) returns (c: real)
    requires Margin(p, w, t) && Margin(p', w, t') && p < p'
    ensures c == w * (1.0 - p - p') && c < t + t' && t + t' > 0.0
  {
    AtLeastHalf(p, w, t);
    AtLeastHalf(p', w, t');
    c := SlopeBelow(w, 1.0 - p - p');
  }

  lemma AtLeastHalf(p: real, w: real, t: real)
    requires Margin(p, w, t)
    ensures t >= w / 2.0
  {
    MarginBounds(p, w, t);
  }

  lemma SlopeBelow(w: real, slope: real) returns (c: real)
    requires w > 0.0 && slope < 1.0
    ensures c == w * slope && c < w
  {
    Positive(w, 1.0 - slope);
    assert w * (1.0 - slope) == w - w * slope;
    c := w * slope;
  }

  lemma LargerFactor(gap: real, c: real, sum: real) returns (low: real, high: real)
    requires gap > 0.0 && c < sum
    ensures low == gap * c && high == gap * sum && low < high
  {
    Positive(gap, sum - c);
    assert gap * (sum - c) == gap * sum - gap * c;
    low, high := gap * c, gap * sum;
  }

  lemma QuotientBelow(a: real, gap: real, sum: real, c: real)
    requires gap > 0.0 && sum > 0.0 && c < sum && a * sum == gap * c
    ensures a < gap
  {
    var low, high := LargerFactor(gap, c, sum);
    ScaledOrder(a, gap, sum, low, high);
  }

  lemma MarginsDiffer(p: real, p': real, w: real, t: real, t': real)
    requires Margin(p, w, t) && Margin(p', w, t')
    ensures (t' - t) * (t + t') == (p' - p) * (w * (1.0 - p - p'))
  {
    assert (t' - t) * (t + t') == t' * t' - t * t;
    assert p' * (1.0 - p') - p * (1.0 - p) == (p' - p) * (1.0 - p - p');
    assert t' * t' - t * t == w * ((p' - p) * (1.0 - p - p'));
  }

  /** For equal success rates the interval of a larger sample lies within that of a smaller one. */
  lemma NestedInSmallerSample(p: real, w: real, w': real, t: real, t': real)
    requires Margin(p, w, t) && Margin(p, w', t') && w' <= w
    ensures Lower(p, w, t) <= Lower(p, w', t') && Upper(p, w', t') <= Upper(p, w, t)
  {
    EndpointsBracket(p, w', t');
    EndpointsAreRoots(p, w', t', Lower(p, w', t'));
    EndpointsAreRoots(p, w', t', Upper(p, w', t'));
    DefectFalls(p, w, w', Lower(p, w', t'));
    DefectFalls(p, w, w', Upper(p, w', t'));
    WithinIfDefect(p, w, t, Lower(p, w', t'));
    WithinIfDefect(p, w, t, Upper(p, w', t'));
  }

  lemma DefectFalls(p: real, w: real, w': real, x: real)
    requires w' <= w && 0.0 <= x <= 1.0
    ensures Defect(p, w, x) <= Defect(p, w', x)
  {
    var v := x * (1.0 - x);
    Nonnegative(x, 1.0 - x);
    Nonnegative(w - w', v);
    assert (w - w') * v == w * v - w' * v;
  }

  lemma WithinIfDefect(p: real, w: real, t: real, x: real)
    requires Margin(p, w, t) && Defect(p, w, x) <= 0.0
    ensures Lower(p, w, t) <= x <= Upper(p, w, t)
  {
    Factored(p, w, t, x);
    EndpointsBracket(p, w, t);
    var a, b := x - Lower(p, w, t), x - Upper(p, w, t);
    Sign(a * b, 1.0 + w);
    OppositeSigns(a, b);
  }

  lemma OppositeSigns(a: real, b: real)
    requires b <= a && a * b <= 0.0
    ensures b <= 0.0 <= a
  {
    if b > 0.0 { Positive(a, b); }
    if a < 0.0 { Negatives(a, b); }
  }

  // ---------------------------------------------------------------- the endpoint

  const Z: real := 1.96

  datatype SurvivalRow = SurvivalRow(ageBucketHours: real, total: nat, successes: nat, successRate: real)

  datatype Bucket = Bucket(row: SurvivalRow, ciLower: real, ciUpper: real)

  /** An exact square root of every nonnegative number. */
  ghost predicate SquareRoot(sqrt: real -> real) {
    forall x: real :: x >= 0.0 ==> sqrt(x) >= 0.0 && sqrt(x) * sqrt(x) == x
  }

  /** `lower` and `upper` are the percentages of the Wilson interval of `successes` out of `total`. */
  ghost predicate Interval(successes: nat, total: nat, lower: real, upper: real)
    requires 0 < total && successes <= total
  {
    exists t: real :: IntervalWith(Rate(successes, total), Weight(total), t, lower, upper)
  }

  function Rate(successes: nat, total: nat): real
    requires total > 0
  {
    successes as real / total as real
  }

  function Weight(total: nat): real
    requires total > 0
  {
    Z * Z / total as real
  }

  ghost predicate IntervalWith(p: real, w: real, t: real, lower: real, upper: real) {
    Margin(p, w, t) && lower == 100.0 * Lower(p, w, t) && upper == 100.0 * Upper(p, w, t)
  }

  /** What the source's radicand is in terms of w and p. */
  lemma RadicandIsMargin(p: real, n: real, w: real, r: real)
    requires n > 0.0 && 0.0 <= p <= 1.0 && w == Z * Z / n && r >= 0.0
    requires r * r == p * (1.0 - p) / n + Z * Z / (4.0 * n * n)
    ensures Margin(p, w, Z * r)
    ensures Z * Z / (2.0 * n) == w / 2.0
  {
    var zz, v := Z * Z, p * (1.0 - p);
    assert zz == 3.8416;
    var w' := Quotient(zz, n);
    Nonnegative(p, 1.0 - p);
    var q := Quotient(v, n);
    HalfAndQuarter(zz, n, w);
    assert (Z * r) * (Z * r) == zz * (r * r);
    assert zz * q == w * v by {
      assert (zz * q) * n == zz * v;
      assert (w * v) * n == zz * v;
      SameQuotient(zz * q, w * v, n);
    }
    assert zz * (zz / (4.0 * n * n)) == w * w / 4.0;
    assert zz * (r * r) == zz * q + zz * (zz / (4.0 * n * n));
  }

  lemma HalfAndQuarter(zz: real, n: real, w: real)
    requires n > 0.0 && w == zz / n
    ensures zz / (2.0 * n) == w / 2.0
    ensures zz * (zz / (4.0 * n * n)) == w * w / 4.0
  {
    var h, q := zz / (2.0 * n), zz / (4.0 * n * n);
    var d := Times(n, n);
    assert w * n == zz && h * (2.0 * n) == zz;
    SameQuotient(h, w / 2.0, 2.0 * n);
    assert q * (4.0 * n * n) == zz;
    assert (4.0 * q) * d == zz;
    var left, right := zz * (4.0 * q), w * w;
    assert left * d == zz * ((4.0 * q) * d);
    assert right * d == (w * n) * (w * n);
    assert left * d == zz * zz && right * d == zz * zz;
    SameQuotient(left, right, d);
  }

  /**
   * The shown interval brackets the shown rate, within 0 and 100, and its ends are the two solutions x
   * of (p - x)^2 = 1.96^2 x (1 - x) / n.
   */
  lemma IntervalBrackets(successes: nat, total: nat, lower: real, upper: real, x: real)
    requires 0 < total && successes <= total && Interval(successes, total, lower, upper)
    ensures 0.0 <= lower <= 100.0 * (successes as real / total as real) <= upper <= 100.0
    ensures var p, w := successes as real / total as real, 1.96 * 1.96 / total as real;
      (p - x) * (p - x) == w * (x * (1.0 - x)) <==> x == lower / 100.0 || x == upper / 100.0
  {
    hide Lower, Upper, Margin, Defect;
    var p, w := Rate(successes, total), Weight(total);
    var t :| IntervalWith(p, w, t, lower, upper);
    EndpointsBracket(p, w, t);
    EndpointsAreRoots(p, w, t, x);
    DefectIsEquation(p, w, x);
  }

  lemma DefectIsEquation(p: real, w: real, x: real)
    ensures Defect(p, w, x) == 0.0 <==> (p - x) * (p - x) == w * (x * (1.0 - x))
  {
  }

  /** Counting failures instead of successes mirrors the interval. */
  lemma FailuresMirror(successes: nat, total: nat, lower: real, upper: real)
    requires 0 < total && successes <= total && Interval(successes, total, lower, upper)
    ensures Interval(total - successes, total, 100.0 - upper, 100.0 - lower)
  {
    var p, w, n := Rate(successes, total), Weight(total), total as real;
    var t :| IntervalWith(p, w, t, lower, upper);
    MarginMirror(p, w, t);
    Mirrored(p, w, t);
    assert (1.0 - p) * n == n - p * n && p * n == successes as real;
    SameQuotient(1.0 - p, Rate(total - successes, total), n);
    assert IntervalWith(Rate(total - successes, total), w, t, 100.0 - upper, 100.0 - lower);
  }

  /** More successes in the same sample raise both endpoints. */
  lemma MoreSuccesses(s: nat, s': nat, total: nat, lower: real, upper: real, lower': real, upper': real)
    requires 0 < total && s < s' <= total
    requires Interval(s, total, lower, upper) && Interval(s', total, lower', upper')
    ensures lower < lower' && upper < upper'
  {
    var p, p', w := Rate(s, total), Rate(s', total), Weight(total);
    var t :| IntervalWith(p, w, t, lower, upper);
    var t' :| IntervalWith(p', w, t', lower', upper');
    RateGrows(s, s', total);
    GrowsWithSuccesses(p, p', w, t, t');
  }

  lemma RateGrows(s: nat, s': nat, total: nat)
    requires 0 < total && s < s'
    ensures Rate(s, total) < Rate(s', total)
  {
    ScaledOrder(Rate(s, total), Rate(s', total), total as real, s as real, s' as real);
  }

  /** With the same rate, the interval of the larger sample lies within that of the smaller. */
  lemma LargerSample(s: nat, n: nat, s': nat, n': nat, lower: real, upper: real, lower': real, upper': real)
    requires 0 < n <= n' && s <= n && s' <= n'
    requires Rate(s, n) == Rate(s', n')
    requires Interval(s, n, lower, upper) && Interval(s', n', lower', upper')
    ensures lower <= lower' && upper' <= upper
  {
    var p, w, w' := Rate(s, n), Weight(n), Weight(n');
    var t :| IntervalWith(p, w, t, lower, upper);
    var t' :| IntervalWith(p, w', t', lower', upper');
    WeightFalls(n, n');
    NestedInSmallerSample(p, w, w', t, t');
  }

  lemma WeightFalls(n: nat, n': nat)
    requires 0 < n <= n'
    ensures Weight(n') <= Weight(n)
  {
    var w := Quotient(Z * Z, n as real);
    Nonnegative(w, n' as real - n as real);
    assert w * (n' as real - n as real) == w * n' as real - w * n as real;
    var w' := Quotient(Z * Z, n' as real);
    ScaledOrder(w', w, n' as real, Z * Z, w * n' as real);
  }

  /** The source's formula, clamps included, is the interval. */
  lemma FormulaIsInterval(p: real, n: real, root: real, lower: real, upper: real, sqrt: real -> real, row: SurvivalRow)
    requires Counts(row) && row.total > 0 && n == row.total as real && p == row.successes as real / n
    requires SquareRoot(sqrt) && root == sqrt(p * (1.0 - p) / n + Z * Z / (4.0 * n * n))
    requires var denom := 1.0 + Z * Z / n;
      && denom != 0.0
      && lower == RealOrder.Max(0.0, ((p + Z * Z / (2.0 * n)) / denom - Z * root / denom) * 100.0)
      && upper == RealOrder.Min(100.0, ((p + Z * Z / (2.0 * n)) / denom + Z * root / denom) * 100.0)
    ensures Interval(row.successes, row.total, lower, upper)
  {
    var p' := Quotient(row.successes as real, n);
    var w := Quotient(Z * Z, n);
    hide Margin, RealOrder.Max, RealOrder.Min, IntervalWith;
    FormulaMargin(p, n, w, root, sqrt);
    ClampsIdle(p, w, Z * root, lower, upper);
    assert IntervalWith(Rate(row.successes, row.total), Weight(row.total), Z * root, lower, upper);
  }

  lemma FormulaMargin(p: real, n: real, w: real, root: real, sqrt: real -> real)
    requires n > 0.0 && 0.0 <= p <= 1.0 && w == Z * Z / n
    requires SquareRoot(sqrt) && root == sqrt(p * (1.0 - p) / n + Z * Z / (4.0 * n * n))
    ensures Margin(p, w, Z * root)
    ensures Z * Z / (2.0 * n) == w / 2.0
  {
    hide Margin;
    RadicandNonnegative(p, n);
    RadicandIsMargin(p, n, w, root);
  }

  /** Clamping to 0 and 100 changes neither end. */
  lemma ClampsIdle(p: real, w: real, t: real, lower: real, upper: real)
    requires Margin(p, w, t)
    requires lower == RealOrder.Max(0.0, ((p + w / 2.0) / (1.0 + w) - t / (1.0 + w)) * 100.0)
    requires upper == RealOrder.Min(100.0, ((p + w / 2.0) / (1.0 + w) + t / (1.0 + w)) * 100.0)
    ensures IntervalWith(p, w, t, lower, upper)
  {
    SplitQuotient(p + w / 2.0, t, 1.0 + w);
    EndpointsBracket(p, w, t);
  }

  lemma RadicandNonnegative(p: real, n: real)
    requires n > 0.0 && 0.0 <= p <= 1.0
    ensures p * (1.0 - p) / n + Z * Z / (4.0 * n * n) >= 0.0
  {
    Nonnegative(p, 1.0 - p);
    Positive(n, n);
    var a := Quotient(p * (1.0 - p), n);
    var d := Times(4.0 * n, n);
    assert d == 4.0 * n * n;
    var b := Quotient(Z * Z, d);
  }

  lemma SplitQuotient(c: real, m: real, d: real)
    requires d > 0.0
    ensures c / d - m / d == (c - m) / d
    ensures c / d + m / d == (c + m) / d
  {
    var a, b := c / d, m / d;
    assert a * d == c && b * d == m;
    SameQuotient(a - b, (c - m) / d, d);
    SameQuotient(a + b, (c + m) / d, d);
  }

  /** The rows that could be scanned. */
  function Scanned(rows: seq<Option<SurvivalRow>>): seq<SurvivalRow> {
    if |rows| == 0 then []
    else
      var last := rows[|rows| - 1];
      Scanned(rows[..|rows| - 1]) + if last.Some? then [last.value] else []
  }

  lemma ScannedSnoc(rows: seq<Option<SurvivalRow>>, n: nat)
    requires n < |rows|
    ensures Scanned(rows[..n + 1]) == if rows[n].Some? then Scanned(rows[..n]) + [rows[n].value] else Scanned(rows[..n])
  {
    assert rows[..n + 1][..n] == rows[..n];
  }

  /**
   * One entry for each of the first `n` rows that could be scanned, in row order; `keep` tells which those
   * are and `item` what they are.
   */
  lemma {:induction false} ScannedInOrder(rows: seq<Option<SurvivalRow>>, keep: nat -> bool, item: nat -> SurvivalRow, n: nat)
    returns (order: seq<nat>)
    requires n <= |rows|
    requires forall i :: 0 <= i < |rows| ==> (keep(i) <==> rows[i].Some?) && (keep(i) ==> item(i) == rows[i].value)
    ensures Lists(Scanned(rows[..n]), order, n, keep, item)
  {
    hide Scanned, Lists;
    if n == 0 {
      order := [];
      NothingScanned(rows);
      ListsNone(keep, item);
    } else {
      var front := ScannedInOrder(rows, keep, item, n - 1);
      ListsSnoc(Scanned(rows[..n - 1]), front, n - 1, keep, item);
      ScannedSnoc(rows, n - 1);
      order := if keep(n - 1) then front + [n - 1] else front;
    }
  }

  lemma NothingScanned(rows: seq<Option<SurvivalRow>>)
    ensures Scanned(rows[..0]) == []
  {
  }

  ghost predicate Counts(row: SurvivalRow) {
    row.successes <= row.total
  }

  /** A bucket shows its row and, from ten probes on, the Wilson interval. */
  ghost predicate Shows(b: Bucket, row: SurvivalRow) {
    && b.row == row
    && if row.total >= 10 && Counts(row) then Interval(row.successes, row.total, b.ciLower, b.ciUpper)
       else b.ciLower == 0.0 && b.ciUpper == 0.0
  }

  method FillBucket(row: SurvivalRow, sqrt: real -> real) returns (b: Bucket)
    requires Counts(row) && SquareRoot(sqrt)
    ensures Shows(b, row)
  {
    b := Bucket(row, 0.0, 0.0);
    if row.total >= 10 {
      var p := row.successes as real / row.total as real;
      var n := row.total as real;
      var denom := 1.0 + Z * Z / n;
      var center := (p + Z * Z / (2.0 * n)) / denom;
      var margin := Z * sqrt(p * (1.0 - p) / n + Z * Z / (4.0 * n * n)) / denom;
      b := Bucket(row, RealOrder.Max(0.0, (center - margin) * 100.0), RealOrder.Min(100.0, (center + margin) * 100.0));
      FormulaIsInterval(p, n, sqrt(p * (1.0 - p) / n + Z * Z / (4.0 * n * n)), b.ciLower, b.ciUpper, sqrt, row);
    }
  }

  /** One bucket per scanned row, in order. */
  method HandleSurvival(rows: seq<Option<SurvivalRow>>, sqrt: real -> real) returns (buckets: seq<Bucket>)
    requires forall i :: 0 <= i < |rows| && rows[i].Some? ==> Counts(rows[i].value)
    requires SquareRoot(sqrt)
    ensures |buckets| == |Scanned(rows)|
    ensures forall k :: 0 <= k < |buckets| ==> buckets[k].row == Scanned(rows)[k]
    ensures forall k :: 0 <= k < |buckets| && Scanned(rows)[k].total < 10 ==> buckets[k].ciLower == 0.0 && buckets[k].ciUpper == 0.0
    ensures forall k :: 0 <= k < |buckets| && Scanned(rows)[k].total >= 10 ==>
      && Counts(Scanned(rows)[k])
      && Interval(Scanned(rows)[k].successes, Scanned(rows)[k].total, buckets[k].ciLower, buckets[k].ciUpper)
  {
    buckets := [];
    var i := 0;
    while i < |rows|
      invariant 0 <= i <= |rows|
      invariant |buckets| == |Scanned(rows[..i])|
      invariant forall k :: 0 <= k < |buckets| ==> Counts(Scanned(rows[..i])[k]) && Shows(buckets[k], Scanned(rows[..i])[k])
    {
      assert rows[..i + 1][..i] == rows[..i];
      if rows[i].Some? {
        var b := FillBucket(rows[i].value, sqrt);
        buckets := buckets + [b];
      }
      i := i + 1;
    }
    assert rows[..i] == rows;
  }
}
