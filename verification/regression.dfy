/**
 * Ordinary least-squares line fit `weight = slope * raw + intercept`, the
 * computation `np.polyfit(x, y, 1)` performs in `set_sensor_calibration`,
 * written in closed form over the reals, together with the R-squared
 * figure the calibration stores.
 *
 * Products are kept behind the small functions `Sq`, `Mul` and the `...Form`
 * functions, and every ring identity is proved in a lemma over plain reals;
 * the lemmas about sequences only glue those identities together.
 */
module Regression {
  import opened Common

  datatype Line = Line(slope: real, intercept: real)

  function Sq(r: real): real {
    r * r
  }

  /** Sum of the pairwise products `u[i] * v[i]`. */
  function Dot(u: seq<real>, v: seq<real>): real
    requires |u| == |v|
    decreases |u|
  {
    if |u| == 0 then 0.0
    else Dot(u[..|u| - 1], v[..|v| - 1]) + Mul(u[|u| - 1], v[|v| - 1])
  }

  /** The line `m * x + b` evaluated at `x`. */
  function Affine(m: real, b: real, x: real): real {
    m * x + b
  }

  /** Sum of squared residuals of the line `m * x + b` over the samples. */
  function SSR(xs: seq<real>, ys: seq<real>, m: real, b: real): real
    requires |xs| == |ys|
    decreases |xs|
  {
    if |xs| == 0 then 0.0
    else SSR(xs[..|xs| - 1], ys[..|ys| - 1], m, b) + Sq(ys[|ys| - 1] - Affine(m, b, xs[|xs| - 1]))
  }

  /** Sum of squared deviations of `v` from the constant `c`. */
  function SqDev(v: seq<real>, c: real): real
    decreases |v|
  {
    if |v| == 0 then 0.0
    else SqDev(v[..|v| - 1], c) + Sq(v[|v| - 1] - c)
  }

  function Mean(v: seq<real>): real
    requires |v| > 0
  {
    Sum(v) / |v| as real
  }

  /** `n * vv - s * s`: the determinant of the normal equations. */
  function SpreadForm(n: real, vv: real, s: real): real {
    n * vv - s * s
  }

  function Spread(v: seq<real>): real {
    SpreadForm(|v| as real, Dot(v, v), Sum(v))
  }

  predicate AllEqual(v: seq<real>) {
    forall i, j :: 0 <= i < |v| && 0 <= j < |v| ==> v[i] == v[j]
  }

  /** `a * x + n * c`, kept behind a name so that sums stay opaque to the solver. */
  function Lin(a: real, x: real, n: real, c: real): real {
    a * x + n * c
  }

  function SlopeForm(n: real, sx: real, sy: real, sxy: real, d: real): real
    requires d != 0.0
  {
    (n * sxy - sx * sy) / d
  }

  function InterceptForm(n: real, sx: real, sy: real, s: real): real
    requires n != 0.0
  {
    (sy - s * sx) / n
  }

  /**
   * The least-squares line through the samples `(xs[i], ys[i])`, or `None`
   * when the normal equations are singular.
   */
  function Fit(xs: seq<real>, ys: seq<real>): (r: Option<Line>)
    requires |xs| == |ys|
    ensures r.Some? <==> !AllEqual(xs)
  {
    SpreadZeroIffAllEqual(xs);
    var n := |xs| as real;
    var d := Spread(xs);
    if |xs| == 0 || d == 0.0 then None
    else
      var slope := SlopeForm(n, Sum(xs), Sum(ys), Dot(xs, ys), d);
      Some(Line(slope, InterceptForm(n, Sum(xs), Sum(ys), slope)))
  }

  /** `ss_total`: squared deviation of the targets from their mean. */
  function SSTotal(ys: seq<real>): real
    requires |ys| > 0
  {
    SqDev(ys, Mean(ys))
  }

  /**
   * R-squared of a line, defined as 0 when the targets do not vary. It is
   * never above 1, and reaches 1 exactly when the line passes through every
   * sample.
   */
  function RSquared(xs: seq<real>, ys: seq<real>, l: Line): (r: real)
    requires |xs| == |ys| > 0
    ensures r <= 1.0
    ensures SSTotal(ys) != 0.0 ==> (r == 1.0 <==> SSR(xs, ys, l.slope, l.intercept) == 0.0)
  {
    SSRNonNeg(xs, ys, l.slope, l.intercept);
    SqDevNonNeg(ys, Mean(ys));
    var sst := SSTotal(ys);
    if sst != 0.0 then 1.0 - SSR(xs, ys, l.slope, l.intercept) / sst else 0.0
  }

  // ---------------------------------------------------------------------
  // Ring identities over plain reals.

  /** The raw-moment form of a sum of squared residuals. */
  function MomentForm(yy: real, xy: real, sy: real, xx: real, sx: real, n: real, m: real, b: real): real {
    yy - 2.0 * m * xy - 2.0 * b * sy + m * m * xx + 2.0 * m * b * sx + n * b * b
  }

  /** The raw-moment form of a sum of squared deviations. */
  function DevForm(vv: real, sv: real, n: real, c: real): real {
    vv - 2.0 * c * sv + n * c * c
  }

  /** The raw-moment form of `sum((d * x + e)^2)`. */
  function QuadForm(xx: real, sx: real, n: real, d: real, e: real): real {
    d * d * xx + 2.0 * d * e * sx + n * e * e
  }

  lemma SquareNonNeg(r: real)
    ensures 0.0 <= Sq(r)
  {
  }

  lemma SquarePos(r: real)
    requires r != 0.0
    ensures 0.0 < Sq(r)
  {
    var q := if r < 0.0 then -r else r;
    ProductPos(q, q);
    assert Sq(r) == Mul(q, q);
  }

  lemma SSRStep(p: real, p': real, yy: real, yy': real, xy: real, xy': real, sy: real, sy': real,
                xx: real, xx': real, sx: real, sx': real, n: real, n': real, m: real, b: real, x: real, y: real)
    requires p == MomentForm(yy, xy, sy, xx, sx, n, m, b)
    requires p' == p + Sq(y - Affine(m, b, x))
    requires yy' == yy + Mul(y, y) && xy' == xy + Mul(x, y) && sy' == sy + y
    requires xx' == xx + Mul(x, x) && sx' == sx + x && n' == n + 1.0
    ensures p' == MomentForm(yy', xy', sy', xx', sx', n', m, b)
  {
  }

  lemma DevStep(p: real, p': real, vv: real, vv': real, sv: real, sv': real, n: real, n': real, c: real, x: real)
    requires p == DevForm(vv, sv, n, c)
    requires p' == p + Sq(x - c)
    requires vv' == vv + Mul(x, x) && sv' == sv + x && n' == n + 1.0
    ensures p' == DevForm(vv', sv', n', c)
  {
  }

  lemma SpreadAlgebra(n: real, vv: real, s: real, mu: real, dev: real)
    requires 0.0 < n && mu == s / n
    requires dev == DevForm(vv, s, n, mu)
    ensures SpreadForm(n, vv, s) == Mul(n, dev)
  {
    assert n * mu == s;
    calc {
      Mul(n, dev);
      n * vv - 2.0 * (n * mu) * s + (n * mu) * (n * mu);
      SpreadForm(n, vv, s);
    }
  }

  lemma ShiftAlgebra(n: real, vv: real, s: real, mu: real, c: real)
    requires 0.0 < n && mu == s / n
    ensures DevForm(vv, s, n, mu) <= DevForm(vv, s, n, c)
  {
    assert n * mu == s;
    assert DevForm(vv, s, n, c) - DevForm(vv, s, n, mu) == n * Sq(c - mu) by {
      calc {
        DevForm(vv, s, n, c) - DevForm(vv, s, n, mu);
        -2.0 * c * (n * mu) + n * c * c + 2.0 * mu * (n * mu) - n * mu * mu;
        n * ((c - mu) * (c - mu));
      }
    }
    SquareNonNeg(c - mu);
  }

  lemma ProductPos(n: real, dev: real)
    requires 0.0 < n && 0.0 < dev
    ensures 0.0 < Mul(n, dev)
  {
  }

  lemma NormalAlgebra(n: real, sx: real, sy: real, sxx: real, sxy: real, s: real, b: real)
    requires n != 0.0 && SpreadForm(n, sxx, sx) != 0.0
    requires s == SlopeForm(n, sx, sy, sxy, SpreadForm(n, sxx, sx))
    requires b == InterceptForm(n, sx, sy, s)
    ensures sy == Lin(s, sx, n, b)
    ensures sxy == Lin(s, sxx, b, sx)
  {
    var d := SpreadForm(n, sxx, sx);
    assert s * d == n * sxy - sx * sy;
    assert n * b == sy - s * sx;
    calc {
      n * (sxy - s * sxx - b * sx);
      n * sxy - s * (n * sxx) - (n * b) * sx;
      n * sxy - s * (n * sxx) - (sy - s * sx) * sx;
      (n * sxy - sx * sy) - s * d;
      0.0;
    }
  }

  lemma QuadAlgebra(zz: real, xz: real, sz: real, xx: real, sx: real, n: real, d: real, e: real)
    requires zz == 0.0 && xz == 0.0 && sz == 0.0
    ensures MomentForm(zz, xz, sz, xx, sx, n, -d, -e) == QuadForm(xx, sx, n, d, e)
  {
  }

  lemma MinimiserAlgebra(yy: real, xy: real, sy: real, xx: real, sx: real, n: real,
                         s: real, i: real, m: real, b: real)
    requires sy == Lin(s, sx, n, i)
    requires xy == Lin(s, xx, i, sx)
    requires 0.0 <= QuadForm(xx, sx, n, m - s, b - i)
    ensures MomentForm(yy, xy, sy, xx, sx, n, s, i) <= MomentForm(yy, xy, sy, xx, sx, n, m, b)
  {
    var d, e := m - s, b - i;
    assert MomentForm(yy, xy, sy, xx, sx, n, m, b) - MomentForm(yy, xy, sy, xx, sx, n, s, i)
        == -2.0 * d * (xy - s * xx - i * sx) - 2.0 * e * (sy - s * sx - n * i) + QuadForm(xx, sx, n, d, e);
  }

  lemma RatioBounds(ssr: real, sst: real)
    requires 0.0 <= ssr <= sst && sst != 0.0
    ensures 0.0 <= 1.0 - ssr / sst <= 1.0
  {
    assert 0.0 < sst;
    assert ssr / sst <= 1.0;
  }

  lemma AffineStep(sy: real, sy': real, sx: real, sx': real, xy: real, xy': real, xx: real, xx': real,
                   n: real, n': real, a: real, c: real, x: real, y: real)
    requires y == Affine(a, c, x)
    requires sy == Lin(a, sx, n, c) && sy' == sy + y && sx' == sx + x && n' == n + 1.0
    requires xy == Lin(a, xx, c, sx) && xy' == xy + Mul(x, y) && xx' == xx + Mul(x, x)
    ensures sy' == Lin(a, sx', n', c)
    ensures xy' == Lin(a, xx', c, sx')
  {
  }

  lemma RecoveryAlgebra(n: real, sx: real, sxx: real, sy: real, sxy: real, a: real, c: real)
    requires n != 0.0 && SpreadForm(n, sxx, sx) != 0.0
    requires sy == Lin(a, sx, n, c)
    requires sxy == Lin(a, sxx, c, sx)
    ensures SlopeForm(n, sx, sy, sxy, SpreadForm(n, sxx, sx)) == a
    ensures InterceptForm(n, sx, sy, a) == c
  {
    assert n * sxy - sx * sy == a * SpreadForm(n, sxx, sx);
  }

  // ---------------------------------------------------------------------
  // One-step unfoldings of the recursive sums.

  lemma UnfoldPair(xs: seq<real>, ys: seq<real>, m: real, b: real)
    requires |xs| == |ys| > 0
    ensures SSR(xs, ys, m, b) == SSR(xs[..|xs| - 1], ys[..|ys| - 1], m, b) + Sq(ys[|ys| - 1] - Affine(m, b, xs[|xs| - 1]))
    ensures Dot(ys, ys) == Dot(ys[..|ys| - 1], ys[..|ys| - 1]) + Mul(ys[|ys| - 1], ys[|ys| - 1])
    ensures Dot(xs, ys) == Dot(xs[..|xs| - 1], ys[..|ys| - 1]) + Mul(xs[|xs| - 1], ys[|ys| - 1])
    ensures Dot(xs, xs) == Dot(xs[..|xs| - 1], xs[..|xs| - 1]) + Mul(xs[|xs| - 1], xs[|xs| - 1])
    ensures Sum(ys) == Sum(ys[..|ys| - 1]) + ys[|ys| - 1]
    ensures Sum(xs) == Sum(xs[..|xs| - 1]) + xs[|xs| - 1]
  {
  }

  lemma UnfoldOne(v: seq<real>, c: real)
    requires |v| > 0
    ensures SqDev(v, c) == SqDev(v[..|v| - 1], c) + Sq(v[|v| - 1] - c)
    ensures Dot(v, v) == Dot(v[..|v| - 1], v[..|v| - 1]) + Mul(v[|v| - 1], v[|v| - 1])
    ensures Sum(v) == Sum(v[..|v| - 1]) + v[|v| - 1]
  {
  }

  // ---------------------------------------------------------------------
  // Expansions of the recursive sums into the raw moments.

  lemma {:induction false} SSRExpand(xs: seq<real>, ys: seq<real>, m: real, b: real)
    requires |xs| == |ys|
    ensures SSR(xs, ys, m, b)
         == MomentForm(Dot(ys, ys), Dot(xs, ys), Sum(ys), Dot(xs, xs), Sum(xs), |xs| as real, m, b)
    decreases |xs|
  {
    if |xs| > 0 {
      var xs', ys' := xs[..|xs| - 1], ys[..|ys| - 1];
      SSRExpand(xs', ys', m, b);
      UnfoldPair(xs, ys, m, b);
      SSRStep(SSR(xs', ys', m, b), SSR(xs, ys, m, b),
              Dot(ys', ys'), Dot(ys, ys), Dot(xs', ys'), Dot(xs, ys), Sum(ys'), Sum(ys),
              Dot(xs', xs'), Dot(xs, xs), Sum(xs'), Sum(xs), |xs'| as real, |xs| as real,
              m, b, xs[|xs| - 1], ys[|ys| - 1]);
    }
  }

  lemma {:induction false} SqDevExpand(v: seq<real>, c: real)
    ensures SqDev(v, c) == DevForm(Dot(v, v), Sum(v), |v| as real, c)
    decreases |v|
  {
    if |v| > 0 {
      var v' := v[..|v| - 1];
      SqDevExpand(v', c);
      UnfoldOne(v, c);
      DevStep(SqDev(v', c), SqDev(v, c), Dot(v', v'), Dot(v, v), Sum(v'), Sum(v),
              |v'| as real, |v| as real, c, v[|v| - 1]);
    }
  }

  lemma {:induction false} SqDevNonNeg(v: seq<real>, c: real)
    ensures 0.0 <= SqDev(v, c)
    ensures forall i :: 0 <= i < |v| ==> Sq(v[i] - c) <= SqDev(v, c)
    decreases |v|
  {
    if |v| > 0 {
      var v' := v[..|v| - 1];
      SqDevNonNeg(v', c);
      UnfoldOne(v, c);
      SquareNonNeg(v[|v| - 1] - c);
      forall i | 0 <= i < |v|
        ensures Sq(v[i] - c) <= SqDev(v, c)
      {
        if i < |v| - 1 {
          assert v[i] == v'[i];
        }
      }
    }
  }

  lemma {:induction false} SSRNonNeg(xs: seq<real>, ys: seq<real>, m: real, b: real)
    requires |xs| == |ys|
    ensures 0.0 <= SSR(xs, ys, m, b)
    decreases |xs|
  {
    if |xs| > 0 {
      SSRNonNeg(xs[..|xs| - 1], ys[..|ys| - 1], m, b);
      UnfoldPair(xs, ys, m, b);
      SquareNonNeg(ys[|ys| - 1] - Affine(m, b, xs[|xs| - 1]));
    }
  }

  /** The spread is `n` times the squared deviation from the mean. */
  lemma SpreadIsScaledDeviation(v: seq<real>)
    requires |v| > 0
    ensures Spread(v) == Mul(|v| as real, SqDev(v, Mean(v)))
  {
    SqDevExpand(v, Mean(v));
    SpreadAlgebra(|v| as real, Dot(v, v), Sum(v), Mean(v), SqDev(v, Mean(v)));
  }

  /** The mean minimises the squared deviation. */
  lemma MeanMinimisesDeviation(v: seq<real>, c: real)
    requires |v| > 0
    ensures SqDev(v, Mean(v)) <= SqDev(v, c)
  {
    SqDevExpand(v, Mean(v));
    SqDevExpand(v, c);
    ShiftAlgebra(|v| as real, Dot(v, v), Sum(v), Mean(v), c);
  }

  lemma {:induction false} SqDevOfConstant(v: seq<real>, c: real)
    requires forall i :: 0 <= i < |v| ==> v[i] == c
    ensures SqDev(v, c) == 0.0
    decreases |v|
  {
    if |v| > 0 {
      SqDevOfConstant(v[..|v| - 1], c);
      UnfoldOne(v, c);
    }
  }

  /** The normal equations are singular exactly when the values do not vary. */
  lemma SpreadZeroIffAllEqual(v: seq<real>)
    ensures 0.0 <= Spread(v)
    ensures Spread(v) == 0.0 <==> AllEqual(v)
  {
    if |v| == 0 {
      assert Spread(v) == SpreadForm(0.0, 0.0, 0.0);
      return;
    }
    var n := |v| as real;
    var mu := Mean(v);
    var dev := SqDev(v, mu);
    SpreadIsScaledDeviation(v);
    SqDevNonNeg(v, mu);
    if AllEqual(v) {
      SqDevOfConstant(v, v[0]);
      MeanMinimisesDeviation(v, v[0]);
      assert dev == 0.0;
      assert Mul(n, dev) == 0.0;
    } else {
      var i :| 0 <= i < |v| && v[i] != mu by {
        var i, j :| 0 <= i < |v| && 0 <= j < |v| && v[i] != v[j];
        if v[i] == mu {
          assert v[j] != mu;
        }
      }
      SquarePos(v[i] - mu);
      ProductPos(n, dev);
    }
  }

  /**
   * The fitted line satisfies the normal equations: its residuals sum to
   * zero and are orthogonal to the raw readings.
   */
  lemma FitSatisfiesNormalEquations(xs: seq<real>, ys: seq<real>)
    requires |xs| == |ys| && !AllEqual(xs)
    ensures Fit(xs, ys).Some?
    ensures var l := Fit(xs, ys).value;
            Sum(ys) == Lin(l.slope, Sum(xs), |xs| as real, l.intercept) &&
            Dot(xs, ys) == Lin(l.slope, Dot(xs, xs), l.intercept, Sum(xs))
  {
    var l := Fit(xs, ys).value;
    NormalAlgebra(|xs| as real, Sum(xs), Sum(ys), Dot(xs, xs), Dot(xs, ys), l.slope, l.intercept);
  }

  lemma {:induction false} ZeroSums(xs: seq<real>, zs: seq<real>)
    requires |xs| == |zs|
    requires forall i :: 0 <= i < |zs| ==> zs[i] == 0.0
    ensures Sum(zs) == 0.0 && Dot(zs, zs) == 0.0 && Dot(xs, zs) == 0.0
    decreases |xs|
  {
    if |xs| > 0 {
      ZeroSums(xs[..|xs| - 1], zs[..|zs| - 1]);
      UnfoldPair(xs, zs, 0.0, 0.0);
    }
  }

  /** The sum of squares `sum((d * x + e)^2)` is non-negative. */
  lemma QuadraticFormNonNeg(xs: seq<real>, d: real, e: real)
    ensures 0.0 <= QuadForm(Dot(xs, xs), Sum(xs), |xs| as real, d, e)
  {
    var zs := seq(|xs|, i requires 0 <= i < |xs| => 0.0);
    SSRExpand(xs, zs, -d, -e);
    SSRNonNeg(xs, zs, -d, -e);
    ZeroSums(xs, zs);
    QuadAlgebra(Dot(zs, zs), Dot(xs, zs), Sum(zs), Dot(xs, xs), Sum(xs), |xs| as real, d, e);
  }

  /**
   * Least squares: no line has a smaller sum of squared residuals than the
   * fitted one.
   */
  lemma FitMinimisesResiduals(xs: seq<real>, ys: seq<real>, m: real, b: real)
    requires |xs| == |ys| && !AllEqual(xs)
    ensures Fit(xs, ys).Some?
    ensures SSR(xs, ys, Fit(xs, ys).value.slope, Fit(xs, ys).value.intercept) <= SSR(xs, ys, m, b)
  {
    FitSatisfiesNormalEquations(xs, ys);
    var l := Fit(xs, ys).value;
    SSRExpand(xs, ys, l.slope, l.intercept);
    SSRExpand(xs, ys, m, b);
    QuadraticFormNonNeg(xs, m - l.slope, b - l.intercept);
    MinimiserAlgebra(Dot(ys, ys), Dot(xs, ys), Sum(ys), Dot(xs, xs), Sum(xs), |xs| as real,
                     l.slope, l.intercept, m, b);
  }

  /** The flat line at height `c` leaves exactly the deviations from `c`. */
  lemma {:induction false} SSRIsDeviation(xs: seq<real>, ys: seq<real>, c: real)
    requires |xs| == |ys|
    ensures SSR(xs, ys, 0.0, c) == SqDev(ys, c)
    decreases |xs|
  {
    if |xs| > 0 {
      SSRIsDeviation(xs[..|xs| - 1], ys[..|ys| - 1], c);
      UnfoldPair(xs, ys, 0.0, c);
      UnfoldOne(ys, c);
      assert ys[|ys| - 1] - Affine(0.0, c, xs[|xs| - 1]) == ys[|ys| - 1] - c;
    }
  }

  /** R-squared of the fitted line lies in [0, 1]. */
  lemma RSquaredInUnitInterval(xs: seq<real>, ys: seq<real>)
    requires |xs| == |ys| && !AllEqual(xs)
    ensures |xs| > 0 && Fit(xs, ys).Some?
    ensures 0.0 <= RSquared(xs, ys, Fit(xs, ys).value) <= 1.0
  {
    FitMinimisesResiduals(xs, ys, 0.0, Mean(ys));
    var l := Fit(xs, ys).value;
    SSRNonNeg(xs, ys, l.slope, l.intercept);
    SSRIsDeviation(xs, ys, Mean(ys));
    if SSTotal(ys) != 0.0 {
      RatioBounds(SSR(xs, ys, l.slope, l.intercept), SSTotal(ys));
    }
  }

  /** Samples that all lie on the line `a * x + c`. */
  predicate OnLine(xs: seq<real>, ys: seq<real>, a: real, c: real)
    requires |xs| == |ys|
  {
    forall i :: 0 <= i < |xs| ==> ys[i] == Affine(a, c, xs[i])
  }

  lemma OnLinePrefix(xs: seq<real>, ys: seq<real>, a: real, c: real)
    requires |xs| == |ys| > 0
    requires OnLine(xs, ys, a, c)
    ensures OnLine(xs[..|xs| - 1], ys[..|ys| - 1], a, c)
    ensures ys[|ys| - 1] == Affine(a, c, xs[|xs| - 1])
  {
    var xs', ys' := xs[..|xs| - 1], ys[..|ys| - 1];
    forall i | 0 <= i < |xs'|
      ensures ys'[i] == Affine(a, c, xs'[i])
    {
      assert xs'[i] == xs[i] && ys'[i] == ys[i];
    }
  }

  lemma {:induction false} AffineSums(xs: seq<real>, ys: seq<real>, a: real, c: real)
    requires |xs| == |ys|
    requires OnLine(xs, ys, a, c)
    ensures Sum(ys) == Lin(a, Sum(xs), |xs| as real, c)
    ensures Dot(xs, ys) == Lin(a, Dot(xs, xs), c, Sum(xs))
    decreases |xs|
  {
    if |xs| > 0 {
      var xs', ys' := xs[..|xs| - 1], ys[..|ys| - 1];
      OnLinePrefix(xs, ys, a, c);
      AffineSums(xs', ys', a, c);
      UnfoldPair(xs, ys, a, c);
      AffineStep(Sum(ys'), Sum(ys), Sum(xs'), Sum(xs), Dot(xs', ys'), Dot(xs, ys), Dot(xs', xs'), Dot(xs, xs),
                 |xs'| as real, |xs| as real, a, c, xs[|xs| - 1], ys[|ys| - 1]);
    }
  }

  lemma {:induction false} AffineResidualsVanish(xs: seq<real>, ys: seq<real>, a: real, c: real)
    requires |xs| == |ys|
    requires OnLine(xs, ys, a, c)
    ensures SSR(xs, ys, a, c) == 0.0
    decreases |xs|
  {
    if |xs| > 0 {
      OnLinePrefix(xs, ys, a, c);
      AffineResidualsVanish(xs[..|xs| - 1], ys[..|ys| - 1], a, c);
      UnfoldPair(xs, ys, a, c);
      assert Sq(0.0) == 0.0;
    }
  }

  /** Exactly collinear samples with varying raw readings give back their line. */
  lemma CollinearRecovery(xs: seq<real>, ys: seq<real>, a: real, c: real)
    requires |xs| == |ys|
    requires !AllEqual(xs)
    requires OnLine(xs, ys, a, c)
    ensures Fit(xs, ys) == Some(Line(a, c))
  {
    SpreadZeroIffAllEqual(xs);
    AffineSums(xs, ys, a, c);
    RecoveryAlgebra(|xs| as real, Sum(xs), Dot(xs, xs), Sum(ys), Dot(xs, ys), a, c);
  }

  /** The targets vary exactly when their squared deviation is non-zero. */
  lemma SSTotalZeroIffAllEqual(ys: seq<real>)
    requires |ys| > 0
    ensures SSTotal(ys) == 0.0 <==> AllEqual(ys)
  {
    SpreadZeroIffAllEqual(ys);
    SpreadIsScaledDeviation(ys);
    var n, dev := |ys| as real, SSTotal(ys);
    assert Mul(n, dev) == 0.0 <==> dev == 0.0;
  }

  lemma AffineInjective(a: real, c: real, x: real, x': real)
    requires a != 0.0
    requires Affine(a, c, x) == Affine(a, c, x')
    ensures x == x'
  {
    assert a * (x - x') == 0.0;
  }

  /** Targets on a line vary exactly when the line has a slope and the raw readings vary. */
  lemma OnLineVaries(xs: seq<real>, ys: seq<real>, a: real, c: real)
    requires |xs| == |ys|
    requires !AllEqual(xs)
    requires OnLine(xs, ys, a, c)
    ensures AllEqual(ys) <==> a == 0.0
  {
    if a != 0.0 {
      var i, j :| 0 <= i < |xs| && 0 <= j < |xs| && xs[i] != xs[j];
      if ys[i] == ys[j] {
        AffineInjective(a, c, xs[i], xs[j]);
      }
    } else {
      forall i, j | 0 <= i < |ys| && 0 <= j < |ys|
        ensures ys[i] == ys[j]
      {
        assert ys[i] == Affine(0.0, c, xs[i]) == c;
        assert ys[j] == Affine(0.0, c, xs[j]) == c;
      }
    }
  }

  /**
   * R-squared of an exact line is 1, except for a horizontal line, where the
   * targets do not vary and R-squared is defined as 0.
   */
  lemma CollinearRSquared(xs: seq<real>, ys: seq<real>, a: real, c: real)
    requires |xs| == |ys| > 0
    requires !AllEqual(xs)
    requires OnLine(xs, ys, a, c)
    ensures RSquared(xs, ys, Line(a, c)) == (if a != 0.0 then 1.0 else 0.0)
  {
    AffineResidualsVanish(xs, ys, a, c);
    SSTotalZeroIffAllEqual(ys);
    OnLineVaries(xs, ys, a, c);
  }
}
