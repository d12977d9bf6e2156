/**
 * The display arithmetic of `WeightDistribution`: the scaling that fits
 * the sensors and the two centres of mass into a view of a given width,
 * and the map from sled coordinates to view coordinates.
 */
module Display {
  import opened Common
  import opened WeightDistribution

  /** The tuple `(scale, offset_x, offset_y, min_x, min_y, max_x, max_y)`. */
  datatype Scaling = Scaling(scale: real, offsetX: real, offsetY: real,
                             minX: real, minY: real, maxX: real, maxY: real)

  function Xs(ps: seq<Vec>): (xs: seq<real>)
    ensures |xs| == |ps| && forall i :: 0 <= i < |ps| ==> xs[i] == ps[i].x
  {
    seq(|ps|, i requires 0 <= i < |ps| => ps[i].x)
  }

  function Ys(ps: seq<Vec>): (ys: seq<real>)
    ensures |ys| == |ps| && forall i :: 0 <= i < |ps| ==> ys[i] == ps[i].y
  {
    seq(|ps|, i requires 0 <= i < |ps| => ps[i].y)
  }

  /**
   * The points the view must show: the sensors, then the actual and the
   * ideal centre of mass unless they sit at the origin.
   */
  function DisplayPoints(s: State): (pts: seq<Vec>)
    ensures |pts| == |s.positions| + (if s.actualCom != Origin then 1 else 0) + (if s.idealCom != Origin then 1 else 0)
    ensures pts[..|s.positions|] == s.positions
    ensures s.actualCom != Origin ==> pts[|s.positions|] == s.actualCom
    ensures s.idealCom != Origin ==> pts[|pts| - 1] == s.idealCom
  {
    s.positions + (if s.actualCom != Origin then [s.actualCom] else []) + (if s.idealCom != Origin then [s.idealCom] else [])
  }

  /** An empty range is widened by one unit on either side. */
  function Widen(lo: real, hi: real): (r: (real, real))
    ensures lo == hi ==> r == (lo - 1.0, hi + 1.0)
    ensures lo != hi ==> r == (lo, hi)
  {
    if lo == hi then (lo - 1.0, hi + 1.0) else (lo, hi)
  }

  /** `calculate_display_scaling` when there is at least one point to show. */
  function RangeScaling(lo0: real, hi0: real, bot0: real, top0: real,
                        viewWidth: real, viewHeight: real, marginPercent: real): (r: Option<Scaling>)
    ensures lo0 <= hi0 ==> (r.None? <==> marginPercent == -50.0)
    ensures r.Some? ==> r.value.offsetX == 0.0 && 0.0 <= r.value.offsetY
    ensures r.Some? && viewHeight > Mul(r.value.maxY - r.value.minY, r.value.scale) ==>
              r.value.offsetY + Mul(r.value.maxY - r.value.minY, r.value.scale) + r.value.offsetY == viewHeight
  {
    WidenedRange(lo0, hi0);
    var (lo, hi) := Widen(lo0, hi0);
    var (bot, top) := Widen(bot0, top0);
    var mx := Mul(hi - lo, marginPercent / 100.0);
    var my := Mul(top - bot, marginPercent / 100.0);
    MarginAlgebra(hi - lo, marginPercent);
    var minX, maxX, minY, maxY := lo - mx, hi + mx, bot - my, top + my;
    var width, height := maxX - minX, maxY - minY;
    if width == 0.0 then None
    else
      var scale := Div(viewWidth, width);
      var required := Mul(height, scale);
      var offsetY := if viewHeight > required then (viewHeight - required) / 2.0 else 0.0;
      Some(Scaling(scale, 0.0, offsetY, minX, minY, maxX, maxY))
  }

  /**
   * `calculate_display_scaling(view_width, view_height, margin_percent)`.
   * The result is `None` where Python divides by zero and raises.
   */
  function DisplayScaling(s: State, viewWidth: real, viewHeight: real, marginPercent: real): (r: Option<Scaling>)
    ensures r.None? <==> |DisplayPoints(s)| > 0 && marginPercent == -50.0
    ensures |DisplayPoints(s)| == 0 ==> r == Some(Scaling(1.0, viewWidth / 2.0, 0.0, -1.0, -1.0, 1.0, 1.0))
  {
    var pts := DisplayPoints(s);
    if |pts| == 0 then Some(Scaling(1.0, viewWidth / 2.0, 0.0, -1.0, -1.0, 1.0, 1.0))
    else
      assert SeqMin(Xs(pts)) <= Xs(pts)[0] <= SeqMax(Xs(pts));
      RangeScaling(SeqMin(Xs(pts)), SeqMax(Xs(pts)), SeqMin(Ys(pts)), SeqMax(Ys(pts)),
                      viewWidth, viewHeight, marginPercent)
  }

  /**
   * `transform_point` exactly as written: the y term
   * `min_y + (min_y - y) * -1` reduces to `y`, so neither `min_y` nor a
   * flip enters the vertical coordinate.
   */
  function TransformPoint(p: Vec, scale: real, offsetX: real, offsetY: real, minX: real, minY: real): (v: Vec)
    ensures v.y == offsetY + Mul(p.y, scale)
  {
    Vec(offsetX + Mul(p.x - minX, scale), offsetY + Mul(minY + (minY - p.y) * -1.0, scale))
  }

  // ---------------------------------------------------------------------
  // Properties

  lemma WidenedRange(lo: real, hi: real)
    ensures lo <= hi ==> Widen(lo, hi).0 < Widen(lo, hi).1
    ensures lo <= hi ==> Widen(lo, hi).0 <= lo && hi <= Widen(lo, hi).1
  {
  }

  /** The margins scale a positive width `d` by `1 + margin_percent / 50`. */
  lemma MarginAlgebra(d: real, pct: real)
    ensures 0.0 < d ==> (d + 2.0 * Mul(d, pct / 100.0) == 0.0 <==> pct == -50.0)
    ensures 0.0 < d && 0.0 <= pct ==> 0.0 <= Mul(d, pct / 100.0)
  {
    assert d + 2.0 * Mul(d, pct / 100.0) == d * (1.0 + pct / 50.0);
  }

  /** With a non-negative margin the scaled range contains the data range. */
  lemma RangeScalingContains(lo0: real, hi0: real, bot0: real, top0: real, w: real, h: real, pct: real)
    requires lo0 <= hi0 && bot0 <= top0 && 0.0 <= pct
    ensures var r := RangeScaling(lo0, hi0, bot0, top0, w, h, pct);
            r.Some? && r.value.offsetX == 0.0 &&
            r.value.minX <= lo0 && hi0 <= r.value.maxX && r.value.minX < r.value.maxX &&
            r.value.minY <= bot0 && top0 <= r.value.maxY &&
            r.value.scale == Div(w, r.value.maxX - r.value.minX)
  {
    WidenedRange(lo0, hi0);
    WidenedRange(bot0, top0);
    var (lo, hi) := Widen(lo0, hi0);
    var (bot, top) := Widen(bot0, top0);
    MarginAlgebra(hi - lo, pct);
    MarginAlgebra(top - bot, pct);
  }

  /** Every point to show lies inside the scaled range when the margin is not negative. */
  lemma PointsInsideRange(s: State, viewWidth: real, viewHeight: real, marginPercent: real, i: nat)
    requires 0.0 <= marginPercent
    requires i < |DisplayPoints(s)|
    ensures var r := DisplayScaling(s, viewWidth, viewHeight, marginPercent);
            var p := DisplayPoints(s)[i];
            r.Some? && r.value.minX <= p.x <= r.value.maxX && r.value.minY <= p.y <= r.value.maxY
  {
    var pts := DisplayPoints(s);
    var xs, ys := Xs(pts), Ys(pts);
    assert SeqMin(xs) <= xs[i] <= SeqMax(xs);
    assert SeqMin(ys) <= ys[i] <= SeqMax(ys);
    RangeScalingContains(SeqMin(xs), SeqMax(xs), SeqMin(ys), SeqMax(ys), viewWidth, viewHeight, marginPercent);
  }

  lemma FitAlgebra(x: real, minX: real, maxX: real, w: real)
    requires minX <= x <= maxX && minX < maxX && 0.0 <= w
    ensures 0.0 <= Mul(x - minX, Div(w, maxX - minX)) <= w
  {
    var d := maxX - minX;
    assert (x - minX) * (w / d) == w * ((x - minX) / d);
    assert 0.0 <= (x - minX) / d <= 1.0;
  }

  /** A point inside the data range lands between 0 and the view width. */
  lemma RangeHorizontalFit(lo: real, hi: real, bot: real, top: real, w: real, h: real, pct: real, p: Vec)
    requires lo <= p.x <= hi && bot <= top && 0.0 <= pct && 0.0 <= w
    ensures RangeScaling(lo, hi, bot, top, w, h, pct).Some?
    ensures var r := RangeScaling(lo, hi, bot, top, w, h, pct).value;
            0.0 <= TransformPoint(p, r.scale, r.offsetX, r.offsetY, r.minX, r.minY).x <= w
  {
    RangeScalingContains(lo, hi, bot, top, w, h, pct);
    var r := RangeScaling(lo, hi, bot, top, w, h, pct).value;
    FitAlgebra(p.x, r.minX, r.maxX, w);
  }

  /**
   * The view is filled horizontally: with a non-negative margin every point
   * to show lands between 0 and the view width.
   */
  lemma HorizontalFit(s: State, viewWidth: real, viewHeight: real, marginPercent: real, i: nat)
    requires 0.0 <= marginPercent && 0.0 <= viewWidth
    requires i < |DisplayPoints(s)|
    ensures DisplayScaling(s, viewWidth, viewHeight, marginPercent).Some?
    ensures var r := DisplayScaling(s, viewWidth, viewHeight, marginPercent).value;
            var v := TransformPoint(DisplayPoints(s)[i], r.scale, r.offsetX, r.offsetY, r.minX, r.minY);
            0.0 <= v.x <= viewWidth
  {
    var pts := DisplayPoints(s);
    var xs, ys := Xs(pts), Ys(pts);
    assert SeqMin(xs) <= xs[i] <= SeqMax(xs);
    assert SeqMin(ys) <= ys[i] <= SeqMax(ys);
    RangeHorizontalFit(SeqMin(xs), SeqMax(xs), SeqMin(ys), SeqMax(ys), viewWidth, viewHeight, marginPercent, pts[i]);
  }

  // ---------------------------------------------------------------------
  // The view-to-data map

  /**
   * The tooltip's inverse of `transform_point` as written in
   * tabs/live_feed.py: it undoes the vertical flip that the forward map
   * does not perform.
   */
  function TooltipInverse(q: Vec, scale: real, offsetX: real, offsetY: real, minX: real, minY: real): (p: Vec)
    requires scale != 0.0
    ensures p.x == ViewToData(q, scale, offsetX, offsetY, minX).x
    ensures p.y == 2.0 * minY - ViewToData(q, scale, offsetX, offsetY, minX).y
  {
    Vec(Div(q.x - offsetX, scale) + minX, minY - (Div(q.y - offsetY, scale) - minY))
  }

  /**
   * The inverse the forward map actually has: the point `transform_point`
   * sends to `q`, whatever `min_y` it is given.
   */
  function ViewToData(q: Vec, scale: real, offsetX: real, offsetY: real, minX: real): (p: Vec)
    requires scale != 0.0
    ensures forall minY: real ::
              TransformPoint(p, scale, offsetX, offsetY, minX, minY) == q
  {
    CancelScale(q.x - offsetX, scale);
    CancelScale(q.y - offsetY, scale);
    Vec(Div(q.x - offsetX, scale) + minX, Div(q.y - offsetY, scale))
  }

  lemma CancelScale(a: real, scale: real)
    requires scale != 0.0
    ensures Div(Mul(a, scale), scale) == a
    ensures Mul(Div(a, scale), scale) == a
  {
  }

  /** `ViewToData` undoes `TransformPoint`, and the other way round. */
  lemma TransformRoundTrip(p: Vec, q: Vec, scale: real, offsetX: real, offsetY: real, minX: real, minY: real)
    requires scale != 0.0
    ensures ViewToData(TransformPoint(p, scale, offsetX, offsetY, minX, minY), scale, offsetX, offsetY, minX) == p
    ensures TransformPoint(ViewToData(q, scale, offsetX, offsetY, minX), scale, offsetX, offsetY, minX, minY) == q
  {
    CancelScale(p.x - minX, scale);
    CancelScale(p.y, scale);
  }

  /**
   * The tooltip's inverse returns a point's own y only when that y equals
   * `min_y`; any other point is reported mirrored about `min_y`.
   */
  lemma TooltipInverseMismatch(p: Vec, scale: real, offsetX: real, offsetY: real, minX: real, minY: real)
    requires scale != 0.0
    ensures TooltipInverse(TransformPoint(p, scale, offsetX, offsetY, minX, minY), scale, offsetX, offsetY, minX, minY)
              == Vec(p.x, 2.0 * minY - p.y)
    ensures (TooltipInverse(TransformPoint(p, scale, offsetX, offsetY, minX, minY), scale, offsetX, offsetY, minX, minY) == p)
              <==> p.y == minY
  {
    TransformRoundTrip(p, p, scale, offsetX, offsetY, minX, minY);
  }
}
