/**
 * The live centre-of-mass tracker (`WeightDistribution`): four sensor
 * weights and positions, the ideal and actual centre of mass and the
 * displacement between them. Every update returns the new state together
 * with the notifications it emits, in order, in place of Qt signals.
 */
module WeightDistribution {
  import opened Common
  import opened CalibrationMath

  datatype State = State(weights: seq<real>, positions: seq<Vec>,
                         idealCom: Vec, actualCom: Vec, displacement: Vec)

  /** The state of a freshly constructed tracker. */
  const Initial: State := State([0.0, 0.0, 0.0, 0.0], [Origin, Origin, Origin, Origin], Origin, Origin, Origin)

  /** The notifications `com_calculated`, `displacement_calculated` and `geometry_changed`. */
  datatype Event = ComCalculated(com: Vec) | DisplacementCalculated(d: Vec) | GeometryChanged

  /** The state after an operation and the notifications it emitted, oldest first. */
  datatype Step = Step(state: State, events: seq<Event>)

  /** The displacement is up to date: actual minus ideal centre of mass. */
  predicate Consistent(s: State) {
    s.displacement == Sub(s.actualCom, s.idealCom)
  }

  /** `calculate_displacement`: actual minus ideal, then the notification. */
  function CalculateDisplacement(s: State): (r: Step)
    ensures Consistent(r.state)
    ensures r.state == s.(displacement := r.state.displacement)
    ensures r.events == [DisplacementCalculated(r.state.displacement)]
  {
    var d := Sub(s.actualCom, s.idealCom);
    Step(s.(displacement := d), [DisplacementCalculated(d)])
  }

  /** The weighted centre `(sum w*x / total, sum w*y / total)`, pairing weights and positions as `zip` does. */
  function WeightedCentre(ws: seq<real>, ps: seq<Vec>): Vec
    requires Sum(ws) != 0.0
  {
    Vec(Div(MomentX(ws, ps), Sum(ws)), Div(MomentY(ws, ps), Sum(ws)))
  }

  /** Set the actual centre of mass, announce it, then recompute the displacement. */
  function Settle(s: State, com: Vec): (r: Step)
    ensures r.state == s.(actualCom := com, displacement := Sub(com, s.idealCom))
    ensures r.events == [ComCalculated(com), DisplacementCalculated(Sub(com, s.idealCom))]
  {
    var d := CalculateDisplacement(s.(actualCom := com));
    Step(d.state, [ComCalculated(com)] + d.events)
  }

  /**
   * `calculate_com`. A positive total weight gives the weighted centre; a
   * total of zero or less falls back to the unweighted centroid of the
   * positions, or leaves everything unchanged when there are none.
   */
  function CalculateCom(s: State): (r: Step)
    ensures Sum(s.weights) > 0.0 ==> r == Settle(s, WeightedCentre(s.weights, s.positions))
    ensures Sum(s.weights) <= 0.0 && |s.positions| > 0 ==> r == Settle(s, Centroid(s.positions))
    ensures Sum(s.weights) <= 0.0 && |s.positions| == 0 ==> r == Step(s, [])
    ensures r.state.weights == s.weights && r.state.positions == s.positions && r.state.idealCom == s.idealCom
    ensures r.events == [] || r.events == [ComCalculated(r.state.actualCom), DisplacementCalculated(r.state.displacement)]
    ensures r.events != [] || Consistent(s) ==> Consistent(r.state)
  {
    var total := Sum(s.weights);
    if total <= 0.0 then
      if |s.positions| > 0 then Settle(s, Centroid(s.positions)) else Step(s, [])
    else Settle(s, WeightedCentre(s.weights, s.positions))
  }

  /** `update_sensor_positions`: store, recompute the centre, then announce the geometry change. */
  function UpdateSensorPositions(s: State, positions: seq<Vec>): (r: Step)
    ensures r.state.positions == positions && r.state.weights == s.weights && r.state.idealCom == s.idealCom
    ensures |r.events| > 0 && r.events[|r.events| - 1] == GeometryChanged
    ensures r.events[..|r.events| - 1] == CalculateCom(s.(positions := positions)).events
    ensures Consistent(r.state) || r.events == [GeometryChanged]
    ensures r.state == CalculateCom(s.(positions := positions)).state
  {
    var c := CalculateCom(s.(positions := positions));
    Step(c.state, c.events + [GeometryChanged])
  }

  /**
   * `update_ideal_com`: store the ideal centre; the displacement is
   * recomputed only when the actual centre is not the origin, which the
   * tracker uses to mean "not yet computed".
   */
  function UpdateIdealCom(s: State, com: Vec): (r: Step)
    ensures r.state.idealCom == com && r.state.actualCom == s.actualCom
    ensures r.state.weights == s.weights && r.state.positions == s.positions
    ensures s.actualCom != Origin ==> Consistent(r.state) && r.events == [DisplacementCalculated(r.state.displacement)]
    ensures s.actualCom == Origin ==> r.state.displacement == s.displacement && r.events == []
  {
    var s' := s.(idealCom := com);
    if s.actualCom != Origin then CalculateDisplacement(s') else Step(s', [])
  }

  /**
   * The values that feed the weights: as given when pre-calibrated or when
   * no calibration is attached, otherwise calibrated in grams.
   */
  function CalibratedValues(values: seq<real>, preCalibrated: bool, calibration: Option<CalibrationData>): (cal: seq<real>)
    ensures |cal| == |values|
    ensures preCalibrated || calibration.None? ==> cal == values
    ensures !preCalibrated && calibration.Some? ==>
              forall i :: 0 <= i < |values| ==> cal[i] == CalibratedGrams(calibration.value.calibrations, i, values[i])
  {
    if preCalibrated || calibration.None? then values else Apply(calibration.value, values, "g")
  }

  /** A tare list is used only when present with at least four entries. */
  predicate UsesTare(tare: Option<seq<real>>) {
    tare.Some? && |tare.value| >= 4
  }

  /**
   * The sensor weights. With a usable tare, `max(0, cal - tare)` pairs
   * readings and tares off like `zip`, so the list is as long as the shorter
   * one and each weight is the part of the reading above its tare.
   * Otherwise pre-calibrated readings are folded with `abs` and the others
   * clamped with `max(0, ·)`. No weight is negative.
   */
  function SensorWeights(cal: seq<real>, tare: Option<seq<real>>, preCalibrated: bool): (ws: seq<real>)
    ensures forall i :: 0 <= i < |ws| ==> 0.0 <= ws[i]
    ensures UsesTare(tare) ==>
              |ws| == Min(|cal|, |tare.value|) &&
              forall i :: 0 <= i < |ws| ==> (ws[i] == 0.0 || ws[i] == cal[i] - tare.value[i]) && cal[i] - tare.value[i] <= ws[i]
    ensures !UsesTare(tare) ==> |ws| == |cal| && forall i :: 0 <= i < |ws| ==> cal[i] <= ws[i]
    ensures !UsesTare(tare) && preCalibrated ==> forall i :: 0 <= i < |ws| ==> ws[i] == cal[i] || ws[i] == -cal[i]
    ensures !UsesTare(tare) && !preCalibrated ==> forall i :: 0 <= i < |ws| ==> ws[i] == 0.0 || ws[i] == cal[i]
  {
    if UsesTare(tare) then
      seq(Min(|cal|, |tare.value|), i requires 0 <= i < Min(|cal|, |tare.value|) => ClampNonNeg(cal[i] - tare.value[i]))
    else
      seq(|cal|, i requires 0 <= i < |cal| => if preCalibrated then Abs(cal[i]) else ClampNonNeg(cal[i]))
  }

  /**
   * `update_sensor_data(values, tare_values, pre_calibrated)` with the
   * attached calibration (if any). Fewer than four values change nothing.
   */
  function UpdateSensorData(s: State, values: seq<real>, tare: Option<seq<real>>, preCalibrated: bool,
                            calibration: Option<CalibrationData>): (r: Step)
    ensures |values| < 4 ==> r == Step(s, [])
    ensures 4 <= |values| ==>
              r.state.positions == s.positions && r.state.idealCom == s.idealCom &&
              r.state.weights == SensorWeights(CalibratedValues(values, preCalibrated, calibration), tare, preCalibrated)
    ensures 4 <= |values| && Sum(r.state.weights) > 0.0 ==> r.state.actualCom == WeightedCentre(r.state.weights, s.positions)
    ensures 4 <= |values| && Sum(r.state.weights) <= 0.0 && |s.positions| > 0 ==> r.state.actualCom == Centroid(s.positions)
    ensures 4 <= |values| ==>
              r.events == [] || r.events == [ComCalculated(r.state.actualCom), DisplacementCalculated(r.state.displacement)]
    ensures 4 <= |values| && (r.events != [] || Consistent(s)) ==> Consistent(r.state)
    ensures 4 <= |values| && (Sum(r.state.weights) > 0.0 || |s.positions| > 0) ==>
              r.events == [ComCalculated(r.state.actualCom), DisplacementCalculated(r.state.displacement)] &&
              Consistent(r.state)
    ensures 4 <= |values| && Sum(r.state.weights) <= 0.0 && |s.positions| == 0 ==>
              r == Step(s.(weights := r.state.weights), [])
  {
    if |values| < 4 then Step(s, [])
    else CalculateCom(s.(weights := SensorWeights(CalibratedValues(values, preCalibrated, calibration), tare, preCalibrated)))
  }

  // ---------------------------------------------------------------------
  // Properties of the centre of mass

  /**
   * Consistency is kept by every update when it already holds, except that
   * moving the ideal centre while the actual one sits at the origin leaves
   * the displacement behind.
   */
  lemma ConsistencyPreserved(s: State, positions: seq<Vec>, com: Vec, values: seq<real>,
                             tare: Option<seq<real>>, pre: bool, calibration: Option<CalibrationData>)
    requires Consistent(s)
    ensures Consistent(CalculateCom(s).state)
    ensures Consistent(UpdateSensorPositions(s, positions).state)
    ensures Consistent(UpdateSensorData(s, values, tare, pre, calibration).state)
    ensures Consistent(UpdateIdealCom(s, com).state) <==> s.actualCom != Origin || com == s.idealCom
  {
    var r := UpdateIdealCom(s, com);
    if s.actualCom == Origin && com != s.idealCom {
      assert r.state.displacement == Sub(Origin, s.idealCom);
      assert Sub(Origin, com) != Sub(Origin, s.idealCom);
    }
  }

  /** Points whose x coordinates lie in [lo, hi] and y coordinates in [bot, top]. */
  predicate InBox(ps: seq<Vec>, lo: real, hi: real, bot: real, top: real) {
    forall i :: 0 <= i < |ps| ==> lo <= ps[i].x <= hi && bot <= ps[i].y <= top
  }

  predicate NonNeg(ws: seq<real>) {
    forall i :: 0 <= i < |ws| ==> 0.0 <= ws[i]
  }

  lemma WeightedTermBounds(w: real, x: real, lo: real, hi: real)
    requires 0.0 <= w && lo <= x <= hi
    ensures lo * w <= w * x <= hi * w
  {
  }

  /** One step of the moment bounds, over plain reals. */
  lemma StepBounds(m: real, m': real, t: real, t': real, w: real, x: real, lo: real, hi: real)
    requires Mul(lo, t) <= m <= Mul(hi, t)
    requires 0.0 <= w && lo <= x <= hi
    requires m' == m + Mul(w, x) && t' == t + w
    ensures Mul(lo, t') <= m' <= Mul(hi, t')
  {
    WeightedTermBounds(w, x, lo, hi);
  }

  lemma {:induction false} MomentXBounds(ws: seq<real>, ps: seq<Vec>, lo: real, hi: real, bot: real, top: real)
    requires |ws| <= |ps|
    requires NonNeg(ws) && InBox(ps, lo, hi, bot, top)
    ensures Mul(lo, Sum(ws)) <= MomentX(ws, ps) <= Mul(hi, Sum(ws))
    decreases |ws|
  {
    if |ws| > 0 {
      var n := |ws| - 1;
      var ws' := ws[..n];
      MomentXBounds(ws', ps, lo, hi, bot, top);
      assert MomentX(ws, ps) == MomentX(ws', ps) + Mul(ws[n], ps[n].x);
      assert Sum(ws) == Sum(ws') + ws[n];
      StepBounds(MomentX(ws', ps), MomentX(ws, ps), Sum(ws'), Sum(ws), ws[n], ps[n].x, lo, hi);
    }
  }

  lemma {:induction false} MomentYBounds(ws: seq<real>, ps: seq<Vec>, lo: real, hi: real, bot: real, top: real)
    requires |ws| <= |ps|
    requires NonNeg(ws) && InBox(ps, lo, hi, bot, top)
    ensures Mul(bot, Sum(ws)) <= MomentY(ws, ps) <= Mul(top, Sum(ws))
    decreases |ws|
  {
    if |ws| > 0 {
      var n := |ws| - 1;
      var ws' := ws[..n];
      MomentYBounds(ws', ps, lo, hi, bot, top);
      assert MomentY(ws, ps) == MomentY(ws', ps) + Mul(ws[n], ps[n].y);
      assert Sum(ws) == Sum(ws') + ws[n];
      StepBounds(MomentY(ws', ps), MomentY(ws, ps), Sum(ws'), Sum(ws), ws[n], ps[n].y, bot, top);
    }
  }

  lemma CentreInBox(ws: seq<real>, ps: seq<Vec>, lo: real, hi: real, bot: real, top: real)
    requires |ws| <= |ps|
    requires NonNeg(ws) && InBox(ps, lo, hi, bot, top)
    requires Sum(ws) > 0.0
    ensures lo <= WeightedCentre(ws, ps).x <= hi && bot <= WeightedCentre(ws, ps).y <= top
  {
    var mx, my, t := MomentX(ws, ps), MomentY(ws, ps), Sum(ws);
    MomentXBounds(ws, ps, lo, hi, bot, top);
    QuotientBounds(mx, t, lo, hi);
    MomentYBounds(ws, ps, lo, hi, bot, top);
    QuotientBounds(my, t, bot, top);
  }

  /**
   * With non-negative weights, no more weights than positions and a
   * positive total, the centre of mass lies in the bounding box of the
   * sensor positions.
   */
  lemma ComInBoundingBox(s: State, lo: real, hi: real, bot: real, top: real)
    requires |s.weights| <= |s.positions|
    requires NonNeg(s.weights) && InBox(s.positions, lo, hi, bot, top)
    requires Sum(s.weights) > 0.0
    ensures var c := CalculateCom(s).state.actualCom;
            lo <= c.x <= hi && bot <= c.y <= top
  {
    CentreInBox(s.weights, s.positions, lo, hi, bot, top);
  }

  predicate AllEqualTo(ws: seq<real>, w: real) {
    forall i :: 0 <= i < |ws| ==> ws[i] == w
  }

  lemma {:induction false} SumOfConstant(ws: seq<real>, w: real)
    requires AllEqualTo(ws, w)
    ensures Sum(ws) == |ws| as real * w
    decreases |ws|
  {
    if |ws| > 0 {
      SumOfConstant(ws[..|ws| - 1], w);
    }
  }

  lemma {:induction false} MomentOfConstant(ws: seq<real>, ps: seq<Vec>, w: real)
    requires |ws| <= |ps|
    requires AllEqualTo(ws, w)
    ensures MomentX(ws, ps) == w * SumX(ps[..|ws|])
    ensures MomentY(ws, ps) == w * SumY(ps[..|ws|])
    decreases |ws|
  {
    if |ws| > 0 {
      var n := |ws| - 1;
      MomentOfConstant(ws[..n], ps, w);
      assert ps[..|ws|][..n] == ps[..n];
    }
  }

  lemma EqualWeightAlgebra(m: real, w: real, sx: real, n: real)
    requires 0.0 < n && w != 0.0
    requires m == w * sx
    ensures Div(m, n * w) == sx / n
  {
  }

  /**
   * Equal weights on every sensor put the centre of mass at the centroid of
   * the positions, whatever the common weight: a positive weight through
   * the weighted formula, zero or negative through the fallback.
   */
  lemma EqualWeightsGiveCentroid(s: State, w: real)
    requires |s.weights| == |s.positions| > 0
    requires AllEqualTo(s.weights, w)
    ensures CalculateCom(s).state.actualCom == Centroid(s.positions)
  {
    SumOfConstant(s.weights, w);
    if Sum(s.weights) > 0.0 {
      MomentOfConstant(s.weights, s.positions, w);
      assert s.positions[..|s.weights|] == s.positions;
      var n := |s.positions| as real;
      EqualWeightAlgebra(MomentX(s.weights, s.positions), w, SumX(s.positions), n);
      EqualWeightAlgebra(MomentY(s.weights, s.positions), w, SumY(s.positions), n);
    }
  }

  /**
   * The notifications of a centre-of-mass computation: the new centre, then
   * the displacement, or nothing at all; moving the sensors adds the
   * geometry notification last.
   */
  lemma NotificationOrder(s: State, positions: seq<Vec>)
    ensures var e := CalculateCom(s).events;
            e == [] || (|e| == 2 && e[0].ComCalculated? && e[1].DisplacementCalculated? &&
                        e[1].d == Sub(e[0].com, s.idealCom))
    ensures var e := UpdateSensorPositions(s, positions).events;
            (|e| == 1 || |e| == 3) && e[|e| - 1] == GeometryChanged &&
            (|positions| > 0 ==> |e| == 3 && e[0] == ComCalculated(UpdateSensorPositions(s, positions).state.actualCom))
  {
  }

  /**
   * A tared reading on four sensors at the tare values weighs nothing, and
   * the centre then falls back to the centroid of the positions.
   */
  lemma TaredAtRestGivesCentroid(s: State, values: seq<real>, calibration: Option<CalibrationData>)
    requires |values| == 4 && |s.positions| > 0
    ensures var r := UpdateSensorData(s, values, Some(values), true, calibration);
            r.state.weights == [0.0, 0.0, 0.0, 0.0] && r.state.actualCom == Centroid(s.positions)
  {
    assert CalibratedValues(values, true, calibration) == values;
    var ws := SensorWeights(values, Some(values), true);
    forall i | 0 <= i < |ws|
      ensures ws[i] == 0.0
    {
      assert ws[i] == ClampNonNeg(values[i] - values[i]);
    }
    assert ws == [0.0, 0.0, 0.0, 0.0];
    SumOfConstant(ws, 0.0);
  }
}
