/**
 * The calibration store of the load-cell sled (`CalibrationData`): one
 * linear map `grams = slope * raw + intercept` per sensor, fitted by least
 * squares from calibration points, converted from the legacy
 * offset/scale records, and padded or trimmed to the four sensors.
 *
 * Python's dictionaries become the record `SensorCal`; `self` becomes the
 * immutable value `CalibrationData`, and every mutating method returns the
 * new value (together with its boolean result where it has one).
 */
module CalibrationMath {
  import opened Common
  import opened Units
  import opened Regression

  /** One calibration point: a raw reading taken with a known weight on the cell. */
  datatype CalPoint = CalPoint(raw: real, weight: real, unit: string)

  /**
   * The record kept per sensor. `rSquared` is present only after a
   * successful fit; `points` are the points of that fit, as given.
   */
  datatype SensorCal = SensorCal(slope: real, intercept: real, unit: string,
                                 rSquared: Option<real>, points: seq<CalPoint>)

  /** The record a sensor gets by default and after a reset. */
  const Identity: SensorCal := SensorCal(1.0, 0.0, "g", None, [])

  /** The number of load cells on the sled. */
  const SensorCount: nat := 4

  datatype CalibrationData = CalibrationData(calibrations: seq<SensorCal>, loaded: bool)

  /** A freshly constructed store: four identity records, not loaded. */
  const Initial: CalibrationData := CalibrationData([Identity, Identity, Identity, Identity], false)

  // ---------------------------------------------------------------------
  // apply

  /**
   * The gram value `apply` computes for sensor `i` before converting it:
   * the sensor's line where a record exists, the raw value otherwise.
   */
  function CalibratedGrams(cals: seq<SensorCal>, i: nat, value: real): real {
    if i < |cals| then Affine(cals[i].slope, cals[i].intercept, value) else value
  }

  /**
   * `apply(values, unit)`: each value goes through its sensor's line where
   * a record exists and is left as it is beyond them, and the gram result
   * is scaled by the target unit's factor. The record's own `unit` field
   * plays no part.
   */
  function Apply(data: CalibrationData, values: seq<real>, unit: string): (out: seq<real>)
    ensures |out| == |values|
    ensures forall i :: 0 <= i < |values| ==> out[i] == Mul(CalibratedGrams(data.calibrations, i, values[i]), UnitFactor(unit))
    ensures unit == "g" ==> forall i :: 0 <= i < |values| && i < |data.calibrations| ==>
              out[i] == data.calibrations[i].slope * values[i] + data.calibrations[i].intercept
    ensures unit == "g" ==> forall i :: |data.calibrations| <= i < |values| ==> out[i] == values[i]
  {
    seq(|values|, i requires 0 <= i < |values| => ConvertUnit(CalibratedGrams(data.calibrations, i, values[i]), "g", unit))
  }

  /** A fresh store passes raw values through unchanged. */
  lemma ApplyInitialIsIdentity(values: seq<real>)
    ensures Apply(Initial, values, "g") == values
  {
    var out := Apply(Initial, values, "g");
    assert forall i :: 0 <= i < |values| ==> out[i] == values[i];
  }

  // ---------------------------------------------------------------------
  // set_sensor_calibration

  /** The raw readings of the points, the x values of the fit. */
  function Raws(points: seq<CalPoint>): (xs: seq<real>)
    ensures |xs| == |points|
    ensures forall k :: 0 <= k < |points| ==> xs[k] == points[k].raw
  {
    seq(|points|, k requires 0 <= k < |points| => points[k].raw)
  }

  /** The point weights converted to grams, the y values of the fit. */
  function GramWeights(points: seq<CalPoint>): (ys: seq<real>)
    ensures |ys| == |points|
    ensures forall k :: 0 <= k < |points| ==> ys[k] == ConvertUnit(points[k].weight, points[k].unit, "g")
  {
    seq(|points|, k requires 0 <= k < |points| => ToGrams(points[k].weight, points[k].unit))
  }

  /** Result of a method that both reports success and updates the store. */
  datatype Outcome = Outcome(ok: bool, data: CalibrationData)

  /** The record a successful fit stores: the line, unit "g", R-squared and the points as given. */
  function Fitted(points: seq<CalPoint>, l: Line): SensorCal
    requires |points| > 0
  {
    SensorCal(l.slope, l.intercept, "g", Some(RSquared(Raws(points), GramWeights(points), l)), points)
  }

  /** Whether the store has a record for `index`. */
  predicate ValidIndex(data: CalibrationData, index: int) {
    0 <= index < |data.calibrations|
  }

  /**
   * `set_sensor_calibration(index, points)`. An invalid index changes
   * nothing; fewer than two points reset the sensor; otherwise the
   * least-squares line over (raw, grams) is stored. When every raw reading
   * is the same the fit is undefined and the sensor is reset, as in the
   * method's exception handler.
   */
  function SetSensorCalibration(data: CalibrationData, index: int, points: seq<CalPoint>): (r: Outcome)
    ensures !ValidIndex(data, index) ==> r == Outcome(false, data)
    ensures r.data.loaded == data.loaded
    ensures |r.data.calibrations| == |data.calibrations|
    ensures forall j :: 0 <= j < |data.calibrations| && j != index ==>
              r.data.calibrations[j] == data.calibrations[j]
    ensures ValidIndex(data, index) && |points| < 2 ==> !r.ok && r.data.calibrations[index] == Identity
    ensures ValidIndex(data, index) && 2 <= |points| ==> (r.ok <==> !AllEqual(Raws(points)))
    ensures ValidIndex(data, index) && !r.ok ==> r.data.calibrations[index] == Identity
    ensures r.ok ==> (ValidIndex(data, index) && 2 <= |points| &&
                      Fit(Raws(points), GramWeights(points)).Some? &&
                      r.data.calibrations[index] == Fitted(points, Fit(Raws(points), GramWeights(points)).value))
  {
    if !ValidIndex(data, index) then Outcome(false, data)
    else
      var reset := data.(calibrations := data.calibrations[index := Identity]);
      if |points| < 2 then Outcome(false, reset)
      else
        match Fit(Raws(points), GramWeights(points))
        case None => Outcome(false, reset)
        case Some(l) => Outcome(true, data.(calibrations := data.calibrations[index := Fitted(points, l)]))
  }

  /** `get_calibration_params(index)`: the record, or `None` for an invalid index. */
  function GetCalibrationParams(data: CalibrationData, index: int): (r: Option<SensorCal>)
    ensures r.Some? <==> ValidIndex(data, index)
    ensures r.Some? ==> r.value == data.calibrations[index]
  {
    if !ValidIndex(data, index) then None else Some(data.calibrations[index])
  }

  /**
   * After a successful calibration the stored line has the least sum of
   * squared residuals over the points in grams, and its R-squared lies in
   * [0, 1]; the record is what `get_calibration_params` hands back.
   */
  lemma CalibrationIsLeastSquares(data: CalibrationData, index: int, points: seq<CalPoint>, m: real, b: real)
    requires SetSensorCalibration(data, index, points).ok
    ensures var c := GetCalibrationParams(SetSensorCalibration(data, index, points).data, index);
            c.Some? && c.value.unit == "g" && c.value.points == points &&
            SSR(Raws(points), GramWeights(points), c.value.slope, c.value.intercept)
              <= SSR(Raws(points), GramWeights(points), m, b) &&
            c.value.rSquared.Some? && 0.0 <= c.value.rSquared.value <= 1.0
  {
    FitMinimisesResiduals(Raws(points), GramWeights(points), m, b);
    RSquaredInUnitInterval(Raws(points), GramWeights(points));
  }

  /** Points whose gram weights lie exactly on `grams = a * raw + c`. */
  predicate Collinear(points: seq<CalPoint>, a: real, c: real) {
    forall k :: 0 <= k < |points| ==> ConvertUnit(points[k].weight, points[k].unit, "g") == Affine(a, c, points[k].raw)
  }

  /**
   * Exactly collinear points with at least two distinct raw readings are
   * accepted and recover their line, R-squared is 1 (0 for a flat line),
   * and `apply` then maps each point's raw reading back to its weight in
   * grams.
   */
  lemma CollinearCalibrationRecoversLine(data: CalibrationData, index: int, points: seq<CalPoint>,
                                         a: real, c: real, values: seq<real>, k: nat)
    requires ValidIndex(data, index) && 2 <= |points|
    requires !AllEqual(Raws(points))
    requires Collinear(points, a, c)
    requires k < |points| && index < |values| && values[index] == points[k].raw
    ensures var r := SetSensorCalibration(data, index, points);
            r.ok &&
            r.data.calibrations[index].slope == a && r.data.calibrations[index].intercept == c &&
            r.data.calibrations[index].rSquared == Some(if a != 0.0 then 1.0 else 0.0) &&
            Apply(r.data, values, "g")[index] == ConvertUnit(points[k].weight, points[k].unit, "g")
  {
    var xs, ys := Raws(points), GramWeights(points);
    assert OnLine(xs, ys, a, c) by {
      forall i | 0 <= i < |xs|
        ensures ys[i] == Affine(a, c, xs[i])
      {
      }
    }
    CollinearRecovery(xs, ys, a, c);
    CollinearRSquared(xs, ys, a, c);
  }

  // ---------------------------------------------------------------------
  // Legacy records

  /**
   * An entry of a version-1 calibration list: a dictionary whose keys may be
   * missing, a tuple of two or more fields `(offset, scale[, unit])`, or
   * anything else (including a shorter tuple).
   */
  datatype LegacyEntry =
    | LegacyDict(zeroOffset: Option<real>, scaleFactor: Option<real>, unit: Option<string>)
    | LegacyTuple(offset: real, scale: real, tupleUnit: Option<string>)
    | Unrecognised

  /** `(raw - offset) * scale` as a slope/intercept record. */
  function FromOffsetScale(offset: real, scale: real, unit: string): SensorCal {
    SensorCal(scale, -offset * scale, unit, None, [])
  }

  /** The record one legacy entry converts to. */
  function ConvertEntry(e: LegacyEntry): SensorCal {
    match e
    case LegacyDict(off, sc, u) => FromOffsetScale(off.GetOr(0.0), sc.GetOr(1.0), u.GetOr("g"))
    case LegacyTuple(off, sc, u) => FromOffsetScale(off, sc, u.GetOr("g"))
    case Unrecognised => Identity
  }

  /** `_convert_v1_format`: one record per legacy entry, in order. */
  function ConvertV1(entries: seq<LegacyEntry>): (cals: seq<SensorCal>)
    ensures |cals| == |entries|
    ensures forall i :: 0 <= i < |entries| ==> cals[i] == ConvertEntry(entries[i])
  {
    seq(|entries|, i requires 0 <= i < |entries| => ConvertEntry(entries[i]))
  }

  /** The offset and scale a legacy entry stands for, with the dictionary defaults. */
  function LegacyOffset(e: LegacyEntry): real {
    match e
    case LegacyDict(off, _, _) => off.GetOr(0.0)
    case LegacyTuple(off, _, _) => off
    case Unrecognised => 0.0
  }

  function LegacyScale(e: LegacyEntry): real {
    match e
    case LegacyDict(_, sc, _) => sc.GetOr(1.0)
    case LegacyTuple(_, sc, _) => sc
    case Unrecognised => 1.0
  }

  /**
   * The converted records mean what the legacy ones meant: `apply` in grams
   * computes `(raw - zero_offset) * scale_factor` for every converted sensor.
   * A dictionary without keys, and an unrecognised entry, give the identity.
   */
  lemma ConvertV1PreservesMeaning(entries: seq<LegacyEntry>, values: seq<real>, i: nat)
    requires i < |entries| && i < |values|
    ensures Apply(CalibrationData(ConvertV1(entries), false), values, "g")[i]
              == (values[i] - LegacyOffset(entries[i])) * LegacyScale(entries[i])
    ensures entries[i] == LegacyDict(None, None, None) || entries[i] == Unrecognised ==>
              ConvertV1(entries)[i] == Identity
  {
  }

  /** `_ensure_four_calibrations`: trim to four records or pad with identity records. */
  function EnsureFour(cals: seq<SensorCal>): (r: seq<SensorCal>)
    ensures |r| == SensorCount
    ensures forall i :: 0 <= i < Min(|cals|, SensorCount) ==> r[i] == cals[i]
    ensures forall i :: |cals| <= i < SensorCount ==> r[i] == Identity
  {
    if |cals| > SensorCount then cals[..SensorCount]
    else cals + seq(SensorCount - |cals|, _ => Identity)
  }

  /** Normalising a list that already has four records changes nothing. */
  lemma EnsureFourIdempotent(cals: seq<SensorCal>)
    ensures EnsureFour(EnsureFour(cals)) == EnsureFour(cals)
    ensures |cals| == SensorCount ==> EnsureFour(cals) == cals
  {
  }

  /** Loading a version-2 list: its records, normalised to four; the store is then loaded. */
  function LoadCurrent(cals: seq<SensorCal>): (data: CalibrationData)
    ensures data.loaded && |data.calibrations| == SensorCount
    ensures forall i :: 0 <= i < Min(|cals|, SensorCount) ==> data.calibrations[i] == cals[i]
    ensures forall i :: |cals| <= i < SensorCount ==> data.calibrations[i] == Identity
  {
    CalibrationData(EnsureFour(cals), true)
  }

  /** The records `save_to_file` writes: every field but R-squared. */
  function Saved(cals: seq<SensorCal>): seq<SensorCal> {
    seq(|cals|, i requires 0 <= i < |cals| => cals[i].(rSquared := None))
  }

  /**
   * Saving and loading again gives back every record of a store of at most
   * four sensors, without its R-squared, and calibrates every reading in
   * every unit exactly as before.
   */
  lemma SaveLoadRoundTrip(data: CalibrationData, values: seq<real>, unit: string)
    ensures var l := LoadCurrent(Saved(data.calibrations));
            l.loaded && forall i :: 0 <= i < Min(|data.calibrations|, SensorCount) ==>
              l.calibrations[i] == data.calibrations[i].(rSquared := None)
    ensures |data.calibrations| <= SensorCount ==>
              Apply(LoadCurrent(Saved(data.calibrations)), values, unit) == Apply(data, values, unit)
  {
    var l := LoadCurrent(Saved(data.calibrations));
    if |data.calibrations| <= SensorCount {
      var a, b := Apply(l, values, unit), Apply(data, values, unit);
      forall i | 0 <= i < |values|
        ensures a[i] == b[i]
      {
        assert CalibratedGrams(l.calibrations, i, values[i]) == CalibratedGrams(data.calibrations, i, values[i]);
      }
    }
  }

  /** Loading a version-1 list: converted, normalised to four; the store is then loaded. */
  function LoadLegacy(entries: seq<LegacyEntry>): (data: CalibrationData)
    ensures data.loaded && |data.calibrations| == SensorCount
    ensures forall i :: 0 <= i < Min(|entries|, SensorCount) ==> data.calibrations[i] == ConvertEntry(entries[i])
    ensures forall i :: |entries| <= i < SensorCount ==> data.calibrations[i] == Identity
  {
    CalibrationData(EnsureFour(ConvertV1(entries)), true)
  }

  // ---------------------------------------------------------------------
  // is_loaded

  /** A record that differs from the default: a non-unit line or stored points. */
  predicate Customised(c: SensorCal) {
    c.slope != 1.0 || c.intercept != 0.0 || |c.points| > 0
  }

  /** The scan `is_loaded` performs over the records, first to last. */
  function AnyCustomised(cals: seq<SensorCal>): bool
    decreases |cals|
  {
    if |cals| == 0 then false
    else if Customised(cals[0]) then true
    else AnyCustomised(cals[1..])
  }

  /** `is_loaded()`: the loaded flag, or else the scan for a customised record. */
  function IsLoaded(data: CalibrationData): (r: bool)
    ensures r <==> data.loaded || exists i :: 0 <= i < |data.calibrations| && Customised(data.calibrations[i])
  {
    AnyCustomisedIffExists(data.calibrations);
    if data.loaded then true else AnyCustomised(data.calibrations)
  }

  lemma {:induction false} AnyCustomisedIffExists(cals: seq<SensorCal>)
    ensures AnyCustomised(cals) <==> exists i :: 0 <= i < |cals| && Customised(cals[i])
    decreases |cals|
  {
    if |cals| > 0 {
      AnyCustomisedIffExists(cals[1..]);
      if !Customised(cals[0]) && exists i :: 0 <= i < |cals| && Customised(cals[i]) {
        var i :| 0 <= i < |cals| && Customised(cals[i]);
        assert cals[1..][i - 1] == cals[i];
      }
    }
  }

  /**
   * A fresh store is not loaded; a successful calibration or a reset
   * affects the answer as expected: a fitted record always counts, since it
   * keeps its (at least two) points.
   */
  lemma IsLoadedAfterCalibration(data: CalibrationData, index: int, points: seq<CalPoint>)
    ensures !IsLoaded(Initial)
    ensures SetSensorCalibration(data, index, points).ok ==> IsLoaded(SetSensorCalibration(data, index, points).data)
  {
    assert !Customised(Initial.calibrations[0]);
    var r := SetSensorCalibration(data, index, points);
    if r.ok {
      assert Customised(r.data.calibrations[index]);
    }
  }
}
