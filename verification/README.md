# Sled balance engine in Dafny

A model of the computational core of the load-cell sled balancer. The core has three parts:

- **`CalibrationData`** keeps one linear map `grams = slope * raw + intercept` per load cell. It fits that map by least squares from calibration points, converts legacy offset/scale records, and converts between mass units.
- **`WeightDistribution`** turns four sensor readings into weights. It computes the centre of mass and its displacement from the ideal centre, and fits the picture into a view.
- **`TrayOptimizer`** places 113 g units in the front and back weight trays so that the centre of mass moves towards the (biased) ideal. It scores every cell, stable-sorts the improving cells, applies the relative threshold, fills greedily within the weight budget, and normalises the effect map.

Python floats are Dafny `real`s. Dictionaries are records. Every method that mutates `self` becomes a pure function returning the new value. Qt signals become an ordered list of `Event`s returned with the new state. The square root behind `** 0.5` is a function parameter `sqrt`. Lemmas that need its properties require `IsSqrt(sqrt)`.

Modules, in dependency order:

| file | module | models |
|---|---|---|
| `common.dfy` | `Common` | points, sums, `zip`-style moments, min/max, real products behind `Mul`/`Div` |
| `units.dfy` | `Units` | `convert_unit` |
| `regression.dfy` | `Regression` | `np.polyfit(x, y, 1)` in closed form, and R-squared |
| `calibration.dfy` | `CalibrationMath` | `CalibrationData` |
| `weight_distribution.dfy` | `WeightDistribution` | the live centre-of-mass tracker |
| `display.dfy` | `Display` | `calculate_display_scaling`, `transform_point` and the tooltip's inverse |
| `tray_slots.dfy` | `TraySlots` | tray settings and the slot enumeration |
| `ranking.dfy` | `Ranking` | improvement filter, stable descending sort, threshold |
| `effect_map.dfy` | `EffectMap` | occupancy grid, effect map, greedy placement, normalisation |
| `tray_optimizer.dfy` | `TrayOptimizer` | `TrayOptimizer` and `compute_optimal_tray_layout` |

### Where the code differs from its comments

- **`transform_point`.** The comment at Alg_Math.py:267 says the y-axis is flipped for screen coordinates, but the expression `min_y + (min_y - point[1]) * -1` on line 268 reduces to `point[1]`. The map is therefore `offset_y + y * scale`, with no flip. The model uses the code's formula, and `Display.TransformPoint` states it.
- **Tare.** With a usable tare list (Alg_Math.py:105-109) every weight is `max(0, cal - tare)`, whatever `pre_calibrated` is. The `abs` of pre-calibrated readings (line 112) applies only without a tare. A reading at its tare therefore weighs 0 on either path (`WeightDistribution.TaredAtRestGivesCentroid`).
- **`TrayOptimizer.calculate_com`.** This is not the live view's centre of mass. A total of exactly 0 gives (0, 0), with no centroid fallback. A negative total still divides. `TrayOptimizer.OptCom` models it, and `OptComAgreesWithLiveView` says where the two agree.
- **No-budget result.** When no budget is left, `final_com` is this same weighted centre of the sensors and `displacement` is its distance to the biased target.
- **Unit field.** `apply` ignores a record's `unit` field and always treats the line as producing grams.

## Model

| member | source | states |
|---|---|---|
| Units.ConvertUnit | Cal_Math.py:66-98 | every conversion multiplies by a positive factor that depends only on the two unit names. An unrecognised source converts as "g" does, an unrecognised target returns the gram value, and g/unknown to g/unknown is the identity |
| Units.ConvertMonotone | Cal_Math.py:78-98 | conversion preserves the order of values |
| Units.PoundAliases | Cal_Math.py:84-95 | "lb" and "lbs" are interchangeable as source and as target |
| Units.RoundTripFromGrams | Cal_Math.py:78-98 | g → u → g is exact for g, kg and unknown units, and within 1e-6 relative error for oz and lb |
| Units.RoundTripToGrams | Cal_Math.py:78-98 | u → g → u, with the same bounds |
| CalibrationMath.Apply | Cal_Math.py:25-64 | one output per value. In grams it is `slope*x + intercept` for sensors with a record and the identity beyond them. Another target unit scales each gram result by that unit's factor |
| CalibrationMath.ApplyInitialIsIdentity | Cal_Math.py:6-15 | a freshly constructed store passes raw values through unchanged |
| CalibrationMath.SetSensorCalibration | Cal_Math.py:100-178 | invalid index: False and nothing changes. Fewer than 2 points: False and reset. Otherwise success iff raw readings vary, storing the fitted line, unit g, R-squared and the points. No other sensor changes |
| CalibrationMath.GetCalibrationParams | Cal_Math.py:180-193 | a record exactly for valid indices, and it is the stored one |
| CalibrationMath.CalibrationIsLeastSquares | Cal_Math.py:130-167 | a stored fit has a sum of squared residuals no larger than any line's, and R-squared in [0, 1] |
| CalibrationMath.CollinearCalibrationRecoversLine | Cal_Math.py:130-167 | exactly collinear points recover their line with R-squared 1 (0 when flat), and `apply` maps each raw reading back to its weight |
| CalibrationMath.ConvertV1 | Cal_Math.py:290-333 | one converted record per legacy entry, in order |
| CalibrationMath.ConvertV1PreservesMeaning | Cal_Math.py:292-333 | a converted record computes `(raw - zero_offset) * scale_factor`. Missing keys and unknown entries give the identity |
| CalibrationMath.EnsureFour | Cal_Math.py:338-360 | exactly four records: the first four kept, the rest padded with identity records |
| CalibrationMath.EnsureFourIdempotent | Cal_Math.py:338-360 | normalising twice equals normalising once, and four records are left alone |
| CalibrationMath.LoadCurrent | Cal_Math.py:255-268 | a version-2 list is normalised to four records: the first four kept, missing ones padded with identity records. The store is then marked loaded |
| CalibrationMath.LoadLegacy | Cal_Math.py:257-268 | a version-1 list is converted, normalised to four, and marked loaded |
| CalibrationMath.SaveLoadRoundTrip | Cal_Math.py:195-268 | loading what `save_to_file` wrote gives back every record without its R-squared. For a store of at most four sensors, `apply` then gives the same result for every reading and unit |
| CalibrationMath.IsLoaded | Cal_Math.py:362-382 | `is_loaded` iff loaded from a file, or some record has a non-default slope, intercept or points |
| CalibrationMath.IsLoadedAfterCalibration | Cal_Math.py:362-382 | a fresh store is not loaded, and any successful calibration makes it loaded |
| Regression.Fit | Cal_Math.py:145-147 | `np.polyfit(x, y, 1)` in closed form: the least-squares line is unique iff the raw readings are not all equal, and the model returns a line exactly then. Its optimality is `Regression.FitMinimisesResiduals` |
| Regression.FitSatisfiesNormalEquations | Cal_Math.py:145-147 | with varying raw readings the fit exists, and its residuals sum to 0 and are orthogonal to the raw readings |
| Regression.FitMinimisesResiduals | Cal_Math.py:145-147 | with varying raw readings the fit exists and no line has a smaller sum of squared residuals |
| Regression.RSquaredInUnitInterval | Cal_Math.py:149-153 | with varying raw readings, R-squared of the fit lies in [0, 1] |
| Regression.RSquared | Cal_Math.py:149-153 | R-squared of any line is at most 1. When the targets vary it is 1 iff the line passes through every sample |
| Regression.CollinearRecovery | Cal_Math.py:145-147 | exactly collinear samples with varying x give back their own line |
| Regression.SSTotalZeroIffAllEqual | Cal_Math.py:151-153 | `ss_total` is 0 iff the weights do not vary |
| Regression.CollinearRSquared | Cal_Math.py:149-153 | R-squared of an exact line is 1, or 0 for a horizontal line |
| WeightDistribution.CalculateDisplacement | Alg_Math.py:185-199 | the displacement becomes actual minus ideal, nothing else changes, and one notification carries it |
| WeightDistribution.UpdateSensorPositions | Alg_Math.py:40-56 | positions stored; the new state is exactly what `calculate_com` makes of the new positions (weights and ideal kept); the geometry notification comes last |
| WeightDistribution.UpdateIdealCom | Alg_Math.py:58-68 | the ideal is stored; the displacement is recomputed and announced iff the actual centre is not the origin, otherwise left as it was |
| WeightDistribution.SensorWeights | Alg_Math.py:105-112 | weights are non-negative. With a usable tare they pair off like `zip` as `max(0, cal - tare)`. Otherwise `abs` (pre-calibrated) or `max(0, ·)` |
| WeightDistribution.CalibratedValues | Alg_Math.py:90-103 | pre-calibrated readings, or readings without a calibration, are used as given. Otherwise each is its sensor's line in grams, identity beyond the records |
| WeightDistribution.UpdateSensorData | Alg_Math.py:71-119 | fewer than four values change nothing. Otherwise the weights become the tared/clamped calibrated readings, and positions and ideal are kept. With a positive total or any positions, the centre is the weighted centre (positive total) or the centroid, COM then displacement are emitted, and the displacement is refreshed. With a total ≤ 0 and no positions only the weights change and nothing is emitted. `ConsistencyPreserved` and `TaredAtRestGivesCentroid` build on it |
| WeightDistribution.CalculateCom | Alg_Math.py:121-199 | a positive total gives the weighted centre; otherwise the centroid, or nothing changes without positions. Weights, positions and ideal are kept; it emits nothing or COM then its displacement, and after emitting displacement == actual − ideal |
| WeightDistribution.ConsistencyPreserved | Alg_Math.py:58-199 | every update preserves that invariant, except moving the ideal while the actual centre is at the origin (iff) |
| WeightDistribution.ComInBoundingBox | Alg_Math.py:157-171 | with no more weights than positions, non-negative weights and a positive total, the centre of mass lies inside the positions' bounding box |
| WeightDistribution.EqualWeightsGiveCentroid | Alg_Math.py:131-166 | equal weights on every sensor give the geometric centroid, whatever the common weight |
| WeightDistribution.NotificationOrder | Alg_Math.py:121-199 | a centre computation emits nothing, or COM then its displacement. Moving sensors adds the geometry notification last |
| WeightDistribution.TaredAtRestGivesCentroid | Alg_Math.py:105-155 | readings equal to their tare weigh 0 and the centre falls back to the centroid |
| Display.DisplayPoints | Alg_Math.py:206-210 | the sensors, then the actual and ideal centres unless they are at the origin |
| Display.RangeScaling | Alg_Math.py:212-253 | with an ordered range, scaling fails (division by zero) exactly for a −50 % margin. `offset_x` is 0 and `offset_y` non-negative, leaving equal gaps above and below when the data is shorter than the view |
| Display.DisplayScaling | Alg_Math.py:201-244 | `calculate_display_scaling` fails (division by zero) exactly when there are points to show and the margin is −50 %. With nothing to show it returns the fixed tuple |
| Display.RangeScalingContains | Alg_Math.py:215-253 | with a non-negative margin the scaled range contains the data range and the scale is width-driven |
| Display.PointsInsideRange | Alg_Math.py:206-244 | with a non-negative margin, every point to show lies inside the returned range |
| Display.HorizontalFit | Alg_Math.py:243-266 | with a non-negative margin and a non-negative view width, every point to show is mapped to an x between 0 and the view width |
| Display.TransformPoint | Alg_Math.py:255-270 | the vertical view coordinate is `offset_y + y*scale`, independent of `min_y`: no flip |
| Display.ViewToData | Alg_Math.py:266-268 | the corrected inverse: `transform_point` sends its result back to the view point, whatever `min_y` it is given |
| Display.TransformRoundTrip | Alg_Math.py:266-268 | the corrected inverse undoes `transform_point` in both directions |
| Display.TooltipInverse | tabs/live_feed.py:246-249 | the tooltip's inverse agrees with the corrected one on x, and mirrors its y about `min_y` |
| Display.TooltipInverseMismatch | tabs/live_feed.py:246-249 | the tooltip's inverse returns `(x, 2*min_y - y)`, equal to the point iff `y == min_y` |
| TraySlots.EnumerateTray | Alg_Math.py:389-401 | one tray's cells: each a valid slot, in strict row-major order, covering the whole grid |
| TraySlots.EnumerateSlots | Alg_Math.py:369-401 | every cell of every enabled tray, front before back, each valid, no cell twice |
| TraySlots.GridIsCentred | Alg_Math.py:381-394 | mirrored columns have opposite x; mirrored rows are symmetric about `y_position` |
| Ranking.PositiveCounts | Alg_Math.py:424-426 | the candidate list holds each improving scored slot exactly as often as the scores do, and nothing else |
| Ranking.PositiveOfNone | Alg_Math.py:424-426 | with no positive score there are no candidates |
| Ranking.MaxImprovement | Alg_Math.py:405-422 | `max_improvement` is at least 0 and every score, and equals 0 or some score |
| Ranking.MaxImprovementPositive | Alg_Math.py:421-426 | the best improvement is positive iff there is a candidate |
| Ranking.AtLeastCounts | Alg_Math.py:437 | the filtered list holds exactly the candidates reaching the threshold, with multiplicity |
| Ranking.ApplyThreshold | Alg_Math.py:432-440 | with a threshold above 0 and a positive best improvement, exactly the candidates with `percent >= max_improvement * threshold` stay, with their multiplicity. Otherwise the list is unchanged |
| Ranking.StableSortDesc | Alg_Math.py:429 | the output is sorted by descending improvement, is a permutation, and keeps equal improvements in input order |
| Ranking.StableSortUnique | Alg_Math.py:429 | a stable descending sort has exactly one result |
| Ranking.ThresholdKeepsPrefix | Alg_Math.py:432-440 | on a sorted list the threshold keeps a prefix, still sorted |
| Ranking.ThresholdKeepsBest | Alg_Math.py:432-440 | with a threshold of at most 1 the best candidate always survives |
| EffectMap.Blank | Alg_Math.py:386-387 | a grid of the tray's dimensions holding one value everywhere |
| EffectMap.Put | Alg_Math.py:456-457 | writing a cell keeps the grid's shape and changes that cell only |
| EffectMap.Place | Alg_Math.py:442-459 | a prefix of the candidates while the next unit fits the budget. The layout is 1 exactly at placed cells, and effects are the placed improvements, 0 elsewhere. Exactly min(candidates, floor(available / 113)) units are placed |
| EffectMap.CollectEffects | Alg_Math.py:462-468 | `used_effects` are the placed improvements in placement order |
| EffectMap.DivideUsed | Alg_Math.py:473-479 | each placed positive effect is divided once by the maximum; other cells are untouched |
| EffectMap.Normalise | Alg_Math.py:461-479 | the maximum is the largest placed improvement, placed cells are normalised, other cells untouched |
| EffectMap.NormalisedRange | Alg_Math.py:470-479 | normalised effects lie in (0, 1] and some equals 1 |
| TrayOptimizer.ApplyBias | Alg_Math.py:308-309 | subtracting the bias undoes it, and it leaves the target alone iff both offsets (missing keys read as 0) are 0 |
| TrayOptimizer.BiasIsTranslation | Alg_Math.py:308-309 | the bias is a translation: it keeps the difference between any two points |
| TrayOptimizer.ConvertToGrams | Alg_Math.py:311-312 | the first half of `convert_unit`; "g" and unknown units pass through |
| TrayOptimizer.OptCom | Alg_Math.py:506-512 | a total of exactly 0 gives the origin. Otherwise the centre times the total is the weight moment on each axis |
| TrayOptimizer.OptComAgreesWithLiveView | Alg_Math.py:506-512 | with a positive total it equals the live view's centre; with non-negative weights and no more weights than positions it also lies in the positions' bounding box |
| TrayOptimizer.Dist | Alg_Math.py:514-517 | given a proper square root, the displacement is the Euclidean distance: its square is `dx² + dy²`, it is non-negative, and 0 iff the centres coincide |
| TrayOptimizer.DistOrder | Alg_Math.py:514-517 | comparing displacements is comparing squared distances |
| TrayOptimizer.Improvement | Alg_Math.py:417-418 | a zero original displacement scores 0. With a positive one, the percent is positive iff the new displacement is smaller, and at most 1 when displacements are non-negative |
| TrayOptimizer.Scores | Alg_Math.py:407-418 | one candidate per slot, in slot order, with that slot's improvement |
| TrayOptimizer.Simulate | Alg_Math.py:403-426 | candidates are the positive-scoring slots in order, and the maximum is the running maximum from 0 |
| TrayOptimizer.BalancedScoresNothing | Alg_Math.py:417-426 | an original displacement of 0 gives no candidates |
| TrayOptimizer.ScoreIffCloser | Alg_Math.py:407-426 | a slot is a candidate iff one unit there brings the centre strictly closer to the target |
| TrayOptimizer.RankSlots | Alg_Math.py:364-440 | slots enumerated, improving ones stable-sorted and thresholded. Survivors improve, reach the threshold, are sorted and sit in distinct valid cells |
| TrayOptimizer.PlaceAndNormalise | Alg_Math.py:442-479 | greedy prefix within budget, layout marks, and normalised effects with the first unit at 1 |
| TrayOptimizer.ComputeOptimalTrayLayout | Alg_Math.py:320-503 | without budget: empty trays and the sensors' own centre. Otherwise the full pipeline, final centre and displacement over sensors plus units, total = initial + 113 per unit, nothing placed when already balanced, and disabled trays stay empty |

## Left out

- Qt plumbing: signals, `QObject`, `LayoutWorker`, `QThreadPool` and `layout_generated`. Signals are modelled as the returned event list; threads are not modelled.
- File I/O: the JSON writing of `save_to_file`, and the JSON reading, version dispatch and `ValueError` of `load_from_file`. Only the records written (`Saved`) and the resulting store (`LoadCurrent`, `LoadLegacy`) are modelled; the file name is not.
- CalibrationMath.LegacyTuple: `json.load` never produces a tuple, so a version-1 entry read from a file that is a list fails the `isinstance(cal, tuple)` test (Cal_Math.py:311) and becomes an identity record (`Unrecognised`). The tuple branch is reachable only when `_convert_v1_format` is called directly with tuples; the constructor models that call, not a file.
- Debug printing, and the `debug` flag that controls it.
- Floating-point rounding: all arithmetic is exact over the reals. The oz/lb round-trip bound is stated for the exact factors.
- Regression.Fit: when all raw readings are equal, every line through (x0, mean of the weights) minimises the residuals and `np.polyfit` returns a minimum-norm one with a rank warning. The model returns `None` there instead, which is how `set_sensor_calibration` is modelled to fail.
- CalibrationMath.SetSensorCalibration: when all raw readings are equal, the model takes the exception path (reset, False). NumPy's `polyfit` may instead return a minimum-norm fit with a rank warning. Other exceptions inside the `try` (non-numeric points) are not modelled.
- CalibrationMath: records always have all keys. The `.get` defaults for keys missing from a hand-edited version-2 file, and non-dictionary entries of such a file, are not modelled.
- TrayOptimizer.Dist: `** 0.5` is the parameter `sqrt`. Properties of the square root are assumed only where a lemma requires `IsSqrt(sqrt)`.
- TrayOptimizer.ComputeOptimalTrayLayout: `general_settings` always holds both tray entries with integer rows and columns. A missing key (`KeyError`) or a non-integer count (`TypeError`) is not modelled. `threshold` is `None` or a number.
- TrayOptimizer.ComputeOptimalTrayLayout: `max_additional_weights` (Alg_Math.py:443) is only printed. Its value is stated as a property of the greedy loop instead (`GreedyWithinBudget`, and the count in `EffectMap.Place`).
- EffectMap: Python's grids mix `int` and `float` zeros (`0` from the layout, `0.0` from the effect map). The model has `int` layout cells and `real` effect cells.
- WeightDistribution.CalculateCom: the `except` handler that prints a traceback is not modelled. A positive total never divides by zero, and malformed positions cannot be expressed in the model.
- `calculate_display_scaling` raises when the margin is −50 %. The model returns `None` there (`Display.DisplayScaling`).
- GUI code outside the tooltip's inverse, serial/Bluetooth input and user settings persistence are not part of this model.

## Findings

| source | as written | input that shows it | evidently intended | confidence | as-written member | corrected member |
|---|---|---|---|---|---|---|
| tabs/live_feed.py:246-289 | the tooltip maps a view point back to data with `min_y - ((y - offset_y)/scale - min_y)`, undoing a vertical flip. `transform_point` (Alg_Math.py:266-268) performs no flip, because its y term reduces to `y`. Sensor and centre hits compare view coordinates from `transform_point` and are unaffected; the mirrored `data_y` reaches the user in the fallback coordinate readout (line 289) | a point away from every sensor and centre, view (10, 5) with scale 1, offsets 0 and min_x = min_y = 0: the readout says (10.0, -5.0), although `transform_point` draws data (10, 5) there | the coordinate readout names the data point drawn under the cursor | medium, not executed | Display.TooltipInverseMismatch | Display.TransformRoundTrip |
