/**
 * `TrayOptimizer`: the greedy placement of 113 g units in the weight trays
 * so that the sled's centre of mass moves towards the (biased) ideal.
 *
 * The square root behind `** 0.5` is a parameter `sqrt`; lemmas that need
 * its properties ask for `IsSqrt(sqrt)`.
 */
module TrayOptimizer {
  import opened Common
  import opened Units
  import opened WeightDistribution
  import opened TraySlots
  import opened Ranking
  import opened EffectMap
  import Regression

  // ---------------------------------------------------------------------
  // Small operations

  /** `bias.get("x", 0.0)` and `bias.get("y", 0.0)`. */
  function BiasOffset(bias: map<string, real>): Vec {
    Vec(if "x" in bias then bias["x"] else 0.0, if "y" in bias then bias["y"] else 0.0)
  }

  /**
   * `apply_bias_to_com`: shift the target by the bias, a move that
   * subtracting the bias undoes and that leaves the target alone exactly
   * when neither key carries a non-zero offset.
   */
  function ApplyBias(com: Vec, bias: map<string, real>): (r: Vec)
    ensures Sub(r, BiasOffset(bias)) == com
    ensures r == com <==> BiasOffset(bias) == Origin
  {
    Vec(com.x + BiasOffset(bias).x, com.y + BiasOffset(bias).y)
  }

  /** The bias is a translation: it keeps the difference between any two points. */
  lemma BiasIsTranslation(a: Vec, b: Vec, bias: map<string, real>)
    ensures Sub(ApplyBias(a, bias), ApplyBias(b, bias)) == Sub(a, b)
  {
  }

  /** `convert_to_grams`: `convert_unit(value, from_unit, "g")`. */
  function ConvertToGrams(value: real, fromUnit: string): (g: real)
    ensures g == ToGrams(value, fromUnit)
    ensures fromUnit == "g" || !IsKnownUnit(fromUnit) ==> g == value
  {
    ConvertUnit(value, fromUnit, "g")
  }

  /**
   * `TrayOptimizer.calculate_com`: the weighted centre, or (0, 0) when the
   * weights sum to exactly 0. Unlike `WeightDistribution.calculate_com`
   * there is no centroid fallback and a negative total still divides.
   */
  function OptCom(ws: seq<real>, ps: seq<Vec>): (c: Vec)
    ensures Sum(ws) == 0.0 ==> c == Origin
    ensures Sum(ws) != 0.0 ==> Mul(c.x, Sum(ws)) == MomentX(ws, ps) && Mul(c.y, Sum(ws)) == MomentY(ws, ps)
  {
    if Sum(ws) == 0.0 then Origin else WeightedCentre(ws, ps)
  }

  /**
   * With a positive total the optimiser and the live view agree on the
   * centre of mass, and it lies in the bounding box of the positions.
   */
  lemma OptComAgreesWithLiveView(s: State, lo: real, hi: real, bot: real, top: real)
    requires Sum(s.weights) > 0.0
    ensures OptCom(s.weights, s.positions) == CalculateCom(s).state.actualCom
    ensures |s.weights| <= |s.positions| && NonNeg(s.weights) && InBox(s.positions, lo, hi, bot, top) ==>
              var c := OptCom(s.weights, s.positions);
              lo <= c.x <= hi && bot <= c.y <= top
  {
    if |s.weights| <= |s.positions| && NonNeg(s.weights) && InBox(s.positions, lo, hi, bot, top) {
      CentreInBox(s.weights, s.positions, lo, hi, bot, top);
    }
  }

  function SqDist(a: Vec, b: Vec): real {
    Mul(a.x - b.x, a.x - b.x) + Mul(a.y - b.y, a.y - b.y)
  }

  /**
   * `calculate_displacement`: `(dx ** 2 + dy ** 2) ** 0.5`. Given a proper
   * square root it is the Euclidean distance: its square is `dx² + dy²`, it
   * is never negative, and it is 0 exactly when the two centres coincide.
   */
  function Dist(sqrt: real -> real, a: Vec, b: Vec): (d: real)
    ensures IsSqrt(sqrt) ==> 0.0 <= d && (d == 0.0 <==> a == b)
    ensures IsSqrt(sqrt) ==> Mul(d, d) == SqDist(a, b)
  {
    SqDistProps(a, b);
    RootZeroIff(sqrt, SqDist(a, b));
    sqrt(SqDist(a, b))
  }

  /** A square root is non-negative and vanishes only at 0. */
  lemma RootZeroIff(sqrt: real -> real, x: real)
    ensures IsSqrt(sqrt) && 0.0 <= x ==> 0.0 <= sqrt(x) && (sqrt(x) == 0.0 <==> x == 0.0)
  {
    if IsSqrt(sqrt) && 0.0 <= x {
      var r := sqrt(x);
      assert 0.0 <= r && Mul(r, r) == x;
      if r != 0.0 {
        Regression.ProductPos(r, r);
      }
    }
  }

  /** `sqrt` is the non-negative square root on non-negative reals. */
  ghost predicate IsSqrt(sqrt: real -> real) {
    forall x :: 0.0 <= x ==> 0.0 <= sqrt(x) && Mul(sqrt(x), sqrt(x)) == x
  }

  lemma SquareNonNeg(d: real)
    ensures 0.0 <= Mul(d, d)
    ensures Mul(d, d) == 0.0 <==> d == 0.0
  {
    var a := Abs(d);
    assert Mul(d, d) == Mul(a, a);
    if a > 0.0 {
      QuotientBounds(Mul(a, a), a, a, a);
    }
  }

  lemma SqDistProps(a: Vec, b: Vec)
    ensures 0.0 <= SqDist(a, b)
    ensures SqDist(a, b) == 0.0 <==> a == b
  {
    SquareNonNeg(a.x - b.x);
    SquareNonNeg(a.y - b.y);
  }

  lemma RootOrder(r: real, s: real, x: real, y: real)
    requires 0.0 <= r && 0.0 <= s && Mul(r, r) == x && Mul(s, s) == y
    ensures r < s <==> x < y
  {
    if r < s {
      assert Mul(r, r) <= Mul(r, s) < Mul(s, s);
    } else {
      assert Mul(s, s) <= Mul(s, r) <= Mul(r, r);
    }
  }

  /** Comparing displacements is comparing squared distances. */
  lemma DistOrder(sqrt: real -> real, a: Vec, b: Vec, c: Vec)
    requires IsSqrt(sqrt)
    ensures Dist(sqrt, a, c) < Dist(sqrt, b, c) <==> SqDist(a, c) < SqDist(b, c)
  {
    SqDistProps(a, c);
    SqDistProps(b, c);
    var x, y := SqDist(a, c), SqDist(b, c);
    assert 0.0 <= sqrt(x) && Mul(sqrt(x), sqrt(x)) == x;
    assert 0.0 <= sqrt(y) && Mul(sqrt(y), sqrt(y)) == y;
    RootOrder(sqrt(x), sqrt(y), x, y);
  }

  /**
   * `improvement / original_disp if original_disp != 0 else 0`. With a
   * positive original displacement it is positive exactly when the new
   * displacement is smaller, and never exceeds 1 when the new displacement
   * is a distance.
   */
  function Improvement(d0: real, d1: real): (p: real)
    ensures d0 == 0.0 ==> p == 0.0
    ensures 0.0 < d0 ==> (p > 0.0 <==> d1 < d0)
    ensures 0.0 < d0 && 0.0 <= d1 ==> p <= 1.0
  {
    if d0 != 0.0 then ImprovementSign(d0, d1); Div(d0 - d1, d0) else 0.0
  }

  lemma ImprovementSign(d0: real, d1: real)
    requires d0 != 0.0
    ensures 0.0 < d0 ==> (Div(d0 - d1, d0) > 0.0 <==> d1 < d0)
    ensures 0.0 < d0 && 0.0 <= d1 ==> Div(d0 - d1, d0) <= 1.0
  {
    if 0.0 < d0 {
      var q := Div(d0 - d1, d0);
      assert Mul(q, d0) == d0 - d1;
      if d1 < d0 {
        QuotientBounds(d0 - d1, d0, 0.0, q);
        assert Mul(0.0, d0) == 0.0;
      } else {
        QuotientBounds(d0 - d1, d0, q, 0.0);
      }
      if 0.0 <= d1 {
        QuotientBounds(d0 - d1, d0, q, 1.0);
      }
    }
  }

  // ---------------------------------------------------------------------
  // Scoring the slots

  /** The centre of mass with one more unit at `s` (`test_weights`, `test_positions`). */
  function TestCom(ws: seq<real>, ps: seq<Vec>, s: Slot): Vec {
    OptCom(ws + [EffectWeight], ps + [s.pos])
  }

  /** `percent_improvement` of one slot. */
  function Score(ws: seq<real>, ps: seq<Vec>, ideal: Vec, d0: real, sqrt: real -> real, s: Slot): real {
    Improvement(d0, Dist(sqrt, TestCom(ws, ps, s), ideal))
  }

  /** Every slot with its improvement, in slot order. */
  function Scores(ws: seq<real>, ps: seq<Vec>, ideal: Vec, d0: real, sqrt: real -> real, slots: seq<Slot>): (cs: seq<Candidate>)
    ensures |cs| == |slots|
    ensures forall i :: 0 <= i < |slots| ==> cs[i] == Candidate(slots[i], Score(ws, ps, ideal, d0, sqrt, slots[i]))
  {
    seq(|slots|, i requires 0 <= i < |slots| => Candidate(slots[i], Score(ws, ps, ideal, d0, sqrt, slots[i])))
  }

  /**
   * The simulation loop: score every slot, keep the improving ones in
   * order, and track the best improvement starting from 0.
   */
  method Simulate(ws: seq<real>, ps: seq<Vec>, ideal: Vec, d0: real, sqrt: real -> real, slots: seq<Slot>)
    returns (candidates: seq<Candidate>, maxImprovement: real)
    ensures candidates == Positive(Scores(ws, ps, ideal, d0, sqrt, slots))
    ensures maxImprovement == MaxImprovement(Scores(ws, ps, ideal, d0, sqrt, slots))
  {
    var scored := Scores(ws, ps, ideal, d0, sqrt, slots);
    candidates, maxImprovement := [], 0.0;
    for i := 0 to |slots|
      invariant candidates == Positive(scored[..i])
      invariant maxImprovement == MaxImprovement(scored[..i])
    {
      var percent := Score(ws, ps, ideal, d0, sqrt, slots[i]);
      assert scored[..i + 1][..i] == scored[..i];
      assert scored[i] == Candidate(slots[i], percent);
      if percent > maxImprovement {
        maxImprovement := percent;
      }
      if percent > 0.0 {
        candidates := candidates + [Candidate(slots[i], percent)];
      }
    }
    assert scored[..|slots|] == scored;
  }

  /** When the sensors already balance at the target, no slot improves. */
  lemma BalancedScoresNothing(ws: seq<real>, ps: seq<Vec>, ideal: Vec, sqrt: real -> real, slots: seq<Slot>)
    ensures Positive(Scores(ws, ps, ideal, 0.0, sqrt, slots)) == []
  {
    PositiveOfNone(Scores(ws, ps, ideal, 0.0, sqrt, slots));
  }

  /**
   * A slot scores positive exactly when one unit there would bring the
   * centre of mass strictly closer to the target.
   */
  lemma ScoreIffCloser(ws: seq<real>, ps: seq<Vec>, ideal: Vec, sqrt: real -> real, s: Slot)
    requires IsSqrt(sqrt)
    ensures var d0 := Dist(sqrt, OptCom(ws, ps), ideal);
            Score(ws, ps, ideal, d0, sqrt, s) > 0.0 <==> SqDist(TestCom(ws, ps, s), ideal) < SqDist(OptCom(ws, ps), ideal)
  {
    var d0 := Dist(sqrt, OptCom(ws, ps), ideal);
    var d1 := Dist(sqrt, TestCom(ws, ps, s), ideal);
    DistOrder(sqrt, TestCom(ws, ps, s), OptCom(ws, ps), ideal);
    if d0 == 0.0 {
      SqDistProps(TestCom(ws, ps, s), ideal);
    }
  }

  // ---------------------------------------------------------------------
  // The whole computation

  /** The result dictionary of `compute_optimal_tray_layout`. */
  datatype TrayLayout = TrayLayout(frontTray: seq<seq<int>>, backTray: seq<seq<int>>, finalCom: Vec,
                                   displacement: real, totalWeight: real, effectMap: PerTray<seq<seq<real>>>)
  {
    function Layout(): PerTray<seq<seq<int>>> {
      PerTray(frontTray, backTray)
    }
  }

  /** The intermediate lists of one run: slots, sorted candidates, candidates after the threshold, placed units. */
  datatype Trace = Trace(slots: seq<Slot>, ranked: seq<Candidate>, kept: seq<Candidate>, used: seq<Candidate>,
                         maxEffect: real)

  /** `available_weight`: the budget left after the athlete. */
  function Available(ws: seq<real>, maxWeight: real, maxWeightUnit: string): real {
    ConvertToGrams(maxWeight, maxWeightUnit) - Sum(ws)
  }

  /** The slots scored against the biased target and the sensors' own displacement. */
  function RunScores(ws: seq<real>, ps: seq<Vec>, idealCom: Vec, bias: map<string, real>, sqrt: real -> real,
                     slots: seq<Slot>): seq<Candidate> {
    var ideal := ApplyBias(idealCom, bias);
    Scores(ws, ps, ideal, Dist(sqrt, OptCom(ws, ps), ideal), sqrt, slots)
  }

  /** The weights and positions after placement (`final_weights`, `final_positions`). */
  function FinalWeights(ws: seq<real>, used: seq<Candidate>): seq<real> {
    ws + seq(|used|, _ => EffectWeight)
  }

  function FinalPositions(ps: seq<Vec>, used: seq<Candidate>): seq<Vec> {
    ps + seq(|used|, j requires 0 <= j < |used| => used[j].slot.pos)
  }

  /** The slot list covers every cell of every enabled tray, in visiting order. */
  predicate SlotsEnumerated(slots: seq<Slot>, g: GeneralSettings, flags: map<string, bool>) {
    (forall i :: 0 <= i < |slots| ==> ValidSlot(g, flags, slots[i])) && Ascending(slots) &&
    (forall t: Tray, r: nat, c: nat ::
       Enabled(flags, t) && r < Count(SettingsFor(g, t).rows) && c < Count(SettingsFor(g, t).columns) ==>
       SlotAt(g, t, r, c) in slots)
  }

  /** The ranking: the improving slots stable-sorted by improvement, then the threshold. */
  ghost predicate RankedAndFiltered(ranked: seq<Candidate>, kept: seq<Candidate>, scored: seq<Candidate>,
                                    threshold: Option<real>) {
    StableSortOf(ranked, Positive(scored)) && kept == ApplyThreshold(ranked, threshold, MaxImprovement(scored))
  }

  /** Every placed unit improves, and reaches the threshold when one applies. */
  predicate Improving(used: seq<Candidate>, scored: seq<Candidate>, threshold: Option<real>) {
    (forall j :: 0 <= j < |used| ==> used[j].percent > 0.0) &&
    (threshold.Some? && threshold.value > 0.0 && MaxImprovement(scored) > 0.0 ==>
       forall j :: 0 <= j < |used| ==> used[j].percent >= Mul(MaxImprovement(scored), threshold.value))
  }

  /** The greedy prefix: as many leading candidates as the budget admits. */
  predicate GreedyWithinBudget(used: seq<Candidate>, kept: seq<Candidate>, available: real) {
    |used| <= |kept| && used == kept[..|used|] &&
    EffectWeight * |used| as real <= available &&
    |used| == Min(|kept|, (available / EffectWeight).Floor)
  }

  /** Layout cells are 1 exactly where a unit went. */
  ghost predicate MarksPlaced(layout: PerTray<seq<seq<int>>>, used: seq<Candidate>, g: GeneralSettings, flags: map<string, bool>) {
    Shaped(layout, g, flags) &&
    forall k :: InGrid(g, flags, k) ==> At(layout, g, flags, k) == if Occupied(used, k) then 1 else 0
  }

  /**
   * Effect cells: 0 where no unit went; where one went, its improvement
   * divided by the largest placed one, so in (0, 1], and 1 for the first.
   */
  ghost predicate EffectsNormalised(effect: PerTray<seq<seq<real>>>, used: seq<Candidate>, maxEffect: real,
                              g: GeneralSettings, flags: map<string, bool>) {
    Shaped(effect, g, flags) &&
    (forall k :: InGrid(g, flags, k) && !Occupied(used, k) ==> At(effect, g, flags, k) == 0.0) &&
    (forall j :: 0 <= j < |used| ==> 0.0 < used[j].percent <= maxEffect) &&
    (forall j :: 0 <= j < |used| ==>
       InGrid(g, flags, CellOf(used[j].slot)) &&
       At(effect, g, flags, CellOf(used[j].slot)) == Normalised(used[j].percent, maxEffect) &&
       0.0 < At(effect, g, flags, CellOf(used[j].slot)) <= 1.0) &&
    (|used| > 0 ==> maxEffect == used[0].percent && At(effect, g, flags, CellOf(used[0].slot)) == 1.0)
  }

  /** Every candidate drawn from the scored slots is placeable. */
  lemma DrawnFromSlots(xs: seq<Candidate>, scored: seq<Candidate>, slots: seq<Slot>,
                       g: GeneralSettings, flags: map<string, bool>)
    requires |scored| == |slots| && forall i :: 0 <= i < |slots| ==> scored[i].slot == slots[i]
    requires forall i :: 0 <= i < |slots| ==> ValidSlot(g, flags, slots[i])
    requires Ascending(slots)
    requires multiset(xs) <= multiset(scored)
    ensures Placeable(xs, g, flags)
  {
    forall i, j | 0 <= i < |scored| && 0 <= j < |scored| && i != j
      ensures !SameCell(scored[i].slot, scored[j].slot)
    {
      AscendingDistinctCells(slots, i, j);
    }
    DistinctCellsSub(xs, scored);
    forall i | 0 <= i < |xs|
      ensures ValidSlot(g, flags, xs[i].slot)
    {
      assert xs[i] in multiset(scored);
      var j :| 0 <= j < |scored| && scored[j] == xs[i];
    }
  }

  /** Candidates that survive the threshold improve, and reach it when it applies. */
  lemma KeptImprove(kept: seq<Candidate>, ranked: seq<Candidate>, scored: seq<Candidate>, threshold: Option<real>)
    requires RankedAndFiltered(ranked, kept, scored, threshold)
    ensures Improving(kept, scored, threshold)
  {
    PositiveSub(scored);
    forall j | 0 <= j < |kept|
      ensures kept[j].percent > 0.0
    {
      assert kept[j] in multiset(ranked);
      assert kept[j] in multiset(Positive(scored));
    }
  }

  lemma PrefixImproving(used: seq<Candidate>, kept: seq<Candidate>, scored: seq<Candidate>, threshold: Option<real>)
    requires Improving(kept, scored, threshold)
    requires |used| <= |kept| && used == kept[..|used|]
    ensures Improving(used, scored, threshold)
  {
    assert forall j :: 0 <= j < |used| ==> used[j] == kept[j];
  }

  /** Enumerate, score, sort and threshold the slots. */
  method RankSlots(ws: seq<real>, ps: seq<Vec>, idealCom: Vec, bias: map<string, real>, sqrt: real -> real,
                   g: GeneralSettings, flags: map<string, bool>, threshold: Option<real>)
    returns (slots: seq<Slot>, ranked: seq<Candidate>, kept: seq<Candidate>)
    ensures SlotsEnumerated(slots, g, flags)
    ensures RankedAndFiltered(ranked, kept, RunScores(ws, ps, idealCom, bias, sqrt, slots), threshold)
    ensures Improving(kept, RunScores(ws, ps, idealCom, bias, sqrt, slots), threshold)
    ensures Placeable(kept, g, flags) && SortedDesc(kept)
    ensures Dist(sqrt, OptCom(ws, ps), ApplyBias(idealCom, bias)) == 0.0 ==> kept == []
  {
    var ideal := ApplyBias(idealCom, bias);
    var d0 := Dist(sqrt, OptCom(ws, ps), ideal);
    slots := EnumerateSlots(g, flags);
    var scored := Scores(ws, ps, ideal, d0, sqrt, slots);
    var candidates, maxImprovement := Simulate(ws, ps, ideal, d0, sqrt, slots);
    ranked := StableSortDesc(candidates);
    kept := ApplyThreshold(ranked, threshold, maxImprovement);
    assert scored == RunScores(ws, ps, idealCom, bias, sqrt, slots);
    PositiveSub(scored);
    DrawnFromSlots(kept, scored, slots, g, flags);
    KeptImprove(kept, ranked, scored, threshold);
    ThresholdKeepsPrefix(ranked, threshold, maxImprovement);
    if d0 == 0.0 {
      BalancedScoresNothing(ws, ps, ideal, sqrt, slots);
    }
  }

  /** A prefix of the candidates keeps their order, cells and improvements. */
  lemma PrefixPlaceable(used: seq<Candidate>, kept: seq<Candidate>, g: GeneralSettings, flags: map<string, bool>)
    requires Placeable(kept, g, flags) && SortedDesc(kept)
    requires forall j :: 0 <= j < |kept| ==> kept[j].percent > 0.0
    requires |used| <= |kept| && used == kept[..|used|]
    ensures Placeable(used, g, flags) && SortedDesc(used)
    ensures forall j :: 0 <= j < |used| ==> used[j].percent > 0.0
  {
    assert forall j :: 0 <= j < |used| ==> used[j] == kept[j];
    assert kept == used + kept[|used|..];
    assert multiset(kept) == multiset(used) + multiset(kept[|used|..]);
    DistinctCellsSub(used, kept);
    PrefixSorted(kept, |used|);
  }

  /** What placement and normalisation guarantee, gathered into `EffectsNormalised`. */
  lemma EffectsFromNormalise(effect: PerTray<seq<seq<real>>>, raw: PerTray<seq<seq<real>>>, used: seq<Candidate>,
                             maxEffect: real, g: GeneralSettings, flags: map<string, bool>)
    requires SortedDesc(used)
    requires forall j :: 0 <= j < |used| ==> used[j].percent > 0.0
    requires Shaped(raw, g, flags) && Shaped(effect, g, flags)
    requires forall k :: InGrid(g, flags, k) && !Occupied(used, k) ==> At(raw, g, flags, k) == 0.0
    requires forall k :: InGrid(g, flags, k) && !Occupied(used, k) ==> At(effect, g, flags, k) == At(raw, g, flags, k)
    requires |used| > 0 ==> maxEffect == SeqMax(Percents(used))
    requires forall j :: 0 <= j < |used| ==> used[j].percent <= maxEffect
    requires forall j :: 0 <= j < |used| ==>
               InGrid(g, flags, CellOf(used[j].slot)) &&
               At(effect, g, flags, CellOf(used[j].slot)) == Normalised(used[j].percent, maxEffect)
    ensures EffectsNormalised(effect, used, maxEffect, g, flags)
  {
    if |used| > 0 {
      MaxEffectIsFirst(used);
      NormalisedRange(used, maxEffect);
      DivUnit(used[0].percent, maxEffect);
    }
  }

  /** Place units greedily within the budget and normalise the effect map. */
  method PlaceAndNormalise(kept: seq<Candidate>, available: real, g: GeneralSettings, flags: map<string, bool>)
    returns (used: seq<Candidate>, added: real, layout: PerTray<seq<seq<int>>>, effect: PerTray<seq<seq<real>>>,
             maxEffect: real)
    requires 0.0 < available
    requires Placeable(kept, g, flags) && SortedDesc(kept)
    requires forall j :: 0 <= j < |kept| ==> kept[j].percent > 0.0
    ensures GreedyWithinBudget(used, kept, available) && added == EffectWeight * |used| as real
    ensures MarksPlaced(layout, used, g, flags)
    ensures EffectsNormalised(effect, used, maxEffect, g, flags)
  {
    var raw;
    used, added, layout, raw := Place(kept, available, g, flags);
    PrefixPlaceable(used, kept, g, flags);
    effect, maxEffect := Normalise(used, raw, g, flags);
    EffectsFromNormalise(effect, raw, used, maxEffect, g, flags);
  }

  /**
   * `compute_optimal_tray_layout`, with the run's intermediate lists as a
   * trace. Without budget left the sensors' own centre of mass comes back
   * with empty trays; otherwise the stable-sorted, thresholded improving
   * slots are taken greedily while units fit the budget, and the effect
   * map is normalised by the largest placed improvement.
   */
  method ComputeOptimalTrayLayout(ws: seq<real>, ps: seq<Vec>, idealCom: Vec, bias: map<string, real>,
                                  g: GeneralSettings, flags: map<string, bool>,
                                  maxWeight: real, maxWeightUnit: string, threshold: Option<real>,
                                  sqrt: real -> real)
    returns (res: TrayLayout, tr: Trace)
    ensures Available(ws, maxWeight, maxWeightUnit) <= 0.0 ==>
              res == TrayLayout([], [], OptCom(ws, ps), Dist(sqrt, OptCom(ws, ps), ApplyBias(idealCom, bias)),
                                Sum(ws), PerTray([], [])) &&
              tr.used == []
    ensures Available(ws, maxWeight, maxWeightUnit) > 0.0 ==>
              SlotsEnumerated(tr.slots, g, flags) &&
              RankedAndFiltered(tr.ranked, tr.kept, RunScores(ws, ps, idealCom, bias, sqrt, tr.slots), threshold) &&
              Improving(tr.used, RunScores(ws, ps, idealCom, bias, sqrt, tr.slots), threshold) &&
              GreedyWithinBudget(tr.used, tr.kept, Available(ws, maxWeight, maxWeightUnit)) &&
              MarksPlaced(res.Layout(), tr.used, g, flags) &&
              EffectsNormalised(res.effectMap, tr.used, tr.maxEffect, g, flags) &&
              res.finalCom == OptCom(FinalWeights(ws, tr.used), FinalPositions(ps, tr.used)) &&
              res.displacement == Dist(sqrt, res.finalCom, ApplyBias(idealCom, bias))
    ensures res.totalWeight == Sum(ws) + EffectWeight * |tr.used| as real
    ensures Dist(sqrt, OptCom(ws, ps), ApplyBias(idealCom, bias)) == 0.0 ==> tr.used == []
    ensures !Enabled(flags, Front) ==> res.frontTray == [] && res.effectMap.front == []
    ensures !Enabled(flags, Back) ==> res.backTray == [] && res.effectMap.back == []
  {
    var ideal := ApplyBias(idealCom, bias);
    var available := Available(ws, maxWeight, maxWeightUnit);
    if available <= 0.0 {
      var com := OptCom(ws, ps);
      res := TrayLayout([], [], com, Dist(sqrt, com, ideal), Sum(ws), PerTray([], []));
      tr := Trace([], [], [], [], 0.0);
      return;
    }
    var slots, ranked, kept := RankSlots(ws, ps, idealCom, bias, sqrt, g, flags, threshold);
    var used, added, layout, effect, maxEffect := PlaceAndNormalise(kept, available, g, flags);
    PrefixImproving(used, kept, RunScores(ws, ps, idealCom, bias, sqrt, slots), threshold);
    var finalCom := OptCom(FinalWeights(ws, used), FinalPositions(ps, used));
    res := TrayLayout(layout.front, layout.back, finalCom, Dist(sqrt, finalCom, ideal), Sum(ws) + added, effect);
    tr := Trace(slots, ranked, kept, used, maxEffect);
    assert res.Layout() == layout;
  }
}
