/**
 * The two outputs of `compute_optimal_tray_layout` that live on the tray
 * grids: the layout (1 where a 113 g unit goes, 0 elsewhere) and the
 * effect map (each placed unit's improvement, normalised by the largest).
 */
module EffectMap {
  import opened Common
  import opened TraySlots
  import opened Ranking

  /** The mass of one tray unit in grams (`effect_weight_grams`). */
  const EffectWeight: real := 113.0

  /** One value per tray: `front_tray`/`back_tray` of the layout, "front"/"back" of the effect map. */
  datatype PerTray<T> = PerTray(front: T, back: T) {
    function Get(t: Tray): T {
      if t == Front then front else back
    }

    function Set(t: Tray, v: T): (r: PerTray<T>)
      ensures r.Get(t) == v
      ensures forall u: Tray :: u != t ==> r.Get(u) == Get(u)
    {
      if t == Front then this.(front := v) else this.(back := v)
    }
  }

  /** A grid cell: tray, row and column. */
  datatype Cell = Cell(tray: Tray, row: nat, col: nat)

  function CellOf(s: Slot): Cell {
    Cell(s.tray, s.row, s.col)
  }

  lemma SameCellIff(a: Slot, b: Slot)
    ensures SameCell(a, b) <==> CellOf(a) == CellOf(b)
  {
  }

  /** Rows of a tray's grid: the configured count when enabled, none otherwise. */
  function Rows(g: GeneralSettings, flags: map<string, bool>, t: Tray): nat {
    if Enabled(flags, t) then Count(SettingsFor(g, t).rows) else 0
  }

  function Cols(g: GeneralSettings, t: Tray): nat {
    Count(SettingsFor(g, t).columns)
  }

  predicate InGrid(g: GeneralSettings, flags: map<string, bool>, k: Cell) {
    k.row < Rows(g, flags, k.tray) && k.col < Cols(g, k.tray)
  }

  lemma ValidSlotInGrid(g: GeneralSettings, flags: map<string, bool>, s: Slot)
    requires ValidSlot(g, flags, s)
    ensures InGrid(g, flags, CellOf(s))
  {
  }

  /** A grid with the tray's dimensions. */
  predicate ShapedGrid<T>(grid: seq<seq<T>>, g: GeneralSettings, flags: map<string, bool>, t: Tray) {
    |grid| == Rows(g, flags, t) && forall r :: 0 <= r < |grid| ==> |grid[r]| == Cols(g, t)
  }

  predicate Shaped<T>(m: PerTray<seq<seq<T>>>, g: GeneralSettings, flags: map<string, bool>) {
    ShapedGrid(m.front, g, flags, Front) && ShapedGrid(m.back, g, flags, Back)
  }

  /**
   * The grids built before placement: `rows` lists of `cols` copies of
   * `z` for an enabled tray, and the initial `[]` for a disabled one.
   */
  function Blank<T>(g: GeneralSettings, flags: map<string, bool>, z: T): (m: PerTray<seq<seq<T>>>)
    ensures Shaped(m, g, flags)
    ensures forall k :: InGrid(g, flags, k) ==> m.Get(k.tray)[k.row][k.col] == z
  {
    PerTray(seq(Rows(g, flags, Front), _ => seq(Cols(g, Front), _ => z)),
            seq(Rows(g, flags, Back), _ => seq(Cols(g, Back), _ => z)))
  }

  function At<T>(m: PerTray<seq<seq<T>>>, g: GeneralSettings, flags: map<string, bool>, k: Cell): T
    requires Shaped(m, g, flags) && InGrid(g, flags, k)
  {
    m.Get(k.tray)[k.row][k.col]
  }

  /** `grid[tray][row][col] = v`. */
  function Put<T>(m: PerTray<seq<seq<T>>>, g: GeneralSettings, flags: map<string, bool>, k: Cell, v: T): (r: PerTray<seq<seq<T>>>)
    requires Shaped(m, g, flags) && InGrid(g, flags, k)
    ensures Shaped(r, g, flags)
    ensures At(r, g, flags, k) == v
    ensures forall k' :: InGrid(g, flags, k') && k' != k ==> At(r, g, flags, k') == At(m, g, flags, k')
  {
    var grid := m.Get(k.tray);
    m.Set(k.tray, grid[k.row := grid[k.row][k.col := v]])
  }

  /** Some placed unit sits in cell `k`. */
  predicate Occupied(used: seq<Candidate>, k: Cell) {
    exists j :: 0 <= j < |used| && CellOf(used[j].slot) == k
  }

  lemma OccupiedAppend(used: seq<Candidate>, x: Candidate, k: Cell)
    ensures Occupied(used + [x], k) <==> Occupied(used, k) || CellOf(x.slot) == k
  {
    var u := used + [x];
    if Occupied(used, k) {
      var j :| 0 <= j < |used| && CellOf(used[j].slot) == k;
      assert u[j] == used[j];
    }
    if CellOf(x.slot) == k {
      assert u[|used|] == x;
    }
    if Occupied(u, k) {
      var j :| 0 <= j < |u| && CellOf(u[j].slot) == k;
      if j < |used| {
        assert u[j] == used[j];
      }
    }
  }

  /** Placement keeps the slots inside their grids and apart. */
  predicate Placeable(cands: seq<Candidate>, g: GeneralSettings, flags: map<string, bool>) {
    (forall i :: 0 <= i < |cands| ==> ValidSlot(g, flags, cands[i].slot)) && DistinctCells(cands)
  }

  /** Distinct candidates have distinct cells. */
  lemma DistinctCellOf(cands: seq<Candidate>, i: nat, j: nat)
    requires DistinctCells(cands) && i < |cands| && j < |cands| && i != j
    ensures CellOf(cands[i].slot) != CellOf(cands[j].slot)
  {
    SameCellIff(cands[i].slot, cands[j].slot);
  }

  /**
   * The greedy loop: take candidates in order while one more unit still
   * fits the available weight, marking the layout with 1 and the effect
   * map with the candidate's improvement.
   */
  method Place(cands: seq<Candidate>, available: real, g: GeneralSettings, flags: map<string, bool>)
    returns (used: seq<Candidate>, added: real, layout: PerTray<seq<seq<int>>>, effect: PerTray<seq<seq<real>>>)
    requires 0.0 < available
    requires Placeable(cands, g, flags)
    ensures |used| <= |cands| && used == cands[..|used|]
    ensures added == EffectWeight * |used| as real && added <= available
    ensures |used| < |cands| ==> available < added + EffectWeight
    ensures |used| == Min(|cands|, (available / EffectWeight).Floor)
    ensures Shaped(layout, g, flags) && Shaped(effect, g, flags)
    ensures forall k :: InGrid(g, flags, k) ==> At(layout, g, flags, k) == if Occupied(used, k) then 1 else 0
    ensures forall k :: InGrid(g, flags, k) && !Occupied(used, k) ==> At(effect, g, flags, k) == 0.0
    ensures forall j :: 0 <= j < |used| ==>
              InGrid(g, flags, CellOf(used[j].slot)) && At(effect, g, flags, CellOf(used[j].slot)) == used[j].percent
  {
    used, added := [], 0.0;
    layout, effect := Blank(g, flags, 0), Blank(g, flags, 0.0);
    var i := 0;
    while i < |cands|
      invariant 0 <= i <= |cands| && used == cands[..i]
      invariant added == EffectWeight * i as real && added <= available
      invariant Shaped(layout, g, flags) && Shaped(effect, g, flags)
      invariant forall k :: InGrid(g, flags, k) ==> At(layout, g, flags, k) == if Occupied(used, k) then 1 else 0
      invariant forall k :: InGrid(g, flags, k) && !Occupied(used, k) ==> At(effect, g, flags, k) == 0.0
      invariant forall j :: 0 <= j < i ==>
                  InGrid(g, flags, CellOf(used[j].slot)) && At(effect, g, flags, CellOf(used[j].slot)) == used[j].percent
    {
      if added + EffectWeight > available {
        break;
      }
      var x := cands[i];
      var k := CellOf(x.slot);
      ValidSlotInGrid(g, flags, x.slot);
      layout := Put(layout, g, flags, k, 1);
      effect := Put(effect, g, flags, k, x.percent);
      forall k' | InGrid(g, flags, k')
        ensures Occupied(used + [x], k') <==> Occupied(used, k') || k == k'
      {
        OccupiedAppend(used, x, k');
      }
      forall j | 0 <= j < i
        ensures CellOf(used[j].slot) != k
      {
        DistinctCellOf(cands, j, i);
      }
      assert cands[..i + 1] == used + [x];
      used, added, i := used + [x], added + EffectWeight, i + 1;
    }
    BudgetCount(|used|, |cands|, available);
  }

  /** The budget test admits exactly min(candidates, floor(available / 113)) units. */
  lemma BudgetCount(k: nat, n: nat, available: real)
    requires 0.0 < available && k <= n
    requires EffectWeight * k as real <= available
    requires k < n ==> available < EffectWeight * (k + 1) as real
    ensures k == Min(n, (available / EffectWeight).Floor)
  {
    var f := (available / EffectWeight).Floor;
    assert k as real <= available / EffectWeight;
    assert k <= f;
    if k < n {
      assert available / EffectWeight < (k + 1) as real;
      assert f < k + 1;
    }
  }

  /** The improvements of the placed units, in placement order (`used_effects`). */
  function Percents(used: seq<Candidate>): (ps: seq<real>)
    ensures |ps| == |used| && forall j :: 0 <= j < |used| ==> ps[j] == used[j].percent
  {
    seq(|used|, j requires 0 <= j < |used| => used[j].percent)
  }

  /** A used cell after normalisation: positive values are divided by the largest. */
  function Normalised(v: real, maxEffect: real): real
    requires v > 0.0 ==> maxEffect != 0.0
  {
    if v > 0.0 then Div(v, maxEffect) else v
  }

  /** `used_effects`: the effect map read back at every placed unit's cell. */
  method CollectEffects(used: seq<Candidate>, effect: PerTray<seq<seq<real>>>, g: GeneralSettings, flags: map<string, bool>)
    returns (usedEffects: seq<real>)
    requires Shaped(effect, g, flags)
    requires forall j :: 0 <= j < |used| ==>
               InGrid(g, flags, CellOf(used[j].slot)) && At(effect, g, flags, CellOf(used[j].slot)) == used[j].percent
    ensures usedEffects == Percents(used)
  {
    usedEffects := [];
    for j := 0 to |used|
      invariant usedEffects == Percents(used[..j])
    {
      usedEffects := usedEffects + [At(effect, g, flags, CellOf(used[j].slot))];
    }
    assert used[..|used|] == used;
  }

  /** Divide every positive placed effect by `maxEffect`, each cell once. */
  method DivideUsed(used: seq<Candidate>, effect0: PerTray<seq<seq<real>>>, maxEffect: real,
                    g: GeneralSettings, flags: map<string, bool>)
    returns (effect: PerTray<seq<seq<real>>>)
    requires Placeable(used, g, flags)
    requires Shaped(effect0, g, flags)
    requires forall j :: 0 <= j < |used| ==>
               InGrid(g, flags, CellOf(used[j].slot)) && At(effect0, g, flags, CellOf(used[j].slot)) == used[j].percent
    requires forall j :: 0 <= j < |used| ==> used[j].percent <= maxEffect
    ensures Shaped(effect, g, flags)
    ensures forall k :: InGrid(g, flags, k) && !Occupied(used, k) ==> At(effect, g, flags, k) == At(effect0, g, flags, k)
    ensures forall j :: 0 <= j < |used| ==>
              At(effect, g, flags, CellOf(used[j].slot)) == Normalised(used[j].percent, maxEffect)
  {
    effect := effect0;
    for i := 0 to |used|
      invariant Shaped(effect, g, flags)
      invariant forall k :: InGrid(g, flags, k) && !Occupied(used, k) ==> At(effect, g, flags, k) == At(effect0, g, flags, k)
      invariant forall j :: 0 <= j < i ==> At(effect, g, flags, CellOf(used[j].slot)) == Normalised(used[j].percent, maxEffect)
      invariant forall j :: i <= j < |used| ==> At(effect, g, flags, CellOf(used[j].slot)) == used[j].percent
    {
      var k := CellOf(used[i].slot);
      forall j | 0 <= j < |used| && j != i
        ensures CellOf(used[j].slot) != k
      {
        DistinctCellOf(used, j, i);
      }
      if At(effect, g, flags, k) > 0.0 {
        effect := Put(effect, g, flags, k, Div(At(effect, g, flags, k), maxEffect));
      }
    }
  }

  /**
   * The normalisation: collect the placed units' effects, take their
   * maximum, and divide each positive one by it. Cells without a unit are
   * not visited.
   */
  method Normalise(used: seq<Candidate>, effect0: PerTray<seq<seq<real>>>, g: GeneralSettings, flags: map<string, bool>)
    returns (effect: PerTray<seq<seq<real>>>, maxEffect: real)
    requires Placeable(used, g, flags)
    requires Shaped(effect0, g, flags)
    requires forall j :: 0 <= j < |used| ==>
               InGrid(g, flags, CellOf(used[j].slot)) && At(effect0, g, flags, CellOf(used[j].slot)) == used[j].percent
    ensures Shaped(effect, g, flags)
    ensures |used| > 0 ==> maxEffect == SeqMax(Percents(used))
    ensures forall j :: 0 <= j < |used| ==> used[j].percent <= maxEffect
    ensures forall k :: InGrid(g, flags, k) && !Occupied(used, k) ==> At(effect, g, flags, k) == At(effect0, g, flags, k)
    ensures forall j :: 0 <= j < |used| ==>
              At(effect, g, flags, CellOf(used[j].slot)) == Normalised(used[j].percent, maxEffect)
  {
    var usedEffects := CollectEffects(used, effect0, g, flags);
    effect, maxEffect := effect0, 0.0;
    if |usedEffects| > 0 {
      maxEffect := SeqMax(usedEffects);
      effect := DivideUsed(used, effect0, maxEffect, g, flags);
    }
  }

  lemma DivUnit(v: real, m: real)
    requires 0.0 < v <= m
    ensures 0.0 < Div(v, m) <= 1.0
    ensures v == m ==> Div(v, m) == 1.0
  {
    QuotientBounds(v, m, 0.0, 1.0);
    assert Mul(Div(v, m), m) == v;
  }

  /**
   * When every placed unit improves the balance, the normalised effects
   * lie in (0, 1] and the best placed unit shows exactly 1.
   */
  lemma NormalisedRange(used: seq<Candidate>, maxEffect: real)
    requires |used| > 0 && maxEffect == SeqMax(Percents(used))
    requires forall j :: 0 <= j < |used| ==> used[j].percent > 0.0
    ensures forall j :: 0 <= j < |used| ==> 0.0 < Normalised(used[j].percent, maxEffect) <= 1.0
    ensures exists j :: 0 <= j < |used| && Normalised(used[j].percent, maxEffect) == 1.0
  {
    var ps := Percents(used);
    forall j | 0 <= j < |used|
      ensures 0.0 < Normalised(used[j].percent, maxEffect) <= 1.0
    {
      assert ps[j] <= maxEffect;
      DivUnit(used[j].percent, maxEffect);
    }
    var j :| 0 <= j < |ps| && ps[j] == maxEffect;
    DivUnit(used[j].percent, maxEffect);
  }

  /** Descending candidates: the largest placed effect is the first one. */
  lemma MaxEffectIsFirst(used: seq<Candidate>)
    requires |used| > 0 && SortedDesc(used)
    ensures SeqMax(Percents(used)) == used[0].percent
  {
    var ps := Percents(used);
    var m := SeqMax(ps);
    assert ps[0] <= m;
    var j :| 0 <= j < |ps| && ps[j] == m;
    assert ps[j] == used[j].percent;
    if j > 0 {
      assert used[j].percent <= used[0].percent;
    }
  }
}
