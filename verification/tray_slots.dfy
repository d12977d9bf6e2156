/**
 * The weight trays of `TrayOptimizer.compute_optimal_tray_layout`: a
 * front and a back tray, each a grid of cells centred on the sled's
 * centre line, and the list of slot centres the optimiser may fill.
 */
module TraySlots {
  import opened Common

  datatype Tray = Front | Back

  /** The tray's key in `tray_flags` and in the result's effect map. */
  function TrayName(t: Tray): string {
    match t
    case Front => "front"
    case Back => "back"
  }

  /** Trays in the order the optimiser visits them. */
  function TrayIndex(t: Tray): nat {
    match t
    case Front => 0
    case Back => 1
  }

  /** The keys `rows`, `columns`, `y_position`, `cell_width`, `cell_height`, `wall_thickness`. */
  datatype TraySettings = TraySettings(rows: int, columns: int, yPosition: real,
                                       cellWidth: real, cellHeight: real, wallThickness: real)

  /** The two tray entries of the general settings. */
  datatype GeneralSettings = GeneralSettings(weightTray1: TraySettings, weightTray2: TraySettings)

  /** "front" reads `weight_tray1`, "back" reads `weight_tray2`. */
  function SettingsFor(g: GeneralSettings, t: Tray): TraySettings {
    if t == Front then g.weightTray1 else g.weightTray2
  }

  /** `tray_flags.get(name, False)`. */
  predicate Enabled(flags: map<string, bool>, t: Tray) {
    TrayName(t) in flags && flags[TrayName(t)]
  }

  /** The length of `range(n)`. */
  function Count(n: int): nat {
    if n < 0 then 0 else n
  }

  /** A cell of a tray with the position of its centre. */
  datatype Slot = Slot(tray: Tray, row: nat, col: nat, pos: Vec)

  /**
   * The centre of cell (row, col): columns are spaced `cell_width +
   * wall_thickness` apart around x = 0, rows `cell_height + wall_thickness`
   * apart around `y_position`.
   */
  function SlotPosition(s: TraySettings, row: nat, col: nat): Vec {
    Vec(Mul(col as real - (s.columns - 1) as real / 2.0, s.cellWidth + s.wallThickness),
        s.yPosition + Mul(row as real - (s.rows - 1) as real / 2.0, s.cellHeight + s.wallThickness))
  }

  function SlotAt(g: GeneralSettings, t: Tray, row: nat, col: nat): Slot {
    Slot(t, row, col, SlotPosition(SettingsFor(g, t), row, col))
  }

  /** A slot the optimiser may produce: an enabled tray, a cell inside its grid, the cell's centre. */
  predicate ValidSlot(g: GeneralSettings, flags: map<string, bool>, s: Slot) {
    Enabled(flags, s.tray) &&
    s.row < Count(SettingsFor(g, s.tray).rows) && s.col < Count(SettingsFor(g, s.tray).columns) &&
    s == SlotAt(g, s.tray, s.row, s.col)
  }

  /** The visiting order: front before back, then row-major. */
  predicate Before(a: Slot, b: Slot) {
    TrayIndex(a.tray) < TrayIndex(b.tray) ||
    (a.tray == b.tray && (a.row < b.row || (a.row == b.row && a.col < b.col)))
  }

  /** Two slots for the same cell of the same tray. */
  predicate SameCell(a: Slot, b: Slot) {
    a.tray == b.tray && a.row == b.row && a.col == b.col
  }

  /** A list in strictly increasing visiting order. */
  predicate Ascending(slots: seq<Slot>) {
    forall i, j :: 0 <= i < j < |slots| ==> Before(slots[i], slots[j])
  }

  /** The cells of one tray in row-major order. */
  method EnumerateTray(g: GeneralSettings, flags: map<string, bool>, t: Tray) returns (slots: seq<Slot>)
    requires Enabled(flags, t)
    ensures forall i :: 0 <= i < |slots| ==> ValidSlot(g, flags, slots[i]) && slots[i].tray == t
    ensures Ascending(slots)
    ensures forall r: nat, c: nat :: r < Count(SettingsFor(g, t).rows) && c < Count(SettingsFor(g, t).columns) ==>
              SlotAt(g, t, r, c) in slots
  {
    var s := SettingsFor(g, t);
    var rows, cols := Count(s.rows), Count(s.columns);
    slots := [];
    for r := 0 to rows
      invariant forall i :: 0 <= i < |slots| ==> ValidSlot(g, flags, slots[i]) && slots[i].tray == t && slots[i].row < r
      invariant Ascending(slots)
      invariant forall r': nat, c: nat :: r' < r && c < cols ==> SlotAt(g, t, r', c) in slots
    {
      for c := 0 to cols
        invariant forall i :: 0 <= i < |slots| ==>
                    (ValidSlot(g, flags, slots[i]) && slots[i].tray == t &&
                     (slots[i].row < r || (slots[i].row == r && slots[i].col < c)))
        invariant Ascending(slots)
        invariant forall r': nat, c': nat :: r' < r && c' < cols ==> SlotAt(g, t, r', c') in slots
        invariant forall c': nat :: c' < c ==> SlotAt(g, t, r, c') in slots
      {
        slots := slots + [SlotAt(g, t, r, c)];
      }
    }
  }

  /**
   * The slot list of `compute_optimal_tray_layout`: every cell of every
   * enabled tray, front first, each row left to right. The list is in
   * strictly increasing visiting order, so no cell appears twice.
   */
  method EnumerateSlots(g: GeneralSettings, flags: map<string, bool>) returns (slots: seq<Slot>)
    ensures forall i :: 0 <= i < |slots| ==> ValidSlot(g, flags, slots[i])
    ensures Ascending(slots)
    ensures forall t: Tray, r: nat, c: nat ::
              Enabled(flags, t) && r < Count(SettingsFor(g, t).rows) && c < Count(SettingsFor(g, t).columns) ==>
              SlotAt(g, t, r, c) in slots
  {
    var front: seq<Slot> := [];
    var back: seq<Slot> := [];
    if Enabled(flags, Front) {
      front := EnumerateTray(g, flags, Front);
    }
    if Enabled(flags, Back) {
      back := EnumerateTray(g, flags, Back);
    }
    slots := front + back;
    forall i, j | 0 <= i < j < |slots|
      ensures Before(slots[i], slots[j])
    {
      if j < |front| {
        assert Before(front[i], front[j]);
      } else if i >= |front| {
        assert Before(back[i - |front|], back[j - |front|]);
      }
    }
  }

  /** Distinct positions in an ascending list hold different cells. */
  lemma AscendingDistinctCells(slots: seq<Slot>, i: nat, j: nat)
    requires Ascending(slots)
    requires i < |slots| && j < |slots| && i != j
    ensures !SameCell(slots[i], slots[j])
  {
    if i < j {
      assert Before(slots[i], slots[j]);
    } else {
      assert Before(slots[j], slots[i]);
    }
  }

  lemma MirrorAlgebra(a: real, b: real, sp: real)
    requires a + b == 0.0
    ensures Mul(a, sp) + Mul(b, sp) == 0.0
  {
    assert Mul(a, sp) + Mul(b, sp) == (a + b) * sp;
  }

  /**
   * The grid is centred: mirrored columns have opposite x, and mirrored
   * rows lie symmetrically about `y_position`.
   */
  lemma GridIsCentred(s: TraySettings, row: nat, col: nat)
    requires row < Count(s.rows) && col < Count(s.columns)
    ensures SlotPosition(s, row, col).x + SlotPosition(s, row, Count(s.columns) - 1 - col).x == 0.0
    ensures SlotPosition(s, row, col).y + SlotPosition(s, Count(s.rows) - 1 - row, col).y == 2.0 * s.yPosition
  {
    var cc, cr := (s.columns - 1) as real / 2.0, (s.rows - 1) as real / 2.0;
    MirrorAlgebra(col as real - cc, (Count(s.columns) - 1 - col) as real - cc, s.cellWidth + s.wallThickness);
    MirrorAlgebra(row as real - cr, (Count(s.rows) - 1 - row) as real - cr, s.cellHeight + s.wallThickness);
  }
}
