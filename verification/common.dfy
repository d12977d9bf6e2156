/** Small shared vocabulary: optional values, planar points and sums of reals. */
module Common {

  /** A value that may be absent (Python's `None` or a missing dictionary key). */
  datatype Option<T> = None | Some(value: T) {
    function GetOr(default: T): (r: T)
      ensures Some? ==> r == value
      ensures None? ==> r == default
    {
      match this
      case Some(v) => v
      case None => default
    }
  }

  /** A point or vector in the sled's plane, in centimetres. */
  datatype Vec = Vec(x: real, y: real)

  const Origin: Vec := Vec(0.0, 0.0)

  function Sub(a: Vec, b: Vec): Vec {
    Vec(a.x - b.x, a.y - b.y)
  }

  function Abs(r: real): real {
    if r < 0.0 then -r else r
  }

  /** Python's `max(0, r)`. */
  function ClampNonNeg(r: real): real {
    if 0.0 < r then r else 0.0
  }

  /**
   * Product and quotient behind names, so that the solver's non-linear
   * reasoning sees them only where a lemma unfolds them.
   */
  function Mul(a: real, b: real): real {
    a * b
  }

  function Div(a: real, b: real): real
    requires b != 0.0
  {
    a / b
  }

  /** Dividing by a positive number keeps bounds scaled by it. */
  lemma QuotientBounds(m: real, t: real, lo: real, hi: real)
    requires 0.0 < t && Mul(lo, t) <= m <= Mul(hi, t)
    ensures lo <= Div(m, t) <= hi
  {
  }

  function Min(a: int, b: int): int {
    if a < b then a else b
  }

  /** Python's `sum` over a list of numbers, folded from the left. */
  function Sum(s: seq<real>): real
    decreases |s|
  {
    if |s| == 0 then 0.0 else Sum(s[..|s| - 1]) + s[|s| - 1]
  }

  lemma {:induction false} SumNonNeg(s: seq<real>)
    requires forall i :: 0 <= i < |s| ==> 0.0 <= s[i]
    ensures 0.0 <= Sum(s)
    decreases |s|
  {
    if |s| > 0 {
      SumNonNeg(s[..|s| - 1]);
    }
  }

  /** Sum of the x (resp. y) coordinates of a list of points. */
  function SumX(ps: seq<Vec>): real
    decreases |ps|
  {
    if |ps| == 0 then 0.0 else SumX(ps[..|ps| - 1]) + ps[|ps| - 1].x
  }

  function SumY(ps: seq<Vec>): real
    decreases |ps|
  {
    if |ps| == 0 then 0.0 else SumY(ps[..|ps| - 1]) + ps[|ps| - 1].y
  }

  /** The unweighted centroid of a non-empty list of points. */
  function Centroid(ps: seq<Vec>): Vec
    requires |ps| > 0
  {
    Vec(SumX(ps) / |ps| as real, SumY(ps) / |ps| as real)
  }

  /**
   * `sum(w * p[0] for w, p in zip(ws, ps))`: Python's `zip` stops at the
   * shorter list, and so does this sum.
   */
  function MomentX(ws: seq<real>, ps: seq<Vec>): real
    decreases |ws|
  {
    if |ws| == 0 || |ps| == 0 then 0.0
    else if |ws| <= |ps| then MomentX(ws[..|ws| - 1], ps) + Mul(ws[|ws| - 1], ps[|ws| - 1].x)
    else MomentX(ws[..|ps|], ps)
  }

  function MomentY(ws: seq<real>, ps: seq<Vec>): real
    decreases |ws|
  {
    if |ws| == 0 || |ps| == 0 then 0.0
    else if |ws| <= |ps| then MomentY(ws[..|ws| - 1], ps) + Mul(ws[|ws| - 1], ps[|ws| - 1].y)
    else MomentY(ws[..|ps|], ps)
  }

  /** Python's `min` of a non-empty list. */
  function SeqMin(s: seq<real>): (m: real)
    requires |s| > 0
    ensures exists i :: 0 <= i < |s| && s[i] == m
    ensures forall i :: 0 <= i < |s| ==> m <= s[i]
    decreases |s|
  {
    if |s| == 1 then s[0]
    else
      var r := SeqMin(s[1..]);
      assert forall i :: 1 <= i < |s| ==> s[1..][i - 1] == s[i];
      if s[0] <= r then s[0] else r
  }

  /** Python's `max` of a non-empty list. */
  function SeqMax(s: seq<real>): (m: real)
    requires |s| > 0
    ensures exists i :: 0 <= i < |s| && s[i] == m
    ensures forall i :: 0 <= i < |s| ==> s[i] <= m
    decreases |s|
  {
    if |s| == 1 then s[0]
    else
      var r := SeqMax(s[1..]);
      assert forall i :: 1 <= i < |s| ==> s[1..][i - 1] == s[i];
      if r <= s[0] then s[0] else r
  }
}
