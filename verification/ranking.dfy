/**
 * Ranking of candidate slots in `compute_optimal_tray_layout`: keeping the
 * slots that improve the balance, the stable descending sort on the
 * improvement, and the optional threshold relative to the best
 * improvement.
 */
module Ranking {
  import opened Common
  import opened TraySlots

  /** A slot together with its `percent_improvement`. */
  datatype Candidate = Candidate(slot: Slot, percent: real)

  // ---------------------------------------------------------------------
  // Filters

  /** The candidates with a positive improvement, in their original order. */
  function Positive(cs: seq<Candidate>): (r: seq<Candidate>)
    ensures |r| <= |cs|
    ensures forall i :: 0 <= i < |r| ==> r[i].percent > 0.0
    decreases |cs|
  {
    if |cs| == 0 then []
    else Positive(cs[..|cs| - 1]) + (if cs[|cs| - 1].percent > 0.0 then [cs[|cs| - 1]] else [])
  }

  /** The candidates whose improvement reaches `t`, in their original order. */
  function AtLeast(cs: seq<Candidate>, t: real): (r: seq<Candidate>)
    ensures |r| <= |cs|
    ensures forall i :: 0 <= i < |r| ==> r[i].percent >= t
    decreases |cs|
  {
    if |cs| == 0 then []
    else AtLeast(cs[..|cs| - 1], t) + (if cs[|cs| - 1].percent >= t then [cs[|cs| - 1]] else [])
  }

  lemma {:induction false} PositiveOfNone(cs: seq<Candidate>)
    requires forall i :: 0 <= i < |cs| ==> cs[i].percent <= 0.0
    ensures Positive(cs) == []
    decreases |cs|
  {
    if |cs| > 0 {
      PositiveOfNone(cs[..|cs| - 1]);
    }
  }

  /** Positive keeps every copy of a positive candidate and nothing else. */
  lemma {:induction false} PositiveCounts(cs: seq<Candidate>, x: Candidate)
    ensures multiset(Positive(cs))[x] == if x.percent > 0.0 then multiset(cs)[x] else 0
    decreases |cs|
  {
    if |cs| > 0 {
      var n := |cs| - 1;
      PositiveCounts(cs[..n], x);
      assert cs == cs[..n] + [cs[n]];
    }
  }

  /** AtLeast keeps every copy of a candidate reaching `t` and nothing else. */
  lemma {:induction false} AtLeastCounts(cs: seq<Candidate>, t: real, x: Candidate)
    ensures multiset(AtLeast(cs, t))[x] == if x.percent >= t then multiset(cs)[x] else 0
    decreases |cs|
  {
    if |cs| > 0 {
      var n := |cs| - 1;
      AtLeastCounts(cs[..n], t, x);
      assert cs == cs[..n] + [cs[n]];
    }
  }

  lemma PositiveSub(cs: seq<Candidate>)
    ensures multiset(Positive(cs)) <= multiset(cs)
    ensures forall i :: 0 <= i < |cs| && cs[i].percent > 0.0 ==> cs[i] in Positive(cs)
  {
    forall x {
      PositiveCounts(cs, x);
    }
    forall i | 0 <= i < |cs| && cs[i].percent > 0.0
      ensures cs[i] in Positive(cs)
    {
      PositiveCounts(cs, cs[i]);
      assert cs[i] in multiset(Positive(cs));
    }
  }

  lemma AtLeastSub(cs: seq<Candidate>, t: real)
    ensures multiset(AtLeast(cs, t)) <= multiset(cs)
    ensures forall x :: multiset(AtLeast(cs, t))[x] == if x.percent >= t then multiset(cs)[x] else 0
    ensures forall i :: 0 <= i < |cs| && cs[i].percent >= t ==> cs[i] in AtLeast(cs, t)
  {
    forall x {
      AtLeastCounts(cs, t, x);
    }
    forall i | 0 <= i < |cs| && cs[i].percent >= t
      ensures cs[i] in AtLeast(cs, t)
    {
      AtLeastCounts(cs, t, cs[i]);
      assert cs[i] in multiset(AtLeast(cs, t));
    }
  }

  /** `max_improvement`: starts at 0 and rises to every larger improvement. */
  function MaxImprovement(cs: seq<Candidate>): (m: real)
    ensures 0.0 <= m
    ensures forall i :: 0 <= i < |cs| ==> cs[i].percent <= m
    ensures m == 0.0 || exists i :: 0 <= i < |cs| && cs[i].percent == m
    decreases |cs|
  {
    if |cs| == 0 then 0.0
    else
      var n := |cs| - 1;
      var m := MaxImprovement(cs[..n]);
      assert forall i :: 0 <= i < n ==> cs[..n][i] == cs[i];
      if cs[n].percent > m then cs[n].percent else m
  }

  /** Some candidate improves exactly when the best improvement is positive. */
  lemma MaxImprovementPositive(cs: seq<Candidate>)
    ensures MaxImprovement(cs) > 0.0 <==> |Positive(cs)| > 0
  {
    PositiveSub(cs);
    if MaxImprovement(cs) > 0.0 {
      var i :| 0 <= i < |cs| && cs[i].percent == MaxImprovement(cs);
      assert cs[i] in Positive(cs);
    }
  }

  /**
   * The threshold step: with a threshold above 0 and a positive best
   * improvement, only candidates reaching `max_improvement * threshold`
   * stay; otherwise the list is unchanged.
   */
  function ApplyThreshold(ranked: seq<Candidate>, threshold: Option<real>, maxImprovement: real): (r: seq<Candidate>)
    ensures multiset(r) <= multiset(ranked)
    ensures !(threshold.Some? && threshold.value > 0.0 && maxImprovement > 0.0) ==> r == ranked
    ensures threshold.Some? && threshold.value > 0.0 && maxImprovement > 0.0 ==>
              forall c :: multiset(r)[c] == if c.percent >= Mul(maxImprovement, threshold.value) then multiset(ranked)[c] else 0
  {
    if threshold.Some? && threshold.value > 0.0 && maxImprovement > 0.0 then
      AtLeastSub(ranked, Mul(maxImprovement, threshold.value));
      AtLeast(ranked, Mul(maxImprovement, threshold.value))
    else ranked
  }

  // ---------------------------------------------------------------------
  // Stable descending sort

  predicate SortedDesc(cs: seq<Candidate>) {
    forall i, j :: 0 <= i < j < |cs| ==> cs[j].percent <= cs[i].percent
  }

  /** The candidates whose improvement is exactly `v`, in order. */
  function WithPercent(cs: seq<Candidate>, v: real): seq<Candidate>
    decreases |cs|
  {
    if |cs| == 0 then []
    else WithPercent(cs[..|cs| - 1], v) + (if cs[|cs| - 1].percent == v then [cs[|cs| - 1]] else [])
  }

  /**
   * `list.sort(key=percent, reverse=True)`: descending, a permutation, and
   * stable, i.e. candidates with equal improvement keep their order.
   */
  ghost predicate StableSortOf(out: seq<Candidate>, cs: seq<Candidate>) {
    SortedDesc(out) && multiset(out) == multiset(cs) &&
    forall v :: WithPercent(out, v) == WithPercent(cs, v)
  }

  lemma {:induction false} WithPercentAppend(a: seq<Candidate>, b: seq<Candidate>, v: real)
    ensures WithPercent(a + b, v) == WithPercent(a, v) + WithPercent(b, v)
    decreases |b|
  {
    if |b| > 0 {
      var n := |b| - 1;
      var ab := a + b;
      assert ab[..|ab| - 1] == a + b[..n];
      assert ab[|ab| - 1] == b[n];
      WithPercentAppend(a, b[..n], v);
    } else {
      assert a + b == a;
    }
  }

  lemma {:induction false} WithPercentNone(cs: seq<Candidate>, v: real)
    requires forall i :: 0 <= i < |cs| ==> cs[i].percent != v
    ensures WithPercent(cs, v) == []
    decreases |cs|
  {
    if |cs| > 0 {
      WithPercentNone(cs[..|cs| - 1], v);
    }
  }

  lemma {:induction false} WithPercentMembers(cs: seq<Candidate>, v: real)
    ensures forall x :: x in WithPercent(cs, v) ==> x in cs && x.percent == v
    ensures forall i :: 0 <= i < |cs| && cs[i].percent == v ==> cs[i] in WithPercent(cs, v)
    decreases |cs|
  {
    if |cs| > 0 {
      var n := |cs| - 1;
      WithPercentMembers(cs[..n], v);
      assert forall i :: 0 <= i < n ==> cs[..n][i] == cs[i];
    }
  }

  /** First position whose improvement is below `x`'s: `x` goes after every candidate at least as good. */
  function InsertPos(s: seq<Candidate>, x: Candidate): (k: nat)
    ensures k <= |s|
    ensures forall i :: 0 <= i < k ==> x.percent <= s[i].percent
    ensures k < |s| ==> s[k].percent < x.percent
    decreases |s|
  {
    if |s| == 0 || s[0].percent < x.percent then 0 else 1 + InsertPos(s[1..], x)
  }

  function Insert(s: seq<Candidate>, x: Candidate): seq<Candidate> {
    var k := InsertPos(s, x);
    s[..k] + [x] + s[k..]
  }

  lemma InsertSorted(s: seq<Candidate>, x: Candidate)
    requires SortedDesc(s)
    ensures SortedDesc(Insert(s, x))
  {
    var k := InsertPos(s, x);
    var r := Insert(s, x);
    assert |r| == |s| + 1;
    forall i, j | 0 <= i < j < |r|
      ensures r[j].percent <= r[i].percent
    {
      if j < k {
        assert r[i] == s[i] && r[j] == s[j];
      } else if j == k {
        assert r[i] == s[i] && r[j] == x;
      } else if i < k {
        assert r[i] == s[i] && r[j] == s[j - 1];
        assert s[j - 1].percent <= s[k].percent;
      } else if i == k {
        assert r[i] == x && r[j] == s[j - 1];
        assert s[j - 1].percent <= s[k].percent;
      } else {
        assert r[i] == s[i - 1] && r[j] == s[j - 1];
      }
    }
  }

  lemma PrefixCancel(h: seq<Candidate>, x: seq<Candidate>, y: seq<Candidate>)
    requires h + x == h + y
    ensures x == y
  {
    assert x == (h + x)[|h|..];
    assert y == (h + y)[|h|..];
  }

  lemma WithPercentSingle(x: Candidate, v: real)
    ensures WithPercent([x], v) == if x.percent == v then [x] else []
  {
    assert [x][..0] == [];
  }

  /** Everything from the insertion point on is strictly below `x`. */
  lemma TailBelow(s: seq<Candidate>, x: Candidate)
    requires SortedDesc(s)
    ensures forall i :: 0 <= i < |s[InsertPos(s, x)..]| ==> s[InsertPos(s, x)..][i].percent < x.percent
  {
    var k := InsertPos(s, x);
    forall i | k <= i < |s|
      ensures s[i].percent < x.percent
    {
      if i > k {
        assert s[i].percent <= s[k].percent;
      }
    }
  }

  lemma AppendEmpty(a: seq<Candidate>, b: seq<Candidate>)
    ensures a + [] == a && [] + b == b
  {
  }

  lemma InsertFilters(s: seq<Candidate>, x: Candidate, v: real)
    requires SortedDesc(s)
    ensures WithPercent(Insert(s, x), v) == WithPercent(s, v) + (if x.percent == v then [x] else [])
  {
    var k := InsertPos(s, x);
    var a, b := s[..k], s[k..];
    assert s == a + b;
    WithPercentAppend(a + [x], b, v);
    WithPercentAppend(a, [x], v);
    WithPercentAppend(a, b, v);
    WithPercentSingle(x, v);
    var fa, fb := WithPercent(a, v), WithPercent(b, v);
    if x.percent == v {
      TailBelow(s, x);
      WithPercentNone(b, v);
      AppendEmpty(fa + [x], []);
      AppendEmpty(fa, []);
    } else {
      AppendEmpty(fa, []);
      AppendEmpty(fa + fb, []);
    }
  }

  lemma InsertKeepsOrder(s: seq<Candidate>, x: Candidate)
    requires SortedDesc(s)
    ensures SortedDesc(Insert(s, x))
    ensures multiset(Insert(s, x)) == multiset(s) + multiset{x}
    ensures forall v :: WithPercent(Insert(s, x), v) == WithPercent(s, v) + (if x.percent == v then [x] else [])
  {
    var k := InsertPos(s, x);
    assert s == s[..k] + s[k..];
    InsertSorted(s, x);
    forall v
      ensures WithPercent(Insert(s, x), v) == WithPercent(s, v) + (if x.percent == v then [x] else [])
    {
      InsertFilters(s, x, v);
    }
  }

  /**
   * The sort, by insertion: each candidate in turn goes after every
   * candidate already placed whose improvement is at least its own.
   */
  method StableSortDesc(cs: seq<Candidate>) returns (out: seq<Candidate>)
    ensures StableSortOf(out, cs)
  {
    out := [];
    for i := 0 to |cs|
      invariant StableSortOf(out, cs[..i])
    {
      InsertKeepsOrder(out, cs[i]);
      out := Insert(out, cs[i]);
      assert cs[..i + 1] == cs[..i] + [cs[i]];
      assert cs[..i + 1][..i] == cs[..i];
    }
    assert cs[..|cs|] == cs;
  }

  lemma SortedHead(cs: seq<Candidate>, x: Candidate)
    requires SortedDesc(cs) && x in cs
    ensures x.percent <= cs[0].percent
  {
    var i :| 0 <= i < |cs| && cs[i] == x;
    if i > 0 {
      assert cs[i].percent <= cs[0].percent;
    }
  }

  lemma WithPercentFirst(cs: seq<Candidate>, v: real)
    requires |cs| > 0
    ensures WithPercent(cs, v) == (if cs[0].percent == v then [cs[0]] else []) + WithPercent(cs[1..], v)
  {
    assert cs == [cs[0]] + cs[1..];
    WithPercentAppend([cs[0]], cs[1..], v);
    assert WithPercent([cs[0]], v) == WithPercent([], v) + (if cs[0].percent == v then [cs[0]] else []);
  }

  /** A non-empty list has a candidate with its first improvement. */
  lemma WithPercentOfHead(cs: seq<Candidate>)
    requires |cs| > 0
    ensures WithPercent(cs, cs[0].percent) != []
  {
    WithPercentFirst(cs, cs[0].percent);
  }

  /** Two sorted lists with the same filters start with the same candidate. */
  lemma SameHeads(a: seq<Candidate>, b: seq<Candidate>)
    requires SortedDesc(a) && SortedDesc(b) && |a| > 0 && |b| > 0
    requires forall v :: WithPercent(a, v) == WithPercent(b, v)
    ensures a[0] == b[0]
  {
    var p, q := a[0].percent, b[0].percent;
    WithPercentMembers(a, p);
    WithPercentMembers(b, q);
    assert a[0] in WithPercent(b, p);
    WithPercentMembers(b, p);
    SortedHead(b, a[0]);
    assert b[0] in WithPercent(a, q);
    WithPercentMembers(a, q);
    SortedHead(a, b[0]);
    WithPercentFirst(a, p);
    WithPercentFirst(b, p);
    assert WithPercent(a, p)[0] == a[0];
    assert WithPercent(b, p)[0] == b[0];
  }

  lemma SameTails(a: seq<Candidate>, b: seq<Candidate>)
    requires |a| > 0 && |b| > 0 && a[0] == b[0]
    requires forall v :: WithPercent(a, v) == WithPercent(b, v)
    ensures forall v :: WithPercent(a[1..], v) == WithPercent(b[1..], v)
  {
    forall v
      ensures WithPercent(a[1..], v) == WithPercent(b[1..], v)
    {
      var h := if a[0].percent == v then [a[0]] else [];
      WithPercentFirst(a, v);
      WithPercentFirst(b, v);
      PrefixCancel(h, WithPercent(a[1..], v), WithPercent(b[1..], v));
    }
  }

  /**
   * Descending order and the per-improvement order determine a list:
   * two such lists agree. So the stable sort has exactly one result.
   */
  lemma {:induction false} SortedUnique(a: seq<Candidate>, b: seq<Candidate>)
    requires SortedDesc(a) && SortedDesc(b)
    requires forall v :: WithPercent(a, v) == WithPercent(b, v)
    ensures a == b
    decreases |a|
  {
    if |a| == 0 {
      if |b| > 0 {
        WithPercentOfHead(b);
      }
    } else if |b| == 0 {
      WithPercentOfHead(a);
    } else {
      SameHeads(a, b);
      SameTails(a, b);
      SortedUnique(a[1..], b[1..]);
      assert a == [a[0]] + a[1..] && b == [b[0]] + b[1..];
    }
  }

  lemma StableSortUnique(a: seq<Candidate>, b: seq<Candidate>, cs: seq<Candidate>)
    requires StableSortOf(a, cs) && StableSortOf(b, cs)
    ensures a == b
  {
    SortedUnique(a, b);
  }

  lemma {:induction false} AtLeastAll(cs: seq<Candidate>, t: real)
    requires forall i :: 0 <= i < |cs| ==> cs[i].percent >= t
    ensures AtLeast(cs, t) == cs
    decreases |cs|
  {
    if |cs| > 0 {
      var n := |cs| - 1;
      AtLeastAll(cs[..n], t);
      assert cs == cs[..n] + [cs[n]];
    }
  }

  /** On a descending list the filter keeps a prefix. */
  lemma {:induction false} AtLeastPrefix(cs: seq<Candidate>, t: real)
    requires SortedDesc(cs)
    ensures AtLeast(cs, t) == cs[..|AtLeast(cs, t)|]
    decreases |cs|
  {
    if |cs| > 0 {
      var n := |cs| - 1;
      var init := cs[..n];
      if cs[n].percent >= t {
        forall i | 0 <= i < n
          ensures init[i].percent >= t
        {
          assert cs[i].percent >= cs[n].percent;
        }
        AtLeastAll(init, t);
        assert cs == init + [cs[n]];
      } else {
        assert SortedDesc(init);
        AtLeastPrefix(init, t);
        var k := |AtLeast(init, t)|;
        assert init[..k] == cs[..k];
      }
    }
  }

  lemma PrefixSorted(cs: seq<Candidate>, k: nat)
    requires SortedDesc(cs) && k <= |cs|
    ensures SortedDesc(cs[..k])
  {
  }

  /** The best improvement heads the sorted positive candidates. */
  lemma RankedHeadIsBest(ranked: seq<Candidate>, cs: seq<Candidate>)
    requires StableSortOf(ranked, Positive(cs))
    requires |ranked| > 0
    ensures ranked[0].percent == MaxImprovement(cs)
  {
    PositiveSub(cs);
    assert ranked[0] in multiset(Positive(cs));
    assert ranked[0] in multiset(cs);
    MaxImprovementPositive(cs);
    var i :| 0 <= i < |cs| && cs[i].percent == MaxImprovement(cs);
    assert cs[i] in Positive(cs);
    assert cs[i] in multiset(ranked);
    SortedHead(ranked, cs[i]);
  }

  /**
   * The threshold keeps a prefix of the ranking, still in descending
   * order.
   */
  lemma ThresholdKeepsPrefix(ranked: seq<Candidate>, threshold: Option<real>, maxImprovement: real)
    requires SortedDesc(ranked)
    ensures var kept := ApplyThreshold(ranked, threshold, maxImprovement);
            |kept| <= |ranked| && kept == ranked[..|kept|] && SortedDesc(kept)
  {
    if threshold.Some? && threshold.value > 0.0 && maxImprovement > 0.0 {
      var t := Mul(maxImprovement, threshold.value);
      AtLeastPrefix(ranked, t);
      PrefixSorted(ranked, |AtLeast(ranked, t)|);
    }
  }

  lemma MulAtMost(m: real, f: real)
    requires 0.0 <= m && f <= 1.0
    ensures Mul(m, f) <= m
  {
    assert m - Mul(m, f) == m * (1.0 - f);
  }

  /** With a threshold of at most 1 the best candidate always survives. */
  lemma ThresholdKeepsBest(ranked: seq<Candidate>, cs: seq<Candidate>, threshold: Option<real>)
    requires StableSortOf(ranked, Positive(cs)) && |ranked| > 0
    requires threshold.Some? ==> threshold.value <= 1.0
    ensures |ApplyThreshold(ranked, threshold, MaxImprovement(cs))| > 0
  {
    var m := MaxImprovement(cs);
    if threshold.Some? && threshold.value > 0.0 && m > 0.0 {
      var t := Mul(m, threshold.value);
      RankedHeadIsBest(ranked, cs);
      MulAtMost(m, threshold.value);
      assert ranked[0].percent >= t;
      AtLeastSub(ranked, t);
      assert ranked[0] in AtLeast(ranked, t);
    }
  }

  // ---------------------------------------------------------------------
  // Distinct cells

  /** No two candidates name the same cell. */
  predicate DistinctCells(cs: seq<Candidate>) {
    forall i, j :: 0 <= i < |cs| && 0 <= j < |cs| && i != j ==> !SameCell(cs[i].slot, cs[j].slot)
  }

  lemma {:induction false} TwoCopies(s: seq<Candidate>, x: Candidate)
    requires multiset(s)[x] >= 2
    ensures exists i, j :: 0 <= i < |s| && 0 <= j < |s| && i != j && s[i] == x && s[j] == x
    decreases |s|
  {
    var n := |s| - 1;
    assert s == s[..n] + [s[n]];
    if s[n] == x {
      assert x in multiset(s[..n]);
      var i :| 0 <= i < n && s[..n][i] == x;
      assert s[i] == x;
    } else {
      TwoCopies(s[..n], x);
      var i, j :| 0 <= i < n && 0 <= j < n && i != j && s[..n][i] == x && s[..n][j] == x;
      assert s[i] == x && s[j] == x;
    }
  }

  /** Every sub-multiset of a list without repeated cells has none either. */
  lemma DistinctCellsSub(a: seq<Candidate>, b: seq<Candidate>)
    requires multiset(a) <= multiset(b)
    requires DistinctCells(b)
    ensures DistinctCells(a)
  {
    forall i, j | 0 <= i < |a| && 0 <= j < |a| && i != j
      ensures !SameCell(a[i].slot, a[j].slot)
    {
      if a[i] == a[j] {
        assert a == a[..j] + [a[j]] + a[j + 1..];
        if i < j {
          assert a[..j] == a[..i] + [a[i]] + a[i + 1..j];
        } else {
          assert a[j + 1..] == a[j + 1..i] + [a[i]] + a[i + 1..];
        }
        assert multiset(a)[a[i]] >= 2;
        TwoCopies(b, a[i]);
      } else {
        assert a[i] in multiset(b) && a[j] in multiset(b);
        var i' :| 0 <= i' < |b| && b[i'] == a[i];
        var j' :| 0 <= j' < |b| && b[j'] == a[j];
      }
    }
  }
}
