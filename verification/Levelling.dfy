/**
 What it costs to level a table of counts.

 Both smoothing passes of the balancer repeat one step: take one unit
 from a fullest broker and give it to an emptiest one. The passes differ
 only in which counts they look at (all partitions, or one topic's), so
 the arithmetic is done here once, for an arbitrary table.
 */
module Levelling {
  import opened Totals

  type Counts = map<string, int>

  function Max(a: int, b: int): (m: int)
    ensures m >= a && m >= b && (m == a || m == b)
  {
    if a < b then b else a
  }

  /** No two entries differ by more than one. */
  ghost predicate Level(m: Counts) {
    forall a, b :: a in m && b in m ==> m[a] - m[b] <= 1
  }

  ghost function Over(m: Counts, c: int): Counts {
    map k | k in m :: Max(0, m[k] - c)
  }

  ghost function Under(m: Counts, f: int): Counts {
    map k | k in m :: Max(0, f - m[k])
  }

  /** Units lying above the line `c`, and units missing below the line `f`. */
  ghost function Excess(m: Counts, c: int): int { Total(Over(m, c)) }

  ghost function Shortfall(m: Counts, f: int): int { Total(Under(m, f)) }

  ghost function Floor(m: Counts): int
    requires |m| > 0
  {
    Total(m) / |m|
  }

  ghost function Ceiling(m: Counts): int
    requires |m| > 0
  {
    if Total(m) % |m| == 0 then Floor(m) else Floor(m) + 1
  }

  /** The number of single-unit moves needed to level `m`; see CostDropsByOne and CostIsALowerBound. */
  ghost function Cost(m: Counts): int
    requires |m| > 0
  {
    Max(Excess(m, Ceiling(m)), Shortfall(m, Floor(m)))
  }

  /** One unit moved from `a` to `b`. */
  ghost function Shift(m: Counts, a: string, b: string): Counts
    requires a in m && b in m
  {
    m[a := m[a] - 1][b := (if a == b then m[a] else m[b] + 1)]
  }

  lemma FloorCeiling(m: Counts)
    requires |m| > 0
    ensures |m| * Floor(m) <= Total(m) <= |m| * Ceiling(m)
    ensures Floor(m) <= Ceiling(m) <= Floor(m) + 1
    ensures Total(m) < |m| * (Floor(m) + 1)
    ensures Ceiling(m) > Floor(m) ==> |m| * Floor(m) < Total(m)
  {
    var n, t := |m|, Total(m);
    assert t == n * (t / n) + t % n;
    assert n * (t / n + 1) == n * (t / n) + n;
  }

  lemma ShiftTotal(m: Counts, a: string, b: string)
    requires a in m && b in m && a != b
    ensures Shift(m, a, b).Keys == m.Keys && |Shift(m, a, b)| == |m|
    ensures Total(Shift(m, a, b)) == Total(m)
    ensures |m| > 0 ==> Floor(Shift(m, a, b)) == Floor(m) && Ceiling(Shift(m, a, b)) == Ceiling(m)
  {
    hide Total;
    TotalUpdate(m, a, m[a] - 1);
    TotalUpdate(m[a := m[a] - 1], b, m[b] + 1);
    assert |Shift(m, a, b).Keys| == |m.Keys|;
  }

  lemma ShiftExcess(m: Counts, a: string, b: string, c: int)
    requires a in m && b in m && a != b
    ensures Excess(Shift(m, a, b), c)
         == Excess(m, c) - (if m[a] > c then 1 else 0) + (if m[b] >= c then 1 else 0)
  {
    hide Total;
    var o := Over(m, c);
    var o1 := o[a := Max(0, m[a] - 1 - c)];
    TotalUpdate(o, a, Max(0, m[a] - 1 - c));
    TotalUpdate(o1, b, Max(0, m[b] + 1 - c));
    assert Over(Shift(m, a, b), c) == o1[b := Max(0, m[b] + 1 - c)];
  }

  lemma ShiftShortfall(m: Counts, a: string, b: string, f: int)
    requires a in m && b in m && a != b
    ensures Shortfall(Shift(m, a, b), f)
         == Shortfall(m, f) + (if m[a] <= f then 1 else 0) - (if m[b] < f then 1 else 0)
  {
    hide Total;
    var u := Under(m, f);
    var u1 := u[a := Max(0, f - m[a] + 1)];
    TotalUpdate(u, a, Max(0, f - m[a] + 1));
    TotalUpdate(u1, b, Max(0, f - m[b] - 1));
    assert Under(Shift(m, a, b), f) == u1[b := Max(0, f - m[b] - 1)];
  }

  /** `hi` is a fullest key and `lo` an emptiest one. */
  ghost predicate Extremes(m: Counts, hi: string, lo: string) {
    hi in m && lo in m && forall k :: k in m ==> m[lo] <= m[k] <= m[hi]
  }

  lemma ExtremesStraddle(m: Counts, hi: string, lo: string)
    requires Extremes(m, hi, lo) && m[hi] - m[lo] >= 2
    ensures |m| > 0 && m[lo] < Ceiling(m) && m[hi] > Floor(m)
  {
    hide Total;
    assert hi in m.Keys;
    FloorCeiling(m);
    var c, f, n := Ceiling(m), Floor(m), |m|;
    if m[lo] >= c {
      TotalAtLeast(m, c, hi);
    }
    if m[hi] <= f {
      TotalAtMost(m, f, lo);
    }
  }

  lemma {:induction false} ZeroTotalOfNonNegative(m: Counts, k: string)
    requires forall x :: x in m ==> 0 <= m[x]
    requires k in m
    ensures m[k] <= Total(m)
    decreases |m|
  {
    TotalAtLeast(m, 0, k);
  }

  /** A table is level exactly when nothing is above the ceiling or below the floor. */
  lemma LevelIffCostZero(m: Counts)
    requires |m| > 0
    ensures Cost(m) >= 0
    ensures Level(m) <==> Cost(m) == 0
  {
    hide Total;
    FloorCeiling(m);
    var c, f := Ceiling(m), Floor(m);
    var over, under := Over(m, c), Under(m, f);
    var any := AnyKey(m);
    ZeroTotalOfNonNegative(over, any);
    if Cost(m) == 0 {
      forall k | k in m
        ensures f <= m[k] <= c
      {
        ZeroTotalOfNonNegative(over, k);
        ZeroTotalOfNonNegative(under, k);
      }
    }
    if Level(m) {
      LevelIsBetween(m);
      TotalZero(over);
      TotalZero(under);
    }
  }

  /** In a level table every entry sits between the floor and the ceiling of the mean. */
  lemma LevelIsBetween(m: Counts)
    requires |m| > 0 && Level(m)
    ensures forall k :: k in m ==> Floor(m) <= m[k] <= Ceiling(m)
  {
    hide Total;
    FloorCeiling(m);
    forall k | k in m
      ensures Floor(m) <= m[k] <= Ceiling(m)
    {
      if m[k] < Floor(m) {
        TotalAtMost(m, Floor(m), k);
      }
      if m[k] > Ceiling(m) {
        TotalAtLeast(m, Ceiling(m), k);
      }
    }
  }

  /** The step both passes take: it lowers the cost by exactly one. */
  lemma CostDropsByOne(m: Counts, hi: string, lo: string)
    requires Extremes(m, hi, lo) && m[hi] - m[lo] >= 2
    ensures |m| > 0 && Shift(m, hi, lo).Keys == m.Keys && |Shift(m, hi, lo)| > 0
    ensures Cost(Shift(m, hi, lo)) == Cost(m) - 1
  {
    hide Total, Floor, Ceiling;
    ExtremesStraddle(m, hi, lo);
    FloorCeiling(m);
    ShiftTotal(m, hi, lo);
    var c, f := Ceiling(m), Floor(m);
    ShiftExcess(m, hi, lo, c);
    ShiftShortfall(m, hi, lo, f);
    ExcessAtTop(m, hi, lo, c);
    ShortfallAtBottom(m, hi, lo, f);
  }

  lemma ExcessAtTop(m: Counts, hi: string, lo: string, c: int)
    requires Extremes(m, hi, lo)
    ensures if m[hi] > c then Excess(m, c) > 0 else Excess(m, c) == 0
  {
    hide Total;
    ZeroTotalOfNonNegative(Over(m, c), hi);
    if m[hi] <= c {
      TotalZero(Over(m, c));
    }
  }

  lemma ShortfallAtBottom(m: Counts, hi: string, lo: string, f: int)
    requires Extremes(m, hi, lo)
    ensures if m[lo] < f then Shortfall(m, f) > 0 else Shortfall(m, f) == 0
  {
    hide Total;
    ZeroTotalOfNonNegative(Under(m, f), lo);
    if m[lo] >= f {
      TotalZero(Under(m, f));
    }
  }

  /** Moving a unit down any slope never raises the cost. */
  lemma DownhillNeverCosts(m: Counts, a: string, b: string)
    requires a in m && b in m && m[a] > m[b]
    ensures |m| > 0 && Shift(m, a, b).Keys == m.Keys && |Shift(m, a, b)| > 0
    ensures Cost(Shift(m, a, b)) <= Cost(m)
  {
    hide Total;
    assert a in m.Keys;
    ShiftTotal(m, a, b);
    ShiftExcess(m, a, b, Ceiling(m));
    ShiftShortfall(m, a, b, Floor(m));
  }

  lemma FloorOfNonNegative(m: Counts)
    requires |m| > 0 && Total(m) >= 0
    ensures Floor(m) >= 0
  {
  }

  lemma ShortfallAtMost(m: Counts, f: int)
    requires |m| > 0 && f >= 0
    requires forall k :: k in m ==> 0 <= m[k]
    ensures Shortfall(m, f) <= |m| * f
  {
    hide Total;
    var u := Under(m, f);
    assert u.Keys == m.Keys;
    assert |u| == |m|;
    var any := AnyKey(u);
    TotalAtMost(u, f, any);
  }

  lemma ExcessAtMost(m: Counts, c: int)
    requires |m| > 0 && c >= 0
    requires forall k :: k in m ==> 0 <= m[k]
    ensures 0 <= Excess(m, c) <= Total(m)
  {
    hide Total;
    TotalMonotone(Over(m, c), m);
    ZeroTotalOfNonNegative(Over(m, c), AnyKey(m));
  }

  /** A table of non-negative counts can be levelled by moving at most everything once. */
  lemma CostAtMostTotal(m: Counts)
    requires |m| > 0
    requires forall k :: k in m ==> 0 <= m[k]
    ensures Cost(m) <= Total(m)
  {
    hide Total, Floor, Ceiling, Over, Under;
    ExcessAtMost(m, 0);
    FloorCeiling(m);
    FloorOfNonNegative(m);
    ExcessAtMost(m, Ceiling(m));
    ShortfallAtMost(m, Floor(m));
  }

  function Square(x: int): int { x * x }

  ghost function Squares(m: Counts): Counts {
    map k | k in m :: Square(m[k])
  }

  /** The other potential named in the source: a downhill step lowers the sum of squares. */
  lemma ShiftSquares(m: Counts, a: string, b: string)
    requires a in m && b in m && a != b
    ensures Total(Squares(Shift(m, a, b))) == Total(Squares(m)) - 2 * (m[a] - m[b] - 1)
  {
    var x, y := m[a], m[b];
    assert Square(x - 1) == Square(x) - 2 * x + 1;
    assert Square(y + 1) == Square(y) + 2 * y + 1;
    hide Total, Square;
    var q := Squares(m);
    var q1 := q[a := Square(x - 1)];
    TotalUpdate(q, a, Square(x - 1));
    TotalUpdate(q1, b, Square(y + 1));
    assert Squares(Shift(m, a, b)) == q1[b := Square(y + 1)];
  }
}
