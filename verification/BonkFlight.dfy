/** Flying along a drawn route: arc lengths, interpolation by binary search, and the cell a plane is
    over.  A plane that flies a route of the router never meets the no-fly or storm check. */
module BonkFlight {
  import opened BonkWorld
  import opened BonkRouter

  const CELL := 52.0
  const X0 := 16.0
  const Y0 := 96.0
  const NEVER := 1000000000.0   // the landing arc length of a plane that does not land
  const TINY := 0.000001

  datatype Vec = Vec(x: real, y: real)

  /** The distance of two points: any non-negative function. */
  type Metric = d: (Vec, Vec) -> real | forall a, b :: d(a, b) >= 0.0 witness (a, b) => 0.0

  /** The centre of a cell, in pixels. */
  function Centre(c: Cell): Vec {
    Vec(X0 + (c.x as real + 0.5) * CELL, Y0 + (c.y as real + 0.5) * CELL)
  }

  /** The cell a point lies in. */
  function CellAt(p: Vec): Cell {
    Cell(((p.x - X0) / CELL).Floor, ((p.y - Y0) / CELL).Floor)
  }

  function Lerp(a: real, b: real, t: real): real {
    a + (b - a) * t
  }

  function Between(a: Vec, b: Vec, t: real): Vec {
    Vec(Lerp(a.x, b.x, t), Lerp(a.y, b.y, t))
  }

  // ---------- arc lengths ----------

  function LengthTo(m: Metric, pts: seq<Vec>, k: nat): real
    requires k < |pts|
  {
    if k == 0 then 0.0 else LengthTo(m, pts, k - 1) + m(pts[k - 1], pts[k])
  }

  method CumLens(m: Metric, pts: seq<Vec>) returns (c: seq<real>)
    requires |pts| > 0
    ensures |c| == |pts| && forall k :: 0 <= k < |c| ==> c[k] == LengthTo(m, pts, k)
  {
    c := [0.0];
    for i := 1 to |pts|
      invariant |c| == i && forall k :: 0 <= k < i ==> c[k] == LengthTo(m, pts, k)
    {
      c := c + [c[i - 1] + m(pts[i - 1], pts[i])];
    }
  }

  ghost predicate Ascending(c: seq<real>) {
    forall i, j :: 0 <= i <= j < |c| ==> c[i] <= c[j]
  }

  lemma {:induction false} LengthGrows(m: Metric, pts: seq<Vec>, i: nat, j: nat)
    requires i <= j < |pts|
    ensures LengthTo(m, pts, i) <= LengthTo(m, pts, j)
  {
    if i < j { LengthGrows(m, pts, i, j - 1); }
  }

  // ---------- the point at an arc length ----------

  /** The first index from `k` on whose arc length reaches `s`, or the last index. */
  function FirstReach(c: seq<real>, s: real, k: nat): (i: nat)
    requires k < |c|
    ensures k <= i < |c|
    decreases |c| - k
  {
    if k + 1 == |c| || c[k] >= s then k else FirstReach(c, s, k + 1)
  }

  /** The fraction of segment `i` flown at arc length `s`; a tiny segment counts as TINY long. */
  function Fraction(c: seq<real>, i: nat, s: real): real
    requires 0 < i < |c|
  {
    (s - c[i - 1]) / (if c[i] - c[i - 1] > TINY then c[i] - c[i - 1] else TINY)
  }

  /** Where a plane is after flying `s` pixels along its points. */
  function PointAt(pts: seq<Vec>, c: seq<real>, s: real): Vec
    requires |pts| == |c| > 0
  {
    if s <= 0.0 then pts[0]
    else if s >= c[|c| - 1] then pts[|pts| - 1]
    else
      var i := FirstReach(c, s, 0);
      if i == 0 then pts[0] else Between(pts[i - 1], pts[i], Fraction(c, i, s))
  }

  lemma {:induction false} FirstReachIs(c: seq<real>, s: real, k: nat, i: nat)
    requires k <= i < |c| && (forall j :: k <= j < i ==> c[j] < s) && c[i] >= s
    ensures FirstReach(c, s, k) == i
    decreases i - k
  {
    if k < i { FirstReachIs(c, s, k + 1, i); }
  }

  // ---------- where that is ----------

  /** The way from `a` to `b` done at `p` is to the whole as `done` to `whole`. */
  predicate Divides(a: Vec, b: Vec, p: Vec, done: real, whole: real) {
    (p.x - a.x) * whole == (b.x - a.x) * done && (p.y - a.y) * whole == (b.y - a.y) * done
  }

  /** The point at arc length `s`: the first one before the start, the last one from the end on, and in
      between it divides its segment as `s` divides the segment's arc lengths; one not longer than TINY
      counts as TINY long. */
  ghost predicate LiesAt(pts: seq<Vec>, c: seq<real>, s: real, p: Vec)
    requires |pts| == |c| > 0
  {
    && (s <= 0.0 ==> p == pts[0])
    && (s > 0.0 && s >= c[|c| - 1] ==> p == pts[|pts| - 1])
    && forall i :: 0 < i < |c| && 0.0 < s < c[|c| - 1] && c[i - 1] < s <= c[i] ==>
         Divides(pts[i - 1], pts[i], p, s - c[i - 1], if c[i] - c[i - 1] > TINY then c[i] - c[i - 1] else TINY)
  }

  lemma LerpDivides(a: real, b: real, done: real, whole: real)
    requires whole > 0.0
    ensures (Lerp(a, b, done / whole) - a) * whole == (b - a) * done
  {
    var t := done / whole;
    assert t * whole == done;
    assert ((b - a) * t) * whole == (b - a) * (t * whole);
  }

  lemma PointAtLies(pts: seq<Vec>, c: seq<real>, s: real)
    requires |pts| == |c| > 0 && Ascending(c) && c[0] == 0.0
    ensures LiesAt(pts, c, s, PointAt(pts, c, s))
  {
    forall i | 0 < i < |c| && 0.0 < s < c[|c| - 1] && c[i - 1] < s <= c[i]
      ensures Divides(pts[i - 1], pts[i], PointAt(pts, c, s), s - c[i - 1],
                      if c[i] - c[i - 1] > TINY then c[i] - c[i - 1] else TINY)
    {
      FirstReachIs(c, s, 0, i);
      var whole := if c[i] - c[i - 1] > TINY then c[i] - c[i - 1] else TINY;
      LerpDivides(pts[i - 1].x, pts[i].x, s - c[i - 1], whole);
      LerpDivides(pts[i - 1].y, pts[i].y, s - c[i - 1], whole);
    }
  }

  lemma DividesOnce(a: Vec, b: Vec, p: Vec, q: Vec, done: real, whole: real)
    requires whole > 0.0 && Divides(a, b, p, done, whole) && Divides(a, b, q, done, whole)
    ensures p == q
  {
    assert (p.x - q.x) * whole == 0.0 && (p.y - q.y) * whole == 0.0;
  }

  /** That says where the point is: there is only one such point. */
  lemma LiesAtOnce(pts: seq<Vec>, c: seq<real>, s: real, p: Vec, q: Vec)
    requires |pts| == |c| > 0 && Ascending(c) && c[0] == 0.0
    requires LiesAt(pts, c, s, p) && LiesAt(pts, c, s, q)
    ensures p == q
  {
    if 0.0 < s < c[|c| - 1] {
      var i := SegmentOf(c, s, 0, |c|);
      DividesOnce(pts[i - 1], pts[i], p, q, s - c[i - 1], if c[i] - c[i - 1] > TINY then c[i] - c[i - 1] else TINY);
    }
  }

  /** Every segment is longer than TINY, or goes nowhere. */
  ghost predicate Proper(pts: seq<Vec>, c: seq<real>)
    requires |pts| == |c|
  {
    forall i :: 0 < i < |c| ==> c[i] - c[i - 1] > TINY || (c[i] == c[i - 1] && pts[i] == pts[i - 1])
  }

  lemma {:induction false} SameArcSamePoint(pts: seq<Vec>, c: seq<real>, i: nat, k: nat)
    requires |pts| == |c| && Ascending(c) && Proper(pts, c) && i <= k < |c| && c[i] == c[k]
    ensures pts[i] == pts[k]
  {
    if i < k {
      assert c[i] <= c[k - 1] <= c[k];
      SameArcSamePoint(pts, c, i, k - 1);
    }
  }

  /** At the arc length of one of its points a plane is at that point. */
  lemma AtItsPoints(pts: seq<Vec>, c: seq<real>, k: nat, p: Vec)
    requires |pts| == |c| && Ascending(c) && k < |c| && c[0] == 0.0 && Proper(pts, c)
    requires LiesAt(pts, c, c[k], p)
    ensures p == pts[k]
  {
    var last := |c| - 1;
    if c[k] <= 0.0 {
      SameArcSamePoint(pts, c, 0, k);
    } else if c[k] >= c[last] {
      SameArcSamePoint(pts, c, k, last);
    } else {
      var i := SegmentOf(c, c[k], 0, |c|);
      assert c[i - 1] < c[k] <= c[i];
      SameArcSamePoint(pts, c, i, k);
      assert pts[i] == pts[k];
      Divided(pts[i - 1], pts[i], p, c[i] - c[i - 1]);
    }
  }

  lemma Divided(a: Vec, b: Vec, p: Vec, whole: real)
    requires whole > 0.0 && Divides(a, b, p, whole, whole)
    ensures p == b
  {
    assert (p.x - b.x) * whole == 0.0 && (p.y - b.y) * whole == 0.0;
  }

  /** Along a segment, its ends included, a plane has done the part of the way that it has done of the arc
      lengths, from the first point to the second. */
  lemma AlongItsSegments(pts: seq<Vec>, c: seq<real>, i: nat, s: real, p: Vec)
    requires |pts| == |c| > 0 && Ascending(c) && c[0] == 0.0 && Proper(pts, c)
    requires 0 < i < |c| && c[i] - c[i - 1] > TINY && c[i - 1] <= s <= c[i] && LiesAt(pts, c, s, p)
    ensures Divides(pts[i - 1], pts[i], p, s - c[i - 1], c[i] - c[i - 1])
  {
    var a, b, whole := pts[i - 1], pts[i], c[i] - c[i - 1];
    if s == c[i - 1] {
      AtItsPoints(pts, c, i - 1, p);
      DividesAtEnds(a, b, whole);
    } else if s == c[i] {
      AtItsPoints(pts, c, i, p);
      DividesAtEnds(a, b, whole);
    } else {
      assert 0.0 <= c[i - 1] < s < c[i] <= c[|c| - 1];
    }
  }

  lemma DividesAtEnds(a: Vec, b: Vec, whole: real)
    ensures Divides(a, b, a, 0.0, whole) && Divides(a, b, b, whole, whole)
  {
  }

  /** The binary search finds the same segment as the linear definition. */
  method PointAlong(pts: seq<Vec>, c: seq<real>, s: real) returns (p: Vec)
    requires |pts| == |c| > 0 && Ascending(c) && c[0] == 0.0
    ensures p == PointAt(pts, c, s)
    ensures LiesAt(pts, c, s, p)
  {
    PointAtLies(pts, c, s);
    var total := c[|c| - 1];
    if s <= 0.0 {
      return pts[0];
    }
    if s >= total {
      return pts[|pts| - 1];
    }
    var lo, hi := 0, |c| - 1;
    while lo < hi
      invariant 0 <= lo <= hi < |c|
      invariant (forall j :: 0 <= j < lo ==> c[j] < s) && c[hi] >= s
    {
      var mid := (lo + hi) / 2;
      if c[mid] < s {
        lo := mid + 1;
      } else {
        hi := mid;
      }
    }
    FirstReachIs(c, s, 0, lo);
    return Between(pts[lo - 1], pts[lo], Fraction(c, lo, s));
  }

  // ---------- which cells a segment touches ----------

  lemma CellOfCentre(c: Cell)
    ensures CellAt(Centre(c)) == c
  {
  }

  lemma FractionInUnit(x: real, g: real)
    requires 0.0 <= x <= g && g > 0.0
    ensures 0.0 <= x / g <= 1.0
  {
    var t := x / g;
    assert t * g == x;
    assert t < 0.0 ==> t * g < 0.0;
    assert t > 1.0 ==> (t - 1.0) * g > 0.0;
  }

  /** Along one axis, the point stays in the first coordinate or is in the second. */
  lemma AxisStays(o: real, a: int, b: int, t: real)
    requires -1 <= b - a <= 1 && 0.0 <= t <= 1.0
    ensures var v := Lerp(o + (a as real + 0.5) * CELL, o + (b as real + 0.5) * CELL, t);
            ((v - o) / CELL).Floor == a || ((v - o) / CELL).Floor == b
  {
    var p, q := o + (a as real + 0.5) * CELL, o + (b as real + 0.5) * CELL;
    var v := Lerp(p, q, t);
    if b == a {
      assert (q - p) * t == 0.0;
    } else if b == a + 1 {
      assert q - p == CELL && v == p + CELL * t;
      assert (v - o) / CELL == a as real + 0.5 + t;
    } else {
      assert q - p == -CELL && v == p - CELL * t;
      assert (v - o) / CELL == a as real + 0.5 - t;
    }
  }

  /** A point between the centres of two neighbouring cells lies in one of the two, or, for a
      diagonal step, in one of the two corner cells. */
  lemma SegmentCells(a: Cell, b: Cell, t: real)
    requires KingStep(a, b) && 0.0 <= t <= 1.0
    ensures CellAt(Between(Centre(a), Centre(b), t)) in {a, b, Cell(b.x, a.y), Cell(a.x, b.y)}
  {
    AxisStays(X0, a.x, b.x, t);
    AxisStays(Y0, a.y, b.y, t);
  }

  // ---------- flying a route is safe ----------

  function Centres(cells: seq<Cell>): seq<Vec> {
    seq(|cells|, i requires 0 <= i < |cells| => Centre(cells[i]))
  }

  ghost predicate ArcLengths(m: Metric, pts: seq<Vec>, c: seq<real>) {
    |c| == |pts| > 0 && forall k :: 0 <= k < |c| ==> c[k] == LengthTo(m, pts, k)
  }

  lemma ArcLengthsAscend(m: Metric, pts: seq<Vec>, c: seq<real>)
    requires ArcLengths(m, pts, c)
    ensures Ascending(c) && c[0] == 0.0
  {
    forall i, j | 0 <= i <= j < |c| ensures c[i] <= c[j] {
      LengthGrows(m, pts, i, j);
    }
  }

  /** From place `k` to place `n - 1` the cells are free and each is an allowed step from the last. */
  ghost predicate SafeCells(w: World, cells: seq<Cell>, k: nat, n: nat)
    requires |w.blocked| == Size(w) && k < n <= |cells|
  {
    Free(w, cells[k]) && forall i :: k < i < n ==> RouteStep(w, cells, i)
  }

  lemma SafeCellIsFree(w: World, cells: seq<Cell>, k: nat, n: nat, i: nat)
    requires |w.blocked| == Size(w) && k < n <= |cells| && SafeCells(w, cells, k, n) && k <= i < n
    ensures Free(w, cells[i])
  {
    if i > k { assert RouteStep(w, cells, i); }
  }

  /** Strictly between the arc lengths of places `k` and `n - 1`, or to the very end, a plane is over
      free cells, whatever corners the route passes. */
  lemma FlightOverFreeCells(w: World, m: Metric, cells: seq<Cell>, c: seq<real>, k: nat, n: nat, s: real)
    requires |w.blocked| == Size(w) && k < n <= |cells| && SafeCells(w, cells, k, n)
    requires ArcLengths(m, Centres(cells), c)
    requires 0.0 <= c[k] < s && (s < c[n - 1] || n == |cells|)
    ensures Free(w, CellAt(PointAt(Centres(cells), c, s)))
  {
    ArcLengthsAscend(m, Centres(cells), c);
    if s >= c[|c| - 1] {
      CellOfCentre(cells[n - 1]);
      SafeCellIsFree(w, cells, k, n, n - 1);
    } else {
      var i := SegmentOf(c, s, k, n);
      assert RouteStep(w, cells, i);
      FractionOk(c, i, s);
      SegmentCells(cells[i - 1], cells[i], Fraction(c, i, s));
      SafeCellIsFree(w, cells, k, n, i - 1);
    }
  }

  lemma FractionOk(c: seq<real>, i: nat, s: real)
    requires 0 < i < |c| && c[i - 1] <= s <= c[i]
    ensures 0.0 <= Fraction(c, i, s) <= 1.0
  {
    FractionInUnit(s - c[i - 1], if c[i] - c[i - 1] > TINY then c[i] - c[i - 1] else TINY);
  }

  /** The segment that reaches `s` lies between places `k` and `n - 1`. */
  lemma SegmentOf(c: seq<real>, s: real, k: nat, n: nat) returns (i: nat)
    requires Ascending(c) && k < n <= |c| && c[k] < s < c[|c| - 1] && (s < c[n - 1] || n == |c|)
    ensures k < i < n && i == FirstReach(c, s, 0) && c[i - 1] < s <= c[i]
  {
    i := k + 1;
    while c[i] < s
      invariant k < i < n && c[i - 1] < s
      decreases n - i
    {
      i := i + 1;
    }
    FirstReachIs(c, s, 0, i);
  }
}
