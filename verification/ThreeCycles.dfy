/** Arrangements that can be turned into one another.  Once three places at a time can be turned in enough
    ways, any arrangement can be put in order, up to the first two places. */
module ThreeCycles {

  type Line = seq<nat>

  type Relation = (Line, Line) -> bool

  /** A way of turning lines of length `m` into one another that can be undone and continued.  Only the
      lines related to themselves take part. */
  ghost predicate Reversible(r: Relation, m: nat) {
    && (forall a, b :: r(a, b) ==> r(b, a) && |a| == m)
    && (forall a, b, c :: r(a, b) && r(b, c) ==> r(a, c))
  }

  /** What stands at `i` goes to `j`, what stands there to `k`, and what stands there to `i`. */
  function Cycled(a: Line, i: nat, j: nat, k: nat): (b: Line)
    requires i < |a| && j < |a| && k < |a|
    ensures |b| == |a|
  {
    a[i := a[k]][j := a[i]][k := a[j]]
  }

  predicate Apart(i: nat, j: nat, k: nat) {
    i != j && j != k && k != i
  }

  /** Every line that takes part can have these three places turned. */
  ghost predicate Turns(r: Relation, m: nat, i: nat, j: nat, k: nat) {
    && i < m && j < m && k < m && Apart(i, j, k)
    && forall a {:trigger Cycled(a, i, j, k)} :: |a| == m && r(a, a) ==> r(a, Cycled(a, i, j, k))
  }

  lemma TurnsAround(r: Relation, m: nat, i: nat, j: nat, k: nat)
    requires Turns(r, m, i, j, k)
    ensures Turns(r, m, j, k, i)
  {
    forall a | r(a, a) && |a| == m ensures r(a, Cycled(a, j, k, i)) {
      assert Cycled(a, j, k, i) == Cycled(a, i, j, k);
    }
  }

  lemma CycledTwice(a: Line, i: nat, j: nat, k: nat)
    requires i < |a| && j < |a| && k < |a| && Apart(i, j, k)
    ensures Cycled(Cycled(a, i, j, k), i, j, k) == Cycled(a, k, j, i)
  {
  }

  lemma CycledPast(a: Line, p: nat, x: nat, q: nat, y: nat)
    requires p < |a| && x < |a| && q < |a| && y < |a| && Apart(p, x, q) && Apart(q, y, p) && x != y
    ensures Cycled(Cycled(a, p, x, q), q, y, p) == Cycled(a, p, x, y)
  {
  }

  /** Two steps in a row, the second from a line that takes part because the first leads to it. */
  lemma TwoSteps(r: Relation, m: nat, a: Line, b: Line)
    requires Reversible(r, m) && r(a, b)
    ensures r(b, b) && |b| == m && forall c :: r(b, c) ==> r(a, c)
  {
    assert r(b, a);
  }

  /** Turning twice turns back. */
  lemma TurnsBack(r: Relation, m: nat, i: nat, j: nat, k: nat)
    requires Reversible(r, m) && Turns(r, m, i, j, k)
    ensures Turns(r, m, k, j, i)
  {
    forall a | r(a, a) && |a| == m ensures r(a, Cycled(a, k, j, i)) {
      var b := Cycled(a, i, j, k);
      TwoSteps(r, m, a, b);
      CycledTwice(a, i, j, k);
      assert r(b, Cycled(b, i, j, k));
    }
  }

  /** Two turns that pass through `p` and `q` in opposite directions make one without `q`. */
  lemma TurnsPast(r: Relation, m: nat, p: nat, x: nat, q: nat, y: nat)
    requires Reversible(r, m) && Turns(r, m, p, x, q) && Turns(r, m, q, y, p) && x != y
    ensures Turns(r, m, p, x, y)
  {
    forall a | r(a, a) && |a| == m ensures r(a, Cycled(a, p, x, y)) {
      var b := Cycled(a, p, x, q);
      TwoSteps(r, m, a, b);
      CycledPast(a, p, x, q, y);
      assert r(b, Cycled(b, q, y, p));
    }
  }

  ghost predicate AllTurn(r: Relation, m: nat, s: set<nat>) {
    forall i, j, k :: i in s && j in s && k in s && Apart(i, j, k) ==> Turns(r, m, i, j, k)
  }

  lemma ThreeTurn(r: Relation, m: nat, i: nat, j: nat, k: nat)
    requires Reversible(r, m) && Turns(r, m, i, j, k)
    ensures AllTurn(r, m, {i, j, k})
  {
    TurnsAround(r, m, i, j, k);
    TurnsAround(r, m, j, k, i);
    TurnsBack(r, m, i, j, k);
    TurnsAround(r, m, k, j, i);
    TurnsAround(r, m, j, i, k);
  }

  /** Every other place can be turned with `p` and `q`. */
  ghost predicate Star(r: Relation, m: nat, s: set<nat>, p: nat, q: nat) {
    p in s && q in s && p != q && forall x :: x in s && x != p && x != q ==> Turns(r, m, p, x, q)
  }

  /** Then any two places can be turned with `p`. */
  lemma StarTurns(r: Relation, m: nat, s: set<nat>, p: nat, q: nat, x: nat, y: nat)
    requires Reversible(r, m) && Star(r, m, s, p, q) && x in s && y in s && Apart(p, x, y)
    ensures Turns(r, m, p, x, y)
  {
    if x == q {
      TurnsBack(r, m, p, y, q);
      TurnsAround(r, m, q, y, p);
      TurnsAround(r, m, y, p, q);
    } else if y != q {
      TurnsBack(r, m, p, y, q);
      TurnsPast(r, m, p, x, q, y);
    }
  }

  /** And so can any three. */
  lemma StarAllTurn(r: Relation, m: nat, s: set<nat>, p: nat, q: nat)
    requires Reversible(r, m) && Star(r, m, s, p, q)
    ensures AllTurn(r, m, s)
  {
    forall i, j, k | i in s && j in s && k in s && Apart(i, j, k) ensures Turns(r, m, i, j, k) {
      if i == p {
        StarTurns(r, m, s, p, q, j, k);
      } else if j == p {
        StarTurns(r, m, s, p, q, k, i);
        TurnsAround(r, m, p, k, i);
        TurnsAround(r, m, k, i, p);
      } else if k == p {
        StarTurns(r, m, s, p, q, i, j);
        TurnsAround(r, m, p, i, j);
      } else {
        StarTurns(r, m, s, p, q, i, j);
        TurnsAround(r, m, p, i, j);
        StarTurns(r, m, s, p, q, k, i);
        TurnsPast(r, m, i, j, p, k);
      }
    }
  }

  /** The places from `lo` up to, and without, `hi`. */
  function Places(lo: nat, hi: nat): set<nat> {
    if hi <= lo then {} else Places(lo, hi - 1) + {hi - 1}
  }

  lemma {:induction false} InPlaces(lo: nat, hi: nat)
    ensures forall i :: i in Places(lo, hi) <==> lo <= i < hi
  {
    if lo < hi {
      InPlaces(lo, hi - 1);
    }
  }

  /** Two sets of places with two places in common can be put together. */
  lemma TogetherAllTurn(r: Relation, m: nat, s: set<nat>, t: set<nat>, p: nat, q: nat)
    requires Reversible(r, m) && AllTurn(r, m, s) && AllTurn(r, m, t)
    requires p in s && p in t && q in s && q in t && p != q
    ensures AllTurn(r, m, s + t)
  {
    forall x | x in s + t && x != p && x != q ensures Turns(r, m, p, x, q) {
      assert Apart(p, x, q);
    }
    StarAllTurn(r, m, s + t, p, q);
  }

  // ---------- putting a line in order ----------

  predicate Distinct(a: Line) {
    forall i, j :: 0 <= i < j < |a| ==> a[i] != a[j]
  }

  ghost predicate SameValues(a: Line, b: Line) {
    forall v :: v in a <==> v in b
  }

  predicate AgreeFrom(a: Line, b: Line, p: nat) {
    |a| == |b| && forall i :: p <= i < |a| ==> a[i] == b[i]
  }

  lemma CycledKeeps(a: Line, i: nat, j: nat, k: nat)
    requires i < |a| && j < |a| && k < |a| && Apart(i, j, k) && Distinct(a)
    ensures Distinct(Cycled(a, i, j, k)) && SameValues(Cycled(a, i, j, k), a)
  {
    var b := Cycled(a, i, j, k);
    assert b[i] == a[k] && b[j] == a[i] && b[k] == a[j];
    forall v ensures v in b <==> v in a {
      if v in a {
        var x :| 0 <= x < |a| && a[x] == v;
        var y := if x == i then j else if x == j then k else if x == k then i else x;
        assert b[y] == v;
      }
    }
  }

  /** Place by place from the back, the right value is brought in. */
  lemma {:induction false} PutInOrder(r: Relation, m: nat, a: Line, goal: Line, p: nat) returns (b: Line)
    requires Reversible(r, m) && AllTurn(r, m, Places(0, m))
    requires r(a, a) && Distinct(a) && Distinct(goal) && SameValues(a, goal)
    requires 2 <= p <= m && |goal| == m && AgreeFrom(a, goal, p)
    ensures r(a, b) && Distinct(b) && SameValues(b, goal) && AgreeFrom(b, goal, 2)
    decreases p
  {
    if p == 2 {
      b := a;
    } else {
      var last := p - 1;
      var q := WhereIs(a, goal, last);
      var next := a;
      if q != last {
        var s := if q != 0 then 0 else 1;
        InPlaces(0, m);
        assert Apart(q, last, s) && Turns(r, m, q, last, s);
        next := Cycled(a, q, last, s);
        CycledKeeps(a, q, last, s);
        TwoSteps(r, m, a, next);
        assert next[last] == goal[last];
      }
      b := PutInOrder(r, m, next, goal, last);
    }
  }

  /** The value wanted at place `last` is not behind it. */
  lemma WhereIs(a: Line, goal: Line, last: nat) returns (q: nat)
    requires Distinct(goal) && SameValues(a, goal) && last < |goal| && AgreeFrom(a, goal, last + 1)
    ensures q <= last && a[q] == goal[last]
  {
    assert goal[last] in a;
    q :| q < |a| && a[q] == goal[last];
  }

  /** The line with its first two values exchanged. */
  function Crossed(a: Line): Line
    requires |a| >= 2
  {
    a[0 := a[1]][1 := a[0]]
  }

  lemma FirstTwo(b: Line, goal: Line)
    requires |b| == |goal| >= 2 && Distinct(b) && Distinct(goal) && SameValues(b, goal) && AgreeFrom(b, goal, 2)
    ensures b == goal || b == Crossed(goal)
  {
    var x := WhereElse(b, goal, 0);
    var y := WhereElse(b, goal, 1);
    assert goal[0] != goal[1];
    if x == 0 {
      assert b == goal;
    } else {
      assert b == Crossed(goal);
    }
  }

  lemma WhereElse(b: Line, goal: Line, i: nat) returns (x: nat)
    requires |b| == |goal| >= 2 && Distinct(goal) && SameValues(b, goal) && AgreeFrom(b, goal, 2) && i < 2
    ensures x < 2 && b[x] == goal[i]
  {
    assert goal[i] in b;
    x :| x < |b| && b[x] == goal[i];
  }

  /** If all places can be turned, every line can be put in order, up to its first two values. */
  lemma InOrderUpToTwo(r: Relation, m: nat, a: Line, goal: Line)
    requires Reversible(r, m) && AllTurn(r, m, Places(0, m)) && m >= 2
    requires r(a, a) && Distinct(a) && Distinct(goal) && SameValues(a, goal) && |goal| == m
    ensures r(a, goal) || r(a, Crossed(goal))
  {
    assert AgreeFrom(a, goal, m);
    var b := PutInOrder(r, m, a, goal, m);
    FirstTwo(b, goal);
  }
}
