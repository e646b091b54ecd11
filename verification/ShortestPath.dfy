/** The array-based Dijkstra search of the Bonk Air router, over any graph whose vertices have
    eight possible moves.  `BonkRouter` instantiates it with the grid. */
module ShortestPath {
  import opened Common

  const UNREACHED := 1000000000.0   // the initial distance, which no path may reach
  const MOVES := 8
  const DIAGONAL := 1.414

  /** The cost of move `k`: the first four are straight, the others diagonal. */
  function Weight(k: nat): real {
    if k < 4 then 1.0 else DIAGONAL
  }

  /** `next(u, k)` is where move `k` leads from `u`, if it is allowed; `cost` is the cost of a link. */
  datatype Graph = Graph(size: nat, next: (nat, nat) -> Option<nat>, ghost cost: (nat, nat) -> real)

  ghost predicate GraphOk(g: Graph) {
    && DIAGONAL * g.size as real < UNREACHED
    && forall u: nat, k: nat :: u < g.size && k < MOVES && g.next(u, k).Some? ==>
         g.next(u, k).value < g.size && g.cost(u, g.next(u, k).value) == Weight(k)
  }

  ghost predicate Linked(g: Graph, u: nat, v: nat) {
    exists k: nat :: k < MOVES && g.next(u, k) == Some(v)
  }

  ghost predicate LinkAt(g: Graph, q: seq<nat>, i: nat)
    requires 0 < i < |q|
  {
    q[i - 1] < g.size && q[i] < g.size && Linked(g, q[i - 1], q[i])
  }

  ghost predicate IsPath(g: Graph, q: seq<nat>, from: nat, to: nat) {
    && |q| > 0 && q[0] == from && q[|q| - 1] == to && from < g.size
    && forall i :: 0 < i < |q| ==> LinkAt(g, q, i)
  }

  /** The cost of the first `k` links. */
  ghost function CostUpTo(g: Graph, q: seq<nat>, k: nat): real
    requires k < |q|
  {
    if k == 0 then 0.0 else CostUpTo(g, q, k - 1) + g.cost(q[k - 1], q[k])
  }

  ghost function PathCost(g: Graph, q: seq<nat>): real
    requires |q| > 0
  {
    CostUpTo(g, q, |q| - 1)
  }

  // ---------- the search invariant ----------

  /** The tables of the search: distances, predecessors and visited flags. */
  datatype Tables = Tables(d: seq<real>, p: seq<int>, v: seq<bool>)

  ghost predicate Shaped(g: Graph, from: nat, t: Tables) {
    && |t.d| == |t.p| == |t.v| == g.size
    && from < g.size && t.d[from] == 0.0 && t.p[from] == -1
  }

  /** A recorded distance below the sentinel is that of a path through the predecessor, which is
      visited; `n` bounds the number of links. */
  ghost predicate TreeAt(g: Graph, from: nat, t: Tables, n: nat, i: nat)
    requires Shaped(g, from, t) && i < g.size
  {
    && 0.0 <= t.d[i] <= UNREACHED
    && (t.v[i] ==> t.d[i] < UNREACHED)
    && (t.d[i] < UNREACHED ==>
          && t.d[i] <= DIAGONAL * n as real
          && (i != from ==> && 0 <= t.p[i] < g.size && t.v[t.p[i]]
                            && Linked(g, t.p[i], i) && t.d[i] == t.d[t.p[i]] + g.cost(t.p[i], i)))
  }

  /** Move `k` from `u` has been offered to the distance table. */
  ghost predicate Offered(g: Graph, t: Tables, u: nat, k: nat)
    requires |t.d| == g.size && u < g.size
  {
    g.next(u, k).Some? ==> g.next(u, k).value < g.size && t.d[g.next(u, k).value] <= t.d[u] + Weight(k)
  }

  ghost predicate ClosedAt(g: Graph, t: Tables, u: nat, moves: nat)
    requires |t.d| == g.size && u < g.size
  {
    forall k: nat :: k < moves ==> Offered(g, t, u, k)
  }

  /** Visited vertices are no further than `limit`, unvisited ones no nearer. */
  ghost predicate Split(g: Graph, from: nat, t: Tables, limit: real)
    requires Shaped(g, from, t)
  {
    forall i: nat :: i < g.size ==> if t.v[i] then t.d[i] <= limit else limit <= t.d[i]
  }

  ghost predicate Inv(g: Graph, from: nat, t: Tables, n: nat, limit: real) {
    && GraphOk(g) && Shaped(g, from, t)
    && Split(g, from, t, limit)
    && forall i: nat :: i < g.size ==> TreeAt(g, from, t, n, i)
  }

  ghost predicate AllClosed(g: Graph, from: nat, t: Tables, except: int)
    requires Shaped(g, from, t)
  {
    forall u: nat :: u < g.size && t.v[u] && u != except ==> ClosedAt(g, t, u, MOVES)
  }

  // ---------- the steps of the search ----------

  /** The unvisited vertex of least distance below the sentinel, or -1. */
  method SelectNearest(D: array<real>, V: array<bool>) returns (u: int)
    requires D.Length == V.Length
    ensures -1 <= u < D.Length
    ensures u == -1 ==> forall i :: 0 <= i < D.Length && !V[i] ==> D[i] >= UNREACHED
    ensures u != -1 ==> !V[u] && D[u] < UNREACHED && forall i :: 0 <= i < D.Length && !V[i] ==> D[u] <= D[i]
  {
    u := -1;
    var best := UNREACHED;
    for i := 0 to D.Length
      invariant -1 <= u < i
      invariant u == -1 ==> best == UNREACHED
      invariant u != -1 ==> !V[u] && D[u] == best < UNREACHED
      invariant forall j :: 0 <= j < i && !V[j] ==> best <= D[j]
    {
      if !V[i] && D[i] < best {
        best := D[i];
        u := i;
      }
    }
  }

  /** Marking the nearest unvisited vertex as visited. */
  lemma Visit(g: Graph, from: nat, t: Tables, n: nat, limit: real, u: nat)
    requires Inv(g, from, t, n, limit) && AllClosed(g, from, t, -1)
    requires u < g.size && !t.v[u] && t.d[u] < UNREACHED
    requires forall i: nat :: i < g.size && !t.v[i] ==> t.d[u] <= t.d[i]
    ensures Inv(g, from, t.(v := t.v[u := true]), n, t.d[u])
    ensures AllClosed(g, from, t.(v := t.v[u := true]), u)
  {
    var s := t.(v := t.v[u := true]);
    forall i: nat | i < g.size ensures TreeAt(g, from, s, n, i) {
      assert TreeAt(g, from, t, n, i);
    }
    forall i: nat | i < g.size && s.v[i] && i != u ensures ClosedAt(g, s, i, MOVES) {
      assert ClosedAt(g, t, i, MOVES);
      forall k: nat | k < MOVES ensures Offered(g, s, i, k) {
        assert Offered(g, t, i, k);
      }
    }
  }

  ghost function Relaxed(g: Graph, t: Tables, u: nat, k: nat): Tables
    requires u < g.size && |t.d| == |t.p| == g.size
    requires g.next(u, k).Some? ==> g.next(u, k).value < g.size
  {
    match g.next(u, k)
    case None => t
    case Some(x) =>
      if t.d[u] + Weight(k) < t.d[x] then t.(d := t.d[x := t.d[u] + Weight(k)], p := t.p[x := u]) else t
  }

  /** Relaxing one move of the vertex just visited never touches a visited vertex, and keeps the rest. */
  lemma RelaxOne(g: Graph, from: nat, t: Tables, n: nat, u: nat, k: nat)
    requires u < |t.d| && k < MOVES && Inv(g, from, t, n + 1, t.d[u])
    requires t.v[u] && t.d[u] <= DIAGONAL * n as real
    requires AllClosed(g, from, t, u) && ClosedAt(g, t, u, k)
    ensures g.next(u, k).Some? ==> g.next(u, k).value < g.size
    ensures var s := Relaxed(g, t, u, k);
            s.v == t.v && Inv(g, from, s, n + 1, s.d[u]) && s.d[u] == t.d[u]
            && AllClosed(g, from, s, u) && ClosedAt(g, s, u, k + 1)
  {
    var s := Relaxed(g, t, u, k);
    assert TreeAt(g, from, t, n + 1, u);
    if s != t {
      var x := g.next(u, k).value;
      assert Linked(g, u, x);
      assert !t.v[x] && x != u && x != from;
      RelaxTree(g, from, t, n, u, k, x);
      RelaxClosed(g, from, t, u, k, x);
    } else {
      assert Offered(g, t, u, k);
    }
  }

  lemma RelaxTree(g: Graph, from: nat, t: Tables, n: nat, u: nat, k: nat, x: nat)
    requires u < |t.d| && k < MOVES && Inv(g, from, t, n + 1, t.d[u])
    requires t.v[u] && 0.0 <= t.d[u] <= DIAGONAL * n as real
    requires x < g.size && g.next(u, k) == Some(x) && Linked(g, u, x)
    requires !t.v[x] && x != u && x != from && t.d[u] + Weight(k) < t.d[x]
    ensures Inv(g, from, t.(d := t.d[x := t.d[u] + Weight(k)], p := t.p[x := u]), n + 1, t.d[u])
  {
    var s := t.(d := t.d[x := t.d[u] + Weight(k)], p := t.p[x := u]);
    assert DIAGONAL * (n + 1) as real == DIAGONAL * n as real + DIAGONAL;
    var m := n + 1;
    forall i: nat | i < g.size ensures TreeAt(g, from, s, m, i) {
      assert TreeAt(g, from, t, m, i);
    }
  }

  lemma RelaxClosed(g: Graph, from: nat, t: Tables, u: nat, k: nat, x: nat)
    requires GraphOk(g) && Shaped(g, from, t) && u < g.size && k < MOVES && t.v[u]
    requires AllClosed(g, from, t, u) && ClosedAt(g, t, u, k)
    requires x < g.size && g.next(u, k) == Some(x) && !t.v[x] && x != from && t.d[u] + Weight(k) < t.d[x]
    ensures var s := t.(d := t.d[x := t.d[u] + Weight(k)], p := t.p[x := u]);
            Shaped(g, from, s) && AllClosed(g, from, s, u) && ClosedAt(g, s, u, k + 1)
  {
    var s := t.(d := t.d[x := t.d[u] + Weight(k)], p := t.p[x := u]);
    forall i: nat | i < g.size && s.v[i] && i != u ensures ClosedAt(g, s, i, MOVES) {
      assert ClosedAt(g, t, i, MOVES);
      forall j: nat | j < MOVES ensures Offered(g, s, i, j) {
        assert Offered(g, t, i, j);
      }
    }
    forall j: nat | j < k + 1 ensures Offered(g, s, u, j) {
      if j < k { assert Offered(g, t, u, j); }
    }
  }

  /** Offers every move of the vertex just visited to the tables. */
  method RelaxMoves(g: Graph, ghost from: nat, D: array<real>, P: array<int>, ghost v: seq<bool>, ghost n: nat, u: nat)
    requires D.Length == P.Length == g.size && u < g.size && |v| == g.size && v[u]
    requires D[u] <= DIAGONAL * n as real
    requires Inv(g, from, Tables(D[..], P[..], v), n + 1, D[u])
    requires AllClosed(g, from, Tables(D[..], P[..], v), u)
    modifies D, P
    ensures Inv(g, from, Tables(D[..], P[..], v), n + 1, D[u])
    ensures AllClosed(g, from, Tables(D[..], P[..], v), -1)
  {
    for k := 0 to MOVES
      invariant D[u] == old(D[u])
      invariant Inv(g, from, Tables(D[..], P[..], v), n + 1, D[u])
      invariant AllClosed(g, from, Tables(D[..], P[..], v), u)
      invariant ClosedAt(g, Tables(D[..], P[..], v), u, k)
    {
      ghost var t := Tables(D[..], P[..], v);
      RelaxOne(g, from, t, n, u, k);
      match g.next(u, k) {
        case None =>
        case Some(x) =>
          if D[u] + Weight(k) < D[x] {
            P[x] := u;
            D[x] := D[u] + Weight(k);
          }
      }
      assert Tables(D[..], P[..], v) == Relaxed(g, t, u, k);
    }
  }

  /** Marks the nearest unvisited vertex and offers its moves. */
  method VisitNearest(g: Graph, ghost from: nat, D: array<real>, P: array<int>, V: array<bool>,
                      ghost n: nat, ghost limit: real, u: nat)
    requires D.Length == P.Length == V.Length == g.size && u < g.size && !V[u] && D[u] < UNREACHED
    requires forall i :: 0 <= i < g.size && !V[i] ==> D[u] <= D[i]
    requires Inv(g, from, Tables(D[..], P[..], V[..]), n, limit)
    requires AllClosed(g, from, Tables(D[..], P[..], V[..]), -1)
    modifies D, P, V
    ensures V[..] == old(V[..])[u := true]
    ensures Inv(g, from, Tables(D[..], P[..], V[..]), n + 1, D[u])
    ensures AllClosed(g, from, Tables(D[..], P[..], V[..]), -1)
  {
    ghost var t := Tables(D[..], P[..], V[..]);
    assert TreeAt(g, from, t, n, u);
    Visit(g, from, t, n, limit, u);
    InvWeaken(g, from, t.(v := t.v[u := true]), n, D[u]);
    V[u] := true;
    assert V[..] == t.v[u := true];
    RelaxMoves(g, from, D, P, V[..], n, u);
  }

  lemma InvWeaken(g: Graph, from: nat, t: Tables, n: nat, limit: real)
    requires Inv(g, from, t, n, limit)
    ensures Inv(g, from, t, n + 1, limit)
  {
    var m := n + 1;
    assert DIAGONAL * m as real == DIAGONAL * n as real + DIAGONAL;
    forall i: nat | i < g.size ensures TreeAt(g, from, t, m, i) {
      assert TreeAt(g, from, t, n, i);
    }
  }

  // ---------- reading the route back ----------

  lemma LinkCost(g: Graph, u: nat, v: nat)
    requires GraphOk(g) && u < g.size && Linked(g, u, v)
    ensures v < g.size && 1.0 <= g.cost(u, v) <= DIAGONAL
  {
    var k: nat :| k < MOVES && g.next(u, k) == Some(v);
  }

  ghost predicate Tree(g: Graph, from: nat, t: Tables, n: nat) {
    GraphOk(g) && Shaped(g, from, t) && forall j: nat :: j < g.size ==> TreeAt(g, from, t, n, j)
  }

  /** The path the predecessors record. */
  ghost function Chain(g: Graph, from: nat, t: Tables, n: nat, i: nat): (q: seq<nat>)
    requires Tree(g, from, t, n) && i < g.size && t.d[i] < UNREACHED
    decreases t.d[i]
  {
    if i == from then [i] else
      assert TreeAt(g, from, t, n, i);
      LinkCost(g, t.p[i], i);
      assert TreeAt(g, from, t, n, t.p[i]);
      Chain(g, from, t, n, t.p[i]) + [i]
  }

  lemma CostOfPrefix(g: Graph, q: seq<nat>, x: nat, k: nat)
    requires k < |q|
    ensures CostUpTo(g, q + [x], k) == CostUpTo(g, q, k)
  {
    if k > 0 { CostOfPrefix(g, q, x, k - 1); }
  }

  /** It is a path from the start whose cost is the recorded distance. */
  lemma {:induction false} ChainIsPath(g: Graph, from: nat, t: Tables, n: nat, i: nat)
    requires Tree(g, from, t, n) && i < g.size && t.d[i] < UNREACHED
    ensures IsPath(g, Chain(g, from, t, n, i), from, i)
    ensures PathCost(g, Chain(g, from, t, n, i)) == t.d[i]
    decreases t.d[i]
  {
    if i != from {
      assert TreeAt(g, from, t, n, i);
      LinkCost(g, t.p[i], i);
      assert TreeAt(g, from, t, n, t.p[i]);
      ChainIsPath(g, from, t, n, t.p[i]);
      var q := Chain(g, from, t, n, t.p[i]);
      CostOfPrefix(g, q, i, |q| - 1);
      forall j | 0 < j < |q + [i]| ensures LinkAt(g, q + [i], j) {
        if j < |q| { assert LinkAt(g, q, j); }
      }
    }
  }

  /** Follows the predecessors back from `to` and reverses what it collected. */
  method ReadBack(g: Graph, from: nat, to: nat, P: array<int>, ghost t: Tables, ghost n: nat) returns (q: seq<nat>)
    requires P.Length == g.size && P[..] == t.p && Tree(g, from, t, n)
    requires to < g.size && t.d[to] < UNREACHED
    ensures q == Chain(g, from, t, n, to)
  {
    var cells: seq<nat> := [];
    var cur: int := to;
    while cur != -1
      invariant -1 <= cur < g.size
      invariant cur != -1 ==> t.d[cur] < UNREACHED
      invariant cur != -1 ==> Chain(g, from, t, n, cur) + Backwards(cells) == Chain(g, from, t, n, to)
      invariant cur == -1 ==> Backwards(cells) == Chain(g, from, t, n, to)
      decreases cur != -1, if cur != -1 then t.d[cur] else 0.0
    {
      assert TreeAt(g, from, t, n, cur);
      assert Backwards(cells + [cur]) == [cur] + Backwards(cells);
      if cur != from {
        LinkCost(g, t.p[cur], cur);
        assert TreeAt(g, from, t, n, t.p[cur]);
      }
      cells := cells + [cur];
      cur := P[cur];
    }
    return Backwards(cells);
  }

  // ---------- optimality and completeness ----------

  /** Every path from the start to an unvisited vertex has a first unvisited vertex, and the table
      knows that vertex to be no further than the path up to it. */
  lemma {:induction false} FirstUnvisited(g: Graph, from: nat, t: Tables, n: nat, q: seq<nat>, to: nat, i: nat)
    returns (j: nat)
    requires Tree(g, from, t, n) && AllClosed(g, from, t, -1)
    requires IsPath(g, q, from, to) && to < g.size && !t.v[to]
    requires i < |q| && q[i] < g.size && t.d[q[i]] <= CostUpTo(g, q, i)
    requires i == 0 || t.d[q[i]] <= DIAGONAL * (n + 1) as real
    ensures i <= j < |q| && q[j] < g.size && !t.v[q[j]] && t.d[q[j]] <= CostUpTo(g, q, j)
    ensures t.d[q[j]] <= DIAGONAL * (n + 1) as real
    decreases |q| - i
  {
    j := i;
    if t.v[q[i]] {
      assert LinkAt(g, q, i + 1);
      var u, x := q[i], q[i + 1];
      var k: nat :| k < MOVES && g.next(u, k) == Some(x);
      assert ClosedAt(g, t, u, MOVES) && Offered(g, t, u, k);
      assert TreeAt(g, from, t, n, u);
      assert DIAGONAL * (n + 1) as real == DIAGONAL * n as real + DIAGONAL;
      j := FirstUnvisited(g, from, t, n, q, to, i + 1);
    } else if i == 0 {
      assert 0.0 <= DIAGONAL * (n + 1) as real;
    }
  }

  lemma {:induction false} CostGrows(g: Graph, q: seq<nat>, from: nat, to: nat, i: nat, j: nat)
    requires GraphOk(g) && IsPath(g, q, from, to) && i <= j < |q|
    ensures CostUpTo(g, q, i) <= CostUpTo(g, q, j)
  {
    if i < j {
      CostGrows(g, q, from, to, i, j - 1);
      assert LinkAt(g, q, j);
      LinkCost(g, q[j - 1], q[j]);
    }
  }

  /** When the target is the nearest unvisited vertex, no path is cheaper than its distance. */
  lemma TargetIsNearest(g: Graph, from: nat, t: Tables, n: nat, to: nat, q: seq<nat>)
    requires Tree(g, from, t, n) && AllClosed(g, from, t, -1)
    requires to < g.size && !t.v[to] && (forall i: nat :: i < g.size && !t.v[i] ==> t.d[to] <= t.d[i])
    requires IsPath(g, q, from, to)
    ensures t.d[to] <= PathCost(g, q)
  {
    var j := FirstUnvisited(g, from, t, n, q, to, 0);
    CostGrows(g, q, from, to, j, |q| - 1);
  }

  /** When no unvisited vertex is reached, there is no path to the target. */
  lemma NothingReached(g: Graph, from: nat, t: Tables, n: nat, to: nat, q: seq<nat>)
    requires Tree(g, from, t, n) && AllClosed(g, from, t, -1) && n < g.size
    requires to < g.size && !t.v[to] && (forall i: nat :: i < g.size && !t.v[i] ==> t.d[i] >= UNREACHED)
    ensures !IsPath(g, q, from, to)
  {
    assert DIAGONAL * (n + 1) as real <= DIAGONAL * g.size as real;
    if IsPath(g, q, from, to) {
      var j := FirstUnvisited(g, from, t, n, q, to, 0);
    }
  }

  // ---------- the search ----------

  ghost function CountTrue(v: seq<bool>, k: nat): nat
    requires k <= |v|
  {
    if k == 0 then 0 else CountTrue(v, k - 1) + if v[k - 1] then 1 else 0
  }

  lemma {:induction false} CountAfterSet(v: seq<bool>, u: nat, k: nat)
    requires u < |v| && !v[u] && k <= |v|
    ensures CountTrue(v[u := true], k) == CountTrue(v, k) + if u < k then 1 else 0
  {
    if k > 0 { CountAfterSet(v, u, k - 1); }
  }

  lemma {:induction false} CountBelow(v: seq<bool>, x: nat, k: nat)
    requires x < |v| && !v[x] && k <= |v|
    ensures CountTrue(v, k) <= if x < k then k - 1 else k
  {
    if k > 0 { CountBelow(v, x, k - 1); }
  }

  lemma {:induction false} CountNone(v: seq<bool>, k: nat)
    requires k <= |v| && forall i :: 0 <= i < |v| ==> !v[i]
    ensures CountTrue(v, k) == 0
  {
    if k > 0 { CountNone(v, k - 1); }
  }

  /** The outcome of the search: a cheapest path and its cost, or None exactly when there is no path. */
  ghost predicate Shortest(g: Graph, from: nat, to: nat, r: Option<(seq<nat>, real)>) {
    match r
    case None => forall q :: !IsPath(g, q, from, to)
    case Some(found) =>
      && IsPath(g, found.0, from, to)
      && PathCost(g, found.0) == found.1
      && forall q :: IsPath(g, q, from, to) ==> found.1 <= PathCost(g, q)
  }

  /** Runs until the target is the nearest unvisited vertex or nothing unvisited is reached. */
  method Explore(g: Graph, from: nat, to: nat, D: array<real>, P: array<int>, V: array<bool>)
    returns (reached: bool, ghost n: nat)
    requires GraphOk(g) && from < g.size && to < g.size
    requires D.Length == P.Length == V.Length == g.size
    requires forall i :: 0 <= i < g.size ==> D[i] == (if i == from then 0.0 else UNREACHED) && P[i] == -1 && !V[i]
    modifies D, P, V
    ensures n < g.size && Tree(g, from, Tables(D[..], P[..], V[..]), n)
    ensures AllClosed(g, from, Tables(D[..], P[..], V[..]), -1) && !V[to]
    ensures reached <==> D[to] < UNREACHED
    ensures forall i :: 0 <= i < g.size && !V[i] ==> if reached then D[to] <= D[i] else D[i] >= UNREACHED
  {
    ghost var limit := 0.0;
    var count, stop := 0, false;
    reached := false;
    CountNone(V[..], g.size);
    while count < g.size && !stop
      invariant Inv(g, from, Tables(D[..], P[..], V[..]), count, limit)
      invariant AllClosed(g, from, Tables(D[..], P[..], V[..]), -1)
      invariant !V[to] && count == CountTrue(V[..], g.size)
      invariant stop ==> (reached <==> D[to] < UNREACHED)
      invariant stop ==> forall i :: 0 <= i < g.size && !V[i] ==> if reached then D[to] <= D[i] else D[i] >= UNREACHED
      decreases g.size - count, !stop
    {
      var u := SelectNearest(D, V);
      if u < 0 || u == to {
        stop, reached := true, u == to;
      } else {
        CountAfterSet(V[..], u, g.size);
        VisitNearest(g, from, D, P, V, count, limit, u);
        limit := D[u];
        count := count + 1;
      }
    }
    CountBelow(V[..], to, g.size);
    n := count;
  }

  method Search(g: Graph, from: nat, to: nat) returns (r: Option<(seq<nat>, real)>)
    requires GraphOk(g) && from < g.size && to < g.size
    ensures Shortest(g, from, to, r)
  {
    var D := new real[g.size](_ => UNREACHED);
    var P := new int[g.size](_ => -1);
    var V := new bool[g.size](_ => false);
    D[from] := 0.0;
    var reached, n := Explore(g, from, to, D, P, V);
    ghost var t := Tables(D[..], P[..], V[..]);
    if !reached {
      forall q ensures !IsPath(g, q, from, to) {
        NothingReached(g, from, t, n, to, q);
      }
      return None;
    }
    forall q | IsPath(g, q, from, to) ensures D[to] <= PathCost(g, q) {
      TargetIsNearest(g, from, t, n, to, q);
    }
    ChainIsPath(g, from, t, n, to);
    var q := ReadBack(g, from, to, P, t, n);
    return Some((q, D[to]));
  }
}
