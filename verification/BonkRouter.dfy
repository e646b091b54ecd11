/** The reference router of Bonk Air: eight directions, no corner cutting, cheapest route. */
module BonkRouter {
  import opened Common
  import opened BonkWorld
  import opened ShortestPath

  function MoveX(k: nat): int {
    if k == 0 || k == 4 || k == 5 then 1 else if k == 1 || k == 6 || k == 7 then -1 else 0
  }

  function MoveY(k: nat): int {
    if k == 2 || k == 4 || k == 6 then 1 else if k == 3 || k == 5 || k == 7 then -1 else 0
  }

  predicate KingStep(a: Cell, b: Cell) {
    a != b && -1 <= b.x - a.x <= 1 && -1 <= b.y - a.y <= 1
  }

  predicate IsDiagonal(a: Cell, b: Cell) {
    a.x != b.x && a.y != b.y
  }

  /** A step to a free neighbouring cell; a diagonal one may not cut a corner. */
  ghost predicate StepAllowed(w: World, a: Cell, b: Cell)
    requires |w.blocked| == Size(w)
  {
    && KingStep(a, b)
    && Free(w, b)
    && (IsDiagonal(a, b) ==> Free(w, Cell(b.x, a.y)) && Free(w, Cell(a.x, b.y)))
  }

  function StepCost(a: Cell, b: Cell): real {
    if IsDiagonal(a, b) then DIAGONAL else 1.0
  }

  ghost predicate RouteStep(w: World, r: seq<Cell>, i: nat)
    requires |w.blocked| == Size(w) && 0 < i < |r|
  {
    StepAllowed(w, r[i - 1], r[i])
  }

  /** A route over free cells by eight-direction steps that cut no corner. */
  ghost predicate IsRoute(w: World, r: seq<Cell>, from: Cell, to: Cell)
    requires |w.blocked| == Size(w)
  {
    && |r| > 0 && r[0] == from && r[|r| - 1] == to && Free(w, from)
    && forall i :: 0 < i < |r| ==> RouteStep(w, r, i)
  }

  ghost function RouteCost(r: seq<Cell>, k: nat): real
    requires k < |r|
  {
    if k == 0 then 0.0 else RouteCost(r, k - 1) + StepCost(r[k - 1], r[k])
  }

  // ---------- the grid as a graph ----------

  /** A cell of the grid blocked by a no-fly zone or a storm. */
  predicate Blocked(w: World, weather: set<nat>, c: Cell)
    requires InGrid(w, c) && |w.blocked| == Size(w)
  {
    Index(w, c) >= Size(w) || w.blocked[Index(w, c)] || Index(w, c) in weather
  }

  /** Where move `k` leads from vertex `u`: nowhere off the grid, into a blocked cell or around a
      blocked corner. */
  function Neighbour(w: World, weather: set<nat>, u: nat, k: nat): Option<nat>
    requires w.cols > 0 && |w.blocked| == Size(w)
  {
    var a := CellOf(w, u);
    var b := Cell(a.x + MoveX(k), a.y + MoveY(k));
    if !InGrid(w, b) || !InGrid(w, a) then None
    else if Blocked(w, weather, b) then None
    else if IsDiagonal(a, b) && (Blocked(w, weather, Cell(b.x, a.y)) || Blocked(w, weather, Cell(a.x, b.y))) then None
    else Some(Index(w, b))
  }

  ghost predicate WeatherOf(w: World, weather: set<nat>) {
    forall c :: InGrid(w, c) ==> (Index(w, c) in weather <==> Stormy(w, c))
  }

  lemma BlockedIsNotFree(w: World, weather: set<nat>, c: Cell)
    requires GridOk(w) && WeatherOf(w, weather) && InGrid(w, c)
    ensures Blocked(w, weather, c) <==> !Free(w, c)
  {
    IndexInverse(w, c);
  }

  lemma MoveIsStep(w: World, weather: set<nat>, u: nat, k: nat)
    requires GridOk(w) && WeatherOf(w, weather) && u < Size(w) && k < MOVES
    requires Neighbour(w, weather, u, k).Some?
    ensures var v := Neighbour(w, weather, u, k).value;
            v < Size(w) && StepAllowed(w, CellOf(w, u), CellOf(w, v))
            && StepCost(CellOf(w, u), CellOf(w, v)) == Weight(k)
  {
    var a := CellOf(w, u);
    var b := Cell(a.x + MoveX(k), a.y + MoveY(k));
    CellInverse(w, u);
    IndexInverse(w, b);
    BlockedIsNotFree(w, weather, b);
    BlockedIsNotFree(w, weather, Cell(b.x, a.y));
    BlockedIsNotFree(w, weather, Cell(a.x, b.y));
  }

  /** The move that makes a king step. */
  function MoveOf(dx: int, dy: int): nat {
    if dx == 1 then if dy == 0 then 0 else if dy == 1 then 4 else 5
    else if dx == -1 then if dy == 0 then 1 else if dy == 1 then 6 else 7
    else if dy == 1 then 2 else 3
  }

  lemma StepIsMove(w: World, weather: set<nat>, a: Cell, b: Cell)
    requires GridOk(w) && WeatherOf(w, weather) && InGrid(w, a) && StepAllowed(w, a, b)
    ensures MoveOf(b.x - a.x, b.y - a.y) < MOVES
    ensures Neighbour(w, weather, Index(w, a), MoveOf(b.x - a.x, b.y - a.y)) == Some(Index(w, b))
  {
    IndexInverse(w, a);
    BlockedIsNotFree(w, weather, b);
    if IsDiagonal(a, b) {
      BlockedIsNotFree(w, weather, Cell(b.x, a.y));
      BlockedIsNotFree(w, weather, Cell(a.x, b.y));
    }
  }

  ghost predicate GridGraph(g: Graph, w: World, weather: set<nat>) {
    && GridOk(w) && WeatherOf(w, weather)
    && g.size == Size(w)
    && (forall u: nat, k: nat :: g.next(u, k) == Neighbour(w, weather, u, k))
    && (forall u: nat, v: nat :: g.cost(u, v) == StepCost(CellOf(w, u), CellOf(w, v)))
  }

  lemma GridGraphOk(g: Graph, w: World, weather: set<nat>)
    requires GridGraph(g, w, weather) && DIAGONAL * g.size as real < UNREACHED
    ensures GraphOk(g)
  {
    forall u: nat, k: nat | u < g.size && k < MOVES && g.next(u, k).Some?
      ensures g.next(u, k).value < g.size && g.cost(u, g.next(u, k).value) == Weight(k)
    {
      MoveIsStep(w, weather, u, k);
    }
  }

  // ---------- paths of the graph are routes of the grid ----------

  function Cells(w: World, q: seq<nat>): seq<Cell>
    requires w.cols > 0
  {
    seq(|q|, i requires 0 <= i < |q| => CellOf(w, q[i]))
  }

  ghost function Indexes(w: World, r: seq<Cell>): seq<nat>
    requires forall i :: 0 <= i < |r| ==> InGrid(w, r[i])
  {
    seq(|r|, i requires 0 <= i < |r| => Index(w, r[i]))
  }

  lemma PathIsRoute(g: Graph, w: World, weather: set<nat>, q: seq<nat>, from: Cell, to: Cell)
    requires GridGraph(g, w, weather) && Free(w, from) && InGrid(w, to)
    requires IsPath(g, q, Index(w, from), Index(w, to))
    ensures IsRoute(w, Cells(w, q), from, to)
    ensures RouteCost(Cells(w, q), |q| - 1) == PathCost(g, q)
  {
    IndexInverse(w, from);
    IndexInverse(w, to);
    forall i | 0 < i < |q| ensures RouteStep(w, Cells(w, q), i) {
      assert LinkAt(g, q, i);
      LinkIsAllowed(g, w, weather, q[i - 1], q[i]);
    }
    PathCostIsRouteCost(g, w, weather, q, |q| - 1);
  }

  lemma LinkIsAllowed(g: Graph, w: World, weather: set<nat>, u: nat, v: nat)
    requires GridGraph(g, w, weather) && u < g.size && Linked(g, u, v)
    ensures StepAllowed(w, CellOf(w, u), CellOf(w, v))
  {
    var k: nat :| k < MOVES && g.next(u, k) == Some(v);
    MoveIsStep(w, weather, u, k);
  }

  lemma {:induction false} PathCostIsRouteCost(g: Graph, w: World, weather: set<nat>, q: seq<nat>, k: nat)
    requires GridGraph(g, w, weather) && k < |q|
    ensures RouteCost(Cells(w, q), k) == CostUpTo(g, q, k)
  {
    if k > 0 {
      PathCostIsRouteCost(g, w, weather, q, k - 1);
    }
  }

  lemma RouteInGrid(w: World, r: seq<Cell>, from: Cell, to: Cell, i: nat)
    requires |w.blocked| == Size(w) && IsRoute(w, r, from, to) && i < |r|
    ensures Free(w, r[i])
  {
    if i > 0 { assert RouteStep(w, r, i); }
  }

  lemma StepIsLink(g: Graph, w: World, weather: set<nat>, a: Cell, b: Cell)
    requires GridGraph(g, w, weather) && InGrid(w, a) && StepAllowed(w, a, b)
    ensures Index(w, a) < g.size && Index(w, b) < g.size && Linked(g, Index(w, a), Index(w, b))
  {
    IndexInverse(w, a);
    IndexInverse(w, b);
    StepIsMove(w, weather, a, b);
    assert g.next(Index(w, a), MoveOf(b.x - a.x, b.y - a.y)) == Some(Index(w, b));
  }

  lemma RouteIsPath(g: Graph, w: World, weather: set<nat>, r: seq<Cell>, from: Cell, to: Cell)
    requires GridGraph(g, w, weather) && IsRoute(w, r, from, to) && InGrid(w, to)
    ensures forall i :: 0 <= i < |r| ==> InGrid(w, r[i])
    ensures IsPath(g, Indexes(w, r), Index(w, from), Index(w, to))
    ensures Cells(w, Indexes(w, r)) == r
  {
    forall i | 0 <= i < |r| ensures InGrid(w, r[i]) {
      RouteInGrid(w, r, from, to, i);
    }
    var q := Indexes(w, r);
    IndexInverse(w, from);
    forall i | 0 < i < |q| ensures LinkAt(g, q, i) {
      assert RouteStep(w, r, i);
      StepIsLink(g, w, weather, r[i - 1], r[i]);
    }
    CellsOfIndexes(w, r);
  }

  lemma CellsOfIndexes(w: World, r: seq<Cell>)
    requires w.cols > 0 && forall i :: 0 <= i < |r| ==> InGrid(w, r[i])
    ensures Cells(w, Indexes(w, r)) == r
  {
    forall i | 0 <= i < |r| ensures Cells(w, Indexes(w, r))[i] == r[i] {
      IndexInverse(w, r[i]);
    }
  }

  // ---------- the router ----------

  datatype RouterResult = RouterResult(cells: seq<Cell>, cost: real)

  /** Returns None exactly when there is no route; otherwise a route whose step costs add up to the
      returned cost, and no route is cheaper. */
  method Dijkstra(w: World, from: Cell, to: Cell) returns (r: Option<RouterResult>)
    requires GridOk(w) && InGrid(w, from) && InGrid(w, to) && DIAGONAL * Size(w) as real < UNREACHED
    ensures r.None? ==> forall route :: !IsRoute(w, route, from, to)
    ensures r.Some? ==> IsRoute(w, r.value.cells, from, to)
    ensures r.Some? ==> RouteCost(r.value.cells, |r.value.cells| - 1) == r.value.cost
    ensures r.Some? ==> forall route :: IsRoute(w, route, from, to) ==> r.value.cost <= RouteCost(route, |route| - 1)
  {
    var weather := WeatherIndexSet(w);
    BlockedIsNotFree(w, weather, from);
    BlockedIsNotFree(w, weather, to);
    if Blocked(w, weather, from) || Blocked(w, weather, to) {
      forall route ensures !IsRoute(w, route, from, to) {
        if IsRoute(w, route, from, to) { RouteInGrid(w, route, from, to, |route| - 1); }
      }
      return None;
    }
    IndexInverse(w, from);
    IndexInverse(w, to);
    var g := GraphOfGrid(w, weather);
    GridGraphOk(g, w, weather);
    var found := Search(g, Index(w, from), Index(w, to));
    ShortestIsCheapest(g, w, weather, from, to, found);
    match found {
      case None => return None;
      case Some(path) => return Some(RouterResult(Cells(w, path.0), path.1));
    }
  }

  function GraphOfGrid(w: World, weather: set<nat>): (g: Graph)
    requires GridOk(w) && WeatherOf(w, weather)
    ensures GridGraph(g, w, weather)
  {
    Graph(Size(w),
          (u: nat, k: nat) => Neighbour(w, weather, u, k),
          (u: nat, v: nat) => StepCost(CellOf(w, u), CellOf(w, v)))
  }

  /** What a cheapest path of the graph says about the routes of the grid. */
  lemma ShortestIsCheapest(g: Graph, w: World, weather: set<nat>, from: Cell, to: Cell, found: Option<(seq<nat>, real)>)
    requires GridGraph(g, w, weather) && Free(w, from) && InGrid(w, to)
    requires Shortest(g, Index(w, from), Index(w, to), found)
    ensures found.None? ==> forall route :: !IsRoute(w, route, from, to)
    ensures found.Some? ==> IsRoute(w, Cells(w, found.value.0), from, to)
    ensures found.Some? ==> RouteCost(Cells(w, found.value.0), |found.value.0| - 1) == found.value.1
    ensures found.Some? ==> forall route :: IsRoute(w, route, from, to) ==>
              found.value.1 <= RouteCost(route, |route| - 1)
  {
    if found.Some? {
      PathIsRoute(g, w, weather, found.value.0, from, to);
    }
    forall route | IsRoute(w, route, from, to)
      ensures found.Some? && found.value.1 <= RouteCost(route, |route| - 1)
    {
      NoRouteIsCheaper(g, w, weather, from, to, found, route);
    }
  }

  lemma NoRouteIsCheaper(g: Graph, w: World, weather: set<nat>, from: Cell, to: Cell,
                         found: Option<(seq<nat>, real)>, route: seq<Cell>)
    requires GridGraph(g, w, weather) && Free(w, from) && InGrid(w, to)
    requires Shortest(g, Index(w, from), Index(w, to), found) && IsRoute(w, route, from, to)
    ensures found.Some? && found.value.1 <= RouteCost(route, |route| - 1)
  {
    RouteIsPath(g, w, weather, route, from, to);
    PathCostIsRouteCost(g, w, weather, Indexes(w, route), |route| - 1);
  }
}
