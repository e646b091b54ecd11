/** A plane that flies a route of the router is never intercepted or bonked by a storm, in any run. */
module BonkSafety {
  import opened BonkWorld
  import opened BonkRouter
  import opened BonkFlight
  import opened BonkSimModel
  import opened BonkScore
  import opened BonkRun
  import opened BonkSeparation

  /** The plane's points are those of cells that are safe from place `k` to place `n - 1`; it lifts off
      no earlier than place `k`, and lands by place `n - 1` unless that is the last one. */
  ghost predicate SafeRoute(c: Setup, p: SimPlane, cells: seq<Cell>, k: nat, n: nat) {
    && GridOk(c.w) && WeatherOf(c.w, c.weather)
    && k < n <= |cells| && SafeCells(c.w, cells, k, n)
    && p.pts == Centres(cells) && ArcLengths(c.m, p.pts, p.cums)
    && p.liftS.Some? && 0.0 <= p.cums[k] <= p.liftS.value
    && (n == |cells| || p.landS <= p.cums[n - 1])
  }

  ghost predicate Safe(c: Setup, p: SimPlane) {
    exists cells, k, n :: SafeRoute(c, p, cells, k, n)
  }

  /** A plane under way is where its arc length says. */
  ghost predicate Positioned(p: SimPlane) {
    p.state == Flying ==> p.pos == PointAt(p.pts, p.cums, p.s)
  }

  /** The zone check leaves the plane alone. */
  ghost predicate Unharmed(c: Setup, p: SimPlane) {
    p.state != Flying || Rolling(p) || ZoneOf(c, p.pos) == Clear
  }

  lemma FreeIsClear(c: Setup, p: Vec)
    requires GridOk(c.w) && WeatherOf(c.w, c.weather) && Free(c.w, CellAt(p))
    ensures ZoneOf(c, p) == Clear
  {
  }

  lemma SafeIsUnharmed(c: Setup, p: SimPlane)
    requires Safe(c, p) && Positioned(p)
    ensures Unharmed(c, p)
  {
    var cells, k, n :| SafeRoute(c, p, cells, k, n);
    if p.state == Flying && !Rolling(p) {
      FlightOverFreeCells(c.w, c.m, cells, p.cums, k, n, p.s);
      FreeIsClear(c, p.pos);
    }
  }

  // ---------- one step ----------

  ghost predicate Zoned(ev: seq<SimEvent>, id: nat) {
    ZoneBonk(id, true) in ev || ZoneBonk(id, false) in ev
  }

  lemma {:induction false} FlyFromPositions(lg: Log, j: nat, k: nat, dt: real)
    requires k < |lg.st.planes| && (k < j ==> Positioned(lg.st.planes[k]))
    ensures Positioned(FlyFrom(lg, j, dt).st.planes[k])
    ensures forall id :: Zoned(FlyFrom(lg, j, dt).ev, id) ==> Zoned(lg.ev, id)
    decreases |lg.st.planes| - j
  {
    if j < |lg.st.planes| {
      FlyFromPositions(FlyOne(lg, j, dt), j + 1, k, dt);
    }
  }

  lemma {:induction false} ZoneFromSpares(c: Setup, lg: Log, j: nat, k: nat)
    requires k < |lg.st.planes| && Numbered(lg.st.planes) && Unharmed(c, lg.st.planes[k])
    ensures Zoned(ZoneFrom(c, lg, j).ev, k) ==> Zoned(lg.ev, k)
    decreases |lg.st.planes| - j
  {
    if j < |lg.st.planes| {
      ZoneFromSpares(c, ZoneOne(c, lg, j), j + 1, k);
    }
  }

  lemma {:induction false} PairsFromSpares(c: Setup, lg: Log, air: seq<nat>, i: nat, j: nat, id: nat)
    requires AirOk(lg.st.planes, air)
    ensures Zoned(PairsFrom(c, lg, air, i, j).ev, id) ==> Zoned(lg.ev, id)
    decreases |air| - i, |air| - j
  {
    if i < |air| {
      if j >= |air| {
        PairsFromSpares(c, lg, air, i + 1, i + 2, id);
      } else {
        PairsFromSpares(c, PairOne(c, lg, air[i], air[j]), air, i, j + 1, id);
      }
    }
  }

  lemma {:induction false} StarsFromSpares(c: Setup, lg: Log, air: seq<nat>, i: nat, star: nat, id: nat)
    requires AirOk(lg.st.planes, air)
    ensures Zoned(StarsFrom(c, lg, air, i, star).ev, id) ==> Zoned(lg.ev, id)
    decreases |air| - i, |c.w.stars| - star
  {
    if i < |air| {
      if star >= |c.w.stars| {
        StarsFromSpares(c, lg, air, i + 1, 0, id);
      } else {
        StarsFromSpares(c, StarOne(c, lg, air[i], star), air, i, star + 1, id);
      }
    }
  }

  lemma SafeEvolves(c: Setup, p: SimPlane, q: SimPlane)
    requires Safe(c, p) && Evolves(p, q)
    ensures Safe(c, q)
  {
    var cells, k, n :| SafeRoute(c, p, cells, k, n);
    assert SafeRoute(c, q, cells, k, n);
  }

  /** After flying on, a safe plane is not harmed by the zone check. */
  lemma SafeAfterFlying(c: Setup, start: Log, dt: real, k: nat)
    requires Numbered(start.st.planes) && k < |start.st.planes| && Safe(c, start.st.planes[k])
    ensures Unharmed(c, FlyFrom(start, 0, dt).st.planes[k]) && Numbered(FlyFrom(start, 0, dt).st.planes)
    ensures Zoned(FlyFrom(start, 0, dt).ev, k) ==> Zoned(start.ev, k)
  {
    var mid := FlyFrom(start, 0, dt);
    FlyFromKeeps(PHONE_SCORE, start, 0, dt);
    FlyFromPositions(start, 0, k, dt);
    assert EvolvesAt(start.st.planes, mid.st.planes, k);
    SafeEvolves(c, start.st.planes[k], mid.st.planes[k]);
    SafeIsUnharmed(c, mid.st.planes[k]);
    forall i | 0 <= i < |mid.st.planes| ensures mid.st.planes[i].id == i {
      assert EvolvesAt(start.st.planes, mid.st.planes, i);
    }
  }

  lemma StepSparesSafePlane(c: Setup, st: SimState, dt: real, k: nat)
    requires Numbered(st.planes) && k < |st.planes| && Safe(c, st.planes[k])
    ensures !Zoned(StepLog(c, st, dt).ev, k)
  {
    var start := Log(st.(t := st.t + dt), []);
    var flown := Flown(c, st, dt);
    SafeAfterFlying(c, start, dt, k);
    ZoneFromSpares(c, FlyFrom(start, 0, dt), 0, k);
    AirborneOk(flown.st.planes);
    var air := Airborne(flown.st.planes, 0);
    PairsFromSpares(c, flown, air, 0, 1, k);
    StarsFromSpares(c, PairsFrom(c, flown, air, 0, 1), air, 0, 0, k);
  }

  // ---------- whole runs of router plans ----------

  lemma RunSparesSafePlane(c: Setup, st: SimState, dts: seq<real>, logs: seq<Log>, k: nat, n: nat)
    requires IsRun(c, st, dts, logs) && Numbered(st.planes) && n < |logs|
    requires k < |st.planes| && Safe(c, st.planes[k])
    ensures !Zoned(logs[n].ev, k)
  {
    assert StepAt(c, st, dts, logs, n);
    RunNumbered(c, st, dts, logs, n);
    RunKeeps(PHONE_SCORE, c, st, dts, logs, n);
    assert EvolvesAt(st.planes, StateAt(st, logs, n).planes, k);
    SafeEvolves(c, st.planes[k], StateAt(st, logs, n).planes[k]);
    StepSparesSafePlane(c, StateAt(st, logs, n), dts[n], k);
  }

  /** The cells a plan gives a plane that follows a route of the router: a departing plane runs down
      its runway first, whose last cell is where the route starts. */
  ghost function PlanOf(w: World, pl: Plane, route: seq<Cell>): seq<Cell>
    requires pl.mission == Depart ==> pl.rwIdx < |w.runways|
    requires |route| > 0
  {
    if pl.mission == Depart then w.runways[pl.rwIdx].cells + route[1..] else route
  }

  /** Where the router starts for a plane. */
  ghost predicate StartsAt(w: World, pl: Plane, from: Cell)
    requires pl.mission == Depart ==> pl.rwIdx < |w.runways|
  {
    pl.mission == Depart ==>
      var cells := w.runways[pl.rwIdx].cells;
      |cells| > 0 && cells[|cells| - 1] == from
  }

  lemma PlanIsSafe(w: World, pl: Plane, route: seq<Cell>, from: Cell, to: Cell) returns (k: nat)
    requires |w.blocked| == Size(w) && IsRoute(w, route, from, to)
    requires pl.mission == Depart ==> pl.rwIdx < |w.runways|
    requires StartsAt(w, pl, from)
    ensures k < |PlanOf(w, pl, route)| && SafeCells(w, PlanOf(w, pl, route), k, |PlanOf(w, pl, route)|)
    ensures k == if pl.mission == Depart then |w.runways[pl.rwIdx].cells| - 1 else 0
  {
    var plan := PlanOf(w, pl, route);
    k := if pl.mission == Depart then |w.runways[pl.rwIdx].cells| - 1 else 0;
    forall i | k < i < |plan| ensures RouteStep(w, plan, i) {
      assert RouteStep(w, route, i - k);
      assert plan[i] == route[i - k] && plan[i - 1] == route[i - 1 - k];
    }
  }

  /** Safety of cells does not depend on what follows them. */
  lemma SafeCellsPrefix(w: World, cells: seq<Cell>, rest: seq<Cell>, k: nat)
    requires |w.blocked| == Size(w) && k < |cells| && SafeCells(w, cells, k, |cells|)
    ensures SafeCells(w, cells + rest, k, |cells|)
  {
    forall i | k < i < |cells| ensures RouteStep(w, cells + rest, i) {
      assert RouteStep(w, cells, i);
    }
  }

  lemma RouterPlaneIsSafe(c: Setup, pl: Plane, sol: Solution, route: seq<Cell>, from: Cell, to: Cell)
    requires GridOk(c.w) && WeatherOf(c.w, c.weather)
    requires pl.mission == Land ==> pl.target < |c.w.runways|
    requires pl.mission == Depart ==> pl.rwIdx < |c.w.runways|
    requires IsRoute(c.w, route, from, to) && StartsAt(c.w, pl, from)
    requires pl.id in sol && sol[pl.id].cells == PlanOf(c.w, pl, route) && |sol[pl.id].cells| >= 2
    ensures Safe(c, MakePlane(c, pl, sol))
  {
    var k := PlanIsSafe(c.w, pl, route, from, to);
    var plan := PlanOf(c.w, pl, route);
    var cells := RunCells(c.w, pl, plan);
    var p := MakePlane(c, pl, sol);
    assert cells == plan + cells[|plan|..];
    SafeCellsPrefix(c.w, plan, cells[|plan|..], k);
    LengthGrows(c.m, p.pts, 0, k);
    assert SafeRoute(c, p, cells, k, |plan|);
  }

  /** In any run of any plan, a plane whose planned cells are a route of the router is never charged
      with a no-fly zone or a storm. */
  lemma RouterPlanIsNeverZoned(c: Setup, sol: Solution, dts: seq<real>, logs: seq<Log>, k: nat,
                               route: seq<Cell>, from: Cell, to: Cell, n: nat)
    requires GridOk(c.w) && WeatherOf(c.w, c.weather) && MissionsOk(c.w)
    requires forall i :: 0 <= i < |c.w.planes| ==> c.w.planes[i].id == i
    requires IsRun(c, InitialState(c, sol), dts, logs) && n < |logs| && k < |c.w.planes|
    requires IsRoute(c.w, route, from, to) && StartsAt(c.w, c.w.planes[k], from)
    requires k in sol && sol[k].cells == PlanOf(c.w, c.w.planes[k], route) && |sol[k].cells| >= 2
    ensures !Zoned(logs[n].ev, k)
  {
    RouterPlaneIsSafe(c, c.w.planes[k], sol, route, from, to);
    RunSparesSafePlane(c, InitialState(c, sol), dts, logs, k, n);
  }
}
