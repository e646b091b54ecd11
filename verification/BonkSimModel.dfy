/** One step of the Bonk Air simulation as a function of the state, and what it does to scores. */
module BonkSimModel {
  import opened Common
  import opened BonkWorld
  import opened BonkFlight

  const BONK_BLOCKS := 0.95
  const SEP_BLOCKS := 2.0
  const SEP_REARM := 2.4
  const STAR_REACH := 0.7
  const PTS_DONE := 800
  const PTS_STAR := 100
  const PTS_PERFECT := 200
  const SEP_PENALTY := 150

  datatype PlaneState = Home | Flying | Done | Lost | Crashed

  datatype PlaneRecord = PlaneRecord(
    id: nat,
    speed: real,
    pts: seq<Vec>,
    cums: seq<real>,
    landS: real,
    liftS: Option<real>,
    complete: bool,
    s: real,
    pos: Vec,
    state: PlaneState,
    stars: nat)

  /** A plane under way has a route. */
  type SimPlane = p: PlaneRecord | p.state == Flying ==> |p.pts| == |p.cums| > 0
    witness PlaneRecord(0, 0.0, [], [], 0.0, None, false, 0.0, Vec(0.0, 0.0), Home, 0)

  datatype SimEvent =
    | Arrived(id: nat)
    | WentLost(id: nat)
    | ZoneBonk(id: nat, intercept: bool)
    | PlaneBonk(a: nat, b: nat)
    | Separation(a: nat, b: nat)
    | StarTaken(id: nat, star: nat)

  datatype SimState = SimState(
    t: real,
    violations: nat,
    sep: map<(nat, nat), bool>,
    taken: seq<bool>,
    planes: seq<SimPlane>)

  /** The state reached within a step, and the events emitted so far in it. */
  datatype Log = Log(st: SimState, ev: seq<SimEvent>)

  /** What a simulation runs on: the world, its storm cells, and the distance. */
  datatype Setup = Setup(w: World, weather: set<nat>, m: Metric)

  function WithPlane(st: SimState, k: nat, p: SimPlane): SimState
    requires k < |st.planes|
  {
    st.(planes := st.planes[k := p])
  }

  /** On its runway: at the roll-out of a landing or before lift-off.  The arc length of lift-off is
      undefined, and never reached, for a route shorter than the runway. */
  predicate Rolling(p: SimPlane) {
    p.s >= p.landS - 1.0 || (p.liftS.Some? && p.s <= p.liftS.value)
  }

  // ---------- phase 1: every plane under way flies on ----------

  /** The arc length a plane under way has flown after `dt` seconds more. */
  function FlownLength(p: SimPlane, dt: real): real {
    p.s + p.speed * CELL * dt
  }

  function FlyOne(lg: Log, k: nat, dt: real): Log
    requires k < |lg.st.planes|
  {
    var p := lg.st.planes[k];
    if p.state != Flying then lg else
      var total := p.cums[|p.cums| - 1];
      var s := FlownLength(p, dt);
      var moved := p.(s := s, pos := PointAt(p.pts, p.cums, if s < total then s else total));
      if s < total then Log(WithPlane(lg.st, k, moved), lg.ev)
      else if p.complete then Log(WithPlane(lg.st, k, moved.(state := Done)), lg.ev + [Arrived(p.id)])
      else Log(WithPlane(lg.st, k, moved.(state := Lost)), lg.ev + [WentLost(p.id)])
  }

  // ---------- phase 2: no-fly zones and storms ----------

  datatype Zone = Clear | NoFly | Storm

  function ZoneOf(c: Setup, p: Vec): Zone {
    var cell := CellAt(p);
    if !InGrid(c.w, cell) then Clear
    else if Index(c.w, cell) < |c.w.blocked| && c.w.blocked[Index(c.w, cell)] then NoFly
    else if Index(c.w, cell) in c.weather then Storm
    else Clear
  }

  function ZoneOne(c: Setup, lg: Log, k: nat): Log
    requires k < |lg.st.planes|
  {
    var p := lg.st.planes[k];
    if p.state != Flying || Rolling(p) || ZoneOf(c, p.pos) == Clear then lg
    else Log(WithPlane(lg.st, k, p.(state := Crashed)), lg.ev + [ZoneBonk(p.id, ZoneOf(c, p.pos) == NoFly)])
  }

  // ---------- phase 3: separation and collisions of airborne planes ----------

  /** The indexes from `k` on of the planes in the air, in order. */
  function Airborne(planes: seq<SimPlane>, k: nat): seq<nat>
    requires k <= |planes|
    decreases |planes| - k
  {
    if k == |planes| then []
    else (if planes[k].state == Flying && !Rolling(planes[k]) then [k] else []) + Airborne(planes, k + 1)
  }

  function PairOne(c: Setup, lg: Log, i: nat, j: nat): Log
    requires i < |lg.st.planes| && j < |lg.st.planes|
  {
    var a, b := lg.st.planes[i], lg.st.planes[j];
    var d := c.m(a.pos, b.pos);
    var key := (a.id, b.id);
    if d < BONK_BLOCKS * CELL then
      Log(WithPlane(WithPlane(lg.st, i, a.(state := Crashed)), j, b.(state := Crashed)),
          lg.ev + [PlaneBonk(a.id, b.id)])
    else if d < SEP_BLOCKS * CELL then
      if key in lg.st.sep && !lg.st.sep[key] then lg
      else Log(lg.st.(sep := lg.st.sep[key := false], violations := lg.st.violations + 1),
               lg.ev + [Separation(a.id, b.id)])
    else if d > SEP_REARM * CELL then Log(lg.st.(sep := lg.st.sep[key := true]), lg.ev)
    else lg
  }

  // ---------- phase 4: stars ----------

  function StarOne(c: Setup, lg: Log, k: nat, star: nat): Log
    requires k < |lg.st.planes| && star < |c.w.stars|
  {
    var p := lg.st.planes[k];
    if p.state == Flying && star < |lg.st.taken| && !lg.st.taken[star]
       && c.m(p.pos, Centre(c.w.stars[star])) < CELL * STAR_REACH
    then Log(WithPlane(lg.st, k, p.(stars := p.stars + 1)).(taken := lg.st.taken[star := true]),
             lg.ev + [StarTaken(p.id, star)])
    else lg
  }

  // ---------- the four loops ----------

  function FlyFrom(lg: Log, k: nat, dt: real): (r: Log)
    ensures |r.st.planes| == |lg.st.planes|
    decreases |lg.st.planes| - k
  {
    if k >= |lg.st.planes| then lg else FlyFrom(FlyOne(lg, k, dt), k + 1, dt)
  }

  function ZoneFrom(c: Setup, lg: Log, k: nat): (r: Log)
    ensures |r.st.planes| == |lg.st.planes|
    decreases |lg.st.planes| - k
  {
    if k >= |lg.st.planes| then lg else ZoneFrom(c, ZoneOne(c, lg, k), k + 1)
  }

  /** Every index in the list is that of a plane. */
  ghost predicate AirOk(planes: seq<SimPlane>, air: seq<nat>) {
    forall i :: 0 <= i < |air| ==> air[i] < |planes|
  }

  ghost function PairsFrom(c: Setup, lg: Log, air: seq<nat>, i: nat, j: nat): (r: Log)
    requires AirOk(lg.st.planes, air)
    ensures |r.st.planes| == |lg.st.planes|
    decreases |air| - i, |air| - j
  {
    if i >= |air| then lg
    else if j >= |air| then PairsFrom(c, lg, air, i + 1, i + 2)
    else PairsFrom(c, PairOne(c, lg, air[i], air[j]), air, i, j + 1)
  }

  ghost function StarsFrom(c: Setup, lg: Log, air: seq<nat>, i: nat, star: nat): (r: Log)
    requires AirOk(lg.st.planes, air)
    ensures |r.st.planes| == |lg.st.planes|
    decreases |air| - i, |c.w.stars| - star
  {
    if i >= |air| then lg
    else if star >= |c.w.stars| then StarsFrom(c, lg, air, i + 1, 0)
    else StarsFrom(c, StarOne(c, lg, air[i], star), air, i, star + 1)
  }

  lemma {:induction false} AirborneExact(planes: seq<SimPlane>, k: nat, x: nat)
    requires k <= |planes|
    ensures x in Airborne(planes, k) <==> k <= x < |planes| && planes[x].state == Flying && !Rolling(planes[x])
    decreases |planes| - k
  {
    if k < |planes| {
      AirborneExact(planes, k + 1, x);
      var own := if planes[k].state == Flying && !Rolling(planes[k]) then [k] else [];
      assert Airborne(planes, k) == own + Airborne(planes, k + 1);
    }
  }

  lemma AirborneOk(planes: seq<SimPlane>)
    ensures AirOk(planes, Airborne(planes, 0))
  {
    var air := Airborne(planes, 0);
    forall i | 0 <= i < |air| ensures air[i] < |planes| {
      AirborneExact(planes, 0, air[i]);
    }
  }

  /** The first two phases of a step. */
  function Flown(c: Setup, st: SimState, dt: real): Log {
    ZoneFrom(c, FlyFrom(Log(st.(t := st.t + dt), []), 0, dt), 0)
  }

  /** One step: the new state and the events emitted, in order. */
  ghost function StepLog(c: Setup, st: SimState, dt: real): Log {
    var flown := Flown(c, st, dt);
    var air := Airborne(flown.st.planes, 0);
    AirborneOk(flown.st.planes);
    var paired := PairsFrom(c, flown, air, 0, 1);
    StarsFrom(c, paired, air, 0, 0)
  }
}
