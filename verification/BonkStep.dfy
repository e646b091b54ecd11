/** What one step of the simulation does, plane by plane, star by star and event by event, told from the
    state before it and the state after it alone. */
module BonkStep {
  import opened Common
  import opened BonkWorld
  import opened BonkFlight
  import opened BonkSimModel
  import opened BonkScore
  import opened BonkRun
  import opened BonkSeparation

  // ---------- what is said about a step ----------

  /** The planes before a step and after it. */
  datatype Leap = Leap(a: seq<SimPlane>, b: seq<SimPlane>)

  predicate UnderWay(l: Leap, k: nat) {
    k < |l.a| == |l.b| && l.a[k].state == Flying
  }

  /** It has come to the end of its route. */
  predicate AtEnd(l: Leap, k: nat)
    requires UnderWay(l, k)
  {
    l.b[k].s >= l.a[k].cums[|l.a[k].cums| - 1]
  }

  /** It is at the roll-out of its landing, or has not lifted off. */
  predicate OnRunway(l: Leap, k: nat)
    requires UnderWay(l, k)
  {
    l.b[k].s >= l.a[k].landS - 1.0 || (l.a[k].liftS.Some? && l.b[k].s <= l.a[k].liftS.value)
  }

  predicate OverBlocked(c: Setup, p: Vec) {
    var cell := CellAt(p);
    InGrid(c.w, cell) && Index(c.w, cell) < |c.w.blocked| && c.w.blocked[Index(c.w, cell)]
  }

  predicate OverStorm(c: Setup, p: Vec) {
    InGrid(c.w, CellAt(p)) && Index(c.w, CellAt(p)) in c.weather
  }

  /** It flies into a no-fly zone or a storm. */
  predicate Enters(c: Setup, l: Leap, k: nat) {
    UnderWay(l, k) && !AtEnd(l, k) && !OnRunway(l, k) && (OverBlocked(c, l.b[k].pos) || OverStorm(c, l.b[k].pos))
  }

  predicate InAir(c: Setup, l: Leap, k: nat) {
    UnderWay(l, k) && !AtEnd(l, k) && !OnRunway(l, k) && !OverBlocked(c, l.b[k].pos) && !OverStorm(c, l.b[k].pos)
  }

  /** The distance of two planes, the one with the lower number first. */
  predicate PairWithin(c: Setup, l: Leap, x: nat, y: nat, low: real, high: real) {
    InAir(c, l, x) && InAir(c, l, y) && x < y && low <= c.m(l.b[x].pos, l.b[y].pos) < high
  }

  /** It is in the air nearer to another plane in the air than the distance of a collision. */
  ghost predicate Meets(c: Setup, l: Leap, k: nat) {
    exists j: nat :: MeetsPlane(c, l, k, j)
  }

  predicate MeetsPlane(c: Setup, l: Leap, k: nat, j: nat) {
    PairWithin(c, l, j, k, 0.0, BONK_BLOCKS * CELL) || PairWithin(c, l, k, j, 0.0, BONK_BLOCKS * CELL)
  }

  ghost function StateAfter(c: Setup, l: Leap, k: nat): PlaneState
    requires k < |l.a| == |l.b|
  {
    if l.a[k].state != Flying then l.a[k].state
    else if AtEnd(l, k) then if l.a[k].complete then Done else Lost
    else if Enters(c, l, k) || Meets(c, l, k) then Crashed
    else Flying
  }

  /** It flies on near the star. */
  ghost predicate Touches(c: Setup, l: Leap, k: nat, star: nat)
    requires star < |c.w.stars|
  {
    InAir(c, l, k) && !Meets(c, l, k) && c.m(l.b[k].pos, Centre(c.w.stars[star])) < STAR_REACH * CELL
  }

  /** It is the first plane to do so, and the star was free. */
  ghost predicate Wins(c: Setup, l: Leap, taken: seq<bool>, k: nat, star: nat) {
    && star < |c.w.stars| == |taken| && !taken[star]
    && Touches(c, l, k, star) && forall j: nat :: j < k ==> !Touches(c, l, j, star)
  }

  /** The event is emitted in the step. */
  ghost predicate Happens(c: Setup, l: Leap, st: SimState, e: SimEvent) {
    match e
    case Arrived(id) => UnderWay(l, id) && AtEnd(l, id) && l.a[id].complete
    case WentLost(id) => UnderWay(l, id) && AtEnd(l, id) && !l.a[id].complete
    case ZoneBonk(id, intercept) => Enters(c, l, id) && (intercept <==> OverBlocked(c, l.b[id].pos))
    case PlaneBonk(x, y) => PairWithin(c, l, x, y, 0.0, BONK_BLOCKS * CELL)
    case Separation(x, y) =>
      PairWithin(c, l, x, y, BONK_BLOCKS * CELL, SEP_BLOCKS * CELL) && !Disarmed(st.sep, x, y)
    case StarTaken(id, star) => Wins(c, l, st.taken, id, star)
  }

  ghost function LeapOf(c: Setup, st: SimState, dt: real): (l: Leap)
    ensures l.a == st.planes && |l.b| == |l.a|
  {
    Leap(st.planes, StepLog(c, st, dt).st.planes)
  }

  // ---------- the planes through the phases ----------

  /** What the first phase does to a plane. */
  ghost predicate Flew(p: SimPlane, q: SimPlane, dt: real) {
    if p.state != Flying then q == p else
      var total := p.cums[|p.cums| - 1];
      && q == p.(s := p.s + p.speed * CELL * dt, pos := q.pos, state := q.state)
      && q.pos == PointAt(p.pts, p.cums, if q.s < total then q.s else total)
      && q.state == if q.s < total then Flying else if p.complete then Done else Lost
  }

  lemma {:induction false} FlyFromAt(lg: Log, i: nat, dt: real, k: nat)
    requires k < |lg.st.planes|
    ensures var q := FlyFrom(lg, i, dt).st.planes[k];
            if k < i then q == lg.st.planes[k] else Flew(lg.st.planes[k], q, dt)
    decreases |lg.st.planes| - i
  {
    if i < |lg.st.planes| {
      FlyFromAt(FlyOne(lg, i, dt), i + 1, dt, k);
    }
  }

  /** What the second phase does to a plane. */
  ghost predicate Zoned(c: Setup, p: SimPlane, q: SimPlane) {
    q == if p.state == Flying && !Rolling(p) && ZoneOf(c, p.pos) != Clear then p.(state := Crashed) else p
  }

  lemma {:induction false} ZoneFromAt(c: Setup, lg: Log, i: nat, k: nat)
    requires k < |lg.st.planes|
    ensures var q := ZoneFrom(c, lg, i).st.planes[k];
            if k < i then q == lg.st.planes[k] else Zoned(c, lg.st.planes[k], q)
    decreases |lg.st.planes| - i
  {
    if i < |lg.st.planes| {
      ZoneFromAt(c, ZoneOne(c, lg, i), i + 1, k);
    }
  }

  lemma FlownAt(c: Setup, st: SimState, dt: real, k: nat) returns (mid: SimPlane)
    requires k < |st.planes|
    ensures Flew(st.planes[k], mid, dt) && Zoned(c, mid, Flown(c, st, dt).st.planes[k])
  {
    var start := Log(st.(t := st.t + dt), []);
    FlyFromAt(start, 0, dt, k);
    mid := FlyFrom(start, 0, dt).st.planes[k];
    ZoneFromAt(c, FlyFrom(start, 0, dt), 0, k);
  }

  /** The planes at places `p` and `q` of the list collide, and one of them is plane `k`. */
  ghost predicate Hits(c: Setup, planes: seq<SimPlane>, air: seq<nat>, p: nat, q: nat, k: nat)
    requires AirOk(planes, air)
  {
    && p < q < |air| && (air[p] == k || air[q] == k)
    && c.m(planes[air[p]].pos, planes[air[q]].pos) < BONK_BLOCKS * CELL
  }

  ghost predicate HitFrom(c: Setup, planes: seq<SimPlane>, air: seq<nat>, i: nat, j: nat, k: nat)
    requires AirOk(planes, air)
  {
    exists p: nat, q: nat :: Ahead(i, j, p, q) && Hits(c, planes, air, p, q, k)
  }

  lemma HitsSame(c: Setup, planes: seq<SimPlane>, others: seq<SimPlane>, air: seq<nat>, i: nat, j: nat, k: nat)
    requires AirOk(planes, air) && SamePlaces(planes, others)
    ensures HitFrom(c, planes, air, i, j, k) <==> HitFrom(c, others, air, i, j, k)
  {
    if p: nat, q: nat :| Ahead(i, j, p, q) && Hits(c, planes, air, p, q, k) {
      assert Hits(c, others, air, p, q, k);
    }
    if p: nat, q: nat :| Ahead(i, j, p, q) && Hits(c, others, air, p, q, k) {
      assert Hits(c, planes, air, p, q, k);
    }
  }

  /** Of the pairs from (i, j) on, the first is that one. */
  lemma HitNext(c: Setup, planes: seq<SimPlane>, air: seq<nat>, i: nat, j: nat, k: nat)
    requires AirOk(planes, air) && i < j
    ensures j >= |air| ==> (HitFrom(c, planes, air, i, j, k) <==> HitFrom(c, planes, air, i + 1, i + 2, k))
    ensures j < |air| ==> (HitFrom(c, planes, air, i, j, k) <==>
                             Hits(c, planes, air, i, j, k) || HitFrom(c, planes, air, i, j + 1, k))
  {
    if p: nat, q: nat :| Ahead(i, j, p, q) && Hits(c, planes, air, p, q, k) {
      if j >= |air| {
        assert Ahead(i + 1, i + 2, p, q);
      } else if !(p == i && q == j) {
        assert Ahead(i, j + 1, p, q);
      }
    }
    if p: nat, q: nat :| Ahead(i + 1, i + 2, p, q) && Hits(c, planes, air, p, q, k) {
      assert Ahead(i, j, p, q);
    }
    if p: nat, q: nat :| Ahead(i, j + 1, p, q) && Hits(c, planes, air, p, q, k) {
      assert Ahead(i, j, p, q);
    }
    assert Ahead(i, j, i, j);
  }

  lemma PairOneAt(c: Setup, lg: Log, air: seq<nat>, i: nat, j: nat, k: nat)
    requires AirOk(lg.st.planes, air) && i < j < |air| && k < |lg.st.planes|
    ensures SamePlaces(lg.st.planes, PairOne(c, lg, air[i], air[j]).st.planes)
    ensures PairOne(c, lg, air[i], air[j]).st.planes[k] ==
              if Hits(c, lg.st.planes, air, i, j, k) then lg.st.planes[k].(state := Crashed) else lg.st.planes[k]
  {
  }

  lemma {:induction false} PairsFromAt(c: Setup, lg: Log, air: seq<nat>, i: nat, j: nat, k: nat)
    requires AirOk(lg.st.planes, air) && i < j && k < |lg.st.planes|
    ensures PairsFrom(c, lg, air, i, j).st.planes[k] ==
              if HitFrom(c, lg.st.planes, air, i, j, k) then lg.st.planes[k].(state := Crashed) else lg.st.planes[k]
    decreases |air| - i, |air| - j
  {
    if i >= |air| {
    } else if j >= |air| {
      HitNext(c, lg.st.planes, air, i, j, k);
      PairsFromAt(c, lg, air, i + 1, i + 2, k);
    } else {
      var next := PairOne(c, lg, air[i], air[j]);
      HitNext(c, lg.st.planes, air, i, j, k);
      PairOneAt(c, lg, air, i, j, k);
      HitsSame(c, lg.st.planes, next.st.planes, air, i, j + 1, k);
      PairsFromAt(c, next, air, i, j + 1, k);
    }
  }

  /** The last phase changes nothing of a plane but its stars. */
  lemma {:induction false} StarsFromAt(c: Setup, lg: Log, air: seq<nat>, i: nat, star: nat, k: nat)
    requires AirOk(lg.st.planes, air) && k < |lg.st.planes|
    ensures var q := StarsFrom(c, lg, air, i, star).st.planes[k];
            q == lg.st.planes[k].(stars := q.stars)
    decreases |air| - i, |c.w.stars| - star
  {
    if i < |air| {
      if star >= |c.w.stars| {
        StarsFromAt(c, lg, air, i + 1, 0, k);
      } else {
        StarsFromAt(c, StarOne(c, lg, air[i], star), air, i, star + 1, k);
      }
    }
  }

  // ---------- the state of every plane ----------

  lemma ZoneIs(c: Setup, p: Vec)
    ensures ZoneOf(c, p) != Clear <==> OverBlocked(c, p) || OverStorm(c, p)
    ensures ZoneOf(c, p) == NoFly <==> OverBlocked(c, p)
  {
  }

  /** Plane `k` through a step: flown, and then perhaps crashed, and given stars. */
  lemma PlaneThrough(c: Setup, st: SimState, dt: real, k: nat) returns (mid: SimPlane)
    requires k < |st.planes|
    ensures Flew(st.planes[k], mid, dt)
    ensures var l, flown := LeapOf(c, st, dt), Flown(c, st, dt).st.planes;
            && AirOk(flown, Airborne(flown, 0))
            && k < |flown| && Zoned(c, mid, flown[k])
            && l.b[k] == flown[k].(stars := l.b[k].stars,
                 state := if HitFrom(c, flown, Airborne(flown, 0), 0, 1, k) then Crashed else flown[k].state)
  {
    mid := FlownAt(c, st, dt, k);
    var flown := Flown(c, st, dt);
    var air := Airborne(flown.st.planes, 0);
    AirborneOk(flown.st.planes);
    PairsFromAt(c, flown, air, 0, 1, k);
    StarsFromAt(c, PairsFrom(c, flown, air, 0, 1), air, 0, 0, k);
  }

  /** The list of the third phase holds exactly the planes in the air. */
  lemma AirIs(c: Setup, st: SimState, dt: real, k: nat)
    ensures k in Airborne(Flown(c, st, dt).st.planes, 0) <==> InAir(c, LeapOf(c, st, dt), k)
    ensures InAir(c, LeapOf(c, st, dt), k) ==>
              k < |Flown(c, st, dt).st.planes| && Flown(c, st, dt).st.planes[k].state == Flying
  {
    var flown := Flown(c, st, dt).st.planes;
    AirborneExact(flown, 0, k);
    if k < |st.planes| {
      var mid := PlaneThrough(c, st, dt, k);
      ZoneIs(c, mid.pos);
    }
  }

  lemma PlacesKept(c: Setup, st: SimState, dt: real)
    ensures var l, flown := LeapOf(c, st, dt), Flown(c, st, dt).st.planes;
            |flown| == |l.b| && forall j: nat :: j < |l.b| ==> l.b[j].pos == flown[j].pos
  {
    var l, flown := LeapOf(c, st, dt), Flown(c, st, dt).st.planes;
    forall j: nat | j < |l.b| ensures l.b[j].pos == flown[j].pos {
      var mid := PlaneThrough(c, st, dt, j);
    }
  }

  lemma HitMeets(c: Setup, st: SimState, dt: real, p: nat, q: nat, k: nat)
    requires AirOk(Flown(c, st, dt).st.planes, Airborne(Flown(c, st, dt).st.planes, 0))
    requires var flown := Flown(c, st, dt).st.planes; Hits(c, flown, Airborne(flown, 0), p, q, k)
    ensures Meets(c, LeapOf(c, st, dt), k)
  {
    var l, flown := LeapOf(c, st, dt), Flown(c, st, dt).st.planes;
    var air := Airborne(flown, 0);
    AirborneAscends(flown, 0);
    PlacesKept(c, st, dt);
    AirIs(c, st, dt, air[p]);
    AirIs(c, st, dt, air[q]);
    assert PairWithin(c, l, air[p], air[q], 0.0, BONK_BLOCKS * CELL);
    assert MeetsPlane(c, l, k, if air[p] == k then air[q] else air[p]);
  }

  lemma MeetingHits(c: Setup, st: SimState, dt: real, k: nat, j: nat)
    requires AirOk(Flown(c, st, dt).st.planes, Airborne(Flown(c, st, dt).st.planes, 0))
    requires MeetsPlane(c, LeapOf(c, st, dt), k, j)
    ensures var flown := Flown(c, st, dt).st.planes; HitFrom(c, flown, Airborne(flown, 0), 0, 1, k)
  {
    var flown := Flown(c, st, dt).st.planes;
    var x, y := if j < k then j else k, if j < k then k else j;
    var p, q := PlacesInAir(c, st, dt, x, y);
    PlacesKept(c, st, dt);
    assert Hits(c, flown, Airborne(flown, 0), p, q, k) && Ahead(0, 1, p, q);
  }

  /** The collisions found by the loops are those of the planes in the air. */
  lemma MeetsIs(c: Setup, st: SimState, dt: real, k: nat)
    ensures AirOk(Flown(c, st, dt).st.planes, Airborne(Flown(c, st, dt).st.planes, 0))
    ensures var flown := Flown(c, st, dt).st.planes;
            HitFrom(c, flown, Airborne(flown, 0), 0, 1, k) <==> Meets(c, LeapOf(c, st, dt), k)
  {
    var flown := Flown(c, st, dt).st.planes;
    var air := Airborne(flown, 0);
    AirborneOk(flown);
    if p: nat, q: nat :| Ahead(0, 1, p, q) && Hits(c, flown, air, p, q, k) {
      HitMeets(c, st, dt, p, q, k);
    }
    if j: nat :| MeetsPlane(c, LeapOf(c, st, dt), k, j) {
      MeetingHits(c, st, dt, k, j);
    }
  }

  lemma PlacesInAir(c: Setup, st: SimState, dt: real, x: nat, y: nat) returns (p: nat, q: nat)
    requires InAir(c, LeapOf(c, st, dt), x) && InAir(c, LeapOf(c, st, dt), y) && x < y
    ensures var air := Airborne(Flown(c, st, dt).st.planes, 0);
            p < q < |air| && air[p] == x && air[q] == y
  {
    var flown := Flown(c, st, dt).st.planes;
    var air := Airborne(flown, 0);
    AirborneAscends(flown, 0);
    AirIs(c, st, dt, x);
    AirIs(c, st, dt, y);
    p :| p < |air| && air[p] == x;
    q :| q < |air| && air[q] == y;
  }

  /** What becomes of a plane in a step: one under way flies on to its new arc length, and it is done or lost
      at the end of its route as that was complete or not, crashed by a zone or another plane, or flying on.
      A plane that is not under way stays as it is, and no route changes. */
  lemma PlaneStep(c: Setup, st: SimState, dt: real, k: nat)
    requires k < |st.planes|
    ensures var l := LeapOf(c, st, dt);
            var p, q := l.a[k], l.b[k];
            && (p.state != Flying ==> q == p)
            && q == p.(s := q.s, pos := q.pos, state := q.state, stars := q.stars)
            && q.state == StateAfter(c, l, k)
            && (p.state == Flying ==> q.s == p.s + p.speed * CELL * dt)
  {
    var mid, flown := PlaneMet(c, st, dt, k);
    NotUnderWay(c, st, dt, k);
    PlaneIs(c, LeapOf(c, st, dt), dt, k, mid, flown);
  }

  lemma PlaneMet(c: Setup, st: SimState, dt: real, k: nat) returns (mid: SimPlane, flown: SimPlane)
    requires k < |st.planes|
    ensures Flew(st.planes[k], mid, dt) && Zoned(c, mid, flown)
    ensures var l := LeapOf(c, st, dt);
            l.b[k] == flown.(stars := l.b[k].stars, state := if Meets(c, l, k) then Crashed else flown.state)
  {
    mid := PlaneThrough(c, st, dt, k);
    MeetsIs(c, st, dt, k);
    flown := Flown(c, st, dt).st.planes[k];
  }

  lemma PlaneIs(c: Setup, l: Leap, dt: real, k: nat, mid: SimPlane, flown: SimPlane)
    requires k < |l.a| == |l.b| && Flew(l.a[k], mid, dt) && Zoned(c, mid, flown)
    requires l.b[k] == flown.(stars := l.b[k].stars, state := if Meets(c, l, k) then Crashed else flown.state)
    requires l.a[k].state != Flying ==> l.b[k] == l.a[k]
    ensures var p, q := l.a[k], l.b[k];
            && q == p.(s := q.s, pos := q.pos, state := q.state, stars := q.stars)
            && q.state == StateAfter(c, l, k)
            && (p.state == Flying ==> q.s == p.s + p.speed * CELL * dt)
  {
    ZoneIs(c, mid.pos);
  }

  lemma NotUnderWay(c: Setup, st: SimState, dt: real, k: nat)
    requires k < |st.planes|
    ensures st.planes[k].state != Flying ==> LeapOf(c, st, dt).b[k] == st.planes[k]
  {
    StepKeeps(PHONE_SCORE, c, st, dt);
    assert EvolvesAt(st.planes, LeapOf(c, st, dt).b, k);
  }

  /** And where it is then: on its route at the new arc length, or at the end. */
  lemma PlanePlace(c: Setup, st: SimState, dt: real, k: nat)
    requires k < |st.planes| && st.planes[k].state == Flying
    requires Ascending(st.planes[k].cums) && st.planes[k].cums[0] == 0.0
    ensures var p, q := st.planes[k], LeapOf(c, st, dt).b[k];
            var total := p.cums[|p.cums| - 1];
            LiesAt(p.pts, p.cums, if q.s < total then q.s else total, q.pos)
  {
    var mid := PlaneThrough(c, st, dt, k);
    var p := st.planes[k];
    PointAtLies(p.pts, p.cums, if mid.s < p.cums[|p.cums| - 1] then mid.s else p.cums[|p.cums| - 1]);
  }

  // ---------- the stars ----------

  predicate Reaches(c: Setup, p: SimPlane, x: nat)
    requires x < |c.w.stars|
  {
    p.state == Flying && c.m(p.pos, Centre(c.w.stars[x])) < CELL * STAR_REACH
  }

  /** Place `p` of the list is still to be asked for star `x` when the loops stand at (i, star). */
  predicate StillAsks(i: nat, star: nat, p: nat, x: nat) {
    i < p || (i == p && star <= x)
  }

  ghost predicate AsksAt(c: Setup, planes: seq<SimPlane>, air: seq<nat>, i: nat, star: nat, p: nat, x: nat)
    requires AirOk(planes, air) && x < |c.w.stars|
  {
    p < |air| && StillAsks(i, star, p, x) && Reaches(c, planes[air[p]], x)
  }

  /** The plane at place `p` is the first one still to be asked that reaches the star. */
  ghost predicate FirstAsks(c: Setup, planes: seq<SimPlane>, air: seq<nat>, i: nat, star: nat, p: nat, x: nat)
    requires AirOk(planes, air) && x < |c.w.stars|
  {
    AsksAt(c, planes, air, i, star, p, x) && forall q: nat :: q < p ==> !AsksAt(c, planes, air, i, star, q, x)
  }

  ghost predicate SameFlight(a: seq<SimPlane>, b: seq<SimPlane>) {
    |a| == |b| && forall k :: 0 <= k < |a| ==> b[k] == a[k].(stars := b[k].stars)
  }

  lemma StarOneIs(c: Setup, lg: Log, air: seq<nat>, i: nat, star: nat)
    requires AirOk(lg.st.planes, air) && i < |air| && star < |c.w.stars| == |lg.st.taken|
    ensures var next := StarOne(c, lg, air[i], star);
            var wins := !lg.st.taken[star] && Reaches(c, lg.st.planes[air[i]], star);
            && SameFlight(lg.st.planes, next.st.planes)
            && next.st.taken == (if wins then lg.st.taken[star := true] else lg.st.taken)
            && next.ev == lg.ev + if wins then [StarTaken(lg.st.planes[air[i]].id, star)] else []
  {
  }

  lemma AsksNext(c: Setup, planes: seq<SimPlane>, others: seq<SimPlane>, air: seq<nat>,
                 i: nat, star: nat, p: nat, x: nat)
    requires AirOk(planes, air) && SameFlight(planes, others) && x < |c.w.stars| && i < |air|
    ensures star >= |c.w.stars| ==>
              (AsksAt(c, planes, air, i, star, p, x) <==> AsksAt(c, others, air, i + 1, 0, p, x))
    ensures AsksAt(c, planes, air, i, star, p, x) <==>
              AsksAt(c, others, air, i, star + 1, p, x) || (p == i && x == star && Reaches(c, planes[air[i]], x))
  {
  }

  /** A star is taken after the loops if it was before, or a plane still to be asked reaches it. */
  lemma {:induction false} StarsFromTaken(c: Setup, lg: Log, air: seq<nat>, i: nat, star: nat, x: nat)
    requires AirOk(lg.st.planes, air) && x < |c.w.stars| == |lg.st.taken|
    ensures var after := StarsFrom(c, lg, air, i, star);
            && |after.st.taken| == |lg.st.taken|
            && (after.st.taken[x] <==> lg.st.taken[x] || SomeAsk(c, lg.st.planes, air, i, star, x))
    decreases |air| - i, |c.w.stars| - star
  {
    if i < |air| {
      if star >= |c.w.stars| {
        StarsFromTaken(c, lg, air, i + 1, 0, x);
        SomeAskNext(c, lg.st.planes, lg.st.planes, air, i, star, x);
      } else {
        var next := StarOne(c, lg, air[i], star);
        StarOneIs(c, lg, air, i, star);
        StarsFromTaken(c, next, air, i, star + 1, x);
        SomeAskNext(c, lg.st.planes, next.st.planes, air, i, star, x);
      }
    }
  }

  ghost predicate SomeAsk(c: Setup, planes: seq<SimPlane>, air: seq<nat>, i: nat, star: nat, x: nat)
    requires AirOk(planes, air) && x < |c.w.stars|
  {
    exists p: nat :: AsksAt(c, planes, air, i, star, p, x)
  }

  lemma SomeAskNext(c: Setup, planes: seq<SimPlane>, others: seq<SimPlane>, air: seq<nat>, i: nat, star: nat, x: nat)
    requires AirOk(planes, air) && SameFlight(planes, others) && x < |c.w.stars| && i < |air|
    ensures star >= |c.w.stars| ==>
              (SomeAsk(c, planes, air, i, star, x) <==> SomeAsk(c, others, air, i + 1, 0, x))
    ensures SomeAsk(c, planes, air, i, star, x) <==>
              SomeAsk(c, others, air, i, star + 1, x) || (x == star && Reaches(c, planes[air[i]], x))
  {
    if p: nat :| AsksAt(c, planes, air, i, star, p, x) {
      AsksNext(c, planes, others, air, i, star, p, x);
    }
    var row, next := i + 1, star + 1;
    if p: nat :| AsksAt(c, others, air, i, next, p, x) {
      AsksNext(c, planes, others, air, i, star, p, x);
    }
    if p: nat :| AsksAt(c, others, air, row, 0, p, x) {
      AsksNext(c, planes, others, air, i, star, p, x);
    }
    AsksNext(c, planes, others, air, i, star, i, x);
  }

  function Count(ev: seq<SimEvent>, e: SimEvent): nat {
    multiset(ev)[e]
  }

  /** The star is free and plane `k` is the first one still to be asked that reaches it. */
  ghost predicate WinsFrom(c: Setup, st: SimState, air: seq<nat>, i: nat, star: nat, k: nat, x: nat)
    requires AirOk(st.planes, air) && x < |c.w.stars|
  {
    && x < |st.taken| && !st.taken[x]
    && exists p: nat :: p < |air| && air[p] == k && FirstAsks(c, st.planes, air, i, star, p, x)
  }

  /** The same places are still to be asked for star `x`, with the same answers. */
  ghost predicate SameAsks(c: Setup, planes: seq<SimPlane>, others: seq<SimPlane>, air: seq<nat>,
                           i: nat, star: nat, j: nat, other: nat, x: nat)
    requires AirOk(planes, air) && AirOk(others, air) && x < |c.w.stars|
  {
    forall p: nat {:trigger AsksAt(c, planes, air, i, star, p, x)} {:trigger AsksAt(c, others, air, j, other, p, x)} ::
      AsksAt(c, planes, air, i, star, p, x) <==> AsksAt(c, others, air, j, other, p, x)
  }

  lemma FirstSame(c: Setup, planes: seq<SimPlane>, others: seq<SimPlane>, air: seq<nat>,
                  i: nat, star: nat, j: nat, other: nat, p: nat, x: nat)
    requires AirOk(planes, air) && AirOk(others, air) && x < |c.w.stars|
    requires SameAsks(c, planes, others, air, i, star, j, other, x) && FirstAsks(c, planes, air, i, star, p, x)
    ensures FirstAsks(c, others, air, j, other, p, x)
  {
    assert AsksAt(c, planes, air, i, star, p, x);
    forall q: nat | q < p ensures !AsksAt(c, others, air, j, other, q, x) {
      assert !AsksAt(c, planes, air, i, star, q, x);
    }
  }

  lemma WinsSame(c: Setup, st: SimState, next: SimState, air: seq<nat>,
                 i: nat, star: nat, j: nat, other: nat, k: nat, x: nat)
    requires AirOk(st.planes, air) && AirOk(next.planes, air) && x < |c.w.stars| == |st.taken| == |next.taken|
    requires SameAsks(c, st.planes, next.planes, air, i, star, j, other, x) && next.taken[x] == st.taken[x]
    requires WinsFrom(c, st, air, i, star, k, x)
    ensures WinsFrom(c, next, air, j, other, k, x)
  {
    var p: nat :| p < |air| && air[p] == k && FirstAsks(c, st.planes, air, i, star, p, x);
    FirstSame(c, st.planes, next.planes, air, i, star, j, other, p, x);
  }

  lemma WinsLater(c: Setup, st: SimState, next: SimState, air: seq<nat>, i: nat, star: nat, k: nat, x: nat)
    requires AirOk(st.planes, air) && SameFlight(st.planes, next.planes) && x < |c.w.stars| == |st.taken| && i < |air|
    requires star < |c.w.stars| && |next.taken| == |st.taken| && next.taken[x] == st.taken[x]
    requires x != star || !Reaches(c, st.planes[air[i]], x)
    ensures WinsFrom(c, st, air, i, star, k, x) <==> WinsFrom(c, next, air, i, star + 1, k, x)
  {
    forall p: nat ensures AsksAt(c, st.planes, air, i, star, p, x) <==> AsksAt(c, next.planes, air, i, star + 1, p, x) {
      AsksNext(c, st.planes, next.planes, air, i, star, p, x);
    }
    if WinsFrom(c, st, air, i, star, k, x) { WinsSame(c, st, next, air, i, star, i, star + 1, k, x); }
    if WinsFrom(c, next, air, i, star + 1, k, x) { WinsSame(c, next, st, air, i, star + 1, i, star, k, x); }
  }

  lemma WinsNextRow(c: Setup, st: SimState, air: seq<nat>, i: nat, star: nat, k: nat, x: nat)
    requires AirOk(st.planes, air) && x < |c.w.stars| <= star && |st.taken| == |c.w.stars| && i < |air|
    ensures WinsFrom(c, st, air, i, star, k, x) <==> WinsFrom(c, st, air, i + 1, 0, k, x)
  {
    forall p: nat ensures AsksAt(c, st.planes, air, i, star, p, x) <==> AsksAt(c, st.planes, air, i + 1, 0, p, x) {
      AsksNext(c, st.planes, st.planes, air, i, star, p, x);
    }
    if WinsFrom(c, st, air, i, star, k, x) { WinsSame(c, st, st, air, i, star, i + 1, 0, k, x); }
    if WinsFrom(c, st, air, i + 1, 0, k, x) { WinsSame(c, st, st, air, i + 1, 0, i, star, k, x); }
  }

  /** The plane that is asked first and reaches the star wins it, and no other. */
  lemma WinsNow(c: Setup, st: SimState, air: seq<nat>, i: nat, k: nat, x: nat)
    requires AirOk(st.planes, air) && Distinct(air) && x < |c.w.stars| == |st.taken| && i < |air| && !st.taken[x]
    requires Reaches(c, st.planes[air[i]], x)
    ensures WinsFrom(c, st, air, i, x, k, x) <==> k == air[i]
  {
    assert AsksAt(c, st.planes, air, i, x, i, x) && FirstAsks(c, st.planes, air, i, x, i, x);
  }

  /** How often the star is given to plane `k` from (i, star) on. */
  lemma {:induction false} StarsFromCount(c: Setup, lg: Log, air: seq<nat>, i: nat, star: nat, k: nat, x: nat)
    requires AirOk(lg.st.planes, air) && Distinct(air) && Numbered(lg.st.planes) && x < |c.w.stars| == |lg.st.taken|
    ensures Count(StarsFrom(c, lg, air, i, star).ev, StarTaken(k, x))
         == Count(lg.ev, StarTaken(k, x)) + if WinsFrom(c, lg.st, air, i, star, k, x) then 1 else 0
    decreases |air| - i, |c.w.stars| - star
  {
    if i < |air| {
      if star >= |c.w.stars| {
        StarsFromCount(c, lg, air, i + 1, 0, k, x);
        WinsNextRow(c, lg.st, air, i, star, k, x);
      } else {
        var next := StarOne(c, lg, air[i], star);
        StarOneIs(c, lg, air, i, star);
        StarsFromCount(c, next, air, i, star + 1, k, x);
        if x == star && !lg.st.taken[x] && Reaches(c, lg.st.planes[air[i]], x) {
          WinsNow(c, lg.st, air, i, k, x);
        } else if x != star || !Reaches(c, lg.st.planes[air[i]], x) {
          WinsLater(c, lg.st, next.st, air, i, star, k, x);
        }
      }
    }
  }

  /** The last phase emits nothing but stars of the world. */
  lemma {:induction false} StarsFromOnly(c: Setup, lg: Log, air: seq<nat>, i: nat, star: nat, e: SimEvent)
    requires AirOk(lg.st.planes, air) && (e.StarTaken? ==> e.star >= |c.w.stars|)
    ensures Count(StarsFrom(c, lg, air, i, star).ev, e) == Count(lg.ev, e)
    decreases |air| - i, |c.w.stars| - star
  {
    if i < |air| {
      if star >= |c.w.stars| {
        StarsFromOnly(c, lg, air, i + 1, 0, e);
      } else {
        StarsFromOnly(c, StarOne(c, lg, air[i], star), air, i, star + 1, e);
      }
    }
  }

  // ---------- the events of the other phases ----------

  /** The first phase emits the event for a plane from place `i` on. */
  predicate FliesTo(planes: seq<SimPlane>, i: nat, dt: real, e: SimEvent) {
    match e
    case Arrived(id) => i <= id < |planes| && Ends(planes[id], dt) && planes[id].complete
    case WentLost(id) => i <= id < |planes| && Ends(planes[id], dt) && !planes[id].complete
    case _ => false
  }

  predicate Ends(p: SimPlane, dt: real) {
    p.state == Flying && p.s + p.speed * CELL * dt >= p.cums[|p.cums| - 1]
  }

  lemma FlyOneCount(lg: Log, i: nat, dt: real, e: SimEvent)
    requires Numbered(lg.st.planes) && i < |lg.st.planes|
    ensures Numbered(FlyOne(lg, i, dt).st.planes)
    ensures Count(FlyOne(lg, i, dt).ev, e)
         == Count(lg.ev, e) + if FliesTo(lg.st.planes[..i + 1], i, dt, e) then 1 else 0
    ensures FliesTo(lg.st.planes, i, dt, e) <==>
              FliesTo(lg.st.planes[..i + 1], i, dt, e) || FliesTo(FlyOne(lg, i, dt).st.planes, i + 1, dt, e)
    ensures FliesTo(lg.st.planes[..i + 1], i, dt, e) ==> !FliesTo(FlyOne(lg, i, dt).st.planes, i + 1, dt, e)
  {
  }

  lemma {:induction false} FlyFromCount(lg: Log, i: nat, dt: real, e: SimEvent)
    requires Numbered(lg.st.planes)
    ensures Count(FlyFrom(lg, i, dt).ev, e)
         == Count(lg.ev, e) + if FliesTo(lg.st.planes, i, dt, e) then 1 else 0
    decreases |lg.st.planes| - i
  {
    if i < |lg.st.planes| {
      FlyOneCount(lg, i, dt, e);
      FlyFromCount(FlyOne(lg, i, dt), i + 1, dt, e);
    }
  }

  /** The second phase emits the event for a plane from place `i` on. */
  predicate ZonesTo(c: Setup, planes: seq<SimPlane>, i: nat, e: SimEvent) {
    match e
    case ZoneBonk(id, intercept) =>
      && i <= id < |planes| && planes[id].state == Flying && !Rolling(planes[id])
      && ZoneOf(c, planes[id].pos) != Clear && (intercept <==> ZoneOf(c, planes[id].pos) == NoFly)
    case _ => false
  }

  lemma ZoneOneCount(c: Setup, lg: Log, i: nat, e: SimEvent)
    requires Numbered(lg.st.planes) && i < |lg.st.planes|
    ensures Numbered(ZoneOne(c, lg, i).st.planes)
    ensures Count(ZoneOne(c, lg, i).ev, e)
         == Count(lg.ev, e) + if ZonesTo(c, lg.st.planes[..i + 1], i, e) then 1 else 0
    ensures ZonesTo(c, lg.st.planes, i, e) <==>
              ZonesTo(c, lg.st.planes[..i + 1], i, e) || ZonesTo(c, ZoneOne(c, lg, i).st.planes, i + 1, e)
    ensures ZonesTo(c, lg.st.planes[..i + 1], i, e) ==> !ZonesTo(c, ZoneOne(c, lg, i).st.planes, i + 1, e)
  {
  }

  lemma {:induction false} ZoneFromCount(c: Setup, lg: Log, i: nat, e: SimEvent)
    requires Numbered(lg.st.planes)
    ensures Count(ZoneFrom(c, lg, i).ev, e)
         == Count(lg.ev, e) + if ZonesTo(c, lg.st.planes, i, e) then 1 else 0
    decreases |lg.st.planes| - i
  {
    if i < |lg.st.planes| {
      ZoneOneCount(c, lg, i, e);
      ZoneFromCount(c, ZoneOne(c, lg, i), i + 1, e);
    }
  }

  /** The planes at these places of the list are `x` and `y`, and collide. */
  ghost predicate Bonks(c: Setup, planes: seq<SimPlane>, air: seq<nat>, p: nat, q: nat, x: nat, y: nat)
    requires AirOk(planes, air)
  {
    p < q < |air| && air[p] == x && air[q] == y && c.m(planes[x].pos, planes[y].pos) < BONK_BLOCKS * CELL
  }

  ghost predicate BonkFrom(c: Setup, planes: seq<SimPlane>, air: seq<nat>, i: nat, j: nat, x: nat, y: nat)
    requires AirOk(planes, air)
  {
    exists p: nat, q: nat :: Ahead(i, j, p, q) && Bonks(c, planes, air, p, q, x, y)
  }

  lemma BonkSame(c: Setup, planes: seq<SimPlane>, others: seq<SimPlane>, air: seq<nat>, i: nat, j: nat, x: nat, y: nat)
    requires AirOk(planes, air) && SamePlaces(planes, others)
    ensures BonkFrom(c, planes, air, i, j, x, y) <==> BonkFrom(c, others, air, i, j, x, y)
  {
    if p: nat, q: nat :| Ahead(i, j, p, q) && Bonks(c, planes, air, p, q, x, y) {
      assert Bonks(c, others, air, p, q, x, y);
    }
    if p: nat, q: nat :| Ahead(i, j, p, q) && Bonks(c, others, air, p, q, x, y) {
      assert Bonks(c, planes, air, p, q, x, y);
    }
  }

  lemma BonkNext(c: Setup, planes: seq<SimPlane>, air: seq<nat>, i: nat, j: nat, x: nat, y: nat)
    requires AirOk(planes, air) && Distinct(air) && i < j
    ensures j >= |air| ==> (BonkFrom(c, planes, air, i, j, x, y) <==> BonkFrom(c, planes, air, i + 1, i + 2, x, y))
    ensures j < |air| ==> (BonkFrom(c, planes, air, i, j, x, y) <==>
                             Bonks(c, planes, air, i, j, x, y) || BonkFrom(c, planes, air, i, j + 1, x, y))
    ensures j < |air| && Bonks(c, planes, air, i, j, x, y) ==> !BonkFrom(c, planes, air, i, j + 1, x, y)
  {
    if p: nat, q: nat :| Ahead(i, j, p, q) && Bonks(c, planes, air, p, q, x, y) {
      if j >= |air| {
        assert Ahead(i + 1, i + 2, p, q);
      } else if !(p == i && q == j) {
        assert Ahead(i, j + 1, p, q);
      }
    }
    if p: nat, q: nat :| Ahead(i + 1, i + 2, p, q) && Bonks(c, planes, air, p, q, x, y) {
      assert Ahead(i, j, p, q);
    }
    if p: nat, q: nat :| Ahead(i, j + 1, p, q) && Bonks(c, planes, air, p, q, x, y) {
      assert Ahead(i, j, p, q);
    }
    assert Ahead(i, j, i, j);
  }

  lemma PairOneCount(c: Setup, lg: Log, air: seq<nat>, i: nat, j: nat, x: nat, y: nat)
    requires AirOk(lg.st.planes, air) && Numbered(lg.st.planes) && i < j < |air|
    ensures Numbered(PairOne(c, lg, air[i], air[j]).st.planes)
    ensures SamePlaces(lg.st.planes, PairOne(c, lg, air[i], air[j]).st.planes)
    ensures Count(PairOne(c, lg, air[i], air[j]).ev, PlaneBonk(x, y))
         == Count(lg.ev, PlaneBonk(x, y)) + if Bonks(c, lg.st.planes, air, i, j, x, y) then 1 else 0
  {
  }

  lemma {:induction false} PairsFromCount(c: Setup, lg: Log, air: seq<nat>, i: nat, j: nat, x: nat, y: nat)
    requires AirOk(lg.st.planes, air) && Distinct(air) && Numbered(lg.st.planes) && i < j
    ensures Count(PairsFrom(c, lg, air, i, j).ev, PlaneBonk(x, y))
         == Count(lg.ev, PlaneBonk(x, y)) + if BonkFrom(c, lg.st.planes, air, i, j, x, y) then 1 else 0
    decreases |air| - i, |air| - j
  {
    if i >= |air| {
    } else if j >= |air| {
      BonkNext(c, lg.st.planes, air, i, j, x, y);
      PairsFromCount(c, lg, air, i + 1, i + 2, x, y);
    } else {
      var next := PairOne(c, lg, air[i], air[j]);
      BonkNext(c, lg.st.planes, air, i, j, x, y);
      PairOneCount(c, lg, air, i, j, x, y);
      BonkSame(c, lg.st.planes, next.st.planes, air, i, j + 1, x, y);
      PairsFromCount(c, next, air, i, j + 1, x, y);
    }
  }

  lemma {:induction false} PairsFromOnly(c: Setup, lg: Log, air: seq<nat>, i: nat, j: nat, e: SimEvent)
    requires AirOk(lg.st.planes, air) && !e.PlaneBonk? && !e.Separation?
    ensures Count(PairsFrom(c, lg, air, i, j).ev, e) == Count(lg.ev, e)
    decreases |air| - i, |air| - j
  {
    if i >= |air| {
    } else if j >= |air| {
      PairsFromOnly(c, lg, air, i + 1, i + 2, e);
    } else {
      PairsFromOnly(c, PairOne(c, lg, air[i], air[j]), air, i, j + 1, e);
    }
  }

  // ---------- what the step takes of the stars ----------

  /** The log after the third phase. */
  ghost function Paired(c: Setup, st: SimState, dt: real): (r: Log)
    ensures AirOk(r.st.planes, Airborne(Flown(c, st, dt).st.planes, 0))
  {
    var flown := Flown(c, st, dt);
    AirborneOk(flown.st.planes);
    PairsFrom(c, flown, Airborne(flown.st.planes, 0), 0, 1)
  }

  lemma StepIsPaired(c: Setup, st: SimState, dt: real)
    ensures StepLog(c, st, dt) == StarsFrom(c, Paired(c, st, dt), Airborne(Flown(c, st, dt).st.planes, 0), 0, 0)
  {
  }

  lemma {:induction false} PairsFromTaken(c: Setup, lg: Log, air: seq<nat>, i: nat, j: nat)
    requires AirOk(lg.st.planes, air)
    ensures PairsFrom(c, lg, air, i, j).st.taken == lg.st.taken
    decreases |air| - i, |air| - j
  {
    if i >= |air| {
    } else if j >= |air| {
      PairsFromTaken(c, lg, air, i + 1, i + 2);
    } else {
      PairsFromTaken(c, PairOne(c, lg, air[i], air[j]), air, i, j + 1);
    }
  }

  lemma {:induction false} FlyFromTaken(lg: Log, i: nat, dt: real)
    ensures FlyFrom(lg, i, dt).st.taken == lg.st.taken
    decreases |lg.st.planes| - i
  {
    if i < |lg.st.planes| { FlyFromTaken(FlyOne(lg, i, dt), i + 1, dt); }
  }

  lemma {:induction false} ZoneFromTaken(c: Setup, lg: Log, i: nat)
    ensures ZoneFrom(c, lg, i).st.taken == lg.st.taken
    decreases |lg.st.planes| - i
  {
    if i < |lg.st.planes| { ZoneFromTaken(c, ZoneOne(c, lg, i), i + 1); }
  }

  lemma PairedTaken(c: Setup, st: SimState, dt: real)
    ensures Paired(c, st, dt).st.taken == st.taken
  {
    var start := Log(st.(t := st.t + dt), []);
    FlyFromTaken(start, 0, dt);
    ZoneFromTaken(c, FlyFrom(start, 0, dt), 0);
    AirborneOk(Flown(c, st, dt).st.planes);
    PairsFromTaken(c, Flown(c, st, dt), Airborne(Flown(c, st, dt).st.planes, 0), 0, 1);
  }

  /** A plane of the list reaches a star in the last phase exactly when it flies on near it. */
  lemma ReachesIs(c: Setup, st: SimState, dt: real, k: nat, x: nat)
    requires k in Airborne(Flown(c, st, dt).st.planes, 0) && x < |c.w.stars|
    ensures k < |Paired(c, st, dt).st.planes|
    ensures Reaches(c, Paired(c, st, dt).st.planes[k], x) <==> Touches(c, LeapOf(c, st, dt), k, x)
  {
    AirIs(c, st, dt, k);
    PlaneStep(c, st, dt, k);
    StarsFromAt(c, Paired(c, st, dt), Airborne(Flown(c, st, dt).st.planes, 0), 0, 0, k);
  }

  lemma AsksIs(c: Setup, st: SimState, dt: real, p: nat, x: nat)
    requires x < |c.w.stars|
    ensures var air := Airborne(Flown(c, st, dt).st.planes, 0);
            AsksAt(c, Paired(c, st, dt).st.planes, air, 0, 0, p, x) <==>
              p < |air| && Touches(c, LeapOf(c, st, dt), air[p], x)
  {
    var air := Airborne(Flown(c, st, dt).st.planes, 0);
    if p < |air| { ReachesIs(c, st, dt, air[p], x); }
  }

  /** A star is taken after a step exactly when it was before, or some plane flies on near it. */
  lemma StarStep(c: Setup, st: SimState, dt: real, x: nat)
    requires x < |c.w.stars| == |st.taken|
    ensures |StepLog(c, st, dt).st.taken| == |st.taken|
    ensures StepLog(c, st, dt).st.taken[x] <==>
              st.taken[x] || exists k: nat :: Touches(c, LeapOf(c, st, dt), k, x)
  {
    var l, paired, air := LeapOf(c, st, dt), Paired(c, st, dt), Airborne(Flown(c, st, dt).st.planes, 0);
    PairedTaken(c, st, dt);
    StarsFromTaken(c, paired, air, 0, 0, x);
    if p: nat :| AsksAt(c, paired.st.planes, air, 0, 0, p, x) {
      AsksIs(c, st, dt, p, x);
    }
    if k: nat :| Touches(c, l, k, x) {
      AirIs(c, st, dt, k);
      var p: nat :| p < |air| && air[p] == k;
      AsksIs(c, st, dt, p, x);
    }
  }

  lemma WinsIs(c: Setup, st: SimState, dt: real, k: nat, x: nat)
    requires x < |c.w.stars| == |st.taken|
    ensures WinsFrom(c, Paired(c, st, dt).st, Airborne(Flown(c, st, dt).st.planes, 0), 0, 0, k, x)
       <==> Wins(c, LeapOf(c, st, dt), st.taken, k, x)
  {
    var l, paired, air := LeapOf(c, st, dt), Paired(c, st, dt), Airborne(Flown(c, st, dt).st.planes, 0);
    PairedTaken(c, st, dt);
    AirborneAscends(Flown(c, st, dt).st.planes, 0);
    if p: nat :| p < |air| && air[p] == k && FirstAsks(c, paired.st.planes, air, 0, 0, p, x) {
      AsksIs(c, st, dt, p, x);
      forall j: nat | j < k ensures !Touches(c, l, j, x) {
        AirIs(c, st, dt, j);
        if q: nat :| q < |air| && air[q] == j { AsksIs(c, st, dt, q, x); }
      }
    }
    if Wins(c, l, st.taken, k, x) {
      WinnerAsks(c, st, dt, k, x);
    }
  }

  lemma WinnerAsks(c: Setup, st: SimState, dt: real, k: nat, x: nat)
    requires x < |c.w.stars| && Touches(c, LeapOf(c, st, dt), k, x)
    requires forall j: nat :: j < k ==> !Touches(c, LeapOf(c, st, dt), j, x)
    ensures var air := Airborne(Flown(c, st, dt).st.planes, 0);
            exists p: nat :: p < |air| && air[p] == k && FirstAsks(c, Paired(c, st, dt).st.planes, air, 0, 0, p, x)
  {
    var planes, air := Paired(c, st, dt).st.planes, Airborne(Flown(c, st, dt).st.planes, 0);
    AirborneAscends(Flown(c, st, dt).st.planes, 0);
    AirIs(c, st, dt, k);
    var p: nat :| p < |air| && air[p] == k;
    AsksIs(c, st, dt, p, x);
    forall q: nat | q < p ensures !AsksAt(c, planes, air, 0, 0, q, x) {
      AsksIs(c, st, dt, q, x);
    }
    assert FirstAsks(c, planes, air, 0, 0, p, x);
  }

  // ---------- every event of a step ----------

  lemma FliesIs(c: Setup, st: SimState, dt: real, e: SimEvent)
    requires e.Arrived? || e.WentLost?
    ensures FliesTo(st.planes, 0, dt, e) <==> Happens(c, LeapOf(c, st, dt), st, e)
  {
    if e.id < |st.planes| { PlaneStep(c, st, dt, e.id); }
  }

  lemma ZonesIs(c: Setup, st: SimState, dt: real, e: SimEvent)
    requires e.ZoneBonk?
    ensures ZonesTo(c, FlyFrom(Log(st.(t := st.t + dt), []), 0, dt).st.planes, 0, e)
       <==> Happens(c, LeapOf(c, st, dt), st, e)
  {
    var start := Log(st.(t := st.t + dt), []);
    if e.id < |st.planes| {
      FlyFromAt(start, 0, dt, e.id);
      EntersIs(c, st, dt, e.id, FlyFrom(start, 0, dt).st.planes[e.id]);
    }
  }

  lemma EntersIs(c: Setup, st: SimState, dt: real, k: nat, mid: SimPlane)
    requires k < |st.planes| && Flew(st.planes[k], mid, dt)
    ensures var l := LeapOf(c, st, dt);
            && (Enters(c, l, k) <==> mid.state == Flying && !Rolling(mid) && ZoneOf(c, mid.pos) != Clear)
            && (mid.state == Flying ==> (OverBlocked(c, l.b[k].pos) <==> ZoneOf(c, mid.pos) == NoFly))
  {
    var same, flown := PlaneMet(c, st, dt, k);
    assert same.pos == mid.pos && same.state == mid.state;
    EntersOf(c, LeapOf(c, st, dt), dt, k, mid);
  }

  lemma EntersOf(c: Setup, l: Leap, dt: real, k: nat, mid: SimPlane)
    requires k < |l.a| == |l.b| && Flew(l.a[k], mid, dt) && l.b[k].pos == mid.pos && l.b[k].s == mid.s
    ensures Enters(c, l, k) <==> mid.state == Flying && !Rolling(mid) && ZoneOf(c, mid.pos) != Clear
    ensures mid.state == Flying ==> (OverBlocked(c, l.b[k].pos) <==> ZoneOf(c, mid.pos) == NoFly)
  {
    ZoneIs(c, mid.pos);
  }

  lemma BonksIs(c: Setup, st: SimState, dt: real, x: nat, y: nat)
    ensures AirOk(Flown(c, st, dt).st.planes, Airborne(Flown(c, st, dt).st.planes, 0))
    ensures var flown := Flown(c, st, dt).st.planes;
            BonkFrom(c, flown, Airborne(flown, 0), 0, 1, x, y) <==>
              PairWithin(c, LeapOf(c, st, dt), x, y, 0.0, BONK_BLOCKS * CELL)
  {
    var l, flown := LeapOf(c, st, dt), Flown(c, st, dt).st.planes;
    var air := Airborne(flown, 0);
    AirborneOk(flown);
    AirborneAscends(flown, 0);
    PlacesKept(c, st, dt);
    if p: nat, q: nat :| Ahead(0, 1, p, q) && Bonks(c, flown, air, p, q, x, y) {
      AirIs(c, st, dt, air[p]);
      AirIs(c, st, dt, air[q]);
    }
    if PairWithin(c, l, x, y, 0.0, BONK_BLOCKS * CELL) {
      var p, q := PlacesInAir(c, st, dt, x, y);
      assert Bonks(c, flown, air, p, q, x, y) && Ahead(0, 1, p, q);
    }
  }

  lemma BothUpIs(c: Setup, st: SimState, dt: real, x: nat, y: nat)
    ensures var l, flown := LeapOf(c, st, dt), Flown(c, st, dt).st.planes;
            && (BothUp(flown, x, y) <==> InAir(c, l, x) && InAir(c, l, y))
            && (BothUp(flown, x, y) ==> Apart(c, flown, x, y) == c.m(l.b[x].pos, l.b[y].pos))
  {
    var flown := Flown(c, st, dt).st.planes;
    AirborneExact(flown, 0, x);
    AirborneExact(flown, 0, y);
    AirIs(c, st, dt, x);
    AirIs(c, st, dt, y);
    PlacesKept(c, st, dt);
  }

  /** The rule of a pair after a step: disarmed when it was too close, armed again when it was far apart. */
  lemma RuleStep(c: Setup, st: SimState, dt: real, x: nat, y: nat)
    requires Numbered(st.planes)
    ensures var l := LeapOf(c, st, dt);
            Disarmed(StepLog(c, st, dt).st.sep, x, y) <==>
              || PairWithin(c, l, x, y, BONK_BLOCKS * CELL, SEP_BLOCKS * CELL)
              || (Disarmed(st.sep, x, y)
                  && !(InAir(c, l, x) && InAir(c, l, y) && x < y && c.m(l.b[x].pos, l.b[y].pos) > SEP_REARM * CELL))
    ensures Count(StepLog(c, st, dt).ev, Separation(x, y))
         == if Happens(c, LeapOf(c, st, dt), st, Separation(x, y)) then 1 else 0
  {
    StepRule(c, st, dt, x, y);
    BothUpIs(c, st, dt, x, y);
  }

  lemma NumberedThrough(c: Setup, st: SimState, dt: real)
    requires Numbered(st.planes)
    ensures var start := Log(st.(t := st.t + dt), []);
            Numbered(start.st.planes) && Numbered(FlyFrom(start, 0, dt).st.planes)
    ensures Numbered(Flown(c, st, dt).st.planes) && Numbered(Paired(c, st, dt).st.planes)
  {
    var start := Log(st.(t := st.t + dt), []);
    forall k: nat | k < |st.planes| ensures FlyFrom(start, 0, dt).st.planes[k].id == k {
      FlyFromAt(start, 0, dt, k);
    }
    FlownNumbered(c, st, dt);
    var flown := Flown(c, st, dt);
    AirborneOk(flown.st.planes);
    forall k: nat | k < |st.planes| ensures Paired(c, st, dt).st.planes[k].id == k {
      PairsFromAt(c, flown, Airborne(flown.st.planes, 0), 0, 1, k);
    }
  }

  /** The events of the phases, one phase after the other. */
  lemma PhasesCount(c: Setup, st: SimState, dt: real, e: SimEvent)
    requires Numbered(st.planes) && !e.Separation?
    ensures var start := Log(st.(t := st.t + dt), []);
            var mid, flown := FlyFrom(start, 0, dt), Flown(c, st, dt);
            var air := Airborne(flown.st.planes, 0);
            && AirOk(flown.st.planes, air)
            && Count(Paired(c, st, dt).ev, e)
               == (if FliesTo(st.planes, 0, dt, e) then 1 else 0) + (if ZonesTo(c, mid.st.planes, 0, e) then 1 else 0)
                + if e.PlaneBonk? && BonkFrom(c, flown.st.planes, air, 0, 1, e.a, e.b) then 1 else 0
  {
    var start := Log(st.(t := st.t + dt), []);
    var flown := Flown(c, st, dt);
    var air := Airborne(flown.st.planes, 0);
    NumberedThrough(c, st, dt);
    FlyFromCount(start, 0, dt, e);
    ZoneFromCount(c, FlyFrom(start, 0, dt), 0, e);
    AirborneOk(flown.st.planes);
    AirborneAscends(flown.st.planes, 0);
    if e.PlaneBonk? {
      PairsFromCount(c, flown, air, 0, 1, e.a, e.b);
    } else {
      PairsFromOnly(c, flown, air, 0, 1, e);
    }
  }

  lemma StarCount(c: Setup, st: SimState, dt: real, e: SimEvent)
    requires Numbered(st.planes) && |st.taken| == |c.w.stars| && e.StarTaken?
    ensures Count(StepLog(c, st, dt).ev, e) == if Happens(c, LeapOf(c, st, dt), st, e) then 1 else 0
  {
    var paired, air := Paired(c, st, dt), Airborne(Flown(c, st, dt).st.planes, 0);
    PhasesCount(c, st, dt, e);
    PairedTaken(c, st, dt);
    StepIsPaired(c, st, dt);
    NumberedThrough(c, st, dt);
    AirborneAscends(Flown(c, st, dt).st.planes, 0);
    if e.star < |c.w.stars| {
      StarsFromCount(c, paired, air, 0, 0, e.id, e.star);
      WinsIs(c, st, dt, e.id, e.star);
    } else {
      StarsFromOnly(c, paired, air, 0, 0, e);
    }
  }

  /** The events of a step are exactly those that happen, each once. */
  lemma StepEvents(c: Setup, st: SimState, dt: real, e: SimEvent)
    requires Numbered(st.planes) && |st.taken| == |c.w.stars|
    ensures Count(StepLog(c, st, dt).ev, e) == if Happens(c, LeapOf(c, st, dt), st, e) then 1 else 0
  {
    match e {
      case StarTaken(_, _) => StarCount(c, st, dt, e);
      case Separation(x, y) => RuleStep(c, st, dt, x, y);
      case _ => OtherCount(c, st, dt, e);
    }
  }

  lemma OtherCount(c: Setup, st: SimState, dt: real, e: SimEvent)
    requires Numbered(st.planes) && !e.StarTaken? && !e.Separation?
    ensures Count(StepLog(c, st, dt).ev, e) == if Happens(c, LeapOf(c, st, dt), st, e) then 1 else 0
  {
    PhasesCount(c, st, dt, e);
    StepIsPaired(c, st, dt);
    StarsFromOnly(c, Paired(c, st, dt), Airborne(Flown(c, st, dt).st.planes, 0), 0, 0, e);
    match e {
      case Arrived(_) => FliesIs(c, st, dt, e);
      case WentLost(_) => FliesIs(c, st, dt, e);
      case ZoneBonk(_, _) => ZonesIs(c, st, dt, e);
      case PlaneBonk(x, y) => BonksIs(c, st, dt, x, y);
    }
  }

  // ---------- the stars of every plane ----------

  /** The number of the first `n` stars that plane `k` wins. */
  ghost function Won(c: Setup, l: Leap, taken: seq<bool>, k: nat, n: nat): nat {
    if n == 0 then 0 else Won(c, l, taken, k, n - 1) + if Wins(c, l, taken, k, n - 1) then 1 else 0
  }

  /** How often plane `k` is given one of the first `n` stars in these events. */
  ghost function Given(ev: seq<SimEvent>, k: nat, n: nat): nat {
    if n == 0 then 0 else Given(ev, k, n - 1) + Count(ev, StarTaken(k, n - 1))
  }

  lemma {:induction false} GivenAppend(ev: seq<SimEvent>, e: SimEvent, k: nat, n: nat)
    ensures Given(ev + [e], k, n) == Given(ev, k, n) + if e.StarTaken? && e.id == k && e.star < n then 1 else 0
  {
    if n > 0 { GivenAppend(ev, e, k, n - 1); }
  }

  function StarsOf(k: nat): Weights {
    Weights(0, 1, 0, 0, Some(k), None)
  }

  lemma {:induction false} GivenIsWeight(ev: seq<SimEvent>, k: nat, n: nat, j: nat)
    requires j <= |ev| && forall i :: 0 <= i < |ev| && ev[i].StarTaken? ==> ev[i].star < n
    ensures Running(StarsOf(k), ev, j) == Given(ev[..j], k, n)
  {
    if j == 0 {
      NothingGiven(k, n);
    } else {
      GivenIsWeight(ev, k, n, j - 1);
      GivenAppend(ev[..j - 1], ev[j - 1], k, n);
      assert ev[..j - 1] + [ev[j - 1]] == ev[..j];
    }
  }

  lemma {:induction false} NothingGiven(k: nat, n: nat)
    ensures Given([], k, n) == 0
  {
    if n > 0 { NothingGiven(k, n - 1); }
  }

  lemma {:induction false} StarsOfOne(planes: seq<SimPlane>, k: nat, n: nat)
    requires n <= |planes| && Numbered(planes)
    ensures PlanesWeight(StarsOf(k), planes, n) == if k < n then planes[k].stars else 0
  {
    if n > 0 {
      StarsOfOne(planes, k, n - 1);
      TimesIsProduct(1, planes[n - 1].stars);
    }
  }

  lemma {:induction false} GivenIsWon(c: Setup, st: SimState, dt: real, k: nat, n: nat)
    requires Numbered(st.planes) && |st.taken| == |c.w.stars|
    ensures Given(StepLog(c, st, dt).ev, k, n) == Won(c, LeapOf(c, st, dt), st.taken, k, n)
  {
    if n > 0 {
      GivenIsWon(c, st, dt, k, n - 1);
      StepEvents(c, st, dt, StarTaken(k, n - 1));
    }
  }

  lemma NumberedAfter(c: Setup, st: SimState, dt: real)
    requires Numbered(st.planes)
    ensures Numbered(StepLog(c, st, dt).st.planes)
  {
    StepKeeps(PHONE_SCORE, c, st, dt);
    forall k: nat | k < |st.planes| ensures StepLog(c, st, dt).st.planes[k].id == k {
      assert EvolvesAt(st.planes, StepLog(c, st, dt).st.planes, k);
    }
  }

  /** A plane gets one star more for each one it wins. */
  lemma PlaneStars(c: Setup, st: SimState, dt: real, k: nat)
    requires Numbered(st.planes) && |st.taken| == |c.w.stars| && k < |st.planes|
    ensures var l := LeapOf(c, st, dt);
            l.b[k].stars == l.a[k].stars + Won(c, l, st.taken, k, |c.w.stars|)
  {
    var lg, v := StepLog(c, st, dt), StarsOf(k);
    StepKeeps(v, c, st, dt);
    NumberedAfter(c, st, dt);
    StarsOfOne(st.planes, k, |st.planes|);
    StarsOfOne(lg.st.planes, k, |st.planes|);
    NoTakenWeight(v, st.taken, |st.taken|);
    NoTakenWeight(v, lg.st.taken, |st.taken|);
    TimesIsProduct(0, st.violations);
    TimesIsProduct(0, lg.st.violations);
    forall i | 0 <= i < |lg.ev| && lg.ev[i].StarTaken? ensures lg.ev[i].star < |c.w.stars| {
      StepEvents(c, st, dt, lg.ev[i]);
      assert lg.ev[i] in multiset(lg.ev);
    }
    GivenIsWeight(lg.ev, k, |c.w.stars|, |lg.ev|);
    assert lg.ev[..|lg.ev|] == lg.ev;
    GivenIsWon(c, st, dt, k, |c.w.stars|);
  }

  // ---------- whole runs ----------

  /** The plane's route was drawn, and completed. */
  predicate Completed(c: Setup, sol: Solution, k: nat)
    requires k < |c.w.planes|
  {
    var id := c.w.planes[k].id;
    id in sol && |sol[id].cells| >= 2 && sol[id].complete
  }

  lemma StartCompleted(c: Setup, sol: Solution, k: nat)
    requires MissionsOk(c.w) && k < |c.w.planes|
    ensures var p := InitialState(c, sol).planes[k];
            && p.state in {Home, Flying}
            && (p.state == Flying ==> (p.complete <==> Completed(c, sol, k)))
  {
  }

  /** Over any run, a plane that ends done had a complete route, and one that ends lost an incomplete one. */
  lemma {:induction false} DoneWasComplete(c: Setup, sol: Solution, dts: seq<real>, logs: seq<Log>, n: nat, k: nat)
    requires MissionsOk(c.w) && IsRun(c, InitialState(c, sol), dts, logs) && n <= |logs| && k < |c.w.planes|
    ensures var planes := StateAt(InitialState(c, sol), logs, n).planes;
            && k < |planes|
            && (planes[k].state == Done ==> Completed(c, sol, k))
            && (planes[k].state == Lost ==> !Completed(c, sol, k))
            && (planes[k].state == Flying ==> (planes[k].complete <==> Completed(c, sol, k)))
  {
    if n == 0 {
      StartCompleted(c, sol, k);
    } else {
      DoneWasComplete(c, sol, dts, logs, n - 1, k);
      assert StepAt(c, InitialState(c, sol), dts, logs, n - 1);
      PlaneStep(c, StateAt(InitialState(c, sol), logs, n - 1), dts[n - 1], k);
    }
  }

  /** A plane starts at the first cell drawn for it and goes by the centres of the cells, a landing one two
      cells farther along its runway; it rolls out from the last cell drawn on, and lifts off at the end of
      its runway.  Without a drawn route it stays at home. */
  lemma PlaneStarts(c: Setup, pl: Plane, sol: Solution)
    requires pl.mission == Land ==> pl.target < |c.w.runways|
    requires pl.mission == Depart ==> pl.rwIdx < |c.w.runways|
    ensures var p := MakePlane(c, pl, sol);
            && p.id == pl.id && p.speed == pl.speed && p.s == 0.0 && p.stars == 0
            && (p.state == Flying <==> pl.id in sol && |sol[pl.id].cells| >= 2)
            && (p.state != Flying ==> p.state == Home)
    ensures var p := MakePlane(c, pl, sol);
            p.state == Flying ==>
              var cells := sol[pl.id].cells;
              && |p.pts| == |cells| + (if pl.mission == Land then 2 else 0)
              && (forall i :: 0 <= i < |cells| ==> p.pts[i] == Centre(cells[i]))
              && p.pos == Centre(cells[0]) && p.complete == sol[pl.id].complete
              && ArcLengths(c.m, p.pts, p.cums)
    ensures var p := MakePlane(c, pl, sol);
            p.state == Flying && pl.mission == Land ==>
              var r, n := c.w.runways[pl.target], |sol[pl.id].cells|;
              && p.pts[n] == Centre(Cell(r.thr.x + r.dir.x, r.thr.y + r.dir.y))
              && p.pts[n + 1] == Centre(Cell(r.thr.x + 2 * r.dir.x, r.thr.y + 2 * r.dir.y))
              && p.landS == LengthTo(c.m, p.pts, n - 1)
    ensures var p := MakePlane(c, pl, sol);
            p.state == Flying && pl.mission == Depart ==>
              var n := |c.w.runways[pl.rwIdx].cells|;
              p.liftS == if 0 < n <= |p.pts| then Some(LengthTo(c.m, p.pts, n - 1)) else None
    ensures var p := MakePlane(c, pl, sol);
            && (pl.mission != Land ==> p.landS == NEVER)
            && (pl.mission != Depart ==> p.liftS == Some(0.0))
  {
  }

  /** In any step of any run, a plane under way comes to lie on its route at its new arc length. */
  lemma RunPlace(c: Setup, sol: Solution, dts: seq<real>, logs: seq<Log>, n: nat, k: nat)
    requires MissionsOk(c.w) && IsRun(c, InitialState(c, sol), dts, logs) && n < |logs| && k < |c.w.planes|
    ensures k < |StateAt(InitialState(c, sol), logs, n).planes| == |logs[n].st.planes|
    ensures var p, q := StateAt(InitialState(c, sol), logs, n).planes[k], logs[n].st.planes[k];
            p.state == Flying ==>
              var total := p.cums[|p.cums| - 1];
              && Ascending(p.cums) && p.cums[0] == 0.0
              && LiesAt(p.pts, p.cums, if q.s < total then q.s else total, q.pos)
  {
    var start, st := InitialState(c, sol), StateAt(InitialState(c, sol), logs, n);
    RunKeeps(PHONE_SCORE, c, start, dts, logs, n);
    RunStepKeeps(PHONE_SCORE, c, start, dts, logs, n);
    assert EvolvesAt(start.planes, st.planes, k) && StepAt(c, start, dts, logs, n);
    if st.planes[k].state == Flying {
      PlaneStarts(c, c.w.planes[k], sol);
      ArcLengthsAscend(c.m, start.planes[k].pts, start.planes[k].cums);
      PlanePlace(c, st, dts[n], k);
    }
  }
}
