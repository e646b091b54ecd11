/** The simulation object: what it starts with and what a step does to it. */
module BonkSim {
  import opened Common
  import opened BonkWorld
  import opened BonkRouter
  import opened BonkFlight
  import opened BonkSimModel
  import opened BonkRun

  const SIM_DT := 1.0 / 30.0
  const MAX_SIM_T := 120.0
  const MAX_STEPS := 3601
  const EARLY_PER_SECOND := 10

  ghost predicate WorldOk(w: World) {
    GridOk(w) && MissionsOk(w)
  }

  /** The setup of a simulation is determined by the world and the distance. */
  ghost predicate IsSetup(c: Setup, w: World, m: Metric) {
    c.w == w && c.m == m && forall n :: n in c.weather <==> StormIndex(w, n, |w.clouds|, 0)
  }

  /** No plane is under way any more, or the time is up. */
  predicate Finished(st: SimState) {
    (forall k :: 0 <= k < |st.planes| ==> st.planes[k].state != Flying) || st.t > MAX_SIM_T
  }

  /** The arc lengths of a plane under way start at zero and never decrease. */
  ghost predicate LengthsOk(p: SimPlane) {
    p.state == Flying ==> Ascending(p.cums) && p.cums[0] == 0.0
  }

  ghost predicate AllLengthsOk(planes: seq<SimPlane>) {
    forall k :: 0 <= k < |planes| ==> LengthsOk(planes[k])
  }

  method BuildPlane(c: Setup, pl: Plane, sol: Solution) returns (p: SimPlane)
    requires pl.mission == Land ==> pl.target < |c.w.runways|
    requires pl.mission == Depart ==> pl.rwIdx < |c.w.runways|
    ensures p == MakePlane(c, pl, sol) && LengthsOk(p)
  {
    if pl.id !in sol || |sol[pl.id].cells| < 2 {
      return PlaneRecord(pl.id, pl.speed, [], [], NEVER, Some(0.0), false, 0.0, Centre(pl.spawn), Home, 0);
    }
    var cells := sol[pl.id].cells;
    var pts := Centres(RunCells(c.w, pl, cells));
    var cums := CumLens(c.m, pts);
    assert cums == Lengths(c.m, pts);
    ArcLengthsAscend(c.m, pts, cums);
    p := PlaneRecord(pl.id, pl.speed, pts, cums, if pl.mission == Land then cums[|cells| - 1] else NEVER,
                     LiftOff(c.w, pl, cums), sol[pl.id].complete, 0.0, pts[0], Flying, 0);
  }

  class Sim {
    const c: Setup
    var t: real
    var violations: nat
    var sepState: map<(nat, nat), bool>
    var starsTaken: seq<bool>
    var planes: seq<SimPlane>

    function State(): SimState
      reads this
    {
      SimState(t, violations, sepState, starsTaken, planes)
    }

    ghost predicate Valid()
      reads this
    {
      AllLengthsOk(planes) && |starsTaken| == |c.w.stars|
    }

    constructor (w: World, m: Metric, sol: Solution)
      requires WorldOk(w)
      ensures Valid() && IsSetup(c, w, m) && WeatherOf(w, c.weather)
      ensures State() == InitialState(c, sol)
    {
      var weather := WeatherIndexSet(w);
      var setup := Setup(w, weather, m);
      var built: seq<SimPlane> := [];
      for i := 0 to |w.planes|
        invariant |built| == i
        invariant forall j :: 0 <= j < i ==> built[j] == MakePlane(setup, w.planes[j], sol) && LengthsOk(built[j])
      {
        var p := BuildPlane(setup, w.planes[i], sol);
        built := built + [p];
      }
      c := setup;
      t, violations, sepState := 0.0, 0, map[];
      starsTaken := seq(|w.stars|, _ => false);
      planes := built;
    }

    /** One plane under way flies on, and arrives or gets lost at the end of its route. */
    method FlyPlane(k: nat, dt: real, ev0: seq<SimEvent>) returns (ev: seq<SimEvent>)
      requires Valid() && k < |planes| && planes[k].state == Flying
      modifies this`planes
      ensures Valid() && Log(State(), ev) == FlyOne(Log(old(State()), ev0), k, dt)
    {
      ev := ev0;
      ghost var want := FlyOne(Log(State(), ev0), k, dt);
      var p: SimPlane := planes[k];
      var total := p.cums[|p.cums| - 1];
      var s := FlownLength(p, dt);
      var pos := PointAlong(p.pts, p.cums, if s < total then s else total);
      p := p.(s := s, pos := pos);
      if s >= total {
        if p.complete {
          p := p.(state := Done);
          ev := ev + [Arrived(p.id)];
        } else {
          p := p.(state := Lost);
          ev := ev + [WentLost(p.id)];
        }
      }
      assert p == want.st.planes[k];
      planes := planes[k := p];
      assert planes == want.st.planes && ev == want.ev;
    }

    /** Phase 1: every plane under way flies on. */
    method FlyPhase(dt: real, ev0: seq<SimEvent>) returns (ev: seq<SimEvent>)
      requires Valid()
      modifies this`planes
      ensures Valid() && Log(State(), ev) == FlyFrom(Log(old(State()), ev0), 0, dt)
    {
      ev := ev0;
      var n := |planes|;
      ghost var end := FlyFrom(Log(State(), ev), 0, dt);
      for k := 0 to n
        invariant |planes| == n && Valid()
        invariant FlyFrom(Log(State(), ev), k, dt) == end
      {
        if planes[k].state == Flying {
          ev := FlyPlane(k, dt, ev);
        }
      }
    }

    /** Phase 2: no-fly zones intercept and storms bonk planes in the air. */
    method ZonePhase(ev0: seq<SimEvent>) returns (ev: seq<SimEvent>)
      requires Valid()
      modifies this`planes
      ensures Valid() && Log(State(), ev) == ZoneFrom(c, Log(old(State()), ev0), 0)
    {
      ev := ev0;
      var n := |planes|;
      for k := 0 to n
        invariant |planes| == n && Valid()
        invariant ZoneFrom(c, Log(State(), ev), k) == ZoneFrom(c, Log(old(State()), ev0), 0)
      {
        var p: SimPlane := planes[k];
        if p.state == Flying && !Rolling(p) {
          var zone := ZoneOf(c, p.pos);
          if zone != Clear {
            planes := planes[k := p.(state := Crashed)];
            ev := ev + [ZoneBonk(p.id, zone == NoFly)];
          }
        }
      }
    }

    /** Separation and collision of one pair. */
    method SepCheck(i: nat, j: nat, ev0: seq<SimEvent>) returns (ev: seq<SimEvent>)
      requires Valid() && i < |planes| && j < |planes|
      modifies this`planes, this`sepState, this`violations
      ensures Valid() && Log(State(), ev) == PairOne(c, Log(old(State()), ev0), i, j)
    {
      ev := ev0;
      var a, b := planes[i], planes[j];
      var d := c.m(a.pos, b.pos);
      var key := (a.id, b.id);
      if d < BONK_BLOCKS * CELL {
        planes := planes[i := a.(state := Crashed)];
        planes := planes[j := b.(state := Crashed)];
        ev := ev + [PlaneBonk(a.id, b.id)];
      } else if d < SEP_BLOCKS * CELL {
        if key !in sepState || sepState[key] {
          sepState := sepState[key := false];
          violations := violations + 1;
          ev := ev + [Separation(a.id, b.id)];
        }
      } else if d > SEP_REARM * CELL {
        sepState := sepState[key := true];
      }
    }

    /** Phase 3: separation and collisions of every two planes in the air. */
    method PairPhase(air: seq<nat>, ev0: seq<SimEvent>) returns (ev: seq<SimEvent>)
      requires Valid() && AirOk(planes, air)
      modifies this`planes, this`sepState, this`violations
      ensures Valid() && Log(State(), ev) == PairsFrom(c, Log(old(State()), ev0), air, 0, 1)
    {
      ev := ev0;
      ghost var end := PairsFrom(c, Log(State(), ev), air, 0, 1);
      for i := 0 to |air|
        invariant Valid() && AirOk(planes, air)
        invariant PairsFrom(c, Log(State(), ev), air, i, i + 1) == end
      {
        var j := i + 1;
        while j < |air|
          invariant i + 1 <= j && Valid() && AirOk(planes, air)
          invariant PairsFrom(c, Log(State(), ev), air, i, j) == end
        {
          ev := SepCheck(air[i], air[j], ev);
          j := j + 1;
        }
      }
    }

    /** Phase 4: planes still in the air collect the stars they are near. */
    method StarPhase(air: seq<nat>, ev0: seq<SimEvent>) returns (ev: seq<SimEvent>)
      requires Valid() && AirOk(planes, air)
      modifies this`planes, this`starsTaken
      ensures Valid() && Log(State(), ev) == StarsFrom(c, Log(old(State()), ev0), air, 0, 0)
    {
      ev := ev0;
      ghost var end := StarsFrom(c, Log(State(), ev), air, 0, 0);
      for i := 0 to |air|
        invariant Valid() && AirOk(planes, air)
        invariant StarsFrom(c, Log(State(), ev), air, i, 0) == end
      {
        for star := 0 to |c.w.stars|
          invariant Valid() && AirOk(planes, air)
          invariant StarsFrom(c, Log(State(), ev), air, i, star) == end
        {
          ev := TryStar(air[i], star, ev);
        }
      }
    }

    /** One plane and one star. */
    method TryStar(k: nat, star: nat, ev0: seq<SimEvent>) returns (ev: seq<SimEvent>)
      requires Valid() && k < |planes| && star < |c.w.stars|
      modifies this`planes, this`starsTaken
      ensures Valid() && Log(State(), ev) == StarOne(c, Log(old(State()), ev0), k, star)
    {
      ev := ev0;
      var p := planes[k];
      if p.state == Flying && !starsTaken[star] && c.m(p.pos, Centre(c.w.stars[star])) < CELL * STAR_REACH {
        starsTaken := starsTaken[star := true];
        planes := planes[k := p.(stars := p.stars + 1)];
        ev := ev + [StarTaken(p.id, star)];
      }
    }

    /** One step of the simulation, as the model defines it. */
    method Step(dt: real) returns (ev: seq<SimEvent>)
      requires Valid()
      modifies this
      ensures Valid() && Log(State(), ev) == StepLog(c, old(State()), dt)
    {
      ghost var st := State();
      ev := FirstHalf(dt);
      ghost var flown := Log(State(), ev);
      var air := Airborne(planes, 0);
      AirborneOk(planes);
      ev := PairPhase(air, ev);
      ghost var paired := Log(State(), ev);
      ev := StarPhase(air, ev);
      assert paired == PairsFrom(c, flown, air, 0, 1);
      assert Log(State(), ev) == StarsFrom(c, paired, air, 0, 0);
    }

    /** The clock and the first two phases. */
    method FirstHalf(dt: real) returns (ev: seq<SimEvent>)
      requires Valid()
      modifies this`t, this`planes
      ensures Valid() && Log(State(), ev) == Flown(c, old(State()), dt)
    {
      t := t + dt;
      ev := FlyPhase(dt, []);
      ev := ZonePhase(ev);
    }
  }
}
