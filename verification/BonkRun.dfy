/** Whole runs of the simulation: how they start, the results they end with, and the two scores: the
    one the phone folds over events and the one the server reads off the final state. */
module BonkRun {
  import opened Common
  import opened BonkWorld
  import opened BonkFlight
  import opened BonkSimModel
  import opened BonkScore

  datatype PlanePath = PlanePath(cells: seq<Cell>, complete: bool)

  type Solution = map<nat, PlanePath>

  // ---------- the start of a run ----------

  /** Missions refer to runways of the world. */
  ghost predicate MissionsOk(w: World) {
    forall i :: 0 <= i < |w.planes| ==>
      && (w.planes[i].mission == Land ==> w.planes[i].target < |w.runways|)
      && (w.planes[i].mission == Depart ==> w.planes[i].rwIdx < |w.runways|)
  }

  /** The drawn cells, followed for a landing by two cells of roll-out beyond the threshold. */
  function RunCells(w: World, pl: Plane, cells: seq<Cell>): seq<Cell>
    requires pl.mission == Land ==> pl.target < |w.runways|
  {
    if pl.mission != Land then cells else
      var r := w.runways[pl.target];
      cells + [Cell(r.thr.x + r.dir.x, r.thr.y + r.dir.y), Cell(r.thr.x + r.dir.x * 2, r.thr.y + r.dir.y * 2)]
  }

  function Lengths(m: Metric, pts: seq<Vec>): seq<real> {
    seq(|pts|, k requires 0 <= k < |pts| => LengthTo(m, pts, k))
  }

  /** The arc length at which a departing plane leaves its runway; undefined if the route is shorter. */
  function LiftOff(w: World, pl: Plane, cums: seq<real>): Option<real>
    requires pl.mission == Depart ==> pl.rwIdx < |w.runways|
  {
    if pl.mission != Depart then Some(0.0) else
      var n := |w.runways[pl.rwIdx].cells|;
      if 0 < n <= |cums| then Some(cums[n - 1]) else None
  }

  function MakePlane(c: Setup, pl: Plane, sol: Solution): SimPlane
    requires pl.mission == Land ==> pl.target < |c.w.runways|
    requires pl.mission == Depart ==> pl.rwIdx < |c.w.runways|
  {
    if pl.id !in sol || |sol[pl.id].cells| < 2 then
      PlaneRecord(pl.id, pl.speed, [], [], NEVER, Some(0.0), false, 0.0, Centre(pl.spawn), Home, 0)
    else
      var cells := sol[pl.id].cells;
      var pts := Centres(RunCells(c.w, pl, cells));
      var cums := Lengths(c.m, pts);
      PlaneRecord(pl.id, pl.speed, pts, cums, if pl.mission == Land then cums[|cells| - 1] else NEVER,
                  LiftOff(c.w, pl, cums), sol[pl.id].complete, 0.0, pts[0], Flying, 0)
  }

  function InitialState(c: Setup, sol: Solution): SimState
    requires MissionsOk(c.w)
  {
    SimState(0.0, 0, map[], seq(|c.w.stars|, _ => false),
             seq(|c.w.planes|, i requires 0 <= i < |c.w.planes| => MakePlane(c, c.w.planes[i], sol)))
  }

  lemma {:induction false} NothingEarnedYet(v: Weights, c: Setup, sol: Solution, k: nat)
    requires MissionsOk(c.w)
    ensures k <= |c.w.planes| ==> PlanesWeight(v, InitialState(c, sol).planes, k) == 0
    ensures k <= |c.w.stars| ==> TakenWeight(v, InitialState(c, sol).taken, k) == 0
  {
    if k > 0 {
      NothingEarnedYet(v, c, sol, k - 1);
    }
  }

  lemma InitialNet(v: Weights, c: Setup, sol: Solution)
    requires MissionsOk(c.w)
    ensures Net(v, InitialState(c, sol)) == 0
  {
    NothingEarnedYet(v, c, sol, |c.w.planes|);
    NothingEarnedYet(v, c, sol, |c.w.stars|);
  }

  // ---------- runs ----------

  /** The state before step `k` of a run that starts in `st` and whose steps left these logs. */
  function StateAt(st: SimState, logs: seq<Log>, k: nat): SimState
    requires k <= |logs|
  {
    if k == 0 then st else logs[k - 1].st
  }

  ghost predicate StepAt(c: Setup, st: SimState, dts: seq<real>, logs: seq<Log>, k: nat)
    requires k < |logs| && k < |dts|
  {
    logs[k] == StepLog(c, StateAt(st, logs, k), dts[k])
  }

  /** The logs of a run with steps of the given lengths. */
  ghost predicate IsRun(c: Setup, st: SimState, dts: seq<real>, logs: seq<Log>) {
    |logs| == |dts| && forall k: nat :: k < |logs| ==> StepAt(c, st, dts, logs, k)
  }

  /** The weight of all events of the first `n` steps. */
  function Folded(v: Weights, logs: seq<Log>, n: nat): int
    requires n <= |logs|
  {
    if n == 0 then 0 else Folded(v, logs, n - 1) + Running(v, logs[n - 1].ev, |logs[n - 1].ev|)
  }

  lemma RunStepKeeps(v: Weights, c: Setup, st: SimState, dts: seq<real>, logs: seq<Log>, k: nat)
    requires IsRun(c, st, dts, logs) && k < |logs|
    ensures AllEvolve(StateAt(st, logs, k).planes, logs[k].st.planes)
    ensures Running(v, logs[k].ev, |logs[k].ev|) == Net(v, logs[k].st) - Net(v, StateAt(st, logs, k))
    ensures |logs[k].st.taken| == |StateAt(st, logs, k).taken|
    ensures logs[k].st.t == StateAt(st, logs, k).t + dts[k]
  {
    assert StepAt(c, st, dts, logs, k);
    StepKeeps(v, c, StateAt(st, logs, k), dts[k]);
  }

  /** Over any run, routes never change and the events weigh what the state gained. */
  lemma {:induction false} RunKeeps(v: Weights, c: Setup, st: SimState, dts: seq<real>, logs: seq<Log>, n: nat)
    requires IsRun(c, st, dts, logs) && n <= |logs|
    ensures AllEvolve(st.planes, StateAt(st, logs, n).planes)
    ensures Folded(v, logs, n) == Net(v, StateAt(st, logs, n)) - Net(v, st)
    ensures |StateAt(st, logs, n).taken| == |st.taken|
  {
    if n == 0 {
      KeptSelf(v, Log(st, []));
    } else {
      RunKeeps(v, c, st, dts, logs, n - 1);
      RunStepKeeps(v, c, st, dts, logs, n - 1);
      EvolveChain(st.planes, StateAt(st, logs, n - 1).planes, logs[n - 1].st.planes);
    }
  }

  /** A plane that is finished after `i` steps is exactly the same after any later step. */
  lemma {:induction false} FinishedStays(c: Setup, st: SimState, dts: seq<real>, logs: seq<Log>, i: nat, n: nat, k: nat)
    requires IsRun(c, st, dts, logs) && i <= n <= |logs|
    requires k < |StateAt(st, logs, i).planes| && StateAt(st, logs, i).planes[k].state != Flying
    ensures k < |StateAt(st, logs, n).planes|
    ensures StateAt(st, logs, n).planes[k] == StateAt(st, logs, i).planes[k]
  {
    if i < n {
      FinishedStays(c, st, dts, logs, i, n - 1, k);
      RunStepKeeps(PHONE_SCORE, c, st, dts, logs, n - 1);
      assert EvolvesAt(StateAt(st, logs, n - 1).planes, StateAt(st, logs, n).planes, k);
    }
  }

  lemma {:induction false} OneStarWeight(taken: seq<bool>, star: nat, k: nat)
    requires k <= |taken|
    ensures TakenWeight(TakingsOf(star), taken, k)
         == if star < k && taken[star] then 1 else 0
  {
    if k > 0 { OneStarWeight(taken, star, k - 1); }
  }

  lemma {:induction false} NoPlaneWeight(v: Weights, planes: seq<SimPlane>, k: nat)
    requires k <= |planes| && v.arrive == 0 && v.star == 0
    ensures PlanesWeight(v, planes, k) == 0
  {
    if k > 0 {
      NoPlaneWeight(v, planes, k - 1);
      TimesIsProduct(0, planes[k - 1].stars);
    }
  }

  /** Each star is handed out once if it is taken at the end, and never otherwise. */
  lemma StarHandedOutOnce(c: Setup, sol: Solution, dts: seq<real>, logs: seq<Log>, star: nat)
    requires MissionsOk(c.w) && IsRun(c, InitialState(c, sol), dts, logs)
    ensures var end := StateAt(InitialState(c, sol), logs, |logs|);
            Folded(TakingsOf(star), logs, |logs|)
              == if star < |end.taken| && end.taken[star] then 1 else 0
  {
    var v := TakingsOf(star);
    var st := InitialState(c, sol);
    var end := StateAt(st, logs, |logs|);
    RunKeeps(v, c, st, dts, logs, |logs|);
    InitialNet(v, c, sol);
    NoPlaneWeight(v, end.planes, |end.planes|);
    TimesIsProduct(0, end.violations);
    OneStarWeight(end.taken, star, |end.taken|);
  }

  // ---------- results ----------

  datatype PlaneResult = PlaneResult(id: nat, state: PlaneState, base: int, stars: int)

  datatype SimResults = SimResults(per: seq<PlaneResult>, perfect: int, violations: nat, penalty: int, score: int)

  function ResultOf(p: SimPlane): PlaneResult {
    PlaneResult(p.id, p.state, if p.state == Done then PTS_DONE else 0, p.stars * PTS_STAR)
  }

  /** The sum of the points of the first `k` planes. */
  function Subtotal(per: seq<PlaneResult>, k: nat): int
    requires k <= |per|
  {
    if k == 0 then 0 else Subtotal(per, k - 1) + per[k - 1].base + per[k - 1].stars
  }

  predicate AllDone(planes: seq<SimPlane>) {
    forall i :: 0 <= i < |planes| ==> planes[i].state == Done
  }

  function Results(st: SimState): SimResults {
    var per := seq(|st.planes|, i requires 0 <= i < |st.planes| => ResultOf(st.planes[i]));
    var perfect := if AllDone(st.planes) && st.violations == 0 then PTS_PERFECT else 0;
    var penalty := st.violations * SEP_PENALTY;
    SimResults(per, perfect, st.violations, penalty, Subtotal(per, |per|) + perfect - penalty)
  }

  lemma {:induction false} SubtotalIsWeight(st: SimState, k: nat)
    requires k <= |st.planes|
    ensures Subtotal(Results(st).per, k) == PlanesWeight(PHONE_SCORE, st.planes, k)
  {
    if k > 0 {
      SubtotalIsWeight(st, k - 1);
      TimesIsProduct(PTS_STAR, st.planes[k - 1].stars);
    }
  }

  lemma {:induction false} NoTakenWeight(v: Weights, taken: seq<bool>, k: nat)
    requires k <= |taken| && v.taken == 0
    ensures TakenWeight(v, taken, k) == 0
  {
    if k > 0 { NoTakenWeight(v, taken, k - 1); }
  }

  lemma ScoreIsNet(st: SimState)
    ensures Net(PHONE_SCORE, st) == Results(st).score - Results(st).perfect
  {
    SubtotalIsWeight(st, |st.planes|);
    NoTakenWeight(PHONE_SCORE, st.taken, |st.taken|);
    TimesIsProduct(0 - SEP_PENALTY, st.violations);
  }

  /** After any number of steps of any lengths, the score the phone folds over the events is the score
      of the results without the perfect bonus. */
  lemma {:induction false} PhoneAgreesWithServer(c: Setup, sol: Solution, dts: seq<real>, logs: seq<Log>)
    requires MissionsOk(c.w) && IsRun(c, InitialState(c, sol), dts, logs)
    ensures var r := Results(StateAt(InitialState(c, sol), logs, |logs|));
            Folded(PHONE_SCORE, logs, |logs|) == r.score - r.perfect
  {
    RunKeeps(PHONE_SCORE, c, InitialState(c, sol), dts, logs, |logs|);
    InitialNet(PHONE_SCORE, c, sol);
    ScoreIsNet(StateAt(InitialState(c, sol), logs, |logs|));
  }

  // ---------- event by event ----------

  /** Arrival events of one plane match its final state; here `id` is the place of the plane. */
  lemma {:induction false} OneArrivalWeight(planes: seq<SimPlane>, id: nat, k: nat)
    requires k <= |planes| && forall i :: 0 <= i < |planes| ==> planes[i].id == i
    ensures PlanesWeight(ArrivalsOf(id), planes, k)
         == if id < k && planes[id].state == Done then 1 else 0
  {
    if k > 0 {
      OneArrivalWeight(planes, id, k - 1);
      TimesIsProduct(0, planes[k - 1].stars);
    }
  }

  /** Each plane that ends done emitted exactly one arrival event, every other plane none; and there
      are as many separation events as violations. */
  lemma EventsMatchState(c: Setup, sol: Solution, dts: seq<real>, logs: seq<Log>, id: nat)
    requires MissionsOk(c.w) && IsRun(c, InitialState(c, sol), dts, logs)
    requires forall i :: 0 <= i < |c.w.planes| ==> c.w.planes[i].id == i
    ensures var end := StateAt(InitialState(c, sol), logs, |logs|);
            Folded(ArrivalsOf(id), logs, |logs|)
              == if id < |end.planes| && end.planes[id].state == Done then 1 else 0
    ensures Folded(VIOLATIONS, logs, |logs|)
              == StateAt(InitialState(c, sol), logs, |logs|).violations
  {
    var st := InitialState(c, sol);
    var end := StateAt(st, logs, |logs|);
    var a, s := ArrivalsOf(id), VIOLATIONS;
    RunKeeps(a, c, st, dts, logs, |logs|);
    RunKeeps(s, c, st, dts, logs, |logs|);
    InitialNet(a, c, sol);
    InitialNet(s, c, sol);
    forall i | 0 <= i < |end.planes| ensures end.planes[i].id == i {
      assert EvolvesAt(st.planes, end.planes, i);
    }
    OneArrivalWeight(end.planes, id, |end.planes|);
    NoPlaneWeight(s, end.planes, |end.planes|);
    NoTakenWeight(a, end.taken, |end.taken|);
    NoTakenWeight(s, end.taken, |end.taken|);
    TimesIsProduct(0, end.violations);
    TimesIsProduct(1, end.violations);
  }

  /** The perfect bonus is paid exactly when every plane has had its arrival event and there was no
      separation event. */
  lemma PerfectByEvents(c: Setup, sol: Solution, dts: seq<real>, logs: seq<Log>)
    requires MissionsOk(c.w) && IsRun(c, InitialState(c, sol), dts, logs)
    requires forall i :: 0 <= i < |c.w.planes| ==> c.w.planes[i].id == i
    ensures Results(StateAt(InitialState(c, sol), logs, |logs|)).perfect ==
              if Folded(VIOLATIONS, logs, |logs|) == 0
                 && forall id: nat :: id < |c.w.planes| ==> Folded(ArrivalsOf(id), logs, |logs|) == 1
              then PTS_PERFECT else 0
  {
    var st := InitialState(c, sol);
    var end := StateAt(st, logs, |logs|);
    RunKeeps(VIOLATIONS, c, st, dts, logs, |logs|);
    EventsMatchState(c, sol, dts, logs, 0);
    forall id: nat | id < |end.planes|
      ensures end.planes[id].state == Done <==> Folded(ArrivalsOf(id), logs, |logs|) == 1
    {
      EventsMatchState(c, sol, dts, logs, id);
    }
  }

  // ---------- the bounds of a score ----------

  lemma {:induction false} PointsBound(planes: seq<SimPlane>, k: nat)
    requires k <= |planes|
    ensures PlanesWeight(PHONE_SCORE, planes, k)
         <= PTS_DONE * k + PTS_STAR * PlanesWeight(STARS_HELD, planes, k)
  {
    if k > 0 {
      PointsBound(planes, k - 1);
      TimesIsProduct(PTS_STAR, planes[k - 1].stars);
      TimesIsProduct(1, planes[k - 1].stars);
    }
  }

  lemma {:induction false} TakenBound(taken: seq<bool>, k: nat)
    requires k <= |taken|
    ensures TakenWeight(STARS_UNPAID, taken, k) >= 0 - k
  {
    if k > 0 { TakenBound(taken, k - 1); }
  }

  lemma {:induction false} SameStars(planes: seq<SimPlane>, k: nat)
    requires k <= |planes|
    ensures PlanesWeight(STARS_HELD, planes, k)
         == PlanesWeight(STARS_UNPAID, planes, k)
  {
    if k > 0 { SameStars(planes, k - 1); }
  }

  lemma {:induction false} NothingFolded(logs: seq<Log>, n: nat)
    requires n <= |logs|
    ensures Folded(STARS_UNPAID, logs, n) == 0
  {
    if n > 0 {
      NothingFolded(logs, n - 1);
      NothingRunning(logs[n - 1].ev, |logs[n - 1].ev|);
    }
  }

  lemma {:induction false} NothingRunning(ev: seq<SimEvent>, k: nat)
    requires k <= |ev|
    ensures Running(STARS_UNPAID, ev, k) == 0
  {
    if k > 0 { NothingRunning(ev, k - 1); }
  }

  /** The planes together never hold more stars than the world has. */
  lemma StarsBound(c: Setup, sol: Solution, dts: seq<real>, logs: seq<Log>)
    requires MissionsOk(c.w) && IsRun(c, InitialState(c, sol), dts, logs)
    ensures var end := StateAt(InitialState(c, sol), logs, |logs|);
            PlanesWeight(STARS_HELD, end.planes, |end.planes|) <= |c.w.stars|
  {
    var v := STARS_UNPAID;
    var st := InitialState(c, sol);
    var end := StateAt(st, logs, |logs|);
    RunKeeps(v, c, st, dts, logs, |logs|);
    InitialNet(v, c, sol);
    NothingFolded(logs, |logs|);
    TimesIsProduct(0, end.violations);
    TakenBound(end.taken, |end.taken|);
    SameStars(end.planes, |end.planes|);
  }

  /** No run scores more than all arrivals, all stars and the perfect bonus. */
  lemma ScoreBound(c: Setup, sol: Solution, dts: seq<real>, logs: seq<Log>)
    requires MissionsOk(c.w) && IsRun(c, InitialState(c, sol), dts, logs)
    ensures Results(StateAt(InitialState(c, sol), logs, |logs|)).score
         <= PTS_DONE * |c.w.planes| + PTS_STAR * |c.w.stars| + PTS_PERFECT
  {
    var st := InitialState(c, sol);
    var end := StateAt(st, logs, |logs|);
    RunKeeps(PHONE_SCORE, c, st, dts, logs, |logs|);
    StarsBound(c, sol, dts, logs);
    PointsBound(end.planes, |end.planes|);
    ScoreIsNet(end);
    NoTakenWeight(PHONE_SCORE, end.taken, |end.taken|);
    TimesIsProduct(0 - SEP_PENALTY, end.violations);
  }
}
