/** What a step of the simulation keeps: finished planes stay as they are, and every arrival, star and
    separation event matches a change of the state, so a score folded over events is the score of the
    state. */
module BonkScore {
  import opened Common
  import opened BonkFlight
  import opened BonkSimModel

  // ---------- finished planes stay, routes stay ----------

  /** What may happen to a plane: nothing once it is finished, and never anything to its route. */
  ghost predicate Evolves(p: SimPlane, q: SimPlane) {
    && (p.state != Flying ==> q == p)
    && q.id == p.id && q.speed == p.speed && q.pts == p.pts && q.cums == p.cums
    && q.landS == p.landS && q.liftS == p.liftS && q.complete == p.complete
  }

  ghost predicate EvolvesAt(a: seq<SimPlane>, b: seq<SimPlane>, k: nat)
    requires k < |a| && k < |b|
  {
    Evolves(a[k], b[k])
  }

  ghost predicate AllEvolve(a: seq<SimPlane>, b: seq<SimPlane>) {
    |a| == |b| && forall k: nat :: k < |a| ==> EvolvesAt(a, b, k)
  }

  lemma EvolveChain(a: seq<SimPlane>, b: seq<SimPlane>, c: seq<SimPlane>)
    requires AllEvolve(a, b) && AllEvolve(b, c)
    ensures AllEvolve(a, c)
  {
    forall k: nat | k < |a| ensures EvolvesAt(a, c, k) {
      assert EvolvesAt(a, b, k) && EvolvesAt(b, c, k);
    }
  }

  // ---------- weighted accounts ----------

  /** Weights for the arrivals and stars of planes, for separation violations, and for the stars taken
      from the world; `plane` and `starIndex` narrow them to one plane or one star of the world. */
  datatype Weights = Weights(
    arrive: int, star: int, separate: int, taken: int, plane: Option<nat>, starIndex: Option<nat>)

  const PHONE_SCORE := Weights(PTS_DONE, PTS_STAR, 0 - SEP_PENALTY, 0, None, None)

  /** These count violations, the stars planes hold, and those less the stars taken from the world. */
  const VIOLATIONS := Weights(0, 0, 1, 0, None, None)
  const STARS_HELD := Weights(0, 1, 0, 0, None, None)
  const STARS_UNPAID := Weights(0, 1, 0, 0 - 1, None, None)

  /** These count the arrivals of one plane, and how often one star is handed out. */
  function ArrivalsOf(plane: nat): Weights {
    Weights(1, 0, 0, 0, Some(plane), None)
  }

  function TakingsOf(star: nat): Weights {
    Weights(0, 0, 0, 1, None, Some(star))
  }

  predicate Counts(only: Option<nat>, x: nat) {
    only == None || only == Some(x)
  }

  function Times(x: int, n: nat): int {
    if n == 0 then 0 else Times(x, n - 1) + x
  }

  lemma {:induction false} TimesIsProduct(x: int, n: nat)
    ensures Times(x, n) == x * n
  {
    if n > 0 {
      TimesIsProduct(x, n - 1);
    }
  }

  function EventWeight(v: Weights, e: SimEvent): int {
    match e
    case Arrived(id) => if Counts(v.plane, id) then v.arrive else 0
    case Separation(_, _) => v.separate
    case StarTaken(id, star) =>
      (if Counts(v.plane, id) then v.star else 0) + if Counts(v.starIndex, star) then v.taken else 0
    case _ => 0
  }

  /** The weight of the first `k` events. */
  function Running(v: Weights, ev: seq<SimEvent>, k: nat): int
    requires k <= |ev|
  {
    if k == 0 then 0 else Running(v, ev, k - 1) + EventWeight(v, ev[k - 1])
  }

  function PlaneWeight(v: Weights, p: SimPlane): int {
    if Counts(v.plane, p.id) then (if p.state == Done then v.arrive else 0) + Times(v.star, p.stars) else 0
  }

  function PlanesWeight(v: Weights, planes: seq<SimPlane>, k: nat): int
    requires k <= |planes|
  {
    if k == 0 then 0 else PlanesWeight(v, planes, k - 1) + PlaneWeight(v, planes[k - 1])
  }

  /** The weight of the stars taken among the first `k` stars of the world. */
  function TakenWeight(v: Weights, taken: seq<bool>, k: nat): int
    requires k <= |taken|
  {
    if k == 0 then 0
    else TakenWeight(v, taken, k - 1) + if taken[k - 1] && Counts(v.starIndex, k - 1) then v.taken else 0
  }

  /** The weight of a state. */
  function Net(v: Weights, st: SimState): int {
    PlanesWeight(v, st.planes, |st.planes|) + Times(v.separate, st.violations)
      + TakenWeight(v, st.taken, |st.taken|)
  }

  /** The events emitted so far, less the state they led to. */
  function Balance(v: Weights, lg: Log): int {
    Running(v, lg.ev, |lg.ev|) - Net(v, lg.st)
  }

  lemma {:induction false} RunningPrefix(v: Weights, a: seq<SimEvent>, b: seq<SimEvent>, k: nat)
    requires k <= |a|
    ensures Running(v, a + b, k) == Running(v, a, k)
  {
    if k > 0 { RunningPrefix(v, a, b, k - 1); }
  }

  lemma RunningAppend(v: Weights, ev: seq<SimEvent>, e: SimEvent)
    ensures Running(v, ev + [e], |ev| + 1) == Running(v, ev, |ev|) + EventWeight(v, e)
  {
    RunningPrefix(v, ev, [e], |ev|);
  }

  lemma {:induction false} RunningConcat(v: Weights, a: seq<SimEvent>, b: seq<SimEvent>, k: nat)
    requires k <= |b|
    ensures Running(v, a + b, |a| + k) == Running(v, a, |a|) + Running(v, b, k)
  {
    if k == 0 {
      RunningPrefix(v, a, b, |a|);
    } else {
      RunningConcat(v, a, b, k - 1);
      assert (a + b)[|a| + k - 1] == b[k - 1];
    }
  }

  lemma {:induction false} PlanesUpdate(v: Weights, planes: seq<SimPlane>, i: nat, p: SimPlane, k: nat)
    requires i < |planes| && k <= |planes|
    ensures PlanesWeight(v, planes[i := p], k)
         == PlanesWeight(v, planes, k) + if i < k then PlaneWeight(v, p) - PlaneWeight(v, planes[i]) else 0
  {
    if k > 0 { PlanesUpdate(v, planes, i, p, k - 1); }
  }

  lemma {:induction false} TakenUpdate(v: Weights, b: seq<bool>, i: nat, k: nat)
    requires i < |b| && !b[i] && k <= |b|
    ensures TakenWeight(v, b[i := true], k)
         == TakenWeight(v, b, k) + if i < k && Counts(v.starIndex, i) then v.taken else 0
  {
    if k > 0 { TakenUpdate(v, b, i, k - 1); }
  }

  /** Changing plane `i` and emitting at most one event keeps the balance when the weights agree. */
  lemma OnePlane(v: Weights, lg: Log, i: nat, p: SimPlane, ev: seq<SimEvent>)
    requires i < |lg.st.planes| && |ev| <= 1
    requires PlaneWeight(v, p) - PlaneWeight(v, lg.st.planes[i]) == Running(v, ev, |ev|)
    requires Evolves(lg.st.planes[i], p)
    ensures Balance(v, Log(WithPlane(lg.st, i, p), lg.ev + ev)) == Balance(v, lg)
    ensures AllEvolve(lg.st.planes, lg.st.planes[i := p])
  {
    PlanesUpdate(v, lg.st.planes, i, p, |lg.st.planes|);
    RunningConcat(v, lg.ev, ev, |ev|);
    var after := lg.st.planes[i := p];
    forall k: nat | k < |lg.st.planes| ensures EvolvesAt(lg.st.planes, after, k) {
    }
  }

  // ---------- each sub-step keeps the accounts ----------

  ghost predicate Kept(v: Weights, a: Log, b: Log) {
    && Balance(v, b) == Balance(v, a)
    && AllEvolve(a.st.planes, b.st.planes)
    && |b.st.taken| == |a.st.taken|
    && b.st.t == a.st.t
  }

  lemma KeptChain(v: Weights, a: Log, b: Log, c: Log)
    requires Kept(v, a, b) && Kept(v, b, c)
    ensures Kept(v, a, c)
  {
    EvolveChain(a.st.planes, b.st.planes, c.st.planes);
  }

  lemma KeptSelf(v: Weights, lg: Log)
    ensures Kept(v, lg, lg)
  {
    forall k: nat | k < |lg.st.planes| ensures EvolvesAt(lg.st.planes, lg.st.planes, k) {
    }
  }

  lemma FlyOneKeeps(v: Weights, lg: Log, k: nat, dt: real)
    requires k < |lg.st.planes|
    ensures Kept(v, lg, FlyOne(lg, k, dt))
  {
    KeptSelf(v, lg);
    var p := lg.st.planes[k];
    var next := FlyOne(lg, k, dt);
    if p.state == Flying {
      var ev := if next.st.planes[k].state == Flying then [] else
                if next.st.planes[k].state == Done then [Arrived(p.id)] else [WentLost(p.id)];
      assert Running(v, ev, |ev|)
          == if next.st.planes[k].state == Done && Counts(v.plane, p.id) then v.arrive else 0 by {
        if ev != [] { assert Running(v, ev, 0) == 0; }
      }
      assert next == Log(WithPlane(lg.st, k, next.st.planes[k]), lg.ev + ev);
      OnePlane(v, lg, k, next.st.planes[k], ev);
    }
  }

  lemma ZoneOneKeeps(v: Weights, c: Setup, lg: Log, k: nat)
    requires k < |lg.st.planes|
    ensures Kept(v, lg, ZoneOne(c, lg, k))
  {
    KeptSelf(v, lg);
    var p := lg.st.planes[k];
    if ZoneOne(c, lg, k) != lg {
      var ev := [ZoneBonk(p.id, ZoneOf(c, p.pos) == NoFly)];
      assert Running(v, ev, 0) == 0;
      OnePlane(v, lg, k, p.(state := Crashed), ev);
    }
  }

  /** The planes in the list are under way or crashed in this very step. */
  ghost predicate Up(planes: seq<SimPlane>, air: seq<nat>) {
    forall i :: 0 <= i < |air| ==> air[i] < |planes| && planes[air[i]].state in {Flying, Crashed}
  }

  lemma PairOneKeeps(v: Weights, c: Setup, lg: Log, i: nat, j: nat)
    requires i < |lg.st.planes| && j < |lg.st.planes|
    requires lg.st.planes[i].state in {Flying, Crashed} && lg.st.planes[j].state in {Flying, Crashed}
    ensures Kept(v, lg, PairOne(c, lg, i, j))
    ensures forall k :: 0 <= k < |lg.st.planes| && lg.st.planes[k].state in {Flying, Crashed}
              ==> PairOne(c, lg, i, j).st.planes[k].state in {Flying, Crashed}
  {
    KeptSelf(v, lg);
    var a, b := lg.st.planes[i], lg.st.planes[j];
    var d := c.m(a.pos, b.pos);
    if d < BONK_BLOCKS * CELL {
      var mid := Log(WithPlane(lg.st, i, a.(state := Crashed)), lg.ev + []);
      OnePlane(v, lg, i, a.(state := Crashed), []);
      var ev := [PlaneBonk(a.id, b.id)];
      assert Running(v, ev, 0) == 0;
      assert lg.ev + [] == lg.ev;
      CrashSecond(v, mid, j, b, ev, i == j);
      KeptChain(v, lg, mid, PairOne(c, lg, i, j));
    } else if PairOne(c, lg, i, j).ev != lg.ev {
      RunningAppend(v, lg.ev, Separation(a.id, b.id));
    }
  }

  lemma CrashSecond(v: Weights, mid: Log, j: nat, b: SimPlane, ev: seq<SimEvent>, same: bool)
    requires j < |mid.st.planes| && |ev| == 1 && Running(v, ev, 1) == 0
    requires mid.st.planes[j] == if same then b.(state := Crashed) else b
    requires b.state in {Flying, Crashed}
    ensures Kept(v, mid, Log(WithPlane(mid.st, j, b.(state := Crashed)), mid.ev + ev))
  {
    OnePlane(v, mid, j, b.(state := Crashed), ev);
  }

  lemma StarOneKeeps(v: Weights, c: Setup, lg: Log, k: nat, star: nat)
    requires k < |lg.st.planes| && star < |c.w.stars|
    ensures Kept(v, lg, StarOne(c, lg, k, star))
  {
    KeptSelf(v, lg);
    var p := lg.st.planes[k];
    var next := StarOne(c, lg, k, star);
    if next != lg {
      PlanesUpdate(v, lg.st.planes, k, p.(stars := p.stars + 1), |lg.st.planes|);
      TakenUpdate(v, lg.st.taken, star, |lg.st.taken|);
      RunningAppend(v, lg.ev, StarTaken(p.id, star));
      forall i: nat | i < |lg.st.planes| ensures EvolvesAt(lg.st.planes, next.st.planes, i) {
      }
    }
  }

  // ---------- the phases, and the whole step ----------

  lemma {:induction false} FlyFromKeeps(v: Weights, lg: Log, k: nat, dt: real)
    ensures Kept(v, lg, FlyFrom(lg, k, dt))
    decreases |lg.st.planes| - k
  {
    if k >= |lg.st.planes| {
      KeptSelf(v, lg);
    } else {
      FlyOneKeeps(v, lg, k, dt);
      FlyFromKeeps(v, FlyOne(lg, k, dt), k + 1, dt);
      KeptChain(v, lg, FlyOne(lg, k, dt), FlyFrom(lg, k, dt));
    }
  }

  lemma {:induction false} ZoneFromKeeps(v: Weights, c: Setup, lg: Log, k: nat)
    ensures Kept(v, lg, ZoneFrom(c, lg, k))
    decreases |lg.st.planes| - k
  {
    if k >= |lg.st.planes| {
      KeptSelf(v, lg);
    } else {
      ZoneOneKeeps(v, c, lg, k);
      ZoneFromKeeps(v, c, ZoneOne(c, lg, k), k + 1);
      KeptChain(v, lg, ZoneOne(c, lg, k), ZoneFrom(c, lg, k));
    }
  }

  lemma {:induction false} PairsFromKeeps(v: Weights, c: Setup, lg: Log, air: seq<nat>, i: nat, j: nat)
    requires Up(lg.st.planes, air)
    ensures Kept(v, lg, PairsFrom(c, lg, air, i, j))
    decreases |air| - i, |air| - j
  {
    if i >= |air| {
      KeptSelf(v, lg);
    } else if j >= |air| {
      PairsFromKeeps(v, c, lg, air, i + 1, i + 2);
    } else {
      PairOneKeeps(v, c, lg, air[i], air[j]);
      PairsFromKeeps(v, c, PairOne(c, lg, air[i], air[j]), air, i, j + 1);
      KeptChain(v, lg, PairOne(c, lg, air[i], air[j]), PairsFrom(c, lg, air, i, j));
    }
  }

  lemma {:induction false} StarsFromKeeps(v: Weights, c: Setup, lg: Log, air: seq<nat>, i: nat, star: nat)
    requires AirOk(lg.st.planes, air)
    ensures Kept(v, lg, StarsFrom(c, lg, air, i, star))
    decreases |air| - i, |c.w.stars| - star
  {
    if i >= |air| {
      KeptSelf(v, lg);
    } else if star >= |c.w.stars| {
      StarsFromKeeps(v, c, lg, air, i + 1, 0);
    } else {
      StarOneKeeps(v, c, lg, air[i], star);
      StarsFromKeeps(v, c, StarOne(c, lg, air[i], star), air, i, star + 1);
      KeptChain(v, lg, StarOne(c, lg, air[i], star), StarsFrom(c, lg, air, i, star));
    }
  }

  lemma AirborneUp(planes: seq<SimPlane>)
    ensures Up(planes, Airborne(planes, 0))
  {
    var air := Airborne(planes, 0);
    forall i | 0 <= i < |air| ensures air[i] < |planes| && planes[air[i]].state in {Flying, Crashed} {
      AirborneExact(planes, 0, air[i]);
    }
  }

  /** A step never touches a finished plane or a route, and whatever weights are given to arrivals,
      violations and stars, its events weigh as much as the state gains. */
  lemma StepKeeps(v: Weights, c: Setup, st: SimState, dt: real)
    ensures AllEvolve(st.planes, StepLog(c, st, dt).st.planes)
    ensures Running(v, StepLog(c, st, dt).ev, |StepLog(c, st, dt).ev|) == Net(v, StepLog(c, st, dt).st) - Net(v, st)
    ensures |StepLog(c, st, dt).st.taken| == |st.taken|
    ensures StepLog(c, st, dt).st.t == st.t + dt
  {
    var start := Log(st.(t := st.t + dt), []);
    var mid := FlyFrom(start, 0, dt);
    var flown := Flown(c, st, dt);
    var air := Airborne(flown.st.planes, 0);
    AirborneUp(flown.st.planes);
    AirborneOk(flown.st.planes);
    var paired := PairsFrom(c, flown, air, 0, 1);
    FlyFromKeeps(v, start, 0, dt);
    ZoneFromKeeps(v, c, mid, 0);
    KeptChain(v, start, mid, flown);
    PairsFromKeeps(v, c, flown, air, 0, 1);
    KeptChain(v, start, flown, paired);
    StarsFromKeeps(v, c, paired, air, 0, 0);
    KeptChain(v, start, paired, StepLog(c, st, dt));
  }
}
