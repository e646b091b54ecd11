/** The separation rule over whole runs: between two violations charged to the same pair of planes
    there is a step in which both were in the air and far enough apart to re-arm the rule. */
module BonkSeparation {
  import opened BonkFlight
  import opened BonkSimModel
  import opened BonkScore
  import opened BonkRun

  /** Planes are numbered by their place. */
  ghost predicate Numbered(planes: seq<SimPlane>) {
    forall k :: 0 <= k < |planes| ==> planes[k].id == k
  }

  predicate Disarmed(sep: map<(nat, nat), bool>, x: nat, y: nat) {
    (x, y) in sep && !sep[(x, y)]
  }

  /** How many violations are charged to the pair in these events. */
  ghost function Charges(ev: seq<SimEvent>, x: nat, y: nat): nat {
    multiset(ev)[Separation(x, y)]
  }

  /** Both planes are in the air. */
  predicate BothUp(planes: seq<SimPlane>, x: nat, y: nat) {
    && x < |planes| && planes[x].state == Flying && !Rolling(planes[x])
    && y < |planes| && planes[y].state == Flying && !Rolling(planes[y])
  }

  function Apart(c: Setup, planes: seq<SimPlane>, x: nat, y: nat): real
    requires x < |planes| && y < |planes|
  {
    c.m(planes[x].pos, planes[y].pos)
  }

  predicate TooClose(d: real) {
    BONK_BLOCKS * CELL <= d < SEP_BLOCKS * CELL
  }

  predicate Rearms(d: real) {
    d > SEP_REARM * CELL
  }

  // ---------- the pair loops ----------

  ghost predicate SamePlaces(a: seq<SimPlane>, b: seq<SimPlane>) {
    |a| == |b| && forall k :: 0 <= k < |a| ==> a[k].pos == b[k].pos && a[k].id == b[k].id
  }

  /** Nothing happened to the rule of this pair. */
  ghost predicate Untouched(a: Log, b: Log, x: nat, y: nat) {
    (Disarmed(b.st.sep, x, y) <==> Disarmed(a.st.sep, x, y)) && Charges(b.ev, x, y) == Charges(a.ev, x, y)
  }

  /** The pair, `d` apart, is charged once when it is too close and armed; it is disarmed then, and armed
      again only beyond the re-arming distance. */
  ghost predicate RuleApplied(d: real, a: Log, b: Log, x: nat, y: nat) {
    && Charges(b.ev, x, y) == Charges(a.ev, x, y) + (if TooClose(d) && !Disarmed(a.st.sep, x, y) then 1 else 0)
    && (Disarmed(b.st.sep, x, y) <==> TooClose(d) || (Disarmed(a.st.sep, x, y) && !Rearms(d)))
  }

  /** Looking at one pair of planes changes nothing about any other pair. */
  lemma PairOneOther(c: Setup, lg: Log, u: nat, v: nat, x: nat, y: nat)
    requires u < |lg.st.planes| && v < |lg.st.planes| && Numbered(lg.st.planes) && (u, v) != (x, y)
    ensures SamePlaces(lg.st.planes, PairOne(c, lg, u, v).st.planes)
    ensures Untouched(lg, PairOne(c, lg, u, v), x, y)
  {
  }

  lemma PairOneSelf(c: Setup, lg: Log, x: nat, y: nat)
    requires x < |lg.st.planes| && y < |lg.st.planes| && Numbered(lg.st.planes)
    ensures SamePlaces(lg.st.planes, PairOne(c, lg, x, y).st.planes)
    ensures RuleApplied(Apart(c, lg.st.planes, x, y), lg, PairOne(c, lg, x, y), x, y)
  {
  }

  /** Places (p, q) of the list are still to be looked at when the loops stand at (i, j). */
  predicate Ahead(i: nat, j: nat, p: nat, q: nat) {
    p < q && (i < p || (i == p && j <= q))
  }

  lemma {:induction false} PairsMiss(c: Setup, lg: Log, air: seq<nat>, i: nat, j: nat, x: nat, y: nat)
    requires AirOk(lg.st.planes, air) && Numbered(lg.st.planes) && i < j
    requires forall p: nat, q: nat :: p < |air| && q < |air| && Ahead(i, j, p, q) ==> (air[p], air[q]) != (x, y)
    ensures Untouched(lg, PairsFrom(c, lg, air, i, j), x, y)
    decreases |air| - i, |air| - j
  {
    if i < |air| {
      if j >= |air| {
        PairsMiss(c, lg, air, i + 1, i + 2, x, y);
      } else {
        assert Ahead(i, j, i, j);
        PairOneOther(c, lg, air[i], air[j], x, y);
        PairsMiss(c, PairOne(c, lg, air[i], air[j]), air, i, j + 1, x, y);
      }
    }
  }

  ghost predicate Distinct(air: seq<nat>) {
    forall i, j :: 0 <= i < j < |air| ==> air[i] < air[j]
  }

  /** The loops stand at the places of the pair. */
  lemma PairsHere(c: Setup, lg: Log, air: seq<nat>, p: nat, q: nat)
    requires AirOk(lg.st.planes, air) && Numbered(lg.st.planes) && Distinct(air) && p < q < |air|
    ensures RuleApplied(Apart(c, lg.st.planes, air[p], air[q]), lg, PairsFrom(c, lg, air, p, q), air[p], air[q])
  {
    var next := PairOne(c, lg, air[p], air[q]);
    PairOneSelf(c, lg, air[p], air[q]);
    PairsMiss(c, next, air, p, q + 1, air[p], air[q]);
    var end := PairsFrom(c, next, air, p, q + 1);
    assert PairsFrom(c, lg, air, p, q) == end && Untouched(next, end, air[p], air[q]);
  }

  lemma RuleFromNext(c: Setup, lg: Log, next: Log, end: Log, x: nat, y: nat)
    requires x < |lg.st.planes| && y < |lg.st.planes|
    requires SamePlaces(lg.st.planes, next.st.planes) && Untouched(lg, next, x, y)
    requires RuleApplied(Apart(c, next.st.planes, x, y), next, end, x, y)
    ensures RuleApplied(Apart(c, lg.st.planes, x, y), lg, end, x, y)
  {
  }

  lemma {:induction false} PairsHit(c: Setup, lg: Log, air: seq<nat>, i: nat, j: nat, p: nat, q: nat)
    requires AirOk(lg.st.planes, air) && Numbered(lg.st.planes) && Distinct(air)
    requires i < j && p < q < |air| && Ahead(i, j, p, q)
    ensures RuleApplied(Apart(c, lg.st.planes, air[p], air[q]), lg, PairsFrom(c, lg, air, i, j), air[p], air[q])
    decreases |air| - i, |air| - j
  {
    if j >= |air| {
      PairsHit(c, lg, air, i + 1, i + 2, p, q);
      assert PairsFrom(c, lg, air, i, j) == PairsFrom(c, lg, air, i + 1, i + 2);
    } else if i == p && j == q {
      PairsHere(c, lg, air, p, q);
    } else {
      var next := PairOne(c, lg, air[i], air[j]);
      PairOneOther(c, lg, air[i], air[j], air[p], air[q]);
      PairsHit(c, next, air, i, j + 1, p, q);
      RuleFromNext(c, lg, next, PairsFrom(c, next, air, i, j + 1), air[p], air[q]);
    }
  }

  // ---------- the other phases leave the rule alone ----------

  ghost predicate SameRule(a: Log, b: Log) {
    b.st.sep == a.st.sep && forall x, y :: Charges(b.ev, x, y) == Charges(a.ev, x, y)
  }

  lemma {:induction false} FlyFromRule(lg: Log, k: nat, dt: real)
    ensures SameRule(lg, FlyFrom(lg, k, dt))
    decreases |lg.st.planes| - k
  {
    if k < |lg.st.planes| {
      FlyFromRule(FlyOne(lg, k, dt), k + 1, dt);
    }
  }

  lemma {:induction false} ZoneFromRule(c: Setup, lg: Log, k: nat)
    ensures SameRule(lg, ZoneFrom(c, lg, k))
    decreases |lg.st.planes| - k
  {
    if k < |lg.st.planes| {
      ZoneFromRule(c, ZoneOne(c, lg, k), k + 1);
    }
  }

  lemma {:induction false} StarsFromRule(c: Setup, lg: Log, air: seq<nat>, i: nat, star: nat)
    requires AirOk(lg.st.planes, air)
    ensures SameRule(lg, StarsFrom(c, lg, air, i, star))
    decreases |air| - i, |c.w.stars| - star
  {
    if i < |air| {
      if star >= |c.w.stars| {
        StarsFromRule(c, lg, air, i + 1, 0);
      } else {
        StarsFromRule(c, StarOne(c, lg, air[i], star), air, i, star + 1);
      }
    }
  }

  lemma {:induction false} AirborneAscends(planes: seq<SimPlane>, k: nat)
    requires k <= |planes|
    ensures Distinct(Airborne(planes, k))
    ensures forall i :: 0 <= i < |Airborne(planes, k)| ==> Airborne(planes, k)[i] >= k
    decreases |planes| - k
  {
    if k < |planes| { AirborneAscends(planes, k + 1); }
  }

  // ---------- one step ----------

  /** The pair loops of a step, for one pair. */
  lemma PairsOfStep(c: Setup, flown: Log, x: nat, y: nat)
    requires Numbered(flown.st.planes) && AirOk(flown.st.planes, Airborne(flown.st.planes, 0))
    ensures var r := PairsFrom(c, flown, Airborne(flown.st.planes, 0), 0, 1);
            if x < y && BothUp(flown.st.planes, x, y) then RuleApplied(Apart(c, flown.st.planes, x, y), flown, r, x, y)
            else Untouched(flown, r, x, y)
  {
    var planes := flown.st.planes;
    var air := Airborne(planes, 0);
    AirborneAscends(planes, 0);
    AirborneExact(planes, 0, x);
    AirborneExact(planes, 0, y);
    if x < y && BothUp(planes, x, y) {
      var p :| 0 <= p < |air| && air[p] == x;
      var q :| 0 <= q < |air| && air[q] == y;
      PairsHit(c, flown, air, 0, 1, p, q);
    } else {
      PairsMiss(c, flown, air, 0, 1, x, y);
    }
  }

  /** The pair of planes is looked at in the step, and is too close. */
  ghost predicate Offends(c: Setup, planes: seq<SimPlane>, x: nat, y: nat) {
    x < y && BothUp(planes, x, y) && TooClose(Apart(c, planes, x, y))
  }

  ghost predicate Recovers(c: Setup, planes: seq<SimPlane>, x: nat, y: nat) {
    x < y && BothUp(planes, x, y) && Rearms(Apart(c, planes, x, y))
  }

  /** The exact effect of a step on one pair of planes: it is charged once, or not at all. */
  lemma StepRule(c: Setup, st: SimState, dt: real, x: nat, y: nat)
    requires Numbered(st.planes)
    ensures var flown := Flown(c, st, dt).st.planes;
            var lg := StepLog(c, st, dt);
            && Charges(lg.ev, x, y) == (if Offends(c, flown, x, y) && !Disarmed(st.sep, x, y) then 1 else 0)
            && (Disarmed(lg.st.sep, x, y) <==>
                  Offends(c, flown, x, y) || (Disarmed(st.sep, x, y) && !Recovers(c, flown, x, y)))
  {
    var flown := Flown(c, st, dt);
    FlownRule(c, st, dt, x, y);
    FlownNumbered(c, st, dt);
    AirborneOk(flown.st.planes);
    PairsOfStep(c, flown, x, y);
    var paired := PairsFrom(c, flown, Airborne(flown.st.planes, 0), 0, 1);
    StarsFromRule(c, paired, Airborne(flown.st.planes, 0), 0, 0);
    assert Charges(StepLog(c, st, dt).ev, x, y) == Charges(paired.ev, x, y);
  }

  lemma FlownRule(c: Setup, st: SimState, dt: real, x: nat, y: nat)
    ensures Flown(c, st, dt).st.sep == st.sep && Charges(Flown(c, st, dt).ev, x, y) == 0
  {
    var start := Log(st.(t := st.t + dt), []);
    FlyFromRule(start, 0, dt);
    ZoneFromRule(c, FlyFrom(start, 0, dt), 0);
    assert Charges(start.ev, x, y) == 0;
  }

  lemma FlownNumbered(c: Setup, st: SimState, dt: real)
    requires Numbered(st.planes)
    ensures Numbered(Flown(c, st, dt).st.planes) && |Flown(c, st, dt).st.planes| == |st.planes|
  {
    var start := Log(st.(t := st.t + dt), []);
    FlyFromKeeps(PHONE_SCORE, start, 0, dt);
    ZoneFromKeeps(PHONE_SCORE, c, FlyFrom(start, 0, dt), 0);
    KeptChain(PHONE_SCORE, start, FlyFrom(start, 0, dt), Flown(c, st, dt));
    forall k | 0 <= k < |st.planes| ensures Flown(c, st, dt).st.planes[k].id == k {
      assert EvolvesAt(st.planes, Flown(c, st, dt).st.planes, k);
    }
  }

  // ---------- whole runs ----------

  /** In step `k` both planes were in the air and farther apart than the re-arming distance. */
  ghost predicate RearmedAt(c: Setup, st: SimState, dts: seq<real>, logs: seq<Log>, k: nat, x: nat, y: nat)
    requires k < |logs| && k < |dts|
  {
    var flown := Flown(c, StateAt(st, logs, k), dts[k]).st.planes;
    Recovers(c, flown, x, y)
  }

  lemma RunNumbered(c: Setup, st: SimState, dts: seq<real>, logs: seq<Log>, n: nat)
    requires IsRun(c, st, dts, logs) && n <= |logs| && Numbered(st.planes)
    ensures Numbered(StateAt(st, logs, n).planes)
  {
    RunKeeps(PHONE_SCORE, c, st, dts, logs, n);
    forall k | 0 <= k < |st.planes| ensures StateAt(st, logs, n).planes[k].id == k {
      assert EvolvesAt(st.planes, StateAt(st, logs, n).planes, k);
    }
  }

  lemma RunRule(c: Setup, st: SimState, dts: seq<real>, logs: seq<Log>, k: nat, x: nat, y: nat)
    requires IsRun(c, st, dts, logs) && Numbered(st.planes) && k < |logs|
    ensures Charges(logs[k].ev, x, y) <= 1 && (Charges(logs[k].ev, x, y) == 1 ==> x < y)
    ensures Charges(logs[k].ev, x, y) == 1 ==> !Disarmed(StateAt(st, logs, k).sep, x, y)
    ensures Charges(logs[k].ev, x, y) == 1 ==> Disarmed(logs[k].st.sep, x, y)
    ensures Disarmed(StateAt(st, logs, k).sep, x, y) ==>
              Disarmed(logs[k].st.sep, x, y) || RearmedAt(c, st, dts, logs, k, x, y)
  {
    assert StepAt(c, st, dts, logs, k);
    RunNumbered(c, st, dts, logs, k);
    StepRule(c, StateAt(st, logs, k), dts[k], x, y);
  }

  /** A pair charged in step `i` stays disarmed until a step that re-arms it. */
  lemma {:induction false} DisarmedUntilRearmed(c: Setup, st: SimState, dts: seq<real>, logs: seq<Log>,
                                                i: nat, n: nat, x: nat, y: nat)
    requires IsRun(c, st, dts, logs) && Numbered(st.planes) && i < n <= |logs|
    requires Charges(logs[i].ev, x, y) == 1
    ensures Disarmed(StateAt(st, logs, n).sep, x, y)
         || exists k: nat :: i < k < n && RearmedAt(c, st, dts, logs, k, x, y)
  {
    RunRule(c, st, dts, logs, n - 1, x, y);
    if i + 1 < n {
      DisarmedUntilRearmed(c, st, dts, logs, i, n - 1, x, y);
    }
  }

  /** Event `a` of step `i` charges the pair with a violation. */
  predicate ChargedAt(logs: seq<Log>, i: nat, a: nat, x: nat, y: nat) {
    i < |logs| && a < |logs[i].ev| && logs[i].ev[a] == Separation(x, y)
  }

  lemma CountOfPlaces(ev: seq<SimEvent>, e: SimEvent, a: nat)
    requires a < |ev| && ev[a] == e
    ensures multiset(ev)[e] >= 1
    ensures forall b :: a < b < |ev| && ev[b] == e ==> multiset(ev)[e] >= 2
  {
    assert ev == ev[..a] + [e] + ev[a + 1..];
    forall b | a < b < |ev| && ev[b] == e ensures multiset(ev)[e] >= 2 {
      assert ev[a + 1..][b - a - 1] == e;
      assert e in multiset(ev[a + 1..]);
    }
  }

  /** The charges of any two violation events of a run to the same pair, the first before the second, are
      separate episodes: they come in different steps, and in a step between them both planes were in the
      air and farther apart than the re-arming distance. */
  lemma ViolationsAreEpisodes(c: Setup, st: SimState, dts: seq<real>, logs: seq<Log>,
                              i: nat, a: nat, j: nat, b: nat, x: nat, y: nat)
    requires IsRun(c, st, dts, logs) && Numbered(st.planes)
    requires ChargedAt(logs, i, a, x, y) && ChargedAt(logs, j, b, x, y) && (i < j || (i == j && a < b))
    ensures exists k: nat :: i < k < j && RearmedAt(c, st, dts, logs, k, x, y)
  {
    CountOfPlaces(logs[i].ev, Separation(x, y), a);
    CountOfPlaces(logs[j].ev, Separation(x, y), b);
    RunRule(c, st, dts, logs, i, x, y);
    RunRule(c, st, dts, logs, j, x, y);
    assert i < j;
    DisarmedUntilRearmed(c, st, dts, logs, i, j, x, y);
  }

  /** Every violation event of a run is of two different planes, the one with the lower number first. */
  lemma ViolationsAreOfPairs(c: Setup, st: SimState, dts: seq<real>, logs: seq<Log>, i: nat, a: nat, x: nat, y: nat)
    requires IsRun(c, st, dts, logs) && Numbered(st.planes) && ChargedAt(logs, i, a, x, y)
    ensures x < y < |st.planes|
  {
    CountOfPlaces(logs[i].ev, Separation(x, y), a);
    assert StepAt(c, st, dts, logs, i);
    RunNumbered(c, st, dts, logs, i);
    RunKeeps(PHONE_SCORE, c, st, dts, logs, i);
    StepRule(c, StateAt(st, logs, i), dts[i], x, y);
    FlownNumbered(c, StateAt(st, logs, i), dts[i]);
  }
}
