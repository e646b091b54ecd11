/** The two ways a plan is scored: the headless run of the server and the replay on the phone.  Both
    stop at the same step in the same state, so their scores agree. */
module BonkScoring {
  import opened BonkWorld
  import opened BonkFlight
  import opened BonkSimModel
  import opened BonkScore
  import opened BonkRun
  import opened BonkSim

  /** `n` steps of the fixed length. */
  function FixedSteps(n: nat): seq<real> {
    seq(n, _ => SIM_DT)
  }

  /** The logs of a run in fixed steps that was not finished before any of its steps. */
  ghost predicate IsUnfinishedRun(c: Setup, st: SimState, logs: seq<Log>) {
    && IsRun(c, st, FixedSteps(|logs|), logs)
    && forall k: nat :: k < |logs| ==> !FinishedAt(st, logs, k)
  }

  ghost predicate FinishedAt(st: SimState, logs: seq<Log>, k: nat)
    requires k <= |logs|
  {
    Finished(StateAt(st, logs, k))
  }

  /** A run in fixed steps that ends exactly when the simulation is finished. */
  ghost predicate IsFullRun(c: Setup, st: SimState, logs: seq<Log>) {
    IsUnfinishedRun(c, st, logs) && FinishedAt(st, logs, |logs|)
  }

  lemma {:induction false} TimeAfter(c: Setup, st: SimState, logs: seq<Log>, n: nat)
    requires IsRun(c, st, FixedSteps(|logs|), logs) && n <= |logs|
    ensures StateAt(st, logs, n).t == st.t + n as real / 30.0
  {
    if n > 0 {
      TimeAfter(c, st, logs, n - 1);
      RunStepKeeps(PHONE_SCORE, c, st, FixedSteps(|logs|), logs, n - 1);
    }
  }

  /** No run that starts at time zero takes more than 3601 steps to finish. */
  lemma StepsBounded(c: Setup, st: SimState, logs: seq<Log>)
    requires IsUnfinishedRun(c, st, logs) && st.t == 0.0
    ensures |logs| <= MAX_STEPS
  {
    if |logs| > 0 {
      TimeAfter(c, st, logs, |logs| - 1);
      assert !FinishedAt(st, logs, |logs| - 1);
    }
  }

  lemma ExtendRun(c: Setup, st: SimState, logs: seq<Log>, lg: Log)
    requires IsUnfinishedRun(c, st, logs) && !FinishedAt(st, logs, |logs|)
    requires lg == StepLog(c, StateAt(st, logs, |logs|), SIM_DT)
    ensures IsUnfinishedRun(c, st, logs + [lg]) && StateAt(st, logs + [lg], |logs| + 1) == lg.st
  {
    var next := logs + [lg];
    forall k: nat | k < |next| ensures StepAt(c, st, FixedSteps(|next|), next, k) {
      if k < |logs| { assert StepAt(c, st, FixedSteps(|logs|), logs, k); }
    }
    forall k: nat | k < |next| ensures !FinishedAt(st, next, k) {
      if k < |logs| { assert !FinishedAt(st, logs, k); } else { assert !FinishedAt(st, logs, |logs|); }
    }
  }

  /** Two unfinished runs from one state agree as far as both go. */
  lemma {:induction false} RunsAgree(c: Setup, st: SimState, a: seq<Log>, b: seq<Log>, n: nat)
    requires IsUnfinishedRun(c, st, a) && IsUnfinishedRun(c, st, b) && n <= |a| && n <= |b|
    ensures a[..n] == b[..n] && StateAt(st, a, n) == StateAt(st, b, n)
  {
    if n > 0 {
      RunsAgree(c, st, a, b, n - 1);
      assert StepAt(c, st, FixedSteps(|a|), a, n - 1) && StepAt(c, st, FixedSteps(|b|), b, n - 1);
      assert a[..n] == a[..n - 1] + [a[n - 1]] && b[..n] == b[..n - 1] + [b[n - 1]];
    }
  }

  /** Hence there is only one full run of a plan, however it was cut into frames. */
  lemma FullRunIsUnique(c: Setup, st: SimState, a: seq<Log>, b: seq<Log>)
    requires IsFullRun(c, st, a) && IsFullRun(c, st, b)
    ensures a == b
  {
    var n := if |a| < |b| then |a| else |b|;
    RunsAgree(c, st, a, b, n);
    assert |a| < |b| ==> !FinishedAt(st, b, n);
    assert |b| < |a| ==> !FinishedAt(st, a, n);
    assert a[..n] == a && b[..n] == b;
  }

  // ---------- the server ----------

  /** The results of every full run of the plan, of which there is only one. */
  ghost predicate IsOutcome(w: World, m: Metric, sol: Solution, r: SimResults)
    requires MissionsOk(w)
  {
    forall c, logs :: IsSetup(c, w, m) && IsFullRun(c, InitialState(c, sol), logs) ==>
                        r == Results(StateAt(InitialState(c, sol), logs, |logs|))
  }

  lemma OneOutcome(w: World, m: Metric, sol: Solution, c: Setup, logs: seq<Log>)
    requires MissionsOk(w) && IsSetup(c, w, m) && IsFullRun(c, InitialState(c, sol), logs)
    ensures IsOutcome(w, m, sol, Results(StateAt(InitialState(c, sol), logs, |logs|)))
  {
    forall d, other | IsSetup(d, w, m) && IsFullRun(d, InitialState(d, sol), other)
      ensures Results(StateAt(InitialState(c, sol), logs, |logs|))
           == Results(StateAt(InitialState(d, sol), other, |other|))
    {
      assert d.weather == c.weather;
      FullRunIsUnique(c, InitialState(c, sol), logs, other);
    }
  }

  /** Steps a fresh simulation until it is finished, which takes at most 3601 steps. */
  method RunHeadless(w: World, m: Metric, sol: Solution) returns (r: SimResults, ghost c: Setup, ghost logs: seq<Log>)
    requires WorldOk(w)
    ensures IsSetup(c, w, m)
    ensures IsFullRun(c, InitialState(c, sol), logs) && |logs| <= MAX_STEPS
    ensures r == Results(StateAt(InitialState(c, sol), logs, |logs|)) && IsOutcome(w, m, sol, r)
  {
    var sim := new Sim(w, m, sol);
    c := sim.c;
    ghost var st := InitialState(c, sol);
    logs := [];
    while !Finished(sim.State())
      invariant sim.Valid() && sim.c == c
      invariant IsUnfinishedRun(c, st, logs) && sim.State() == StateAt(st, logs, |logs|)
      invariant |logs| <= MAX_STEPS
      decreases MAX_STEPS - |logs|
    {
      ghost var before := sim.State();
      var ev := sim.Step(SIM_DT);
      ExtendRun(c, st, logs, Log(sim.State(), ev));
      logs := logs + [Log(sim.State(), ev)];
      StepsBounded(c, st, logs);
    }
    r := Results(sim.State());
    OneOutcome(w, m, sol, c, logs);
  }

  datatype Score = Score(isCorrect: bool, points: int)

  predicate AllComplete(w: World, sol: Solution) {
    |w.planes| > 0 && forall i :: 0 <= i < |w.planes| ==> w.planes[i].id in sol && sol[w.planes[i].id].complete
  }

  /** The bonus for planning quickly; the time left is rounded down to whole seconds. */
  function EarlyBonus(w: World, sol: Solution, timeLimitMs: int, earlyMax: int, timeMs: int): int {
    if !AllComplete(w, sol) then 0 else
      var seconds := (timeLimitMs - timeMs) / 1000;
      var bonus := (if seconds > 0 then seconds else 0) * EARLY_PER_SECOND;
      if bonus < earlyMax then bonus else earlyMax
  }

  /** There is an early bonus only for a plan whose routes are all complete.  It is ten points for every whole
      second left, up to the cap, and none when the time is up. */
  lemma EarlyBonusIs(w: World, sol: Solution, timeLimitMs: int, earlyMax: int, timeMs: int, seconds: int)
    requires 1000 * seconds <= timeLimitMs - timeMs < 1000 * (seconds + 1)
    ensures var bonus := EarlyBonus(w, sol, timeLimitMs, earlyMax, timeMs);
            && (!AllComplete(w, sol) ==> bonus == 0)
            && (AllComplete(w, sol) && seconds <= 0 ==> bonus == if earlyMax < 0 then earlyMax else 0)
            && (AllComplete(w, sol) && 0 < seconds && 10 * seconds <= earlyMax ==> bonus == 10 * seconds)
            && (AllComplete(w, sol) && 0 < seconds && 10 * seconds > earlyMax ==> bonus == earlyMax)
  {
  }

  /** The awarded points lie between zero and all arrivals, all stars, the perfect bonus and the cap of
      the early bonus; a plan is correct exactly when it earns the perfect bonus. */
  method ScoreSubmission(w: World, m: Metric, sol: Solution, timeLimitMs: int, earlyMax: int, timeMs: int)
    returns (score: Score, ghost c: Setup, ghost logs: seq<Log>)
    requires WorldOk(w)
    ensures IsSetup(c, w, m) && IsFullRun(c, InitialState(c, sol), logs)
    ensures var r := Results(StateAt(InitialState(c, sol), logs, |logs|));
            var total := r.score + EarlyBonus(w, sol, timeLimitMs, earlyMax, timeMs);
            && score.points == (if total > 0 then total else 0)
            && (score.isCorrect <==> r.perfect == PTS_PERFECT)
    ensures 0 <= score.points
    ensures score.points <= PTS_DONE * |w.planes| + PTS_STAR * |w.stars| + PTS_PERFECT
                            + if earlyMax > 0 then earlyMax else 0
  {
    var r;
    r, c, logs := RunHeadless(w, m, sol);
    ghost var end := StateAt(InitialState(c, sol), logs, |logs|);
    ScoreBound(c, sol, FixedSteps(|logs|), logs);
    var total := r.score + EarlyBonus(w, sol, timeLimitMs, earlyMax, timeMs);
    var isCorrect := r.violations == 0 && forall i :: 0 <= i < |r.per| ==> r.per[i].base > 0;
    EveryBaseIsAllDone(end);
    score := Score(isCorrect, if total > 0 then total else 0);
  }

  lemma EveryBaseIsAllDone(st: SimState)
    ensures AllDone(st.planes) <==> forall i :: 0 <= i < |Results(st).per| ==> Results(st).per[i].base > 0
  {
    if forall i :: 0 <= i < |Results(st).per| ==> Results(st).per[i].base > 0 {
      forall i | 0 <= i < |st.planes| ensures st.planes[i].state == Done {
        assert Results(st).per[i].base > 0;
      }
    }
  }

  // ---------- the phone ----------

  class Replay {
    const sim: Sim
    ghost const sol: Solution
    var acc: real            // simulated time owed to the frames so far
    var simSpeed: real
    var runningScore: int
    var ended: bool          // the replay has reached its end and reported it
    ghost var logs: seq<Log>

    ghost function Start(): SimState
      requires MissionsOk(sim.c.w)
    {
      InitialState(sim.c, sol)
    }

    /** The replay has played a run up to its logs, and its score is that of the events so far. */
    ghost predicate Valid()
      reads this, sim
    {
      && MissionsOk(sim.c.w) && sim.Valid()
      && IsUnfinishedRun(sim.c, Start(), logs)
      && sim.State() == StateAt(Start(), logs, |logs|)
      && runningScore == Folded(PHONE_SCORE, logs, |logs|)
      && (ended ==> Finished(sim.State()))
    }

    constructor (w: World, m: Metric, plan: Solution, speed: real)
      requires WorldOk(w)
      ensures Valid() && runningScore == 0 && logs == [] && !ended
      ensures sol == plan && IsSetup(sim.c, w, m) && fresh(sim)
    {
      var s := new Sim(w, m, plan);
      sim, sol, acc, simSpeed := s, plan, 0.0, speed;
      runningScore, ended, logs := 0, false, [];
    }

    /** What one event does to the score shown on the phone. */
    method HandleEvent(e: SimEvent)
      modifies this`runningScore
      ensures runningScore == old(runningScore) + EventWeight(PHONE_SCORE, e)
    {
      match e {
        case Arrived(_) => runningScore := runningScore + PTS_DONE;
        case Separation(_, _) => runningScore := runningScore - SEP_PENALTY;
        case StarTaken(_, _) => runningScore := runningScore + PTS_STAR;
        case _ =>
      }
    }

    method HandleEvents(ev: seq<SimEvent>)
      modifies this`runningScore
      ensures runningScore == old(runningScore) + Running(PHONE_SCORE, ev, |ev|)
    {
      for i := 0 to |ev|
        invariant runningScore == old(runningScore) + Running(PHONE_SCORE, ev, i)
      {
        HandleEvent(ev[i]);
      }
    }

    /** One fixed step of the replay. */
    method PlayStep()
      requires Valid() && !Finished(sim.State()) && !ended
      modifies this, sim
      ensures Valid() && acc == old(acc) && simSpeed == old(simSpeed) && !ended
      ensures |logs| == |old(logs)| + 1 && logs[..|old(logs)|] == old(logs)
    {
      var ev := sim.Step(SIM_DT);
      HandleEvents(ev);
      ExtendRun(sim.c, Start(), logs, Log(sim.State(), ev));
      FoldedAppend(PHONE_SCORE, logs, Log(sim.State(), ev));
      logs := logs + [Log(sim.State(), ev)];
    }

    /** One frame: as many fixed steps as the frame's time allows, until the simulation is finished. */
    method UpdateSimPhase(dt: real)
      requires Valid() && !ended
      modifies this, sim
      ensures Valid() && |old(logs)| <= |logs| && logs[..|old(logs)|] == old(logs)
      ensures ended <==> Finished(sim.State())
      ensures !ended ==> acc < SIM_DT
      ensures acc + SIM_DT * (|logs| - |old(logs)|) as real == old(acc) + dt * simSpeed
    {
      acc := acc + dt * simSpeed;
      ghost var total, played := acc, 0;
      while acc >= SIM_DT && !Finished(sim.State())
        invariant Valid() && !ended && simSpeed == old(simSpeed)
        invariant |logs| == |old(logs)| + played && logs[..|old(logs)|] == old(logs)
        invariant acc == total - SIM_DT * played as real
        decreases if acc > 0.0 then (acc * 30.0).Floor else 0
      {
        acc := acc - SIM_DT;
        PlayStep();
        played := played + 1;
      }
      if Finished(sim.State()) {
        ended := true;
      }
    }
  }

  lemma {:induction false} FoldedPrefix(v: Weights, logs: seq<Log>, lg: Log, n: nat)
    requires n <= |logs|
    ensures Folded(v, logs + [lg], n) == Folded(v, logs, n)
  {
    if n > 0 { FoldedPrefix(v, logs, lg, n - 1); }
  }

  lemma FoldedAppend(v: Weights, logs: seq<Log>, lg: Log)
    ensures Folded(v, logs + [lg], |logs| + 1) == Folded(v, logs, |logs|) + Running(v, lg.ev, |lg.ev|)
  {
    FoldedPrefix(v, logs, lg, |logs|);
  }

  /** When the phone's replay has ended, its score and the perfect bonus make the server's score. */
  lemma ReplayScoreIsServerScore(w: World, m: Metric, sol: Solution, phone: Setup, phoneLogs: seq<Log>,
                                 server: Setup, serverLogs: seq<Log>)
    requires MissionsOk(w) && IsSetup(phone, w, m) && IsSetup(server, w, m)
    requires IsFullRun(phone, InitialState(phone, sol), phoneLogs)
    requires IsFullRun(server, InitialState(server, sol), serverLogs)
    ensures var r := Results(StateAt(InitialState(server, sol), serverLogs, |serverLogs|));
            Folded(PHONE_SCORE, phoneLogs, |phoneLogs|) + r.perfect == r.score
  {
    assert phone.weather == server.weather;
    FullRunIsUnique(server, InitialState(server, sol), phoneLogs, serverLogs);
    PhoneAgreesWithServer(server, sol, FixedSteps(|phoneLogs|), phoneLogs);
  }
}
