/** The game loop itself: `run`, `runRound` and the methods they are made of.  A method that can throw
    says so in its result. */
module GameEngine {
  import opened Common
  import opened GameLoop

  const ROUND_INTRO_SECONDS := 3
  const LEADERBOARD_SECONDS := 3

  datatype Flow = Went | Cut | Threw

  datatype Ending = NotFound | Ended(status: Status) | Failed

  /** What the timer makes of the event that ends a phase. */
  function OutcomeBy(cause: TimerEvent): T.Outcome {
    match cause
    case Second => T.Expired
    case AbortGame => T.Aborted
    case _ => T.EndedEarly
  }

  // ---------- what a round says ----------

  /** The phases of a round after its question, when `played` have been entered from that on. */
  function AfterPlaying(i: nat, n: nat, played: nat): seq<Phase> {
    if played <= 1 then [] else if played == 2 then [Reveal] else [Reveal] + [RoundPhases(i, n)[3]]
  }

  lemma PhasesPlayed(before: seq<Phase>, i: nat, n: nat, played: nat)
    requires 0 < played <= 3
    ensures before + [Intro] + [Playing] + AfterPlaying(i, n, played) == before + RoundPhases(i, n)[..played + 1]
  {
  }

  function OpenSaid(i: nat): seq<Entry> {
    [RoundEntered(i), RoundStarted(i), PhaseEntered(Intro)]
  }

  /** After the question phase its answers are finalized and its window is closed, unless it was aborted. */
  function QuestionEnd(i: nat, allAnswered: bool, didAbort: bool): seq<Entry> {
    if didAbort then [WindowAborted]
    else [TimerExpired(i), FinalizeRequested(i, allAnswered), WindowClosed(i, allAnswered)]
  }

  function AdvanceSaid(i: nat, n: nat): seq<Entry> {
    [RoundEnded(i)] + if i == n - 1 then [PhaseEntered(GameOverPhase)] else LeaderboardSaid(i)
  }

  function LeaderboardSaid(i: nat): seq<Entry> {
    [PhaseEntered(Leaderboard), LeaderboardShown(i)]
  }

  function CloseSaid(i: nat, n: nat): seq<Entry> {
    [PhaseEntered(Reveal)] + AdvanceSaid(i, n)
  }

  function QuestionSaid(i: nat, allAnswered: bool): seq<Entry> {
    [PhaseEntered(Playing)] + QuestionEnd(i, allAnswered, false)
  }

  function PlaySaid(i: nat, n: nat, allAnswered: bool): seq<Entry> {
    QuestionSaid(i, allAnswered) + CloseSaid(i, n)
  }

  /** Everything a round says that goes through to its end. */
  function RoundSaid(i: nat, n: nat, allAnswered: bool): seq<Entry> {
    OpenSaid(i) + PlaySaid(i, n, allAnswered)
  }

  /** What a round has said and entered in both its parts. */
  lemma RoundPlayed(d: Digest, begun: Digest, e: Digest, i: nat, n: nat, played: nat, answered: bool, flow: Flow)
    requires 0 < played <= 3 && begun.phases == d.phases + [Intro] && begun.said == d.said + OpenSaid(i)
    requires e.phases == begun.phases + [Playing] + AfterPlaying(i, n, played)
    requires if flow.Cut? && played == 1 then e.said == begun.said + [PhaseEntered(Playing), WindowAborted]
             else Took(begun.said, e.said, PlaySaid(i, n, answered), flow.Went?)
    ensures e.phases == d.phases + RoundPhases(i, n)[..played + 1]
    ensures if flow.Cut? && played == 1 then
              e.said == d.said + OpenSaid(i) + [PhaseEntered(Playing), WindowAborted]
            else Took(d.said, e.said, RoundSaid(i, n, answered), flow.Went?)
  {
    PhasesPlayed(d.phases, i, n, played);
    if !(flow.Cut? && played == 1) {
      TookMore(d.said, begun.said, e.said, OpenSaid(i), PlaySaid(i, n, answered), flow.Went?);
    }
  }

  /** The events of the wait numbered `at` end the question phase by everybody having answered. */
  predicate EndsAnswered(env: nat -> Reply, at: nat, seconds: int) {
    EndOf(env(at).events, 0, 0, T.Limit(seconds), true).cause == AllAnswered
  }

  /** What the first `k` rounds say that began at wait `start`; the question of a round is timed at its eighth
      wait. */
  function SaidTo(env: nat -> Reply, start: nat, rounds: seq<seq<Wait>>, timeLimit: nat -> int, k: nat): seq<Entry>
    requires k <= |rounds|
  {
    if k == 0 then [] else
      SaidTo(env, start, rounds, timeLimit, k - 1)
      + RoundSaid(k - 1, |rounds|, EndsAnswered(env, start + |WaitsTo(rounds, k - 1)| + 7, timeLimit(k - 1)))
  }

  // ---------- where a game stands ----------

  /** The waits of a game, the phases it has entered and all it has said, when it has gone through some
      rounds. */
  datatype Mark = Mark(waits: seq<Wait>, phases: seq<Phase>, said: seq<Entry>)

  function MarkAt(env: nat -> Reply, start: seq<Wait>, rounds: seq<seq<Wait>>, timeLimit: nat -> int, k: nat): Mark
    requires k <= |rounds|
  {
    Mark(start + WaitsTo(rounds, k), TraceTo(k, |rounds|), SaidTo(env, |start|, rounds, timeLimit, k))
  }

  ghost predicate IsPlan(marks: seq<Mark>, env: nat -> Reply, start: seq<Wait>, rounds: seq<seq<Wait>>,
                         timeLimit: nat -> int) {
    && |marks| == |rounds| + 1
    && forall k: nat {:trigger MarkAt(env, start, rounds, timeLimit, k)} ::
         k <= |rounds| ==> marks[k] == MarkAt(env, start, rounds, timeLimit, k)
  }

  lemma MarkIs(marks: seq<Mark>, env: nat -> Reply, start: seq<Wait>, rounds: seq<seq<Wait>>, timeLimit: nat -> int,
               k: nat)
    requires IsPlan(marks, env, start, rounds, timeLimit) && k <= |rounds|
    ensures marks[k].waits == start + WaitsTo(rounds, k) && marks[k].phases == TraceTo(k, |rounds|)
    ensures marks[k].said == SaidTo(env, |start|, rounds, timeLimit, k)
  {
    assert marks[k] == MarkAt(env, start, rounds, timeLimit, k);
  }

  lemma MarksGrow(marks: seq<Mark>, env: nat -> Reply, start: seq<Wait>, rounds: seq<seq<Wait>>, timeLimit: nat -> int,
                  k: nat)
    requires IsPlan(marks, env, start, rounds, timeLimit) && k <= |rounds|
    ensures marks[k].phases <= marks[|rounds|].phases
    ensures marks[0].waits <= marks[k].waits <= marks[|rounds|].waits
  {
    MarkIs(marks, env, start, rounds, timeLimit, 0);
    MarkIs(marks, env, start, rounds, timeLimit, k);
    MarkIs(marks, env, start, rounds, timeLimit, |rounds|);
    TraceGrows(k, |rounds|, |rounds|);
    WaitsGrow(rounds, k, |rounds|);
  }

  lemma NextPhases(marks: seq<Mark>, env: nat -> Reply, start: seq<Wait>, rounds: seq<seq<Wait>>,
                   timeLimit: nat -> int, i: nat, before: seq<Phase>, after: seq<Phase>, played: nat)
    requires IsPlan(marks, env, start, rounds, timeLimit) && i < |rounds| && before == marks[i].phases && played <= 4
    requires after == before + RoundPhases(i, |rounds|)[..played]
    ensures after <= marks[|rounds|].phases && (played == 4 ==> after == marks[i + 1].phases)
  {
    MarkIs(marks, env, start, rounds, timeLimit, i);
    MarkIs(marks, env, start, rounds, timeLimit, i + 1);
    MarkIs(marks, env, start, rounds, timeLimit, |rounds|);
    UnderwayIsPrefix(Digest(after, i + 1, false, false, [], [], true), |rounds|, played);
  }

  lemma NextWaits(marks: seq<Mark>, env: nat -> Reply, start: seq<Wait>, rounds: seq<seq<Wait>>,
                  timeLimit: nat -> int, i: nat, mid: seq<Wait>, after: seq<Wait>, went: bool)
    requires IsPlan(marks, env, start, rounds, timeLimit) && i < |rounds| && mid == marks[i].waits
    requires Took(mid, after, rounds[i], went)
    ensures marks[0].waits <= after <= marks[|rounds|].waits && (went ==> after == marks[i + 1].waits)
  {
    MarkIs(marks, env, start, rounds, timeLimit, 0);
    MarkIs(marks, env, start, rounds, timeLimit, i);
    MarkIs(marks, env, start, rounds, timeLimit, i + 1);
    MarkIs(marks, env, start, rounds, timeLimit, |rounds|);
    RoundTook(rounds, start, mid, after, i, went);
  }

  lemma NextSaid(marks: seq<Mark>, env: nat -> Reply, start: seq<Wait>, rounds: seq<seq<Wait>>,
                 timeLimit: nat -> int, i: nat, mid: seq<Wait>, before: seq<Entry>, after: seq<Entry>)
    requires IsPlan(marks, env, start, rounds, timeLimit) && i < |rounds|
    requires mid == marks[i].waits && before == marks[i].said
    requires after == before + RoundSaid(i, |rounds|, EndsAnswered(env, |mid| + 7, timeLimit(i)))
    ensures after == marks[i + 1].said
  {
    MarkIs(marks, env, start, rounds, timeLimit, i);
    MarkIs(marks, env, start, rounds, timeLimit, i + 1);
    SaidNext(env, |start|, rounds, timeLimit, i, |mid|);
  }

  lemma SaidNext(env: nat -> Reply, start: nat, rounds: seq<seq<Wait>>, timeLimit: nat -> int, i: nat, at: nat)
    requires i < |rounds| && at == start + |WaitsTo(rounds, i)|
    ensures SaidTo(env, start, rounds, timeLimit, i + 1) == SaidTo(env, start, rounds, timeLimit, i)
              + RoundSaid(i, |rounds|, EndsAnswered(env, at + 7, timeLimit(i)))
  {
  }

  /** Everything a finished game says that began at wait `at`. */
  function GameSaid(env: nat -> Reply, at: nat, n: nat, timeLimit: nat -> int, revealSeconds: nat -> int): seq<Entry> {
    SaidTo(env, at + 2, Rounds(n, timeLimit, revealSeconds), timeLimit, n) + [Finishing(Finished)] + [GameOver]
  }

  // ---------- the waits of a whole game ----------

  lemma QuestionTook(before: seq<Wait>, mid: seq<Wait>, after: seq<Wait>, seconds: int, all: bool)
    requires mid == before + [Timed(seconds, true)] && after == if all then mid + [Plain] + [Plain] else mid
    ensures Took(before, after, [Timed(seconds, true), Plain, Plain], all)
  {
    assert before + [Timed(seconds, true), Plain, Plain] == mid + [Plain] + [Plain];
  }

  function StartWaits(): seq<Wait> {
    [Plain, Plain, Plain]
  }

  function PhaseWaits(seconds: int): seq<Wait> {
    [Plain, Timed(seconds, false)]
  }

  function QuestionWaits(seconds: int): seq<Wait> {
    [Plain, Plain, Timed(seconds, true), Plain, Plain]
  }

  function AdvanceWaits(i: nat, n: nat): seq<Wait> {
    [Plain, Plain, Plain] + if i == n - 1 then [] else [Plain, Timed(LEADERBOARD_SECONDS, false)]
  }

  function OpenWaits(): seq<Wait> {
    StartWaits() + PhaseWaits(ROUND_INTRO_SECONDS)
  }

  function CloseWaits(i: nat, n: nat, revealSeconds: nat -> int): seq<Wait> {
    PhaseWaits(revealSeconds(i)) + AdvanceWaits(i, n)
  }

  function RoundWaits(i: nat, n: nat, timeLimit: nat -> int, revealSeconds: nat -> int): seq<Wait> {
    OpenWaits() + (QuestionWaits(timeLimit(i)) + CloseWaits(i, n, revealSeconds))
  }

  function Rounds(n: nat, timeLimit: nat -> int, revealSeconds: nat -> int): seq<seq<Wait>> {
    seq(n, i requires 0 <= i < n => RoundWaits(i, n, timeLimit, revealSeconds))
  }

  ghost predicate IsSchedule(rounds: seq<seq<Wait>>, n: nat, timeLimit: nat -> int, revealSeconds: nat -> int) {
    && |rounds| == n
    && forall i: nat {:trigger RoundWaits(i, n, timeLimit, revealSeconds)} ::
         i < n ==> rounds[i] == RoundWaits(i, n, timeLimit, revealSeconds)
  }

  /** The waits of a whole game: the room and its rounds are looked up, and the rounds are played. */
  function GameWaits(n: nat, timeLimit: nat -> int, revealSeconds: nat -> int): seq<Wait> {
    [Plain, Plain] + WaitsTo(Rounds(n, timeLimit, revealSeconds), n)
  }

  class Engine {
    const env: nat -> Reply
    const timeLimit: nat -> int
    const revealSeconds: nat -> int
    const timer: T.Timer
    var at: nat
    var running: bool
    var aborted: bool
    var phase: Option<Phase>
    var status: Status
    var log: seq<Entry>
    ghost var waits: seq<Wait>

    ghost predicate Valid()
      reads this, timer
    {
      && timer.Valid()
      && aborted == Whole(log).aborted && (Whole(log).cut ==> aborted)
      && Whole(log).orderly
    }

    /** The flag is set exactly when one of the waits so far has called `abort`. */
    ghost predicate Traced()
      reads this
    {
      at == |waits| && aborted == Tripped(env, waits, |waits|)
    }

    /** No phase is being timed. */
    ghost predicate Between()
      reads this, timer
    {
      Valid() && Traced() && timer.resolveFn == None
    }

    /** The last reply was an error. */
    predicate Failing()
      reads this
    {
      at > 0 && env(at - 1).fails
    }

    constructor (env: nat -> Reply, timeLimit: nat -> int, revealSeconds: nat -> int)
      ensures Between() && fresh(timer) && log == [] && status == Active && !aborted && !running
      ensures this.env == env && this.timeLimit == timeLimit && this.revealSeconds == revealSeconds
    {
      this.env, this.timeLimit, this.revealSeconds := env, timeLimit, revealSeconds;
      timer := new T.Timer();
      at, running, aborted, phase, status, log := 0, false, false, None, Active, [];
      waits := [];
    }

    method Emit(e: Entry)
      requires Valid() && !e.AbortCalled? && Add(Whole(log), e).orderly
      modifies `log
      ensures Valid()
      ensures log == old(log) + [e] && Whole(log) == Add(Whole(old(log)), e)
    {
      WholeOfAppend(log, e);
      log := log + [e];
    }

    /** Trips the flag and cancels the phase that is being timed, if one is. */
    method Abort()
      requires Valid() && running
      modifies this`aborted, this`log, timer
      ensures Valid() && aborted
      ensures timer.Now() == T.Settled(old(timer.Now()), T.Aborted)
      ensures log == old(log) + [AbortCalled(old(timer.resolveFn).Some?)]
      ensures Whole(log) == Add(Whole(old(log)), AbortCalled(old(timer.resolveFn).Some?))
    {
      WholeOfAppend(log, AbortCalled(timer.resolveFn.Some?));
      log := log + [AbortCalled(timer.resolveFn.Some?)];
      aborted := true;
      timer.Cancel();
    }

    /** Waits for anything but the timer; `abort` may be called meanwhile, and then cancels nothing. */
    method Await() returns (ok: bool)
      requires Between() && running
      modifies this`at, this`waits, this`aborted, this`log, timer
      ensures Between() && at == old(at) + 1
      ensures ok == !env(old(at)).fails
      ensures Whole(log) == Whole(old(log)).(aborted := aborted)
      ensures aborted == (old(aborted) || env(old(at)).aborts)
      ensures waits == old(waits) + [Plain]
    {
      var reply := env(at);
      at := at + 1;
      TrippedNext(env, waits, Plain);
      waits := waits + [Plain];
      if reply.aborts {
        Abort();
      }
      ok := !reply.fails;
    }

    /** The countdown of the phase being timed, or of the last one. */
    function Current(): T.Countdown
      requires |timer.starts| > 0
      reads this, timer
    {
      timer.starts[|timer.starts| - 1]
    }

    /** The interval's callback. */
    method TickDown() returns (remaining: int)
      requires Valid() && timer.resolveFn.Some?
      modifies timer
      ensures Valid() && |timer.starts| == |old(timer.starts)|
      ensures timer.resolveFn.Some? <==> Current().outcome == None
      ensures Current() == T.Ticked(old(Current())) && Current().ticks == old(Current()).ticks + [remaining]
    {
      T.FireTicks(timer.Now());
      var tick := timer.OnInterval();
      remaining := tick.value;
    }

    method SendTick(remaining: int, question: bool)
      requires Valid()
      modifies this`log
      ensures Valid()
      ensures log == Said(old(log), remaining, question)
    {
      if question {
        Emit(Tick(remaining));
      }
    }

    /** A second passes while a phase is timed; the question phase sends the tick. */
    method OnSecond(question: bool, ghost before: seq<Entry>)
      requires Valid() && running && timer.resolveFn.Some?
      requires log == Heard(before, Current().ticks, question, false)
      modifies this`log, timer
      ensures Valid() && |timer.starts| == |old(timer.starts)|
      ensures timer.resolveFn.Some? <==> Current().outcome == None
      ensures Current() == T.Ticked(old(Current()))
      ensures log == Heard(before, Current().ticks, question, false)
    {
      ghost var ticks := Current().ticks;
      var remaining := TickDown();
      assert log == Heard(before, ticks, question, false);
      SendTick(remaining, question);
      HeardNext(before, ticks, remaining, question);
    }

    /** One event while a phase is timed. */
    method OnEvent(event: TimerEvent, question: bool, ghost before: seq<Entry>) returns (settles: bool)
      requires Valid() && running && timer.resolveFn.Some?
      requires log == Heard(before, Current().ticks, question, false)
      modifies this`aborted, this`log, timer
      ensures Valid() && |timer.starts| == |old(timer.starts)| && Current().seconds == old(Current()).seconds
      ensures timer.resolveFn.Some? <==> Current().outcome == None
      ensures log == Heard(before, Current().ticks, question, event.AbortGame?)
      ensures settles <==> Settles(event, question)
      ensures Current() == if settles then old(Current()).(outcome := Some(OutcomeBy(event)))
                           else if event.Second? then T.Ticked(old(Current())) else old(Current())
    {
      settles := !event.Second? && (question || event.AbortGame?);
      if event.Second? {
        OnSecond(question, before);
      } else if event.AbortGame? {
        HeardNext(before, Current().ticks, 0, question);
        Abort();
      } else if question {
        timer.EndEarly();
      }
    }

    /** Times one phase: the events come as the environment has them, and seconds pass after them.  The
        phase ends with the first event that settles it, or with its last second. */
    method TimePhase(seconds: int, question: bool) returns (didAbort: bool, didEndEarly: bool)
      requires Between() && running
      modifies this`at, this`waits, this`aborted, this`log, timer
      ensures Between()
      ensures aborted == (old(aborted) || didAbort)
      ensures Whole(log) == Whole(old(log)).(aborted := aborted, cut := Whole(old(log)).cut || didAbort)
      ensures var end := EndOf(env(old(at)).events, 0, 0, T.Limit(seconds), question);
              && (didAbort <==> end.cause == AbortGame) && (didEndEarly <==> end.cause == AllAnswered)
              && |timer.starts| == |old(timer.starts)| + 1 && Current().seconds == seconds
              && Current().outcome == Some(OutcomeBy(end.cause)) && |Current().ticks| == end.ticks
      ensures didAbort ==> AbortGame in env(old(at)).events
      ensures didEndEarly ==> question && AllAnswered in env(old(at)).events
      ensures T.CountsDown(Current())
      ensures log == Heard(old(log), Current().ticks, question, didAbort)
      ensures waits == old(waits) + [Timed(seconds, question)]
    {
      ghost var before, was := log, old(waits);
      var events := env(at).events;
      at := at + 1;
      TrippedNext(env, waits, Timed(seconds, question));
      waits := waits + [Timed(seconds, question)];
      timer.Start(seconds);
      didAbort, didEndEarly := WaitForEnd(events, question);
      WholeOfHeard(before, Current().ticks, question, didAbort);
      CauseComes(events, 0, 0, T.Limit(seconds), question);
    }

    /** Waits until the countdown just started settles. */
    method WaitForEnd(events: seq<TimerEvent>, question: bool) returns (didAbort: bool, didEndEarly: bool)
      requires Valid() && running && timer.resolveFn.Some?
      requires Current().ticks == [] && Current().outcome == None
      modifies this`aborted, this`log, timer
      ensures Valid() && timer.resolveFn.None?
      ensures |timer.starts| == |old(timer.starts)| && Current().seconds == old(Current()).seconds
      ensures var end := EndOf(events, 0, 0, T.Limit(Current().seconds), question);
              && (didAbort <==> end.cause == AbortGame) && (didEndEarly <==> end.cause == AllAnswered)
              && Current().outcome == Some(OutcomeBy(end.cause)) && |Current().ticks| == end.ticks
      ensures log == Heard(old(log), Current().ticks, question, didAbort)
    {
      var i := 0;
      ghost var limit := T.Limit(Current().seconds);
      didAbort, didEndEarly := false, false;
      while timer.resolveFn.Some?
        invariant Valid() && i <= |events|
        invariant |timer.starts| == |old(timer.starts)| && Current().seconds == old(Current()).seconds
        invariant timer.resolveFn.Some? <==> Current().outcome == None
        invariant |Current().ticks| <= limit
        invariant Underway(events, i, limit, question, didAbort, didEndEarly)
        invariant log == Heard(old(log), Current().ticks, question, didAbort)
        decreases |events| - i, limit - |Current().ticks|
      {
        var event := Second;
        EndNext(events, i, |Current().ticks|, limit, question);
        if i < |events| {
          event, i := events[i], i + 1;
        }
        var settles := OnEvent(event, question, old(log));
        if settles {
          didAbort, didEndEarly := event.AbortGame?, event.AllAnswered?;
        }
      }
    }

    /** The phase being timed has still the same end before it, or has come to it. */
    ghost predicate Underway(events: seq<TimerEvent>, i: nat, limit: nat, question: bool, didAbort: bool,
                             didEndEarly: bool)
      requires |timer.starts| > 0 && i <= |events| && limit > 0
      reads this, timer
    {
      var end, d := EndOf(events, 0, 0, limit, question), Current();
      if d.outcome == None then
        |d.ticks| < limit && EndOf(events, i, |d.ticks|, limit, question) == end && !didAbort && !didEndEarly
      else
        && d.outcome == Some(OutcomeBy(end.cause)) && |d.ticks| == end.ticks
        && (didAbort <==> end.cause == AbortGame) && (didEndEarly <==> end.cause == AllAnswered)
    }

    /** Shows the phase and the room state that goes with it. */
    method EnterPhase(p: Phase) returns (ok: bool)
      requires Between() && running && !Whole(log).cut
      modifies this`at, this`waits, this`aborted, this`phase, this`log, timer
      ensures Between() && (old(aborted) ==> aborted)
      ensures (!ok ==> Failing()) && (Undisturbed(env) ==> aborted == old(aborted))
      ensures Whole(log) == Whole(old(log)).(phases := Whole(old(log)).phases + [p], aborted := aborted,
                                             said := Whole(old(log)).said + [PhaseEntered(p)])
      ensures waits == old(waits) + [Plain] && ok == !env(old(at)).fails
    {
      phase := Some(p);
      Emit(PhaseEntered(p));
      ok := Await();
    }

    /** Enters a phase and times it. */
    method RunPhase(p: Phase, seconds: int) returns (flow: Flow)
      requires Between() && running && !Whole(log).cut
      modifies this`at, this`waits, this`aborted, this`phase, this`log, timer
      ensures Between() && (old(aborted) ==> aborted)
      ensures (flow.Threw? ==> Failing()) && (Undisturbed(env) ==> aborted == old(aborted) && !flow.Cut?)
      ensures Whole(log) == Whole(old(log)).(phases := Whole(old(log)).phases + [p], aborted := aborted,
                                             cut := flow.Cut?, said := Whole(old(log)).said + [PhaseEntered(p)])
      ensures flow == if env(old(at)).fails then Threw
                      else if EndOf(env(old(at) + 1).events, 0, 0, T.Limit(seconds), false).cause == AbortGame then Cut
                      else Went
      ensures Took(old(waits), waits, PhaseWaits(seconds), !flow.Threw?)
    {
      var ok := EnterPhase(p);
      if !ok {
        return Threw;
      }
      var didAbort, _ := TimePhase(seconds, false);
      flow := if didAbort then Cut else Went;
    }

    /** Asks for the answers to be finalized and waits for that and for the scores; neither wait throws. */
    method CloseAndAwaitScore(i: nat, allAnswered: bool)
      requires Between() && running
      modifies this`at, this`waits, this`aborted, this`log, timer
      ensures Between() && (old(aborted) ==> aborted)
      ensures Undisturbed(env) ==> aborted == old(aborted)
      ensures Whole(log) == Whole(old(log)).(aborted := aborted, said :=
                Whole(old(log)).said + [FinalizeRequested(i, allAnswered)] + [WindowClosed(i, allAnswered)])
      ensures waits == old(waits) + [Plain] + [Plain]
    {
      Emit(FinalizeRequested(i, allAnswered));
      var _ := Await();
      Emit(WindowClosed(i, allAnswered));
      var _ := Await();
    }

    /** The question is shown; the presenter's errors are swallowed. */
    method ShowQuestion() returns (ok: bool)
      requires Between() && running && !Whole(log).cut
      modifies this`at, this`waits, this`aborted, this`phase, this`log, timer
      ensures Between() && (old(aborted) ==> aborted)
      ensures (!ok ==> Failing()) && (Undisturbed(env) ==> aborted == old(aborted))
      ensures Whole(log) == Whole(old(log)).(phases := Whole(old(log)).phases + [Playing], aborted := aborted,
                                             said := Whole(old(log)).said + [PhaseEntered(Playing)])
      ensures ok == !env(old(at)).fails && (ok ==> at == old(at) + 2)
      ensures Took(old(waits), waits, [Plain, Plain], ok)
    {
      ok := EnterPhase(Playing);
      if ok {
        var _ := Await();
      }
    }

    /** The question is timed, closed and scored. */
    method TimeQuestion(i: nat) returns (flow: Flow)
      requires Between() && running && !Whole(log).cut
      modifies this`at, this`waits, this`aborted, this`log, timer
      ensures Between() && (old(aborted) ==> aborted)
      ensures !flow.Threw? && (Undisturbed(env) ==> aborted == old(aborted) && !flow.Cut?)
      ensures Whole(log) == Whole(old(log)).(aborted := aborted, cut := flow.Cut?, said :=
                Whole(old(log)).said + QuestionEnd(i, EndsAnswered(env, old(at), timeLimit(i)), flow.Cut?))
      ensures var end := EndOf(env(old(at)).events, 0, 0, T.Limit(timeLimit(i)), true);
              flow == if end.cause == AbortGame then Cut else Went
      ensures Took(old(waits), waits, [Timed(timeLimit(i), true), Plain, Plain], flow.Went?)
    {
      var didAbort, didEndEarly := TimePhase(timeLimit(i), true);
      ghost var mid := waits;
      if didAbort {
        Emit(WindowAborted);
        flow := Cut;
      } else {
        Emit(TimerExpired(i));
        CloseAndAwaitScore(i, didEndEarly);
        flow := Went;
      }
      QuestionTook(old(waits), mid, waits, timeLimit(i), flow.Went?);
    }

    /** The question phase. */
    method PlayQuestion(i: nat) returns (flow: Flow)
      requires Between() && running && !Whole(log).cut
      modifies this`at, this`waits, this`aborted, this`phase, this`log, timer
      ensures Between() && (old(aborted) ==> aborted)
      ensures (flow.Threw? ==> Failing()) && (Undisturbed(env) ==> aborted == old(aborted) && !flow.Cut?)
      ensures Whole(log) == Whole(old(log)).(phases := Whole(old(log)).phases + [Playing], aborted := aborted,
                                             cut := flow.Cut?, said := Whole(log).said)
      ensures Whole(log).said == Whole(old(log)).said + [PhaseEntered(Playing)]
                + (if flow.Threw? then [] else
                   QuestionEnd(i, EndsAnswered(env, old(at) + 2, timeLimit(i)), flow.Cut?))
      ensures var end := EndOf(env(old(at) + 2).events, 0, 0, T.Limit(timeLimit(i)), true);
              flow == if env(old(at)).fails then Threw else if end.cause == AbortGame then Cut else Went
      ensures Took(old(waits), waits, QuestionWaits(timeLimit(i)), flow.Went?)
    {
      ghost var rest := [Timed(timeLimit(i), true), Plain, Plain];
      assert QuestionWaits(timeLimit(i)) == [Plain, Plain] + rest;
      var ok := ShowQuestion();
      if !ok {
        TookLess(old(waits), waits, [Plain, Plain], rest);
        return Threw;
      }
      ghost var mid := waits;
      flow := TimeQuestion(i);
      TookMore(old(waits), mid, waits, [Plain, Plain], rest, flow.Went?);
    }

    /** The round is marked, and its start and the roadmap are sent. */
    method StartRound(i: nat) returns (ok: bool)
      requires Between() && running
      modifies this`at, this`waits, this`aborted, this`log, timer
      ensures Between() && (old(aborted) ==> aborted)
      ensures (!ok ==> Failing()) && (Undisturbed(env) ==> aborted == old(aborted))
      ensures Whole(log) == Whole(old(log)).(aborted := aborted, said := Whole(log).said)
      ensures Took(Whole(old(log)).said, Whole(log).said, [RoundStarted(i)], ok)
      ensures Took(old(waits), waits, StartWaits(), ok)
    {
      ok := Await();
      if !ok {
        return;
      }
      ok := Await();
      if !ok {
        return;
      }
      Emit(RoundStarted(i));
      ok := Await();
    }

    /** The round is marked and its scores are sent. */
    method EndRound(i: nat) returns (ok: bool)
      requires Between() && running
      modifies this`at, this`waits, this`aborted, this`log, timer
      ensures Between() && (old(aborted) ==> aborted)
      ensures (!ok ==> Failing()) && (Undisturbed(env) ==> aborted == old(aborted))
      ensures Whole(log) == Whole(old(log)).(aborted := aborted, said := Whole(log).said)
      ensures Took(Whole(old(log)).said, Whole(log).said, [RoundEnded(i)], ok)
      ensures Took(old(waits), waits, [Plain, Plain], ok)
    {
      ok := Await();
      if !ok {
        return;
      }
      ok := Await();
      if ok {
        Emit(RoundEnded(i));
      }
    }

    /** The leaderboard's phase is entered and the leaderboard sent. */
    method EnterLeaderboard(i: nat) returns (ok: bool)
      requires Between() && running && !Whole(log).cut
      modifies this`at, this`waits, this`aborted, this`phase, this`log, timer
      ensures Between() && (old(aborted) ==> aborted)
      ensures (!ok ==> Failing()) && (Undisturbed(env) ==> aborted == old(aborted))
      ensures Whole(log) == Whole(old(log)).(phases := Whole(old(log)).phases + [Leaderboard], aborted := aborted,
                                             said := Whole(log).said)
      ensures Took(Whole(old(log)).said, Whole(log).said, LeaderboardSaid(i), ok)
      ensures Took(old(waits), waits, [Plain, Plain], ok)
    {
      ok := EnterPhase(Leaderboard);
      if !ok {
        return;
      }
      ok := Await();
      if ok {
        Emit(LeaderboardShown(i));
      }
    }

    /** The leaderboard is shown for its seconds. */
    method ShowLeaderboard(i: nat) returns (flow: Flow)
      requires Between() && running && !Whole(log).cut
      modifies this`at, this`waits, this`aborted, this`phase, this`log, timer
      ensures Between() && (old(aborted) ==> aborted)
      ensures (flow.Threw? ==> Failing()) && (Undisturbed(env) ==> aborted == old(aborted) && !flow.Cut?)
      ensures Whole(log) == Whole(old(log)).(phases := Whole(old(log)).phases + [Leaderboard], aborted := aborted,
                                             cut := flow.Cut?, said := Whole(log).said)
      ensures Took(Whole(old(log)).said, Whole(log).said, LeaderboardSaid(i), !flow.Threw?)
      ensures Took(old(waits), waits, [Plain, Plain] + [Timed(LEADERBOARD_SECONDS, false)], flow.Went?)
    {
      var ok := EnterLeaderboard(i);
      if !ok {
        TookLess(old(waits), waits, [Plain, Plain], [Timed(LEADERBOARD_SECONDS, false)]);
        return Threw;
      }
      var didAbort, _ := TimePhase(LEADERBOARD_SECONDS, false);
      flow := if didAbort then Cut else Went;
    }

    /** The game ends after the last round, and shows the leaderboard after the others.  `shown` says
        whether that phase was reached. */
    method AdvanceAfterReveal(i: nat, n: nat) returns (flow: Flow, ghost shown: bool)
      requires Between() && running && !Whole(log).cut
      modifies this`at, this`waits, this`aborted, this`phase, this`log, timer
      ensures Between() && (old(aborted) ==> aborted)
      ensures (flow.Threw? ==> Failing()) && (Undisturbed(env) ==> aborted == old(aborted) && !flow.Cut?)
      ensures flow.Threw? || shown
      ensures var d := Whole(old(log));
              var last := RoundPhases(i, n)[3];
              Whole(log) == d.(phases := if shown then d.phases + [last] else d.phases, aborted := aborted,
                               cut := flow.Cut?, said := Whole(log).said)
      ensures Took(Whole(old(log)).said, Whole(log).said, AdvanceSaid(i, n), !flow.Threw?)
      ensures Took(old(waits), waits, AdvanceWaits(i, n), flow.Went?)
    {
      shown := false;
      var ok := EndRound(i);
      ghost var rest := AdvanceWaits(i, n)[2..];
      assert AdvanceWaits(i, n) == [Plain, Plain] + rest;
      if !ok {
        TookLess(old(waits), waits, [Plain, Plain], rest);
        return Threw, shown;
      }
      shown := true;
      ghost var ended, said := waits, Whole(log).said;
      ghost var next := AdvanceSaid(i, n)[1..];
      assert AdvanceSaid(i, n) == [RoundEnded(i)] + next;
      if i == n - 1 {
        ok := EnterPhase(GameOverPhase);
        flow := if ok then Went else Threw;
      } else {
        flow := ShowLeaderboard(i);
      }
      TookMore(old(waits), ended, waits, [Plain, Plain], rest, flow.Went?);
      TookMore(Whole(old(log)).said, said, Whole(log).said, [RoundEnded(i)], next, !flow.Threw?);
    }

    /** A round up to the end of its intro. */
    method OpenRound(i: nat) returns (flow: Flow, ghost shown: bool)
      requires Between() && running && !aborted
      modifies this`at, this`waits, this`aborted, this`phase, this`log, timer
      ensures Between()
      ensures (flow.Threw? ==> Failing()) && (Undisturbed(env) ==> !aborted && !flow.Cut?)
      ensures flow.Threw? || shown
      ensures var d := Whole(old(log));
              Whole(log) == d.(phases := if shown then d.phases + [Intro] else d.phases, rounds := d.rounds + 1,
                               aborted := aborted, cut := flow.Cut?, said := Whole(log).said)
      ensures Took(Whole(old(log)).said, Whole(log).said, OpenSaid(i), !flow.Threw?)
      ensures Took(old(waits), waits, OpenWaits(), flow.Went?)
    {
      shown := false;
      Emit(RoundEntered(i));
      var ok := StartRound(i);
      if !ok {
        TookLess(old(waits), waits, StartWaits(), PhaseWaits(ROUND_INTRO_SECONDS));
        return Threw, shown;
      }
      shown := true;
      ghost var mid := waits;
      flow := RunPhase(Intro, ROUND_INTRO_SECONDS);
      TookMore(old(waits), mid, waits, StartWaits(), PhaseWaits(ROUND_INTRO_SECONDS), flow.Went?);
    }

    /** A round from the reveal on. */
    method CloseRound(i: nat, n: nat) returns (flow: Flow, ghost shown: bool)
      requires Between() && running && !Whole(log).cut
      modifies this`at, this`waits, this`aborted, this`phase, this`log, timer
      ensures Between() && (old(aborted) ==> aborted)
      ensures (flow.Threw? ==> Failing()) && (Undisturbed(env) ==> aborted == old(aborted) && !flow.Cut?)
      ensures flow.Went? ==> shown
      ensures var d := Whole(old(log));
              Whole(log) == d.(phases := d.phases + AfterPlaying(i, n, if shown then 3 else 2), aborted := aborted,
                               cut := flow.Cut?, said := Whole(log).said)
      ensures Took(Whole(old(log)).said, Whole(log).said, CloseSaid(i, n), flow.Went?)
      ensures Took(old(waits), waits, CloseWaits(i, n, revealSeconds), flow.Went?)
    {
      shown := false;
      ghost var said := Whole(log).said;
      flow := RunPhase(Reveal, revealSeconds(i));
      if !flow.Went? {
        TookLess(old(waits), waits, PhaseWaits(revealSeconds(i)), AdvanceWaits(i, n));
        return;
      }
      ghost var mid, revealed := waits, Whole(log).said;
      flow, shown := AdvanceAfterReveal(i, n);
      TookMore(old(waits), mid, waits, PhaseWaits(revealSeconds(i)), AdvanceWaits(i, n), flow.Went?);
      TookMore(said, revealed, Whole(log).said, [PhaseEntered(Reveal)], AdvanceSaid(i, n), !flow.Threw?);
    }

    /** A round from its question on; `played` counts the phases it got to. */
    method PlayRound(i: nat, n: nat) returns (flow: Flow, ghost played: nat)
      requires Between() && running && !Whole(log).cut
      modifies this`at, this`waits, this`aborted, this`phase, this`log, timer
      ensures Between() && (old(aborted) ==> aborted)
      ensures (flow.Threw? ==> Failing()) && (Undisturbed(env) ==> aborted == old(aborted) && !flow.Cut?)
      ensures 0 < played <= 3 && (flow.Went? ==> played == 3)
      ensures var d := Whole(old(log));
              Whole(log) == d.(phases := d.phases + [Playing] + AfterPlaying(i, n, played), aborted := aborted,
                               cut := flow.Cut?, said := Whole(log).said)
      ensures flow.Cut? && played == 1 ==>
                Whole(log).said == Whole(old(log)).said + [PhaseEntered(Playing), WindowAborted]
      ensures !(flow.Cut? && played == 1) ==>
                Took(Whole(old(log)).said, Whole(log).said,
                     PlaySaid(i, n, EndsAnswered(env, old(at) + 2, timeLimit(i))), flow.Went?)
      ensures Took(old(waits), waits, QuestionWaits(timeLimit(i)) + CloseWaits(i, n, revealSeconds), flow.Went?)
    {
      ghost var question, close := QuestionWaits(timeLimit(i)), CloseWaits(i, n, revealSeconds);
      ghost var before := Whole(log).said;
      ghost var asked := QuestionSaid(i, EndsAnswered(env, at + 2, timeLimit(i)));
      played := 1;
      flow := PlayQuestion(i);
      if !flow.Went? {
        TookLess(old(waits), waits, question, close);
        if flow.Threw? { TookLess(before, Whole(log).said, asked, CloseSaid(i, n)); }
        return;
      }
      ghost var mid, said := waits, Whole(log).said;
      ghost var shown;
      flow, shown := CloseRound(i, n);
      played := if shown then 3 else 2;
      TookMore(old(waits), mid, waits, question, close, flow.Went?);
      TookMore(before, said, Whole(log).said, asked, CloseSaid(i, n), flow.Went?);
    }

    /** One round, from its start to the leaderboard; `played` counts the phases it got to. */
    method RunRound(i: nat, n: nat) returns (flow: Flow, ghost played: nat)
      requires Between() && running && !aborted
      modifies this`at, this`waits, this`aborted, this`phase, this`log, timer
      ensures Between()
      ensures (flow.Threw? ==> Failing()) && (Undisturbed(env) ==> !aborted && !flow.Cut?)
      ensures played <= 4 && (flow.Went? ==> played == 4)
      ensures var d := Whole(old(log));
              Whole(log) == d.(phases := d.phases + RoundPhases(i, n)[..played], rounds := d.rounds + 1,
                               aborted := aborted, cut := flow.Cut?, said := Whole(log).said)
      ensures flow.Cut? && played == 2 ==>
                Whole(log).said == Whole(old(log)).said + OpenSaid(i) + [PhaseEntered(Playing), WindowAborted]
      ensures !(flow.Cut? && played == 2) ==>
                Took(Whole(old(log)).said, Whole(log).said,
                     RoundSaid(i, n, EndsAnswered(env, old(at) + 7, timeLimit(i))), flow.Went?)
      ensures Took(old(waits), waits, RoundWaits(i, n, timeLimit, revealSeconds), flow.Went?)
    {
      ghost var rest := QuestionWaits(timeLimit(i)) + CloseWaits(i, n, revealSeconds);
      ghost var answered := EndsAnswered(env, at + 7, timeLimit(i));
      ghost var before := Whole(log);
      ghost var shown;
      flow, shown := OpenRound(i);
      played := if shown then 1 else 0;
      if !flow.Went? {
        TookLess(old(waits), waits, OpenWaits(), rest);
        TookLess(before.said, Whole(log).said, OpenSaid(i), PlaySaid(i, n, answered));
        FirstPhase(before.phases, i, n);
        return;
      }
      ghost var mid, begun := waits, Whole(log);
      ghost var after;
      flow, after := PlayRound(i, n);
      played := 1 + after;
      TookMore(old(waits), mid, waits, OpenWaits(), rest, flow.Went?);
      RoundPlayed(before, begun, Whole(log), i, n, after, answered, flow);
    }

    /** The phases and waits so far are the first ones of the game. */
    ghost predicate Partly(marks: seq<Mark>)
      requires |marks| > 0
      reads this
    {
      var last := marks[|marks| - 1];
      Whole(log).ends == [] && Whole(log).phases <= last.phases && marks[0].waits <= waits <= last.waits
    }

    /** `i` rounds of the game have been gone into, and through all of them unless a phase was cut. */
    ghost predicate AtRound(i: nat, marks: seq<Mark>)
      requires i < |marks|
      reads this
    {
      && Whole(log).rounds == i && Whole(log).ends == []
      && (if Whole(log).cut then Partly(marks) else Mark(waits, Whole(log).phases, Whole(log).said) == marks[i])
    }

    lemma RoundIsPartly(i: nat, marks: seq<Mark>, start: seq<Wait>, rounds: seq<seq<Wait>>)
      requires IsPlan(marks, env, start, rounds, timeLimit) && i < |marks| && AtRound(i, marks)
      ensures Partly(marks)
    {
      MarksGrow(marks, env, start, rounds, timeLimit, i);
    }

    /** One more round of the game. */
    method NextRound(i: nat, n: nat, ghost marks: seq<Mark>, ghost start: seq<Wait>, ghost rounds: seq<seq<Wait>>)
      returns (flow: Flow)
      requires Between() && running && !aborted && i < n && IsPlan(marks, env, start, rounds, timeLimit)
      requires IsSchedule(rounds, n, timeLimit, revealSeconds) && AtRound(i, marks)
      modifies this`at, this`waits, this`aborted, this`phase, this`log, timer
      ensures Between()
      ensures (flow.Threw? ==> Failing()) && (Undisturbed(env) ==> !aborted)
      ensures if flow.Threw? then Partly(marks) else AtRound(i + 1, marks)
    {
      ghost var mid, d := waits, Whole(log);
      ghost var played;
      flow, played := RunRound(i, n);
      NextPhases(marks, env, start, rounds, timeLimit, i, d.phases, Whole(log).phases, played);
      NextWaits(marks, env, start, rounds, timeLimit, i, mid, waits, flow.Went?);
      if flow.Went? { NextSaid(marks, env, start, rounds, timeLimit, i, mid, d.said, Whole(log).said); }
    }

    /** The rounds in turn, until the abort flag is found set before one of them. */
    method PlayRounds(n: nat, ghost marks: seq<Mark>, ghost start: seq<Wait>, ghost rounds: seq<seq<Wait>>)
      returns (ok: bool, ghost gone: nat)
      requires Between() && running && IsPlan(marks, env, start, rounds, timeLimit)
      requires IsSchedule(rounds, n, timeLimit, revealSeconds) && AtRound(0, marks)
      modifies this`at, this`waits, this`aborted, this`phase, this`log, timer
      ensures Between()
      ensures (!ok ==> Failing()) && (Undisturbed(env) ==> aborted == old(aborted))
      ensures if ok then gone <= n && AtRound(gone, marks) else Partly(marks)
      ensures ok ==> aborted || gone == n
    {
      var i := 0;
      while i < n
        invariant Between() && i <= n
        invariant Undisturbed(env) ==> aborted == old(aborted)
        invariant AtRound(i, marks)
      {
        if aborted {
          break;
        }
        var flow := NextRound(i, n, marks, start, rounds);
        if flow.Threw? {
          return false, i;
        }
        i := i + 1;
      }
      ok, gone := true, i;
    }

    /** Stores the verdict on the room. */
    method FinishRoom(verdict: Status) returns (ok: bool)
      requires Between() && running && (verdict == Finished <==> !aborted)
      modifies this`at, this`waits, this`aborted, this`status, this`log, timer
      ensures Between() && (old(aborted) ==> aborted)
      ensures (!ok ==> Failing()) && (Undisturbed(env) ==> aborted == old(aborted))
      ensures status == if ok then verdict else old(status)
      ensures waits == old(waits) + [Plain]
      ensures Whole(log) == Whole(old(log)).(ends := Whole(old(log)).ends + [Finishing(verdict)], aborted := aborted,
                                             said := Whole(old(log)).said + [Finishing(verdict)])
    {
      Emit(Finishing(verdict));
      ok := Await();
      if ok {
        status := verdict;
      }
    }

    /** The verdict that the game finished, and the final scores. */
    method FinishGame() returns (end: Ending)
      requires Between() && running && !aborted && Whole(log).ends == []
      modifies this`at, this`waits, this`aborted, this`status, this`log, timer
      ensures Between()
      ensures (end.Failed? ==> Failing()) && (Undisturbed(env) ==> !aborted)
      ensures end in {Failed, Ended(Finished)} && (end == Ended(Finished) ==> status == Finished)
      ensures end == Ended(Finished) ==> Whole(log).ends == [Finishing(Finished), GameOver]
      ensures end.Failed? ==> GameOver !in Whole(log).ends
      ensures end.Failed? ==> status == old(status) || (status == Finished && Whole(log).ends == [Finishing(Finished)])
      ensures Whole(log) == Whole(old(log)).(ends := Whole(log).ends, said := Whole(log).said, aborted := aborted)
      ensures end == Ended(Finished) ==> Whole(log).said == Whole(old(log)).said + [Finishing(Finished)] + [GameOver]
      ensures old(waits) <= waits
    {
      var ok := FinishRoom(Finished);
      if !ok {
        return Failed;
      }
      ok := Await();
      if !ok {
        return Failed;
      }
      Emit(GameOver);
      end := Ended(Finished);
    }

    /** The verdict after the rounds: a finished game sends the final scores. */
    method Conclude() returns (end: Ending)
      requires Between() && running && Whole(log).ends == []
      modifies this`at, this`waits, this`aborted, this`status, this`log, timer
      ensures Between()
      ensures (end.Failed? ==> Failing()) && (Undisturbed(env) ==> aborted == old(aborted))
      ensures !end.NotFound? && (old(aborted) ==> aborted)
      ensures end.Ended? ==> end.status == (if old(aborted) then Abandoned else Finished) && status == end.status
      ensures end == Ended(Finished) ==> Whole(log).ends == [Finishing(Finished), GameOver]
      ensures end == Ended(Abandoned) ==> Whole(log).ends == [Finishing(Abandoned)]
      ensures end.Failed? ==> GameOver !in Whole(log).ends
      ensures end.Failed? ==> status == old(status) || (status == Finished && Whole(log).ends == [Finishing(Finished)])
      ensures Whole(log) == Whole(old(log)).(ends := Whole(log).ends, said := Whole(log).said,
                                             aborted := aborted)
      ensures end == Ended(Finished) ==> Whole(log).said == Whole(old(log)).said + [Finishing(Finished)] + [GameOver]
      ensures old(waits) <= waits
    {
      if aborted {
        var ok := FinishRoom(Abandoned);
        return if ok then Ended(Abandoned) else Failed;
      }
      end := FinishGame();
    }

    /** On the way through all the waits of the game there is one whose answer calls `abort`. */
    ghost predicate AbortComes(n: nat, before: seq<Wait>) {
      var whole := before + GameWaits(n, timeLimit, revealSeconds);
      Tripped(env, whole, |whole|)
    }

    /** After the rounds the flag says whether there is, although an abort may have kept the game from
        going through all of them. */
    lemma VerdictIs(n: nat, before: seq<Wait>, start: seq<Wait>)
      requires Traced() && start == before + [Plain] + [Plain]
      requires start <= waits <= start + WaitsTo(Rounds(n, timeLimit, revealSeconds), n)
      requires !aborted ==> waits == start + WaitsTo(Rounds(n, timeLimit, revealSeconds), n)
      ensures aborted <==> AbortComes(n, before)
    {
      var whole := before + GameWaits(n, timeLimit, revealSeconds);
      assert start + WaitsTo(Rounds(n, timeLimit, revealSeconds), n) == whole;
      TrippedOfPrefix(env, waits, whole, |waits|);
      if aborted {
        TrippedGrows(env, whole, |waits|, |whole|);
      }
    }

    /** What `run` tries: the room is looked up, its rounds are built and played, and the verdict is given. */
    method Drive(found: bool, n: nat) returns (end: Ending)
      requires Between() && running && !aborted && log == []
      modifies this`at, this`waits, this`aborted, this`phase, this`status, this`log, timer
      ensures Between()
      ensures (end.Failed? ==> Failing()) && (Undisturbed(env) ==> end != Ended(Abandoned))
      ensures end.NotFound? ==> !found
      ensures GameOver in Whole(log).ends <==> end == Ended(Finished)
      ensures Whole(log).phases <= TraceTo(n, n)
      ensures end == Ended(Finished) ==> Whole(log).ends == [Finishing(Finished), GameOver]
      ensures end == Ended(Finished) ==> Whole(log).phases == TraceTo(n, n) && Whole(log).rounds == n
      ensures end == Ended(Abandoned) ==> aborted && Whole(log).ends == [Finishing(Abandoned)]
      ensures end == Ended(Abandoned) && !Whole(log).cut ==> Whole(log).phases == TraceTo(Whole(log).rounds, n)
      ensures end.Ended? ==> end.status != Active && status == end.status
      ensures !end.Ended? ==> status == old(status) || (status == Finished && Whole(log).ends == [Finishing(Finished)])
      ensures end.NotFound? ==> status == old(status)
      ensures end.Ended? ==> (end.status == Abandoned <==> AbortComes(n, old(waits)))
      ensures end == Ended(Finished) ==>
                Whole(log).said == GameSaid(env, old(at), n, timeLimit, revealSeconds)
    {
      TraceGrows(0, n, n);
      var ok := Await();
      if !ok {
        return Failed;
      }
      if !found {
        return NotFound;
      }
      ok := Await();
      if !ok {
        return Failed;
      }
      ok := AllRounds(n);
      if !ok {
        return Failed;
      }
      VerdictIs(n, old(waits), old(waits) + [Plain] + [Plain]);
      end := Conclude();
    }

    /** All the rounds, as they are planned. */
    method AllRounds(n: nat) returns (ok: bool)
      requires Between() && running && Whole(log) == Digest([], 0, aborted, false, [], [], true)
      modifies this`at, this`waits, this`aborted, this`phase, this`log, timer
      ensures Between()
      ensures (!ok ==> Failing()) && (Undisturbed(env) ==> aborted == old(aborted))
      ensures Whole(log).ends == [] && Whole(log).phases <= TraceTo(n, n)
      ensures old(waits) <= waits <= old(waits) + WaitsTo(Rounds(n, timeLimit, revealSeconds), n)
      ensures ok && !Whole(log).cut ==> Whole(log).phases == TraceTo(Whole(log).rounds, n)
      ensures ok && !aborted ==>
                && Whole(log).rounds == n && !Whole(log).cut
                && waits == old(waits) + WaitsTo(Rounds(n, timeLimit, revealSeconds), n)
                && Whole(log).said == SaidTo(env, old(at), Rounds(n, timeLimit, revealSeconds), timeLimit, n)
    {
      ghost var start, rounds := waits, Rounds(n, timeLimit, revealSeconds);
      ghost var marks := seq(n + 1, k requires 0 <= k <= n => MarkAt(env, start, rounds, timeLimit, k));
      MarkIs(marks, env, start, rounds, timeLimit, 0);
      ghost var gone;
      ok, gone := PlayRounds(n, marks, start, rounds);
      if ok {
        RoundIsPartly(gone, marks, start, rounds);
        MarkIs(marks, env, start, rounds, timeLimit, gone);
      }
      MarkIs(marks, env, start, rounds, timeLimit, n);
    }

    /** After an error the room is looked up, and abandoned unless it has got its verdict already; when
        either of these fails too, it stays as it is. */
    method AbandonQuietly()
      requires Between() && running
      modifies this`at, this`waits, this`aborted, this`status, this`log, timer
      ensures Between()
      ensures Whole(log) == Whole(old(log)).(aborted := aborted)
      ensures status == if old(status) == Active && !env(old(at)).fails && !env(old(at) + 1).fails
                        then Abandoned else old(status)
    {
      var ok := Await();
      if !ok {
        return;
      }
      if status == Active {
        ok := Await();
        if ok {
          status := Abandoned;
        }
      }
    }

    /** A whole game.  The phases entered are always the first ones of the game's trace; a game that
        finished has entered them all and sent the final scores once; one that was abandoned has not
        sent them, and unless a phase was cut short has played every round it entered to its end.  A
        game that met an error is finished only if that verdict had been stored; otherwise it is
        abandoned if the two replies after the error, from `next` on, are none.  One that met none before
        its verdict is abandoned exactly when an abort comes at one of the waits of the whole game. */
    method Run(found: bool, n: nat) returns (end: Ending, ghost next: nat)
      requires Between() && !running && !aborted && log == [] && status == Active
      modifies this`at, this`waits, this`running, this`aborted, this`phase, this`status, this`log, timer
      ensures Between() && !running && phase == None
      ensures (Reliable(env) ==> !end.Failed?) && (Undisturbed(env) ==> end != Ended(Abandoned))
      ensures end.NotFound? ==> !found && status == Active
      ensures GameOver in Whole(log).ends <==> end == Ended(Finished)
      ensures Whole(log).phases <= TraceTo(n, n)
      ensures end == Ended(Finished) ==> Whole(log).ends == [Finishing(Finished), GameOver]
      ensures end == Ended(Finished) ==> Whole(log).phases == TraceTo(n, n) && Whole(log).rounds == n
      ensures end == Ended(Abandoned) ==> aborted && Whole(log).ends == [Finishing(Abandoned)]
      ensures end == Ended(Abandoned) && !Whole(log).cut ==> Whole(log).phases == TraceTo(Whole(log).rounds, n)
      ensures end.Ended? ==> end.status != Active && status == end.status
      ensures end.Ended? ==> (end.status == Abandoned <==> AbortComes(n, old(waits)))
      ensures end == Ended(Finished) ==>
                Whole(log).said == GameSaid(env, old(at), n, timeLimit, revealSeconds) + [WindowAborted]
      ensures end.Failed? ==> next > 0 && env(next - 1).fails
      ensures end.Failed? ==>
                if status == Finished then Whole(log).ends == [Finishing(Finished)]
                else status == if env(next).fails || env(next + 1).fails then Active else Abandoned
    {
      running := true;
      end := Drive(found, n);
      next := at;
      if end.Failed? {
        AbandonQuietly();
      }
      CleanUp();
    }

    /** What is done at the end, however it came. */
    method CleanUp()
      requires Between()
      modifies this`running, this`phase, this`log, timer
      ensures Between() && !running && phase == None
      ensures Whole(log) == Whole(old(log)).(said := Whole(old(log)).said + [WindowAborted])
    {
      timer.Cancel();
      Emit(WindowAborted);
      running := false;
      phase := None;
    }
  }
}
