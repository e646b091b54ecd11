/** The engine's loop over the rounds of one room, with everything it awaits answered by an arbitrary
    environment. */
module GameLoop {
  import T = PhaseTimer

  datatype Phase = Intro | Playing | Reveal | Leaderboard | GameOverPhase

  datatype Status = Active | Finished | Abandoned

  /** What the loop does and sends, and the calls of `abort` in between; those that came while a phase
      was being timed are told apart. */
  datatype Entry =
    | RoundEntered(round: nat)
    | RoundStarted(round: nat)
    | PhaseEntered(phase: Phase)
    | Tick(secondsRemaining: int)
    | AbortCalled(inPhase: bool)
    | WindowAborted
    | TimerExpired(round: nat)
    | FinalizeRequested(round: nat, allAnswered: bool)
    | WindowClosed(round: nat, allAnswered: bool)
    | RoundEnded(round: nat)
    | LeaderboardShown(round: nat)
    | Finishing(status: Status)
    | GameOver

  datatype TimerEvent = Second | HostSkip | AllAnswered | AbortGame

  /** How the environment answers one await: whether `abort` is called meanwhile and whether it fails.
      For the timer of a phase, the events come in their order, and then seconds pass. */
  datatype Reply = Reply(aborts: bool, fails: bool, events: seq<TimerEvent>)

  ghost predicate Reliable(env: nat -> Reply) {
    forall i :: !env(i).fails
  }

  ghost predicate Undisturbed(env: nat -> Reply) {
    forall i :: !env(i).aborts && AbortGame !in env(i).events
  }

  // ---------- what settles a timed phase ----------

  /** How a timed phase ends: the event that settles it, and the ticks it has sent by then. */
  datatype PhaseEnd = PhaseEnd(cause: TimerEvent, ticks: nat)

  /** The event settles the phase at once.  Only the question phase listens to skips and to everybody
      having answered. */
  predicate Settles(e: TimerEvent, question: bool) {
    e == AbortGame || (question && e != Second)
  }

  /** The end of a phase that has sent `ticks` ticks before event `i`; after the last event seconds pass. */
  function EndOf(events: seq<TimerEvent>, i: nat, ticks: nat, limit: nat, question: bool): PhaseEnd
    requires i <= |events| && ticks < limit
    decreases |events| - i
  {
    if i == |events| then PhaseEnd(Second, limit)
    else if Settles(events[i], question) then PhaseEnd(events[i], ticks)
    else if events[i] != Second then EndOf(events, i + 1, ticks, limit, question)
    else if ticks + 1 == limit then PhaseEnd(Second, limit)
    else EndOf(events, i + 1, ticks + 1, limit, question)
  }

  function SecondsBefore(events: seq<TimerEvent>, i: nat): nat
    requires i <= |events|
  {
    if i == 0 then 0 else SecondsBefore(events, i - 1) + if events[i - 1] == Second then 1 else 0
  }

  /** The event at `k` settles the phase, none before it does, and the time is not up before it. */
  ghost predicate SettledAt(events: seq<TimerEvent>, k: nat, limit: nat, question: bool)
    requires k < |events|
  {
    && Settles(events[k], question) && SecondsBefore(events, k) < limit
    && forall j :: 0 <= j < k ==> !Settles(events[j], question)
  }

  lemma {:induction false} SecondsGrow(events: seq<TimerEvent>, i: nat, k: nat)
    requires i <= k <= |events|
    ensures SecondsBefore(events, i) <= SecondsBefore(events, k)
  {
    if i < k { SecondsGrow(events, i, k - 1); }
  }

  lemma {:induction false} EndFrom(events: seq<TimerEvent>, i: nat, limit: nat, question: bool)
    requires i <= |events| && SecondsBefore(events, i) < limit
    requires forall j :: 0 <= j < i ==> !Settles(events[j], question)
    ensures var end := EndOf(events, i, SecondsBefore(events, i), limit, question);
            || (exists k: nat :: k < |events| && SettledAt(events, k, limit, question)
                                 && end == PhaseEnd(events[k], SecondsBefore(events, k)))
            || (end == PhaseEnd(Second, limit)
                && forall k: nat :: k < |events| ==> !SettledAt(events, k, limit, question))
    decreases |events| - i
  {
    if i < |events| {
      if Settles(events[i], question) {
        assert SettledAt(events, i, limit, question);
      } else if events[i] == Second && SecondsBefore(events, i) + 1 == limit {
        forall k: nat | k < |events| ensures !SettledAt(events, k, limit, question) {
          if k > i { SecondsGrow(events, i + 1, k); }
        }
      } else {
        EndFrom(events, i + 1, limit, question);
      }
    }
  }

  /** What ends a phase is the first event that settles it, if that comes before the time is up, and otherwise
      its last second. */
  lemma EndMeans(events: seq<TimerEvent>, limit: nat, question: bool)
    requires limit > 0
    ensures var end := EndOf(events, 0, 0, limit, question);
            && (forall k: nat :: k < |events| && SettledAt(events, k, limit, question) ==>
                  end == PhaseEnd(events[k], SecondsBefore(events, k)))
            && ((forall k: nat :: k < |events| ==> !SettledAt(events, k, limit, question)) ==>
                  end == PhaseEnd(Second, limit))
  {
    EndFrom(events, 0, limit, question);
    forall k: nat, m: nat | k < |events| && m < |events| && SettledAt(events, k, limit, question)
                            && SettledAt(events, m, limit, question)
      ensures k == m
    {
    }
  }

  lemma {:induction false} CauseComes(events: seq<TimerEvent>, i: nat, ticks: nat, limit: nat, question: bool)
    requires i <= |events| && ticks < limit
    ensures var e := EndOf(events, i, ticks, limit, question).cause; e != Second ==> e in events && Settles(e, question)
    decreases |events| - i
  {
    if i < |events| && !Settles(events[i], question) && !(events[i] == Second && ticks + 1 == limit) {
      CauseComes(events, i + 1, if events[i] == Second then ticks + 1 else ticks, limit, question);
    }
  }

  lemma EndNext(events: seq<TimerEvent>, i: nat, ticks: nat, limit: nat, question: bool)
    requires i <= |events| && ticks < limit
    ensures var e := if i < |events| then events[i] else Second;
            var next := if i < |events| then i + 1 else i;
            EndOf(events, i, ticks, limit, question) ==
              if Settles(e, question) then PhaseEnd(e, ticks)
              else if e != Second then EndOf(events, next, ticks, limit, question)
              else if ticks + 1 == limit then PhaseEnd(Second, limit)
              else EndOf(events, next, ticks + 1, limit, question)
  {
  }

  // ---------- what a game waits for ----------

  /** A wait for anything but the timer, or for a timed phase. */
  datatype Wait = Plain | Timed(seconds: int, question: bool)

  /** The environment's answer to wait `k` calls `abort`, and the call takes effect. */
  predicate AbortsAt(env: nat -> Reply, waits: seq<Wait>, k: nat)
    requires k < |waits|
  {
    match waits[k]
    case Plain => env(k).aborts
    case Timed(seconds, question) => EndOf(env(k).events, 0, 0, T.Limit(seconds), question).cause == AbortGame
  }

  /** One of the first `n` waits did. */
  predicate Tripped(env: nat -> Reply, waits: seq<Wait>, n: nat)
    requires n <= |waits|
  {
    n > 0 && (Tripped(env, waits, n - 1) || AbortsAt(env, waits, n - 1))
  }

  lemma {:induction false} TrippedMeans(env: nat -> Reply, waits: seq<Wait>, n: nat)
    requires n <= |waits|
    ensures Tripped(env, waits, n) <==> exists k: nat :: k < n && AbortsAt(env, waits, k)
  {
    if n > 0 {
      TrippedMeans(env, waits, n - 1);
      assert AbortsAt(env, waits, n - 1) ==> exists k: nat :: k < n && AbortsAt(env, waits, k);
    }
  }

  lemma {:induction false} TrippedOfPrefix(env: nat -> Reply, waits: seq<Wait>, longer: seq<Wait>, n: nat)
    requires n <= |waits| && waits <= longer
    ensures Tripped(env, longer, n) <==> Tripped(env, waits, n)
  {
    if n > 0 {
      TrippedOfPrefix(env, waits, longer, n - 1);
    }
  }

  lemma {:induction false} TrippedGrows(env: nat -> Reply, waits: seq<Wait>, j: nat, k: nat)
    requires j <= k <= |waits| && Tripped(env, waits, j)
    ensures Tripped(env, waits, k)
  {
    if j < k {
      TrippedGrows(env, waits, j, k - 1);
    }
  }

  lemma TrippedNext(env: nat -> Reply, waits: seq<Wait>, w: Wait)
    ensures var longer := waits + [w];
            Tripped(env, longer, |longer|) <==> Tripped(env, waits, |waits|) || AbortsAt(env, longer, |waits|)
  {
    TrippedOfPrefix(env, waits, waits + [w], |waits|);
  }

  /** A stretch of the program has begun at `before` and is at `after`, with all of it behind it if `all`. */
  ghost predicate Took<T>(before: seq<T>, after: seq<T>, stretch: seq<T>, all: bool) {
    before <= after <= before + stretch && (all ==> after == before + stretch)
  }

  lemma TookMore<T>(before: seq<T>, mid: seq<T>, after: seq<T>, first: seq<T>, rest: seq<T>, all: bool)
    requires Took(before, mid, first, true) && Took(mid, after, rest, all)
    ensures Took(before, after, first + rest, all)
  {
    assert before + first + rest == before + (first + rest);
  }

  lemma TookLess<T>(before: seq<T>, after: seq<T>, first: seq<T>, rest: seq<T>)
    requires Took(before, after, first, false)
    ensures Took(before, after, first + rest, false)
  {
    assert before + first + rest == before + (first + rest);
  }

  /** The waits of the first `k` rounds. */
  function WaitsTo(rounds: seq<seq<Wait>>, k: nat): seq<Wait>
    requires k <= |rounds|
  {
    if k == 0 then [] else WaitsTo(rounds, k - 1) + rounds[k - 1]
  }

  lemma {:induction false} WaitsGrow(rounds: seq<seq<Wait>>, j: nat, k: nat)
    requires j <= k <= |rounds|
    ensures WaitsTo(rounds, j) <= WaitsTo(rounds, k)
  {
    if j < k {
      WaitsGrow(rounds, j, k - 1);
    }
  }

  /** Round `i` was gone into, or through. */
  lemma RoundTook(rounds: seq<seq<Wait>>, before: seq<Wait>, mid: seq<Wait>, after: seq<Wait>, i: nat, went: bool)
    requires i < |rounds| && mid == before + WaitsTo(rounds, i) && Took(mid, after, rounds[i], went)
    ensures before <= after <= before + WaitsTo(rounds, |rounds|)
    ensures went ==> after == before + WaitsTo(rounds, i + 1)
  {
    TookMore(before, mid, after, WaitsTo(rounds, i), rounds[i], went);
    WaitsGrow(rounds, i + 1, |rounds|);
    assert WaitsTo(rounds, i + 1) == WaitsTo(rounds, i) + rounds[i];
  }

  // ---------- reading the log ----------

  /** What a log amounts to.  It is orderly if no round is entered after an abort, no phase after an
      abort that came while a phase was timed, the verdict on the game is that of the abort flag, and a window
      is closed only when its answers have just been asked to be finalized.  What was `said` is everything but
      the ticks and the calls of `abort`. */
  datatype Digest = Digest(phases: seq<Phase>, rounds: nat, aborted: bool, cut: bool, ends: seq<Entry>,
                           said: seq<Entry>, orderly: bool)

  function Add(d: Digest, e: Entry): Digest {
    Noted(d, e).(said := if e.Tick? || e.AbortCalled? then d.said else d.said + [e])
  }

  function Noted(d: Digest, e: Entry): Digest {
    match e
    case RoundEntered(_) => d.(rounds := d.rounds + 1, orderly := d.orderly && !d.aborted)
    case PhaseEntered(p) => d.(phases := d.phases + [p], orderly := d.orderly && !d.cut)
    case AbortCalled(inPhase) => d.(aborted := true, cut := d.cut || inPhase)
    case WindowClosed(i, a) =>
      d.(orderly := d.orderly && |d.said| > 0 && d.said[|d.said| - 1] == FinalizeRequested(i, a))
    case Finishing(s) => d.(ends := d.ends + [e], orderly := d.orderly && (s == Finished <==> !d.aborted))
    case GameOver => d.(ends := d.ends + [e])
    case _ => d
  }

  function DigestOf(log: seq<Entry>, k: nat): Digest
    requires k <= |log|
  {
    if k == 0 then Digest([], 0, false, false, [], [], true) else Add(DigestOf(log, k - 1), log[k - 1])
  }

  function Whole(log: seq<Entry>): Digest {
    DigestOf(log, |log|)
  }

  lemma {:induction false} DigestOfPrefix(log: seq<Entry>, longer: seq<Entry>, k: nat)
    requires k <= |log| && log <= longer
    ensures DigestOf(longer, k) == DigestOf(log, k)
  {
    if k > 0 {
      DigestOfPrefix(log, longer, k - 1);
    }
  }

  lemma WholeOfAppend(log: seq<Entry>, e: Entry)
    ensures Whole(log + [e]) == Add(Whole(log), e)
  {
    DigestOfPrefix(log, log + [e], |log|);
  }

  /** An abort shows in every later digest, and disorder is never mended. */
  lemma {:induction false} DigestGrows(log: seq<Entry>, j: nat, k: nat)
    requires j <= k <= |log|
    ensures DigestOf(log, j).aborted ==> DigestOf(log, k).aborted
    ensures DigestOf(log, j).cut ==> DigestOf(log, k).cut
    ensures DigestOf(log, k).orderly ==> DigestOf(log, j).orderly
  {
    if j < k {
      DigestGrows(log, j, k - 1);
    }
  }

  /** What orderly means, entry by entry. */
  lemma OrderlyMeans(log: seq<Entry>, a: nat, b: nat)
    requires Whole(log).orderly && a < b < |log| && log[a].AbortCalled?
    ensures !log[b].RoundEntered?
    ensures log[a].inPhase ==> !log[b].PhaseEntered?
    ensures log[b].Finishing? ==> log[b].status != Finished
  {
    DigestGrows(log, b + 1, |log|);
    DigestGrows(log, a + 1, b);
  }

  /** The first `k` entries without the ticks and the calls of `abort`. */
  function Spoken(log: seq<Entry>, k: nat): seq<Entry>
    requires k <= |log|
  {
    if k == 0 then [] else
      Spoken(log, k - 1) + if log[k - 1].Tick? || log[k - 1].AbortCalled? then [] else [log[k - 1]]
  }

  lemma {:induction false} SaidIsSpoken(log: seq<Entry>, k: nat)
    requires k <= |log|
    ensures DigestOf(log, k).said == Spoken(log, k)
  {
    if k > 0 {
      SaidIsSpoken(log, k - 1);
    }
  }

  /** Everything said comes in the log. */
  lemma {:induction false} SaidComes(log: seq<Entry>, k: nat, j: nat)
    requires k <= |log| && j < |DigestOf(log, k).said|
    ensures exists b :: 0 <= b < k && log[b] == DigestOf(log, k).said[j]
  {
    var before := DigestOf(log, k - 1).said;
    if j < |before| {
      SaidComes(log, k - 1, j);
    } else {
      assert log[k - 1] == DigestOf(log, k).said[j];
    }
  }

  /** In an orderly log a window is closed only after its answers were asked to be finalized. */
  lemma ClosedWasRequested(log: seq<Entry>, b: nat)
    requires Whole(log).orderly && b < |log| && log[b].WindowClosed?
    ensures exists a :: 0 <= a < b && log[a] == FinalizeRequested(log[b].round, log[b].allAnswered)
  {
    DigestGrows(log, b + 1, |log|);
    SaidComes(log, b, |DigestOf(log, b).said| - 1);
  }

  /** What the flags of a digest mean. */
  lemma {:induction false} FlagsMean(log: seq<Entry>, k: nat)
    requires k <= |log|
    ensures DigestOf(log, k).aborted <==> exists a :: 0 <= a < k && log[a].AbortCalled?
    ensures DigestOf(log, k).cut <==> exists a :: 0 <= a < k && log[a] == AbortCalled(true)
  {
    if k > 0 {
      FlagsMean(log, k - 1);
      assert log[k - 1].AbortCalled? ==> exists a :: 0 <= a < k && log[a].AbortCalled?;
    }
  }

  /** The verdict is that the game finished exactly when no abort came before it. */
  lemma VerdictMeans(log: seq<Entry>, j: nat)
    requires Whole(log).orderly && j < |log| && log[j].Finishing?
    ensures log[j].status == Finished <==> forall a :: 0 <= a < j ==> !log[a].AbortCalled?
  {
    DigestGrows(log, j + 1, |log|);
    FlagsMean(log, j);
  }

  /** How often the first `k` entries send the final scores. */
  function GameOvers(log: seq<Entry>, k: nat): nat
    requires k <= |log|
  {
    if k == 0 then 0 else GameOvers(log, k - 1) + if log[k - 1].GameOver? then 1 else 0
  }

  lemma {:induction false} GameOversOfPrefix(log: seq<Entry>, longer: seq<Entry>, k: nat)
    requires k <= |log| && log <= longer
    ensures GameOvers(longer, k) == GameOvers(log, k)
  {
    if k > 0 {
      GameOversOfPrefix(log, longer, k - 1);
    }
  }

  /** The digest holds the final scores as often as they were sent. */
  lemma {:induction false} GameOversCounted(log: seq<Entry>, k: nat)
    requires k <= |log|
    ensures var ends := DigestOf(log, k).ends;
            GameOvers(ends, |ends|) == GameOvers(log, k)
  {
    if k > 0 {
      GameOversCounted(log, k - 1);
      OneMoreEnd(DigestOf(log, k - 1), log[k - 1]);
    }
  }

  lemma OneMoreEnd(d: Digest, e: Entry)
    ensures var ends := Add(d, e).ends;
            GameOvers(ends, |ends|) == GameOvers(d.ends, |d.ends|) + if e.GameOver? then 1 else 0
  {
    GameOversOfPrefix(d.ends, d.ends + [e], |d.ends|);
  }

  // ---------- the phases of a game ----------

  function RoundPhases(i: nat, n: nat): seq<Phase> {
    [Intro, Playing, Reveal, if i == n - 1 then GameOverPhase else Leaderboard]
  }

  lemma FirstPhase(before: seq<Phase>, i: nat, n: nat)
    ensures before + RoundPhases(i, n)[..0] == before && before + RoundPhases(i, n)[..1] == before + [Intro]
  {
  }

  /** The phases of the first `k` of `n` rounds. */
  function TraceTo(k: nat, n: nat): (t: seq<Phase>)
    ensures |t| == 4 * k
  {
    if k == 0 then [] else TraceTo(k - 1, n) + RoundPhases(k - 1, n)
  }

  lemma {:induction false} TraceGrows(j: nat, k: nat, n: nat)
    requires j <= k
    ensures TraceTo(j, n) <= TraceTo(k, n)
  {
    if j < k {
      TraceGrows(j, k - 1, n);
    }
  }

  /** What a game has entered of the phases of `n` rounds: all of the rounds before, and the first phases
      of the last one. */
  ghost predicate Underway(d: Digest, n: nat, played: nat) {
    && 0 < d.rounds <= n && played <= 4
    && d.phases == TraceTo(d.rounds - 1, n) + RoundPhases(d.rounds - 1, n)[..played]
  }

  lemma UnderwayIsPrefix(d: Digest, n: nat, played: nat)
    requires Underway(d, n, played)
    ensures d.phases <= TraceTo(n, n)
    ensures played == 4 ==> d.phases == TraceTo(d.rounds, n)
  {
    TraceGrows(d.rounds, n, n);
    assert d.phases <= TraceTo(d.rounds, n);
    assert RoundPhases(d.rounds - 1, n)[..4] == RoundPhases(d.rounds - 1, n);
  }

  // ---------- what a timed phase sends ----------

  function Ticks(ticks: seq<int>): seq<Entry> {
    seq(|ticks|, k requires 0 <= k < |ticks| => Tick(ticks[k]))
  }

  /** The log after a phase was timed: the ticks of a question, and the abort that ended it. */
  function Heard(before: seq<Entry>, ticks: seq<int>, question: bool, didAbort: bool): seq<Entry> {
    before + (if question then Ticks(ticks) else []) + if didAbort then [AbortCalled(true)] else []
  }

  /** The log after a second: only the question phase sends its ticks. */
  function Said(log: seq<Entry>, tick: int, question: bool): seq<Entry> {
    if question then log + [Tick(tick)] else log
  }

  lemma HeardNext(before: seq<Entry>, ticks: seq<int>, tick: int, question: bool)
    ensures var log := Heard(before, ticks, question, false);
            && Heard(before, ticks + [tick], question, false) == Said(log, tick, question)
            && Heard(before, ticks, question, true) == log + [AbortCalled(true)]
  {
    assert Ticks(ticks + [tick]) == Ticks(ticks) + [Tick(tick)];
  }

  lemma {:induction false} WholeOfTicks(before: seq<Entry>, ticks: seq<int>)
    ensures Whole(before + Ticks(ticks)) == Whole(before)
    decreases |ticks|
  {
    if ticks == [] {
      assert before + Ticks(ticks) == before;
    } else {
      var init, last := ticks[..|ticks| - 1], ticks[|ticks| - 1];
      WholeOfTicks(before, init);
      assert before + Ticks(ticks) == (before + Ticks(init)) + [Tick(last)];
      WholeOfAppend(before + Ticks(init), Tick(last));
    }
  }

  lemma WholeOfHeard(before: seq<Entry>, ticks: seq<int>, question: bool, didAbort: bool)
    ensures var d := Whole(before);
            Whole(Heard(before, ticks, question, didAbort)) ==
              d.(aborted := d.aborted || didAbort, cut := d.cut || didAbort)
  {
    WholeOfTicks(before, ticks);
    var sent := Heard(before, ticks, question, false);
    assert sent == if question then before + Ticks(ticks) else before;
    WholeOfAppend(sent, AbortCalled(true));
    assert Heard(before, ticks, question, true) == sent + [AbortCalled(true)];
  }
}
