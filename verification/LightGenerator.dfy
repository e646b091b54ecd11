/** The generator of light-switch puzzles, over an arbitrary stream of random values. */
module LightGenerator {
  import opened Draws
  import opened LightSwitch
  import opened LightPhone

  const MIN_LIGHTS := 4
  const MAX_LIGHTS := 6
  const SWITCH_COUNT := 4
  const MAX_AFFECTED_LIGHTS := 3
  const MAX_ATTEMPTS := 3

  // ---------- switches ----------

  /** The different lights drawn from places `at` to `stop` of the stream, in the order they first come. */
  function InOrder(pick: Picker, at: nat, stop: nat, lightCount: nat): seq<int>
    requires at <= stop
    decreases stop
  {
    if at == stop then [] else
      var before := InOrder(pick, at, stop - 1, lightCount);
      var light := pick(stop - 1, lightCount);
      if light in before then before else before + [light]
  }

  /** The draws from `at` on bring `count` different lights at `stop`, and not before. */
  ghost predicate BringsAt(pick: Picker, at: nat, stop: nat, lightCount: nat, count: nat) {
    && at <= stop && |InOrder(pick, at, stop, lightCount)| == count
    && forall s :: at <= s < stop ==> |InOrder(pick, at, s, lightCount)| < count
  }

  predicate NamesLights(affected: seq<int>, lightCount: nat) {
    Distinct(affected) && forall k :: 0 <= k < |affected| ==> 0 <= affected[k] < lightCount
  }

  lemma {:induction false} InOrderNames(pick: Picker, at: nat, stop: nat, lightCount: nat)
    requires at <= stop && lightCount > 0
    ensures NamesLights(InOrder(pick, at, stop, lightCount), lightCount)
    decreases stop
  {
    if at < stop {
      InOrderNames(pick, at, stop - 1, lightCount);
    }
  }

  /** A light is listed exactly when one of the draws brings it. */
  lemma {:induction false} InOrderIs(pick: Picker, at: nat, stop: nat, lightCount: nat, x: int)
    requires at <= stop
    ensures x in InOrder(pick, at, stop, lightCount) <==> exists i: nat :: at <= i < stop && pick(i, lightCount) == x
    decreases stop
  {
    if at < stop {
      InOrderIs(pick, at, stop - 1, lightCount, x);
      assert at <= stop - 1 < stop;
    }
  }

  /** Of two lights listed, the one that is first came first. */
  lemma {:induction false} InOrderComes(pick: Picker, at: nat, stop: nat, lightCount: nat, a: nat, b: nat)
    returns (i: nat)
    requires at <= stop && a < b < |InOrder(pick, at, stop, lightCount)|
    ensures var lights := InOrder(pick, at, stop, lightCount);
            && at <= i < stop && pick(i, lightCount) == lights[a]
            && forall j: nat :: at <= j <= i ==> pick(j, lightCount) != lights[b]
    decreases stop
  {
    var before := InOrder(pick, at, stop - 1, lightCount);
    if b < |before| {
      i := InOrderComes(pick, at, stop - 1, lightCount, a, b);
    } else {
      InOrderIs(pick, at, stop - 1, lightCount, before[a]);
      InOrderIs(pick, at, stop - 1, lightCount, InOrder(pick, at, stop, lightCount)[b]);
      i :| at <= i < stop - 1 && pick(i, lightCount) == before[a];
    }
  }

  /** Draws until there are `count` different lights, however many draws the stream takes to bring them. */
  method CreateAffected(pick: Picker, at: nat, lightCount: nat, count: nat, ghost stop: nat)
    returns (affected: seq<int>, next: nat)
    requires lightCount > 0 && BringsAt(pick, at, stop, lightCount, count)
    ensures next == stop && affected == InOrder(pick, at, stop, lightCount)
    ensures |affected| == count && NamesLights(affected, lightCount)
  {
    affected, next := [], at;
    while |affected| < count
      invariant at <= next <= stop && affected == InOrder(pick, at, next, lightCount)
      invariant next < stop ==> |affected| < count
      decreases stop - next
    {
      var light := pick(next, lightCount);
      if light !in affected {
        affected := affected + [light];
      }
      next := next + 1;
    }
    InOrderNames(pick, at, stop, lightCount);
  }

  /** How many lights the switch whose draws begin at `at` is to affect. */
  function AffectedCount(pick: Picker, at: nat): nat {
    pick(at, MAX_AFFECTED_LIGHTS) + 1
  }

  /** The draws of switch `s` are those between `ends[s]` and `ends[s + 1]`. */
  ghost predicate SwitchDrawn(pick: Picker, lightCount: nat, ends: seq<nat>, s: nat)
    requires s + 1 < |ends|
  {
    BringsAt(pick, ends[s] + 1, ends[s + 1], lightCount, AffectedCount(pick, ends[s]))
  }

  /** From `at` on, the stream brings each switch the lights it wants; otherwise the generator would draw
      for ever. */
  ghost predicate Brings(pick: Picker, at: nat, lightCount: nat, ends: seq<nat>) {
    && |ends| == SWITCH_COUNT + 1 && ends[0] == at
    && forall s: nat :: s < SWITCH_COUNT ==> SwitchDrawn(pick, lightCount, ends, s)
  }

  /** The switches a stream brings. */
  ghost function SwitchesOf(pick: Picker, at: nat, lightCount: nat, ends: seq<nat>): (switches: seq<Switch>)
    requires Brings(pick, at, lightCount, ends)
  {
    seq(SWITCH_COUNT, s requires 0 <= s < SWITCH_COUNT =>
      assert SwitchDrawn(pick, lightCount, ends, s);
      Switch(s, InOrder(pick, ends[s] + 1, ends[s + 1], lightCount)))
  }

  method CreateSwitches(pick: Picker, at: nat, lightCount: nat, ghost ends: seq<nat>)
    returns (switches: seq<Switch>, next: nat)
    requires lightCount > 0 && Brings(pick, at, lightCount, ends)
    ensures switches == SwitchesOf(pick, at, lightCount, ends) && next == ends[SWITCH_COUNT]
    ensures |switches| == SWITCH_COUNT
    ensures forall s :: 0 <= s < |switches| ==>
              && switches[s].id == s && NamesLights(switches[s].affected, lightCount)
              && |switches[s].affected| == 1 + pick(ends[s], MAX_AFFECTED_LIGHTS) <= MAX_AFFECTED_LIGHTS
  {
    switches, next := [], at;
    while |switches| < SWITCH_COUNT
      invariant |switches| <= SWITCH_COUNT && next == ends[|switches|]
      invariant switches == SwitchesOf(pick, at, lightCount, ends)[..|switches|]
      invariant forall s :: 0 <= s < |switches| ==>
                  && switches[s].id == s && NamesLights(switches[s].affected, lightCount)
                  && |switches[s].affected| == 1 + pick(ends[s], MAX_AFFECTED_LIGHTS) <= MAX_AFFECTED_LIGHTS
    {
      ghost var s := |switches|;
      assert SwitchDrawn(pick, lightCount, ends, s);
      var count := AffectedCount(pick, next);
      var affected;
      affected, next := CreateAffected(pick, next + 1, lightCount, count, ends[s + 1]);
      switches := switches + [Switch(|switches|, affected)];
      assert switches[s] == SwitchesOf(pick, at, lightCount, ends)[s];
    }
  }

  // ---------- lights ----------

  function Bright(n: nat): seq<bool> {
    seq(n, _ => true)
  }

  function Dark(n: nat): seq<bool> {
    seq(n, _ => false)
  }

  /** The switches an attempt presses, drawn from place `at` on: as many as there are lights and up to as
      many again. */
  function Scramble(pick: Picker, at: nat, n: nat, count: nat): seq<int> {
    seq(n + pick(at, n), j requires 0 <= j => pick(at + 1 + j, count))
  }

  function Attempt(pick: Picker, at: nat, n: nat, switches: seq<Switch>): seq<bool> {
    Replay(switches, Bright(n), Scramble(pick, at, n, |switches|))
  }

  /** Where the stream stands after an attempt. */
  function AfterAttempt(pick: Picker, at: nat, n: nat): nat {
    at + 1 + n + pick(at, n)
  }

  /** The lights after up to `attempts` scrambles: those of the first that leaves a light off, or all off. */
  function Generated(pick: Picker, at: nat, n: nat, switches: seq<Switch>, attempts: nat): seq<bool>
    decreases attempts
  {
    if attempts == 0 then Dark(n)
    else if !AllOn(Attempt(pick, at, n, switches)) then Attempt(pick, at, n, switches)
    else Generated(pick, AfterAttempt(pick, at, n), n, switches, attempts - 1)
  }

  /** Every scramble happened to leave all lights on. */
  predicate FallsBack(pick: Picker, at: nat, n: nat, switches: seq<Switch>, attempts: nat)
    decreases attempts
  {
    attempts == 0
    || (AllOn(Attempt(pick, at, n, switches)) && FallsBack(pick, AfterAttempt(pick, at, n), n, switches, attempts - 1))
  }

  function Lights(state: seq<bool>): seq<Light> {
    seq(|state|, i requires 0 <= i < |state| => Light(i, state[i]))
  }

  /** The presses among the first `k` of a scramble that name light `l`: press `j` is of the switch drawn at
      place `at + 1 + j`. */
  ghost function PressesTo(pick: Picker, at: nat, switches: seq<Switch>, l: int, k: nat): set<nat> {
    set j: nat | j < k && NamedBy(pick, at, switches, l, j)
  }

  predicate NamedBy(pick: Picker, at: nat, switches: seq<Switch>, l: int, j: nat) {
    pick(at + 1 + j, |switches|) < |switches| && l in switches[pick(at + 1 + j, |switches|)].affected
  }

  /** Of the `n + pick(at, n)` presses of a scramble, an even number name the light. */
  ghost predicate StaysOn(pick: Picker, at: nat, n: nat, switches: seq<Switch>, l: int) {
    |PressesTo(pick, at, switches, l, n + pick(at, n))| % 2 == 0
  }

  lemma {:induction false} ChangesIsCount(pick: Picker, at: nat, n: nat, switches: seq<Switch>, l: int, k: nat)
    requires SwitchesFit(switches) && k <= n + pick(at, n)
    ensures Changes(switches, Scramble(pick, at, n, |switches|), k, l) <==>
              |PressesTo(pick, at, switches, l, k)| % 2 == 1
  {
    if k == 0 {
      assert PressesTo(pick, at, switches, l, 0) == {};
    } else {
      ChangesIsCount(pick, at, n, switches, l, k - 1);
      PressNames(pick, at, n, switches, l, k - 1);
      OnePressMore(pick, at, switches, l, k - 1);
    }
  }

  lemma PressNames(pick: Picker, at: nat, n: nat, switches: seq<Switch>, l: int, j: nat)
    requires SwitchesFit(switches) && j < n + pick(at, n)
    ensures Flips(switches, Scramble(pick, at, n, |switches|)[j], l) <==> NamedBy(pick, at, switches, l, j)
  {
    var s := pick(at + 1 + j, |switches|);
    if s < |switches| { FlipsIsNaming(switches, s, l); }
  }

  lemma OnePressMore(pick: Picker, at: nat, switches: seq<Switch>, l: int, j: nat)
    ensures |PressesTo(pick, at, switches, l, j + 1)|
         == |PressesTo(pick, at, switches, l, j)| + if NamedBy(pick, at, switches, l, j) then 1 else 0
  {
    var before := PressesTo(pick, at, switches, l, j);
    assert PressesTo(pick, at, switches, l, j + 1) ==
             if NamedBy(pick, at, switches, l, j) then before + {j} else before;
  }

  /** A light is on after a scramble exactly when it was named an even number of times. */
  lemma AttemptIs(pick: Picker, at: nat, n: nat, switches: seq<Switch>)
    requires SwitchesFit(switches)
    ensures |Attempt(pick, at, n, switches)| == n
    ensures forall l :: 0 <= l < n ==> (Attempt(pick, at, n, switches)[l] <==> StaysOn(pick, at, n, switches, l))
  {
    forall l | 0 <= l < n ensures Attempt(pick, at, n, switches)[l] <==> StaysOn(pick, at, n, switches, l) {
      ChangesIsCount(pick, at, n, switches, l, n + pick(at, n));
    }
  }

  /** One scramble, switch by switch. */
  method ScrambleLights(pick: Picker, at: nat, n: nat, switches: seq<Switch>) returns (state: seq<bool>)
    ensures state == Attempt(pick, at, n, switches)
    ensures |state| == n
    ensures SwitchesFit(switches) ==> forall l :: 0 <= l < n ==> (state[l] <==> StaysOn(pick, at, n, switches, l))
  {
    if SwitchesFit(switches) { AttemptIs(pick, at, n, switches); }
    state := Bright(n);
    var moves := n + pick(at, n);
    ghost var scramble := Scramble(pick, at, n, |switches|);
    var i := 0;
    while i < moves
      invariant 0 <= i <= moves && |state| == n
      invariant forall l :: 0 <= l < n ==> state[l] == (true != Changes(switches, scramble, i, l))
    {
      var s := pick(at + 1 + i, |switches|);
      if s < |switches| {
        state := ApplySwitch(state, switches[s]);
      }
      i := i + 1;
    }
  }

  /** Each scramble reads the stream on from where the one before it stopped. */
  ghost predicate OneAfterAnother(pick: Picker, at: nat, n: nat, starts: seq<nat>) {
    && |starts| > 0 && starts[0] == at
    && forall k :: 0 < k < |starts| ==> starts[k] == starts[k - 1] + 1 + n + pick(starts[k - 1], n)
  }

  ghost predicate LeavesAllOn(pick: Picker, start: nat, n: nat, switches: seq<Switch>) {
    forall l :: 0 <= l < n ==> StaysOn(pick, start, n, switches, l)
  }

  /** All scrambles but the last leave all lights on. */
  ghost predicate Failed(pick: Picker, n: nat, switches: seq<Switch>, starts: seq<nat>) {
    SwitchesFit(switches) ==> forall k :: 0 <= k < |starts| - 1 ==> LeavesAllOn(pick, starts[k], n, switches)
  }

  lemma OneMoreFailed(pick: Picker, at: nat, n: nat, switches: seq<Switch>, starts: seq<nat>)
    requires OneAfterAnother(pick, at, n, starts) && Failed(pick, n, switches, starts)
    requires SwitchesFit(switches) ==> LeavesAllOn(pick, starts[|starts| - 1], n, switches)
    ensures var longer := starts + [AfterAttempt(pick, starts[|starts| - 1], n)];
            OneAfterAnother(pick, at, n, longer) && Failed(pick, n, switches, longer)
  {
  }

  /** The lights are those of the last scramble, which leaves one off; or there were too many, and all are off. */
  ghost predicate LightsOfLast(pick: Picker, n: nat, switches: seq<Switch>, starts: seq<nat>, lights: seq<Light>)
    requires |lights| == n && |starts| > 0
  {
    var last := starts[|starts| - 1];
    if |starts| <= MAX_ATTEMPTS then
      !LeavesAllOn(pick, last, n, switches)
      && forall l :: 0 <= l < n ==> (lights[l].isOn <==> StaysOn(pick, last, n, switches, l))
    else forall l :: 0 <= l < n ==> !lights[l].isOn
  }

  lemma LastLights(pick: Picker, n: nat, switches: seq<Switch>, starts: seq<nat>)
    requires SwitchesFit(switches) && 0 < |starts| <= MAX_ATTEMPTS
    requires !AllOn(Attempt(pick, starts[|starts| - 1], n, switches))
    ensures LightsOfLast(pick, n, switches, starts, Lights(Attempt(pick, starts[|starts| - 1], n, switches)))
  {
    AttemptIs(pick, starts[|starts| - 1], n, switches);
  }

  /** The lights of the first of up to three scrambles, one after another, that leaves a light off; all off if
      none does.  The scrambles made began at `starts`. */
  method CreateLights(pick: Picker, at: nat, n: nat, switches: seq<Switch>)
    returns (lights: seq<Light>, ghost starts: seq<nat>)
    ensures lights == Lights(Generated(pick, at, n, switches, MAX_ATTEMPTS))
    ensures |lights| == n && forall l :: 0 <= l < n ==> lights[l].id == l
    ensures OneAfterAnother(pick, at, n, starts) && |starts| <= MAX_ATTEMPTS + 1
    ensures Failed(pick, n, switches, starts)
    ensures SwitchesFit(switches) ==> LightsOfLast(pick, n, switches, starts, lights)
  {
    var attempt: nat, next: nat := 0, at;
    starts := [at];
    while attempt < MAX_ATTEMPTS
      invariant 0 <= attempt <= MAX_ATTEMPTS
      invariant Generated(pick, at, n, switches, MAX_ATTEMPTS)
             == Generated(pick, next, n, switches, MAX_ATTEMPTS - attempt)
      invariant OneAfterAnother(pick, at, n, starts) && |starts| == attempt + 1 && starts[attempt] == next
      invariant Failed(pick, n, switches, starts)
    {
      var state := ScrambleLights(pick, next, n, switches);
      if !AllOn(state) {
        if SwitchesFit(switches) { LastLights(pick, n, switches, starts); }
        return Lights(state), starts;
      }
      OneMoreFailed(pick, at, n, switches, starts);
      next := AfterAttempt(pick, next, n);
      starts := starts + [next];
      attempt := attempt + 1;
    }
    lights := Lights(Dark(n));
  }

  // ---------- solvability ----------

  ghost predicate Solvable(puzzle: Puzzle) {
    exists submission :: Solves(puzzle, submission)
  }

  /** The switches a submission leaves pressed: those it names an odd number of times. */
  function LeftPressed(switches: seq<Switch>, submission: seq<int>, k: nat): set<nat>
    requires k <= |submission|
  {
    if k == 0 then {} else
      var before := LeftPressed(switches, submission, k - 1);
      var s := submission[k - 1];
      if s < 0 || s >= |switches| then before else if s in before then before - {s} else before + {s}
  }

  /** The chosen switches that name light `l`. */
  function Naming(switches: seq<Switch>, chosen: set<nat>, l: int): set<nat> {
    set s | s in chosen && s < |switches| && l in switches[s].affected
  }

  predicate OddlyNamed(switches: seq<Switch>, chosen: set<nat>, l: int) {
    |Naming(switches, chosen, l)| % 2 == 1
  }

  /** The chosen switches are there, and name each of `n` lights an odd number of times. */
  predicate NamesAllOddly(switches: seq<Switch>, chosen: set<nat>, n: nat) {
    InReach(switches, chosen) && forall l :: 0 <= l < n ==> OddlyNamed(switches, chosen, l)
  }

  /** Every chosen switch is one there is. */
  predicate InReach(switches: seq<Switch>, chosen: set<nat>) {
    forall s :: s in chosen ==> s < |switches|
  }

  predicate SwitchedOn(puzzle: Puzzle, chosen: set<nat>, l: int)
    requires 0 <= l < |puzzle.lights|
  {
    puzzle.lights[l].isOn != OddlyNamed(puzzle.switches, chosen, l)
  }

  /** Pressing each chosen switch once turns all lights on. */
  predicate Chosen(puzzle: Puzzle, chosen: set<nat>) {
    InReach(puzzle.switches, chosen) && forall l :: 0 <= l < |puzzle.lights| ==> SwitchedOn(puzzle, chosen, l)
  }

  lemma FlipsIsNaming(switches: seq<Switch>, s: nat, l: int)
    requires SwitchesFit(switches) && s < |switches|
    ensures Flips(switches, s, l) <==> l in switches[s].affected
  {
    var affected := switches[s].affected;
    OddlyInDistinct(affected, |affected|, l);
    assert affected[..|affected|] == affected;
  }

  /** A submission changes a light exactly when the switches it leaves pressed name it oddly often. */
  lemma {:induction false} ChangesIsNaming(switches: seq<Switch>, submission: seq<int>, k: nat, l: int)
    requires SwitchesFit(switches) && k <= |submission|
    ensures InReach(switches, LeftPressed(switches, submission, k))
    ensures Changes(switches, submission, k, l) <==> OddlyNamed(switches, LeftPressed(switches, submission, k), l)
  {
    if k == 0 {
      assert Naming(switches, {}, l) == {};
    } else {
      ChangesIsNaming(switches, submission, k - 1, l);
      var before := LeftPressed(switches, submission, k - 1);
      var s := submission[k - 1];
      if 0 <= s < |switches| {
        FlipsIsNaming(switches, s, l);
        ToggleNaming(switches, before, s, l);
        assert LeftPressed(switches, submission, k) == if s in before then before - {s} else before + {s};
      } else {
        assert LeftPressed(switches, submission, k) == before;
      }
    }
  }

  lemma ToggleNaming(switches: seq<Switch>, chosen: set<nat>, s: nat, l: int)
    requires s < |switches|
    ensures var after := if s in chosen then chosen - {s} else chosen + {s};
            OddlyNamed(switches, after, l) <==> OddlyNamed(switches, chosen, l) != (l in switches[s].affected)
  {
    if s in chosen {
      AddNaming(switches, chosen - {s}, s, l);
      assert chosen - {s} + {s} == chosen;
    } else {
      AddNaming(switches, chosen, s, l);
    }
  }

  lemma AddNaming(switches: seq<Switch>, chosen: set<nat>, s: nat, l: int)
    requires s < |switches| && s !in chosen
    ensures var more := if l in switches[s].affected then 1 else 0;
            |Naming(switches, chosen + {s}, l)| == |Naming(switches, chosen, l)| + more
  {
    var was, now := Naming(switches, chosen, l), Naming(switches, chosen + {s}, l);
    assert now == if l in switches[s].affected then was + {s} else was;
  }

  /** Any set of switches is left pressed by some submission. */
  lemma {:induction false} PressAll(switches: seq<Switch>, chosen: set<nat>) returns (submission: seq<int>)
    requires InReach(switches, chosen)
    ensures LeftPressed(switches, submission, |submission|) == chosen
    decreases |chosen|
  {
    if chosen == {} {
      submission := [];
    } else {
      var s :| s in chosen;
      var rest := PressAll(switches, chosen - {s});
      submission := rest + [s];
      LeftPressedOfPrefix(switches, rest, submission, |rest|);
      assert chosen - {s} + {s} == chosen;
    }
  }

  lemma {:induction false} LeftPressedOfPrefix(switches: seq<Switch>, a: seq<int>, b: seq<int>, k: nat)
    requires k <= |a| && a <= b
    ensures LeftPressed(switches, b, k) == LeftPressed(switches, a, k)
  {
    if k > 0 {
      LeftPressedOfPrefix(switches, a, b, k - 1);
    }
  }

  /** A submission solves a puzzle exactly when the set of switches it leaves pressed turns all lights on. */
  lemma SolvesIsChosen(puzzle: Puzzle, submission: seq<int>)
    requires SwitchesFit(puzzle.switches)
    ensures Solves(puzzle, submission) <==> Chosen(puzzle, LeftPressed(puzzle.switches, submission, |submission|))
  {
    var chosen := LeftPressed(puzzle.switches, submission, |submission|);
    var after := Replay(puzzle.switches, States(puzzle.lights), submission);
    ChangesIsNaming(puzzle.switches, submission, |submission|, 0);
    forall l | 0 <= l < |puzzle.lights| ensures after[l] <==> SwitchedOn(puzzle, chosen, l) {
      ChangesIsNaming(puzzle.switches, submission, |submission|, l);
    }
    if Solves(puzzle, submission) {
      forall l | 0 <= l < |puzzle.lights| ensures SwitchedOn(puzzle, chosen, l) {
        assert after[l];
      }
    } else {
      var l :| 0 <= l < |after| && !after[l];
      assert !SwitchedOn(puzzle, chosen, l);
    }
  }

  /** A puzzle is solvable exactly when one of the sets of its switches turns all lights on. */
  lemma SolvableIff(puzzle: Puzzle)
    requires SwitchesFit(puzzle.switches)
    ensures Solvable(puzzle) <==> exists chosen :: Chosen(puzzle, chosen)
  {
    if Solvable(puzzle) {
      var submission :| Solves(puzzle, submission);
      SolvesIsChosen(puzzle, submission);
    }
    if chosen :| Chosen(puzzle, chosen) {
      var submission := PressAll(puzzle.switches, chosen);
      SolvesIsChosen(puzzle, submission);
    }
  }

  /** Clicks on the phone change the lights as a replay of them would. */
  lemma {:induction false} ClicksReplay(puzzle: Puzzle, clicks: seq<nat>, k: nat, i: int)
    requires WellFormed(puzzle) && k <= |clicks| && forall j :: 0 <= j < |clicks| ==> clicks[j] < |puzzle.switches|
    ensures var pressed := After(puzzle, clicks, k).pressed;
            Changes(puzzle.switches, pressed, |pressed|, i) == Changes(puzzle.switches, clicks, k, i)
  {
    if k > 0 {
      ClicksReplay(puzzle, clicks, k - 1, i);
      ClicksKeep(puzzle, clicks, k - 1);
      TogglePressedFlips(puzzle.switches, After(puzzle, clicks, k - 1).pressed, clicks[k - 1], i);
    }
  }

  /** Whatever clicks solve a puzzle, a set of switches does. */
  lemma {:induction false} ClicksLeaveASubset(puzzle: Puzzle, clicks: seq<nat>)
    requires WellFormed(puzzle) && forall j :: 0 <= j < |clicks| ==> clicks[j] < |puzzle.switches|
    ensures var pressed := After(puzzle, clicks, |clicks|).pressed;
            Distinct(pressed) && InRange(pressed, |puzzle.switches|)
            && (Solves(puzzle, pressed) <==> Solves(puzzle, clicks))
  {
    var pressed := After(puzzle, clicks, |clicks|).pressed;
    ClicksKeep(puzzle, clicks, |clicks|);
    forall i ensures Changes(puzzle.switches, pressed, |pressed|, i) == Changes(puzzle.switches, clicks, |clicks|, i) {
      ClicksReplay(puzzle, clicks, |clicks|, i);
    }
    assert Replay(puzzle.switches, States(puzzle.lights), pressed)
        == Replay(puzzle.switches, States(puzzle.lights), clicks);
  }

  lemma {:induction false} GeneratedBranches(pick: Picker, at: nat, n: nat, switches: seq<Switch>, attempts: nat)
    requires n > 0
    ensures var state := Generated(pick, at, n, switches, attempts);
            && |state| == n && !AllOn(state)
            && (FallsBack(pick, at, n, switches, attempts) ==> state == Dark(n))
            && (!FallsBack(pick, at, n, switches, attempts)
                ==> exists from :: state == Attempt(pick, from, n, switches))
    decreases attempts
  {
    if attempts > 0 && AllOn(Attempt(pick, at, n, switches)) {
      GeneratedBranches(pick, AfterAttempt(pick, at, n), n, switches, attempts - 1);
    } else if attempts == 0 {
      assert !Dark(n)[0];
    }
  }

  function PuzzleOf(state: seq<bool>, switches: seq<Switch>): Puzzle {
    Puzzle(Lights(state), switches)
  }

  predicate SwitchesFit(switches: seq<Switch>) {
    forall s :: 0 <= s < |switches| ==> switches[s].id == s && Distinct(switches[s].affected)
  }

  /** A puzzle whose lights a scramble left is solved by pressing the same switches again. */
  lemma ScrambledIsSolvable(pick: Picker, at: nat, n: nat, switches: seq<Switch>)
    requires n > 0 && |switches| > 0 && SwitchesFit(switches)
    ensures var puzzle := PuzzleOf(Attempt(pick, at, n, switches), switches);
            exists pressed :: Distinct(pressed) && InRange(pressed, |switches|) && Solves(puzzle, pressed)
  {
    var puzzle := PuzzleOf(Attempt(pick, at, n, switches), switches);
    var clicks: seq<nat> := seq(n + pick(at, n), j requires 0 <= j => pick(at + 1 + j, |switches|));
    assert clicks == Scramble(pick, at, n, |switches|);
    assert States(puzzle.lights) == Attempt(pick, at, n, switches);
    ReplayTwice(switches, Bright(n), clicks);
    assert Solves(puzzle, clicks);
    ClicksLeaveASubset(puzzle, clicks);
    assert Solves(puzzle, After(puzzle, clicks, |clicks|).pressed);
  }

  /** Every generated puzzle is well formed and starts unsolved. */
  lemma GeneratedStartsUnsolved(pick: Picker, at: nat, n: nat, switches: seq<Switch>)
    requires n > 0 && SwitchesFit(switches)
    ensures var puzzle := PuzzleOf(Generated(pick, at, n, switches, MAX_ATTEMPTS), switches);
            WellFormed(puzzle) && !Solves(puzzle, [])
  {
    var state := Generated(pick, at, n, switches, MAX_ATTEMPTS);
    GeneratedBranches(pick, at, n, switches, MAX_ATTEMPTS);
    assert States(Lights(state)) == state;
    assert Replay(switches, state, []) == state;
  }

  /** A generated puzzle that is not the fallback is solved by some set of its switches. */
  lemma GeneratedIsSolvable(pick: Picker, at: nat, n: nat, switches: seq<Switch>)
    requires n > 0 && |switches| > 0 && SwitchesFit(switches)
    requires !FallsBack(pick, at, n, switches, MAX_ATTEMPTS)
    ensures var puzzle := PuzzleOf(Generated(pick, at, n, switches, MAX_ATTEMPTS), switches);
            exists pressed :: Distinct(pressed) && InRange(pressed, |switches|) && Solves(puzzle, pressed)
  {
    GeneratedBranches(pick, at, n, switches, MAX_ATTEMPTS);
    var from :| Generated(pick, at, n, switches, MAX_ATTEMPTS) == Attempt(pick, from, n, switches);
    ScrambledIsSolvable(pick, from, n, switches);
  }

  lemma DarkChosen(n: nat, switches: seq<Switch>, chosen: set<nat>)
    ensures Chosen(PuzzleOf(Dark(n), switches), chosen) <==>
              NamesAllOddly(switches, chosen, n)
  {
    var puzzle := PuzzleOf(Dark(n), switches);
    forall l | 0 <= l < |puzzle.lights|
      ensures SwitchedOn(puzzle, chosen, l) <==> OddlyNamed(switches, chosen, l)
    {
      assert !puzzle.lights[l].isOn;
    }
  }

  /** A generated puzzle is solvable exactly when it is not the fallback, or some set of its switches names
      every light an odd number of times. */
  lemma GeneratedSolvableIff(pick: Picker, at: nat, n: nat, switches: seq<Switch>)
    requires n > 0 && |switches| > 0 && SwitchesFit(switches)
    ensures Solvable(PuzzleOf(Generated(pick, at, n, switches, MAX_ATTEMPTS), switches))
       <==> || !FallsBack(pick, at, n, switches, MAX_ATTEMPTS)
            || exists chosen :: NamesAllOddly(switches, chosen, n)
  {
    var puzzle := PuzzleOf(Generated(pick, at, n, switches, MAX_ATTEMPTS), switches);
    if FallsBack(pick, at, n, switches, MAX_ATTEMPTS) {
      GeneratedBranches(pick, at, n, switches, MAX_ATTEMPTS);
      SolvableIff(puzzle);
      forall chosen
        ensures Chosen(puzzle, chosen) <==>
                  NamesAllOddly(switches, chosen, n)
      {
        DarkChosen(n, switches, chosen);
      }
    } else {
      GeneratedIsSolvable(pick, at, n, switches);
    }
  }

  // ---------- the whole puzzle ----------

  function LightCount(pick: Picker): nat {
    pick(0, MAX_LIGHTS - MIN_LIGHTS + 1) + MIN_LIGHTS
  }

  /** The puzzle a stream makes. */
  ghost function Created(pick: Picker, ends: seq<nat>): Puzzle
    requires Brings(pick, 1, LightCount(pick), ends)
  {
    var n := LightCount(pick);
    var switches := SwitchesOf(pick, 1, n, ends);
    PuzzleOf(Generated(pick, ends[SWITCH_COUNT], n, switches, MAX_ATTEMPTS), switches)
  }

  method CreateLightSwitchPuzzle(pick: Picker, ghost ends: seq<nat>)
    returns (puzzle: Puzzle, ghost starts: seq<nat>)
    requires Brings(pick, 1, LightCount(pick), ends)
    ensures puzzle == Created(pick, ends)
    ensures |puzzle.lights| == MIN_LIGHTS + pick(0, MAX_LIGHTS - MIN_LIGHTS + 1)
    ensures OneAfterAnother(pick, ends[SWITCH_COUNT], |puzzle.lights|, starts) && |starts| <= MAX_ATTEMPTS + 1
    ensures Failed(pick, |puzzle.lights|, puzzle.switches, starts)
    ensures LightsOfLast(pick, |puzzle.lights|, puzzle.switches, starts, puzzle.lights)
    ensures WellFormed(puzzle) && !Solves(puzzle, []) && MIN_LIGHTS <= |puzzle.lights| <= MAX_LIGHTS
  {
    var n := LightCount(pick);
    var switches, next := CreateSwitches(pick, 1, n, ends);
    var lights;
    lights, starts := CreateLights(pick, next, n, switches);
    GeneratedStartsUnsolved(pick, next, n, switches);
    GeneratedBranches(pick, next, n, switches, MAX_ATTEMPTS);
    puzzle := Puzzle(lights, switches);
  }

  // ---------- a fallback nobody can solve ----------

  /** Four switches that all toggle the first light. */
  function FirstLightOnly(): seq<Switch> {
    seq(SWITCH_COUNT, s requires 0 <= s => Switch(s, [0]))
  }

  ghost predicate IsZeros(pick: Picker) {
    forall i, count :: pick(i, count) == 0
  }

  predicate EverySecond(ends: seq<nat>, at: nat) {
    |ends| == SWITCH_COUNT + 1 && forall s :: 0 <= s < |ends| ==> ends[s] == at + 2 * s
  }

  /** A stream of zeros brings each switch its light, the first one, with its second draw. */
  lemma ZerosBring(zeros: Picker, at: nat, n: nat, ends: seq<nat>)
    requires IsZeros(zeros) && EverySecond(ends, at)
    ensures Brings(zeros, at, n, ends)
  {
    forall s: nat | s < SWITCH_COUNT ensures SwitchDrawn(zeros, n, ends, s) {
      ZeroSwitch(zeros, n, ends, s);
    }
  }

  lemma ZeroSwitches(zeros: Picker, at: nat, n: nat, ends: seq<nat>)
    requires IsZeros(zeros) && EverySecond(ends, at) && Brings(zeros, at, n, ends)
    ensures SwitchesOf(zeros, at, n, ends) == FirstLightOnly()
  {
    var switches := SwitchesOf(zeros, at, n, ends);
    forall s | 0 <= s < SWITCH_COUNT ensures switches[s] == FirstLightOnly()[s] {
      ZeroSwitch(zeros, n, ends, s);
    }
  }

  lemma ZeroSwitch(zeros: Picker, n: nat, ends: seq<nat>, s: nat)
    requires IsZeros(zeros) && s + 1 < |ends| && ends[s + 1] == ends[s] + 2
    ensures SwitchDrawn(zeros, n, ends, s) && InOrder(zeros, ends[s] + 1, ends[s + 1], n) == [0]
  {
    ZeroDrawn(zeros, ends[s] + 1, n);
  }

  lemma ZeroDrawn(zeros: Picker, at: nat, n: nat)
    requires IsZeros(zeros)
    ensures InOrder(zeros, at, at + 1, n) == [0] && BringsAt(zeros, at, at + 1, n, 1)
  {
    assert InOrder(zeros, at, at, n) == [];
  }

  lemma FirstLightFlips(s: int, l: int)
    ensures Flips(FirstLightOnly(), s, l) <==> 0 <= s < SWITCH_COUNT && l == 0
  {
    assert !OddlyIn([0], 0, l);
  }

  lemma {:induction false} OnlyFirstChanges(submission: seq<int>, k: nat, l: int)
    requires k <= |submission| && InRange(submission, SWITCH_COUNT)
    ensures Changes(FirstLightOnly(), submission, k, l) <==> l == 0 && k % 2 == 1
  {
    if k > 0 {
      OnlyFirstChanges(submission, k - 1, l);
      FirstLightFlips(submission[k - 1], l);
    }
  }

  lemma {:induction false} ZerosFallBack(zeros: Picker, at: nat, n: nat, attempts: nat)
    requires IsZeros(zeros) && n % 2 == 0
    ensures FallsBack(zeros, at, n, FirstLightOnly(), attempts)
    decreases attempts
  {
    if attempts > 0 {
      var scramble := Scramble(zeros, at, n, SWITCH_COUNT);
      forall l | 0 <= l < n ensures Attempt(zeros, at, n, FirstLightOnly())[l] {
        OnlyFirstChanges(scramble, n, l);
      }
      ZerosFallBack(zeros, AfterAttempt(zeros, at, n), n, attempts - 1);
    }
  }

  lemma ZeroDraws(random: nat -> Unit)
    requires forall i :: random(i) == 0.0
    ensures IsZeros(PickerOf(random))
  {
    forall i, count ensures PickerOf(random)(i, count) == 0 {
      assert PickerOf(random)(i, count) as int == (random(i) * count as real).Floor;
    }
  }

  /** When `random()` keeps returning zero, the puzzle created is well formed, and no submission solves it. */
  lemma UnsolvableFallback(random: nat -> Unit) returns (ends: seq<nat>)
    requires forall i :: random(i) == 0.0
    ensures Brings(PickerOf(random), 1, LightCount(PickerOf(random)), ends)
    ensures var puzzle := Created(PickerOf(random), ends); WellFormed(puzzle) && !Solvable(puzzle)
  {
    ZeroDraws(random);
    ends := ZerosUnsolvable(PickerOf(random));
  }

  lemma ZerosUnsolvable(zeros: Picker) returns (ends: seq<nat>)
    requires IsZeros(zeros)
    ensures Brings(zeros, 1, LightCount(zeros), ends)
    ensures WellFormed(Created(zeros, ends)) && !Solvable(Created(zeros, ends))
  {
    var n, switches := LightCount(zeros), FirstLightOnly();
    ends := seq(SWITCH_COUNT + 1, s requires 0 <= s => 1 + 2 * s);
    ZerosBring(zeros, 1, n, ends);
    ZeroSwitches(zeros, 1, n, ends);
    var next := ends[SWITCH_COUNT];
    assert Created(zeros, ends) == PuzzleOf(Generated(zeros, next, n, switches, MAX_ATTEMPTS), switches);
    ZerosFallBack(zeros, next, n, MAX_ATTEMPTS);
    GeneratedStartsUnsolved(zeros, next, n, switches);
    GeneratedSolvableIff(zeros, next, n, switches);
    forall chosen: set<nat> ensures !NamesAllOddly(switches, chosen, n) {
      assert Naming(switches, chosen, 1) == {};
      assert !OddlyNamed(switches, chosen, 1);
    }
  }
}
