/** Lights and switches: what pressing switches does to the lights, and the server's replay of a
    submission. */
module LightSwitch {

  datatype Light = Light(id: nat, isOn: bool)

  datatype Switch = Switch(id: nat, affected: seq<int>)

  datatype Puzzle = Puzzle(lights: seq<Light>, switches: seq<Switch>)

  /** The state with one light toggled; an index without a light changes nothing. */
  function Toggle(state: seq<bool>, i: int): (next: seq<bool>)
    ensures |next| == |state|
  {
    if 0 <= i < |state| then state[i := !state[i]] else state
  }

  /** The first `k` of the affected lights contain light `i` an odd number of times. */
  predicate OddlyIn(affected: seq<int>, k: nat, i: int)
    requires k <= |affected|
  {
    k > 0 && (affected[k - 1] == i) != OddlyIn(affected, k - 1, i)
  }

  /** Whether pressing switch `s` changes light `i`; there may be no such switch. */
  predicate Flips(switches: seq<Switch>, s: int, i: int) {
    0 <= s < |switches| && OddlyIn(switches[s].affected, |switches[s].affected|, i)
  }

  /** Whether light `i` is changed by pressing the first `k` switches of a submission in turn. */
  predicate Changes(switches: seq<Switch>, submission: seq<int>, k: nat, i: int)
    requires k <= |submission|
  {
    k > 0 && Flips(switches, submission[k - 1], i) != Changes(switches, submission, k - 1, i)
  }

  /** The state after a submission: each light changed or not. */
  function Replay(switches: seq<Switch>, state: seq<bool>, submission: seq<int>): seq<bool> {
    seq(|state|, i requires 0 <= i < |state| => state[i] != Changes(switches, submission, |submission|, i))
  }

  predicate AllOn(state: seq<bool>) {
    forall i :: 0 <= i < |state| ==> state[i]
  }

  function States(lights: seq<Light>): seq<bool> {
    seq(|lights|, i requires 0 <= i < |lights| => lights[i].isOn)
  }

  // ---------- the server ----------

  /** Toggles a copy light by light: exactly the lights affected an odd number of times change. */
  method ApplySwitch(state: seq<bool>, sw: Switch) returns (next: seq<bool>)
    ensures |next| == |state|
    ensures forall i :: 0 <= i < |state| ==> next[i] == (state[i] != OddlyIn(sw.affected, |sw.affected|, i))
  {
    next := state;
    var k := 0;
    while k < |sw.affected|
      invariant 0 <= k <= |sw.affected| && |next| == |state|
      invariant forall i :: 0 <= i < |state| ==> next[i] == (state[i] != OddlyIn(sw.affected, k, i))
    {
      next := Toggle(next, sw.affected[k]);
      k := k + 1;
    }
  }

  /** Replays the submitted switches from the puzzle's lights and looks whether all are on. */
  method CheckSubmission(submission: seq<int>, puzzle: Puzzle) returns (solved: bool)
    ensures solved <==> AllOn(Replay(puzzle.switches, States(puzzle.lights), submission))
  {
    var state := States(puzzle.lights);
    var k := 0;
    while k < |submission|
      invariant 0 <= k <= |submission| && |state| == |puzzle.lights|
      invariant forall i :: 0 <= i < |state| ==>
                  state[i] == (puzzle.lights[i].isOn != Changes(puzzle.switches, submission, k, i))
    {
      if 0 <= submission[k] < |puzzle.switches| {
        state := ApplySwitch(state, puzzle.switches[submission[k]]);
      }
      k := k + 1;
    }
    assert state == Replay(puzzle.switches, States(puzzle.lights), submission);
    solved := forall i :: 0 <= i < |state| ==> state[i];
  }

  /** A submission counts only if it presses something, and names switches by natural numbers. */
  predicate ValidSubmission(submission: seq<int>) {
    submission != [] && forall k :: 0 <= k < |submission| ==> submission[k] >= 0
  }

  // ---------- the algebra of presses ----------

  lemma {:induction false} ChangesOfPrefix(switches: seq<Switch>, a: seq<int>, b: seq<int>, k: nat, i: int)
    requires k <= |a| && a <= b
    ensures Changes(switches, b, k, i) == Changes(switches, a, k, i)
  {
    if k > 0 {
      ChangesOfPrefix(switches, a, b, k - 1, i);
    }
  }

  /** What two submissions change one after the other. */
  lemma {:induction false} ChangesOfConcat(switches: seq<Switch>, a: seq<int>, b: seq<int>, k: nat, i: int)
    requires k <= |b|
    ensures Changes(switches, a + b, |a| + k, i) == (Changes(switches, a, |a|, i) != Changes(switches, b, k, i))
  {
    if k == 0 {
      ChangesOfPrefix(switches, a, a + b, |a|, i);
    } else {
      ChangesOfConcat(switches, a, b, k - 1, i);
    }
  }

  /** One press among others changes just what its switch flips. */
  lemma OnePress(switches: seq<Switch>, front: seq<int>, s: int, back: seq<int>, i: int)
    ensures var all, rest := front + [s] + back, front + back;
            Changes(switches, all, |all|, i) == (Changes(switches, rest, |rest|, i) != Flips(switches, s, i))
  {
    ChangesOfConcat(switches, front + [s], back, |back|, i);
    ChangesOfConcat(switches, front, [s], 1, i);
    ChangesOfConcat(switches, front, back, |back|, i);
    assert Changes(switches, [s], 0, i) == false;
  }

  lemma SameButOne(init: seq<int>, front: seq<int>, s: int, back: seq<int>)
    requires multiset(init + [s]) == multiset(front + [s] + back)
    ensures multiset(init) == multiset(front + back)
  {
    assert multiset(init + [s]) == multiset(init) + multiset{s};
    assert multiset(front + [s] + back) == multiset(front) + multiset{s} + multiset(back);
    assert multiset(front + back) == multiset(front) + multiset(back);
    assert multiset(init) == multiset(init + [s]) - multiset{s};
    assert multiset(front + back) == multiset(front + [s] + back) - multiset{s};
  }

  /** The order of presses does not matter. */
  lemma {:induction false} OrderIsFree(switches: seq<Switch>, a: seq<int>, b: seq<int>, i: int)
    requires multiset(a) == multiset(b)
    ensures Changes(switches, a, |a|, i) == Changes(switches, b, |b|, i)
    decreases |a|
  {
    assert |a| == |multiset(a)| && |b| == |multiset(b)|;
    if |a| > 0 {
      var init, s := a[..|a| - 1], a[|a| - 1];
      assert a == init + [s];
      assert s in multiset(b);
      var j: nat :| j < |b| && b[j] == s;
      var front, back := b[..j], b[j + 1..];
      assert b == front + [s] + back;
      SameButOne(init, front, s, back);
      OrderIsFree(switches, init, front + back, i);
      ChangesOfPrefix(switches, init, a, |init|, i);
      OnePress(switches, front, s, back, i);
    }
  }

  /** Pressing a switch twice, whatever comes in between, changes nothing. */
  lemma PairsCancel(switches: seq<Switch>, a: seq<int>, b: seq<int>, c: seq<int>, s: int, i: int)
    ensures var twice, none := a + [s] + (b + [s] + c), a + b + c;
            Changes(switches, twice, |twice|, i) == Changes(switches, none, |none|, i)
  {
    OnePress(switches, a, s, b + [s] + c, i);
    OnePress(switches, a + b, s, c, i);
    assert a + (b + [s] + c) == (a + b) + [s] + c;
  }

  /** Two replays of submissions with the same presses agree, so they agree on solved. */
  lemma SamePressesSameLights(switches: seq<Switch>, state: seq<bool>, a: seq<int>, b: seq<int>)
    requires multiset(a) == multiset(b)
    ensures Replay(switches, state, a) == Replay(switches, state, b)
  {
    forall i ensures Changes(switches, a, |a|, i) == Changes(switches, b, |b|, i) {
      OrderIsFree(switches, a, b, i);
    }
  }

  /** Replaying a submission on the state it led to leads back. */
  lemma ReplayTwice(switches: seq<Switch>, state: seq<bool>, submission: seq<int>)
    ensures Replay(switches, Replay(switches, state, submission), submission) == state
  {
  }

  // ---------- well-formed puzzles ----------

  predicate Distinct(s: seq<int>) {
    forall i, j :: 0 <= i < j < |s| ==> s[i] != s[j]
  }

  /** Lights and switches are numbered by their places, and a switch names each of its lights once. */
  predicate WellFormed(puzzle: Puzzle) {
    && (forall i :: 0 <= i < |puzzle.lights| ==> puzzle.lights[i].id == i)
    && (forall s :: 0 <= s < |puzzle.switches| ==> puzzle.switches[s].id == s && Distinct(puzzle.switches[s].affected))
  }

  /** A switch that names its lights once changes exactly those. */
  lemma {:induction false} OddlyInDistinct(affected: seq<int>, k: nat, i: int)
    requires Distinct(affected) && k <= |affected|
    ensures OddlyIn(affected, k, i) <==> i in affected[..k]
  {
    if k > 0 {
      OddlyInDistinct(affected, k - 1, i);
      assert affected[..k] == affected[..k - 1] + [affected[k - 1]];
    }
  }
}
