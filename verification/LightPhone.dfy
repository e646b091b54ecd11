/** The phone's side of a light-switch puzzle: it toggles lights click by click and reports the switches
    pressed, which the server replays. */
module LightPhone {
  import opened Common
  import opened LightSwitch

  datatype Report = Progressed(pressed: seq<int>) | Submitted(pressed: seq<int>)

  datatype PhoneState = PhoneState(pressed: seq<int>, lights: seq<Light>, isSolved: bool, reports: seq<Report>)

  function Start(puzzle: Puzzle): PhoneState {
    PhoneState([], puzzle.lights, false, [])
  }

  function TogglePressed(pressed: seq<int>, id: int): seq<int> {
    if id in pressed then Without(pressed, id, |pressed|) else pressed + [id]
  }

  function ToggleLights(lights: seq<Light>, sw: Switch): seq<Light> {
    seq(|lights|, i requires 0 <= i < |lights| =>
      if lights[i].id in sw.affected then lights[i].(isOn := !lights[i].isOn) else lights[i])
  }

  /** One click: it is reported as a submission when it solves the puzzle. */
  function Click(ph: PhoneState, sw: Switch): PhoneState {
    var pressed := TogglePressed(ph.pressed, sw.id);
    var lights := ToggleLights(ph.lights, sw);
    if AllOn(States(lights)) then PhoneState(pressed, lights, true, ph.reports + [Submitted(pressed)])
    else PhoneState(pressed, lights, ph.isSolved, ph.reports + [Progressed(pressed)])
  }

  /** A click sends one report more, of the switches pressed then; it is a submission, and the phone counts as
      solved, exactly when all lights are on. */
  lemma ClickReports(ph: PhoneState, sw: Switch)
    ensures var next := Click(ph, sw);
            && next.reports[..|next.reports| - 1] == ph.reports
            && (forall k :: 0 <= k < |next.lights| ==> next.lights[k].isOn) == next.reports[|ph.reports|].Submitted?
            && next.reports[|ph.reports|].pressed == next.pressed
            && (next.isSolved <==> ph.isSolved || next.reports[|ph.reports|].Submitted?)
  {
    var next := Click(ph, sw);
    assert forall k :: 0 <= k < |next.lights| ==> States(next.lights)[k] == next.lights[k].isOn;
  }

  // ---------- phone and server stay in step ----------

  predicate InRange(pressed: seq<int>, count: nat) {
    forall k :: 0 <= k < |pressed| ==> 0 <= pressed[k] < count
  }

  predicate Solves(puzzle: Puzzle, submission: seq<int>) {
    AllOn(Replay(puzzle.switches, States(puzzle.lights), submission))
  }

  /** A report says truly whether the switches pressed solve the puzzle. */
  predicate ReportOk(puzzle: Puzzle, r: Report) {
    Solves(puzzle, r.pressed) <==> r.Submitted?
  }

  ghost predicate InStep(puzzle: Puzzle, ph: PhoneState) {
    && Distinct(ph.pressed) && InRange(ph.pressed, |puzzle.switches|)
    && |ph.lights| == |puzzle.lights|
    && (forall i :: 0 <= i < |ph.lights| ==> ph.lights[i].id == i)
    && States(ph.lights) == Replay(puzzle.switches, States(puzzle.lights), ph.pressed)
    && (forall r :: r in ph.reports ==> ReportOk(puzzle, r))
  }

  lemma {:induction false} WithoutIsSplice(s: seq<int>, j: nat, k: nat)
    requires Distinct(s) && j < |s| && k <= |s|
    ensures Without(s, s[j], k) == if k <= j then s[..k] else s[..j] + s[j + 1..k]
  {
    if k > 0 {
      WithoutIsSplice(s, j, k - 1);
    }
  }

  lemma OnePlace(pressed: seq<int>, j: nat)
    requires Distinct(pressed) && j < |pressed|
    ensures pressed[j] !in pressed[..j] && pressed[j] !in pressed[j + 1..]
  {
    var front, back := pressed[..j], pressed[j + 1..];
    assert forall m :: 0 <= m < |front| ==> front[m] == pressed[m];
    assert forall m :: 0 <= m < |back| ==> back[m] == pressed[j + 1 + m];
  }

  /** A switch that was pressed is taken out of the one place it had. */
  lemma ToggleOff(pressed: seq<int>, id: int) returns (front: seq<int>, back: seq<int>)
    requires Distinct(pressed) && id in pressed
    ensures pressed == front + [id] + back && TogglePressed(pressed, id) == front + back
    ensures id !in front && id !in back
  {
    var j: nat :| j < |pressed| && pressed[j] == id;
    OnePlace(pressed, j);
    WithoutIsSplice(pressed, j, |pressed|);
    front, back := pressed[..j], pressed[j + 1..];
    assert pressed[j + 1..|pressed|] == back;
  }

  lemma KeptWithoutOne(front: seq<int>, id: int, back: seq<int>, count: nat)
    requires Distinct(front + [id] + back) && InRange(front + [id] + back, count)
    ensures Distinct(front + back) && InRange(front + back, count)
  {
    var all, rest := front + [id] + back, front + back;
    assert forall m :: 0 <= m < |front| ==> rest[m] == all[m];
    assert forall m :: |front| <= m < |rest| ==> rest[m] == all[m + 1];
  }

  /** Toggling a switch in the list of those pressed changes just the lights the switch flips. */
  lemma TogglePressedFlips(switches: seq<Switch>, pressed: seq<int>, id: int, i: int)
    requires Distinct(pressed)
    ensures var next := TogglePressed(pressed, id);
            Changes(switches, next, |next|, i) == (Changes(switches, pressed, |pressed|, i) != Flips(switches, id, i))
  {
    if id in pressed {
      var front, back := ToggleOff(pressed, id);
      OnePress(switches, front, id, back, i);
    } else {
      OnePress(switches, pressed, id, [], i);
      assert pressed + [id] + [] == pressed + [id] && pressed + [] == pressed;
    }
  }

  lemma TogglePressedKeeps(pressed: seq<int>, id: int, count: nat)
    requires Distinct(pressed) && InRange(pressed, count) && 0 <= id < count
    ensures Distinct(TogglePressed(pressed, id)) && InRange(TogglePressed(pressed, id), count)
  {
    if id in pressed {
      var front, back := ToggleOff(pressed, id);
      KeptWithoutOne(front, id, back, count);
    }
  }

  lemma ClickKeepsLights(puzzle: Puzzle, ph: PhoneState, s: nat)
    requires WellFormed(puzzle) && InStep(puzzle, ph) && s < |puzzle.switches|
    ensures var next := Click(ph, puzzle.switches[s]);
            States(next.lights) == Replay(puzzle.switches, States(puzzle.lights), next.pressed)
  {
    var sw := puzzle.switches[s];
    var next := Click(ph, sw);
    forall i | 0 <= i < |ph.lights|
      ensures next.lights[i].isOn
           == (puzzle.lights[i].isOn != Changes(puzzle.switches, next.pressed, |next.pressed|, i))
    {
      TogglePressedFlips(puzzle.switches, ph.pressed, s, i);
      OddlyInDistinct(sw.affected, |sw.affected|, i);
      assert sw.affected[..|sw.affected|] == sw.affected;
      assert ph.lights[i].isOn == States(ph.lights)[i];
    }
  }

  lemma ClickKeeps(puzzle: Puzzle, ph: PhoneState, s: nat)
    requires WellFormed(puzzle) && InStep(puzzle, ph) && s < |puzzle.switches|
    ensures InStep(puzzle, Click(ph, puzzle.switches[s]))
  {
    ClickKeepsLights(puzzle, ph, s);
    TogglePressedKeeps(ph.pressed, s, |puzzle.switches|);
  }

  // ---------- any sequence of clicks ----------

  function After(puzzle: Puzzle, clicks: seq<nat>, k: nat): PhoneState
    requires k <= |clicks| && forall j :: 0 <= j < |clicks| ==> clicks[j] < |puzzle.switches|
  {
    if k == 0 then Start(puzzle) else Click(After(puzzle, clicks, k - 1), puzzle.switches[clicks[k - 1]])
  }

  lemma {:induction false} ClicksKeep(puzzle: Puzzle, clicks: seq<nat>, k: nat)
    requires WellFormed(puzzle) && k <= |clicks| && forall j :: 0 <= j < |clicks| ==> clicks[j] < |puzzle.switches|
    ensures InStep(puzzle, After(puzzle, clicks, k))
  {
    if k > 0 {
      ClicksKeep(puzzle, clicks, k - 1);
      ClickKeeps(puzzle, After(puzzle, clicks, k - 1), clicks[k - 1]);
    }
  }

  /** After any clicks, the lights on the phone are those the server gets by replaying the switches
      pressed, in any order, so both agree on whether the puzzle is solved. */
  lemma PhoneAgreesWithServer(puzzle: Puzzle, clicks: seq<nat>, k: nat, submission: seq<int>)
    requires WellFormed(puzzle) && k <= |clicks| && forall j :: 0 <= j < |clicks| ==> clicks[j] < |puzzle.switches|
    requires multiset(submission) == multiset(After(puzzle, clicks, k).pressed)
    ensures var ph := After(puzzle, clicks, k);
            && States(ph.lights) == Replay(puzzle.switches, States(puzzle.lights), submission)
            && (AllOn(States(ph.lights)) <==> Solves(puzzle, submission))
  {
    ClicksKeep(puzzle, clicks, k);
    SamePressesSameLights(puzzle.switches, States(puzzle.lights), submission, After(puzzle, clicks, k).pressed);
  }

  lemma ToggleMembership(pressed: seq<int>, id: int, x: int)
    requires Distinct(pressed)
    ensures x in TogglePressed(pressed, id) <==> (x in pressed) != (x == id)
  {
    if id in pressed {
      var front, back := ToggleOff(pressed, id);
    }
  }

  /** The switches pressed are those clicked an odd number of times. */
  lemma {:induction false} PressedIsOddlyClicked(puzzle: Puzzle, clicks: seq<nat>, k: nat, s: int)
    requires WellFormed(puzzle) && k <= |clicks| && forall j :: 0 <= j < |clicks| ==> clicks[j] < |puzzle.switches|
    ensures s in After(puzzle, clicks, k).pressed <==> OddlyIn(clicks, k, s)
  {
    if k > 0 {
      PressedIsOddlyClicked(puzzle, clicks, k - 1, s);
      ClicksKeep(puzzle, clicks, k - 1);
      ToggleMembership(After(puzzle, clicks, k - 1).pressed, clicks[k - 1], s);
    }
  }

  // ---------- what the server holds ----------

  /** The last of the first `k` reports that the server does not reject as empty. */
  function Held(reports: seq<Report>, k: nat): seq<int>
    requires k <= |reports|
  {
    if k == 0 then []
    else if ValidSubmission(reports[k - 1].pressed) then reports[k - 1].pressed
    else Held(reports, k - 1)
  }

  lemma {:induction false} HeldIsReported(puzzle: Puzzle, reports: seq<Report>, k: nat)
    requires k <= |reports| && forall r :: r in reports ==> ReportOk(puzzle, r) && r.Progressed?
    requires !Solves(puzzle, [])
    ensures !Solves(puzzle, Held(reports, k))
  {
    if k > 0 {
      HeldIsReported(puzzle, reports, k - 1);
      assert reports[k - 1] in reports;
    }
  }

  lemma {:induction false} UnsolvedReportsProgress(puzzle: Puzzle, clicks: seq<nat>, k: nat)
    requires k <= |clicks| && forall j :: 0 <= j < |clicks| ==> clicks[j] < |puzzle.switches|
    requires !After(puzzle, clicks, k).isSolved
    ensures forall r :: r in After(puzzle, clicks, k).reports ==> r.Progressed?
  {
    if k > 0 {
      UnsolvedReportsProgress(puzzle, clicks, k - 1);
    }
  }

  /** Until the puzzle is solved, nothing the server holds solves it, though it may hold progress that the
      phone has taken back; the click that solves it submits a valid solution.  Clicks end there. */
  lemma ServerHoldsASolutionOnlyWhenSolved(puzzle: Puzzle, clicks: seq<nat>, k: nat)
    requires WellFormed(puzzle) && k <= |clicks| && forall j :: 0 <= j < |clicks| ==> clicks[j] < |puzzle.switches|
    requires !AllOn(States(puzzle.lights))
    requires k > 0 ==> !After(puzzle, clicks, k - 1).isSolved
    ensures var ph := After(puzzle, clicks, k);
            && (Solves(puzzle, Held(ph.reports, |ph.reports|)) <==> ph.isSolved)
            && (ph.isSolved ==> AllOn(States(ph.lights)) && ValidSubmission(ph.pressed)
                                && ph.reports[|ph.reports| - 1] == Submitted(ph.pressed))
  {
    var ph := After(puzzle, clicks, k);
    ClicksKeep(puzzle, clicks, k);
    assert Replay(puzzle.switches, States(puzzle.lights), []) == States(puzzle.lights);
    if ph.isSolved {
      assert ph.pressed != [];
    } else {
      UnsolvedReportsProgress(puzzle, clicks, k);
      HeldIsReported(puzzle, ph.reports, |ph.reports|);
    }
  }

  // ---------- the component ----------

  class Phone {
    const puzzle: Puzzle
    var pressedSwitches: seq<int>
    var lights: seq<Light>
    var isSolved: bool
    var reports: seq<Report>

    function Now(): PhoneState
      reads this
    {
      PhoneState(pressedSwitches, lights, isSolved, reports)
    }

    ghost predicate Valid()
      reads this
    {
      WellFormed(puzzle) && InStep(puzzle, Now())
    }

    constructor (puzzle: Puzzle)
      requires WellFormed(puzzle)
      ensures Valid() && this.puzzle == puzzle && Now() == Start(puzzle)
    {
      this.puzzle := puzzle;
      pressedSwitches, lights, isSolved, reports := [], puzzle.lights, false, [];
      new;
      ClicksKeep(puzzle, [], 0);
    }

    /** A click on switch `s`. */
    method HandleSwitchClick(s: nat)
      requires Valid() && s < |puzzle.switches|
      modifies this
      ensures Valid() && Now() == Click(old(Now()), puzzle.switches[s])
      ensures isSolved ==> old(isSolved) || Solves(puzzle, pressedSwitches)
    {
      ClickKeeps(puzzle, Now(), s);
      var sw := puzzle.switches[s];
      var nextPressed := if sw.id in pressedSwitches
                         then Without(pressedSwitches, sw.id, |pressedSwitches|)
                         else pressedSwitches + [sw.id];
      var nextLights := ToggleLights(lights, sw);
      var solvedStatus := AllOn(States(nextLights));
      pressedSwitches := nextPressed;
      lights := nextLights;
      if solvedStatus {
        isSolved := true;
        reports := reports + [Submitted(nextPressed)];
      } else {
        reports := reports + [Progressed(nextPressed)];
      }
    }
  }
}
