/** Where the answer service is less than its comments say: a late finalization deletes the window of
    the next round, a submission that fails late takes the client's progress with it, and the signal that
    everybody answered goes by counts. */
module AnswerFindings {
  import opened Common
  import opened AnswerWindow
  import opened AnswerRuns

  // ---------- a late finalization ----------

  predicate Forgotten(open: map<Room, Round>, r: Round) {
    forall room :: room in open ==> open[room] != r
  }

  /** The client has no row and no save in the round, whose window the room has forgotten and which no
      finalization is working on. */
  ghost predicate Orphan(st: State, r: Round, c: Client) {
    && r in st.windows && Forgotten(st.open, r)
    && (forall id :: id in st.windows[r].saves ==> st.windows[r].saves[id].pos.None?)
    && c !in st.windows[r].submitted && c !in st.windows[r].rows
  }

  /** The window of round `r` is forgotten and as it was. */
  predicate Untouched(st: State, next: State, r: Round)
    requires r in st.windows
  {
    Forgotten(next.open, r) && r in next.windows && next.windows[r] == st.windows[r]
  }

  lemma SaveLeavesForgotten(st: State, q: Round, id: nat, ok: bool, r: Round)
    requires r in st.windows && Forgotten(st.open, r) && q != r
    ensures Untouched(st, SaveStep(st, q, id, ok), r)
  {
  }

  lemma FinalizeLeavesForgotten(st: State, room: Room, q: Round, r: Round)
    requires r in st.windows && Forgotten(st.open, r)
    ensures Untouched(st, FinalizeStep(st, room, q), r)
  {
  }

  /** Only the answers to its own saves touch a window its room has forgotten. */
  lemma ForgottenIsUntouched(st: State, e: Event, r: Round)
    requires Possible(st, e) && r in st.windows && Forgotten(st.open, r)
    requires e.SaveAnswered? ==> e.round != r
    ensures Untouched(st, Apply(st, e), r)
  {
    match e {
      case SaveAnswered(q, id, ok) => SaveLeavesForgotten(st, q, id, ok, r);
      case FinalizeRequested(room, q) => FinalizeLeavesForgotten(st, room, q, r);
      case _ =>
    }
  }

  lemma OrphanStays(st: State, e: Event, r: Round, c: Client)
    requires Inv(st) && Possible(st, e) && Orphan(st, r, c)
    ensures Orphan(Apply(st, e), r, c)
  {
    if e.SaveAnswered? && e.round == r {
      var w := st.windows[r];
      if e.id in w.saves {
        assert Good(w) && SaveOk(w, e.id);
        var s := w.saves[e.id];
        TellingChangesNoWindow(With(st, r, Settle(w, e.id, e.ok)), r, s, e.ok, s.client in w.rows);
      }
    } else {
      ForgottenIsUntouched(st, e, r);
    }
  }

  /** Whatever happens later, such a client never gets a row, whatever progress the window had accepted. */
  lemma {:induction false} OrphansGetNoRow(es: seq<Event>, states: seq<State>, i: nat, j: nat, r: Round, c: Client)
    requires IsRun(es, states) && i <= j < |states| && Orphan(states[i], r, c)
    ensures Orphan(states[j], r, c)
    decreases j
  {
    if i < j {
      OrphansGetNoRow(es, states, i, j - 1, r, c);
      RunKeeps(es, states, j - 1);
      assert StepAt(es, states, j - 1);
      OrphanStays(states[j - 1], es[j - 1], r, c);
    }
  }

  /** A finalization of round `r` waits for a save while its room already has another round's window. */
  predicate Late(st: State, room: Room, r: Round, id: nat) {
    && r in st.windows && st.windows[r].room == room
    && id in st.windows[r].saves && st.windows[r].saves[id].pos.Some?
    && room in st.open && st.open[room] != r
  }

  /** An event meant for this room's open window, of round `q`. */
  predicate IsFor(e: Event, room: Room, q: Round) {
    match e
    case Open(x, _, _, _, _) => x == room
    case Close(x) => x == room
    case FinalizeRequested(x, r) => x == room && r == q
    case SaveAnswered(r, _, _) => r == q
    case _ => false
  }

  /** Without a late finalization, the answer to another round's save leaves the room its window. */
  lemma SaveLeavesWindow(st: State, e: Event, room: Room)
    requires e.SaveAnswered? && room in st.open && st.open[room] != e.round && !Late(st, room, e.round, e.id)
    ensures room in Apply(st, e).open && Apply(st, e).open[room] == st.open[room]
  {
  }

  lemma ResumeTakesItsRoom(st: State, r: Round, k: nat)
    requires r in st.windows
    ensures forall room :: room in st.open && room != st.windows[r].room ==>
              room in ResumeStep(st, r, k).open && ResumeStep(st, r, k).open[room] == st.open[room]
  {
  }

  lemma FinalizeLeavesWindow(st: State, e: Event, room: Room)
    requires e.FinalizeRequested? && Inv(st) && room in st.open && (e.room != room || e.round != st.open[room])
    ensures room in Apply(st, e).open && Apply(st, e).open[room] == st.open[room]
  {
    if e.room in st.open && st.open[e.room] == e.round {
      assert OpenOk(st.windows, e.room, st.open[e.room]);
      ResumeTakesItsRoom(st, e.round, 0);
    }
  }

  lemma OthersLeaveWindow(st: State, e: Event, room: Room)
    requires room in st.open && !IsFor(e, room, st.open[room]) && !e.SaveAnswered? && !e.FinalizeRequested?
    ensures room in Apply(st, e).open && Apply(st, e).open[room] == st.open[room]
  {
  }

  /** Without a late finalization, only events meant for a room's window take it away. */
  lemma WindowStaysWithoutLate(st: State, e: Event, room: Room)
    requires Inv(st) && Possible(st, e) && room in st.open && !IsFor(e, room, st.open[room])
    requires forall r, id :: !Late(st, room, r, id)
    ensures room in Apply(st, e).open && Apply(st, e).open[room] == st.open[room]
  {
    if e.SaveAnswered? {
      assert !Late(st, room, e.round, e.id);
      SaveLeavesWindow(st, e, room);
    } else if e.FinalizeRequested? {
      FinalizeLeavesWindow(st, e, room);
    } else {
      OthersLeaveWindow(st, e, room);
    }
  }

  function ApplyAll(st: State, es: seq<Event>): State
    decreases |es|
  {
    if es == [] then st else ApplyAll(Apply(st, es[0]), es[1..])
  }

  predicate AllPossible(st: State, es: seq<Event>)
    decreases |es|
  {
    es == [] || (Possible(st, es[0]) && AllPossible(Apply(st, es[0]), es[1..]))
  }

  /** These events can come in `st` and lead to `next`. */
  predicate Leads(st: State, es: seq<Event>, next: State) {
    AllPossible(st, es) && ApplyAll(st, es) == next
  }

  lemma {:induction false} LeadsOn(st: State, a: seq<Event>, mid: State, b: seq<Event>, next: State)
    requires Leads(st, a, mid) && Leads(mid, b, next)
    ensures Leads(st, a + b, next)
    decreases |a|
  {
    if a == [] {
      assert a + b == b;
    } else {
      LeadsOn(Apply(st, a[0]), a[1..], mid, b, next);
      assert (a + b)[1..] == a[1..] + b;
    }
  }

  /** What events lead to from the start, a run goes through. */
  lemma {:induction false} LeadsInARun(es: seq<Event>, next: State) returns (states: seq<State>)
    requires Leads(EMPTY, es, next)
    ensures IsRun(es, states) && states[|es|] == next
    decreases |es|
  {
    states := [EMPTY];
    var k := 0;
    while k < |es|
      invariant 0 <= k <= |es| && |states| == k + 1 && states[0] == EMPTY
      invariant Leads(states[k], es[k..], next)
      invariant forall i: nat :: i < k ==> Possible(states[i], es[i]) && states[i + 1] == Apply(states[i], es[i])
    {
      assert es[k..][1..] == es[k + 1..];
      states := states + [Apply(states[k], es[k])];
      k := k + 1;
    }
    forall i: nat | i < |es| ensures StepAt(es, states, i) {
    }
  }

  /** The save's place is one of the progress map, and new saves get new numbers. */
  predicate Placed(w: Window, id: nat) {
    && id in w.saves && w.saves[id].pos.Some? && w.saves[id].pos.value < |w.order|
    && forall i :: i in w.saves ==> i < w.next
  }

  lemma SavesArePlaced(w: Window, id: nat)
    requires Good(w) && id in w.saves && w.saves[id].pos.Some?
    ensures Placed(w, id)
  {
    assert SaveOk(w, id);
    forall i | i in w.saves ensures i < w.next {
      assert SaveOk(w, i);
    }
  }

  /** Answering the late finalization's save either takes the window or leaves it late at a later place. */
  lemma LateGoesOn(st: State, room: Room, r: Round, id: nat)
    requires Late(st, room, r, id) && Placed(st.windows[r], id)
    ensures var next := SaveStep(st, r, id, true);
            var w := st.windows[r];
            room !in next.open
            || (&& next.open == st.open && Late(next, room, r, w.next)
                && Placed(next.windows[r], w.next) && next.windows[r].order == w.order
                && w.saves[id].pos.value < next.windows[r].saves[w.next].pos.value)
  {
    var w := st.windows[r];
    var v := Settle(w, id, true);
    var k := w.saves[id].pos.value + 1;
    NextUnsubmittedExact(v.order, v.submitted, k);
    assert SaveStep(st, r, id, true) == ResumeStep(With(st, r, v), r, k);
  }

  lemma ApplyFirst(st: State, e: Event, rest: seq<Event>)
    ensures ApplyAll(st, [e] + rest) == ApplyAll(Apply(st, e), rest)
  {
    assert ([e] + rest)[1..] == rest;
  }

  lemma {:induction false} AnswersTakeTheWindow(st: State, room: Room, r: Round, id: nat) returns (es: seq<Event>)
    requires Late(st, room, r, id) && Placed(st.windows[r], id)
    ensures forall e :: e in es ==> e.SaveAnswered? && e.round == r
    ensures room !in ApplyAll(st, es).open
    decreases |st.windows[r].order| - st.windows[r].saves[id].pos.value
  {
    var e := SaveAnswered(r, id, true);
    var next := SaveStep(st, r, id, true);
    LateGoesOn(st, room, r, id);
    var rest := [];
    if room in next.open {
      rest := AnswersTakeTheWindow(next, room, r, st.windows[r].next);
    }
    es := [e] + rest;
    ApplyFirst(st, e, rest);
  }

  /** With one, the window is lost as soon as that finalization's saves are answered, though none of
      the events concerns it. */
  lemma LateTakesTheWindow(st: State, room: Room, r: Round, id: nat) returns (es: seq<Event>)
    requires Inv(st) && Late(st, room, r, id)
    ensures forall e :: e in es ==> !IsFor(e, room, st.open[room])
    ensures room !in ApplyAll(st, es).open
  {
    SavesArePlaced(st.windows[r], id);
    es := AnswersTakeTheWindow(st, room, r, id);
  }

  const STAY := Answer("a", 0)

  /** Client 7 of round 1 has progress, the finalization of which is being saved. */
  function FirstRoundFinalizing(): Window {
    NewWindow(1, Minigame, "g", {}).(submitted := map[7 := "a"], progress := map[7 := STAY], order := [7],
                                     saves := map[0 := Save(7, STAY, Some(0))], next := 1)
  }

  /** Client 8 of round 2 has progress. */
  function SecondRoundPlaying(): Window {
    NewWindow(1, Minigame, "g", {}).(progress := map[8 := STAY], order := [8])
  }

  function Finalizing(): State {
    State(map[1 := 1], map[1 := FirstRoundFinalizing()], map[], [])
  }

  function NextRound(): State {
    State(map[1 := 2], map[1 := FirstRoundFinalizing(), 2 := SecondRoundPlaying()], map[], [])
  }

  lemma OneMore(st: State, es: seq<Event>, mid: State, e: Event)
    requires Leads(st, es, mid) && Possible(mid, e)
    ensures Leads(st, es + [e], Apply(mid, e))
  {
    assert [e][1..] == [];
    LeadsOn(st, es, mid, [e], Apply(mid, e));
  }

  lemma ThreeEvents(st: State, a: Event, s1: State, b: Event, s2: State, c: Event, s3: State)
    requires Possible(st, a) && Apply(st, a) == s1
    requires Possible(s1, b) && Apply(s1, b) == s2
    requires Possible(s2, c) && Apply(s2, c) == s3
    ensures Leads(st, [a, b, c], s3)
  {
    OneMore(st, [], st, a);
    OneMore(st, [a], s1, b);
    assert [a] + [b] == [a, b] && [a, b] + [c] == [a, b, c];
    OneMore(st, [a, b], s2, c);
  }

  lemma FinalizingExample()
    ensures Leads(EMPTY, [Open(1, 1, Minigame, "g", {}), Progress(7, 1, 1, "g", true, STAY), FinalizeRequested(1, 1)],
                  Finalizing())
  {
    var s1 := OpenStep(EMPTY, 1, 1, Minigame, "g", {});
    var s2 := ProgressStep(s1, 7, 1, 1, "g", true, STAY);
    var w := NewWindow(1, Minigame, "g", {}).(progress := map[7 := STAY], order := [7]);
    assert s2.windows[1] == w;
    assert !LoopDone(w, 0);
    assert Resume(w, 0) == FirstRoundFinalizing();
    assert FinalizeStep(s2, 1, 1).windows == map[1 := FirstRoundFinalizing()];
    ThreeEvents(EMPTY, Open(1, 1, Minigame, "g", {}), s1, Progress(7, 1, 1, "g", true, STAY), s2,
                FinalizeRequested(1, 1), Finalizing());
  }

  lemma NextRoundExample()
    ensures Leads(Finalizing(), [Close(1), Open(1, 2, Minigame, "g", {}), Progress(8, 1, 2, "g", true, STAY)],
                  NextRound())
  {
    var s4 := CloseStep(Finalizing(), 1);
    var s5 := OpenStep(s4, 1, 2, Minigame, "g", {});
    var s6 := ProgressStep(s5, 8, 1, 2, "g", true, STAY);
    assert s5.open == map[1 := 2];
    assert s6.windows[2] == SecondRoundPlaying();
    assert s6.windows == map[1 := FirstRoundFinalizing(), 2 := SecondRoundPlaying()];
    ThreeEvents(Finalizing(), Close(1), s4, Open(1, 2, Minigame, "g", {}), s5,
                Progress(8, 1, 2, "g", true, STAY), NextRound());
  }

  lemma LateSaveExample()
    ensures var last := SaveStep(NextRound(), 1, 0, true);
            && Leads(NextRound(), [SaveAnswered(1, 0, true)], last)
            && last.open == map[] && 2 in last.windows && last.windows[2] == SecondRoundPlaying()
  {
    var v := Settle(FirstRoundFinalizing(), 0, true);
    assert LoopDone(v, 1);
    assert SaveStep(NextRound(), 1, 0, true) == ResumeStep(With(NextRound(), 1, v), 1, 1);
    OneMore(NextRound(), [], NextRound(), SaveAnswered(1, 0, true));
  }

  /** The finalization of round 1 waits for the row of client 7 until the engine gives up, closes the
      window and opens that of round 2; then the row is stored. */
  function LateEvents(): seq<Event> {
    [Open(1, 1, Minigame, "g", {}), Progress(7, 1, 1, "g", true, STAY), FinalizeRequested(1, 1)]
    + [Close(1), Open(1, 2, Minigame, "g", {}), Progress(8, 1, 2, "g", true, STAY)]
    + [SaveAnswered(1, 0, true)]
  }

  /** The window of round 2 is gone though nothing closed it, and the progress it accepted of client 8
      will never be stored. */
  lemma LateFinalizationExample() returns (last: State)
    ensures Leads(EMPTY, LateEvents(), last)
    ensures 1 !in last.open && Orphan(last, 2, 8) && 8 in last.windows[2].progress
  {
    last := SaveStep(NextRound(), 1, 0, true);
    FinalizingExample();
    NextRoundExample();
    LateSaveExample();
    var first := [Open(1, 1, Minigame, "g", {}), Progress(7, 1, 1, "g", true, STAY), FinalizeRequested(1, 1)];
    var second := [Close(1), Open(1, 2, Minigame, "g", {}), Progress(8, 1, 2, "g", true, STAY)];
    LeadsOn(EMPTY, first, Finalizing(), second, NextRound());
    LeadsOn(EMPTY, first + second, NextRound(), [SaveAnswered(1, 0, true)], last);
  }

  // ---------- a submission that fails after the finalization passed it ----------

  const TRY := Answer("b", 0)

  /** Client 7 has sent progress, and then a submission that is being saved. */
  function Submitting(): State {
    State(map[1 := 1],
          map[1 := NewWindow(1, Minigame, "g", {}).(submitted := map[7 := "b"], manual := map[7 := TRY],
                                                    progress := map[7 := STAY], order := [7],
                                                    saves := map[0 := Save(7, TRY, None)], next := 1)],
          map[], [])
  }

  lemma SubmittingExample()
    ensures Leads(EMPTY, [Open(1, 1, Minigame, "g", {}), Progress(7, 1, 1, "g", true, STAY),
                          SubmitRound(7, 1, 1, "g", true, TRY)], Submitting())
  {
    var s1 := OpenStep(EMPTY, 1, 1, Minigame, "g", {});
    var s2 := ProgressStep(s1, 7, 1, 1, "g", true, STAY);
    assert s2.windows[1] == NewWindow(1, Minigame, "g", {}).(progress := map[7 := STAY], order := [7]);
    assert SubmitRoundStep(s2, 7, 1, 1, "g", true, TRY).windows == Submitting().windows;
    ThreeEvents(EMPTY, Open(1, 1, Minigame, "g", {}), s1, Progress(7, 1, 1, "g", true, STAY), s2,
                SubmitRound(7, 1, 1, "g", true, TRY), Submitting());
  }

  /** The finalization passes over client 7, who counts as having submitted. */
  function PassedOver(): State {
    Submitting().(open := map[], windows := map[1 := Submitting().windows[1].(ended := true)],
                  out := [WindowFinalized(1, 1)])
  }

  lemma PassedOverExample()
    ensures FinalizeStep(Submitting(), 1, 1) == PassedOver()
  {
    var w := Submitting().windows[1];
    assert NextUnsubmitted(w.order, w.submitted, 0) == NextUnsubmitted(w.order, w.submitted, 1) == 1;
    assert LoopDone(w, 0);
    assert FinalizeStep(Submitting(), 1, 1).windows == PassedOver().windows;
  }

  /** When the submission then cannot be saved, the client is left with nothing, though the window had
      accepted its progress. */
  lemma PassedOverProgressIsLost() returns (es: seq<Event>, last: State)
    ensures Leads(EMPTY, es, last)
    ensures 1 in last.windows && last.windows[1].ended && 7 in last.windows[1].progress && Orphan(last, 1, 7)
  {
    SubmittingExample();
    PassedOverExample();
    es := [Open(1, 1, Minigame, "g", {}), Progress(7, 1, 1, "g", true, STAY), SubmitRound(7, 1, 1, "g", true, TRY)];
    OneMore(EMPTY, es, Submitting(), FinalizeRequested(1, 1));
    es := es + [FinalizeRequested(1, 1)];
    last := SaveStep(PassedOver(), 1, 0, false);
    OneMore(EMPTY, es, PassedOver(), SaveAnswered(1, 0, false));
    es := es + [SaveAnswered(1, 0, false)];
  }

  // ---------- the signal that everybody answered ----------

  /** The signal goes out after a stored submission exactly when the counts say so. */
  predicate Signals(st: State, r: Round, c: Client)
    requires r in st.windows
  {
    var out := TellStored(st, r, c).out;
    out[|out| - 1].AllPlayersAnswered?
  }

  lemma SubsetOfSameSize<T>(a: set<T>, b: set<T>)
    requires a <= b && |b| <= |a|
    ensures a == b
  {
    assert b == a + (b - a);
    assert |b| == |a| + |b - a|;
  }

  /** While everybody who submitted is still connected, the signal means just what it says. */
  lemma SignalIsExactWhileSubmittersStay(st: State, r: Round, c: Client)
    requires r in st.windows
    requires st.windows[r].submitted.Keys <= ConnectedIn(st, st.windows[r].room)
    ensures Signals(st, r, c)
       <==> var people := ConnectedIn(st, st.windows[r].room);
            people != {} && forall p :: p in people ==> p in st.windows[r].submitted
  {
    var people := ConnectedIn(st, st.windows[r].room);
    var submitters := st.windows[r].submitted.Keys;
    assert |submitters| == |st.windows[r].submitted|;
    if Signals(st, r, c) {
      SubsetOfSameSize(submitters, people);
    } else if forall p :: p in people ==> p in submitters {
      assert people == submitters;
    }
  }

  /** In general it is premature exactly when somebody connected has not submitted, but at least as many
      who did have left. */
  lemma SignalIsPrematureIff(st: State, r: Round, c: Client)
    requires r in st.windows
    ensures var people := ConnectedIn(st, st.windows[r].room);
            var submitters := st.windows[r].submitted.Keys;
            Signals(st, r, c) && !(people <= submitters) <==> 0 < |people - submitters| <= |submitters - people|
  {
    var people := ConnectedIn(st, st.windows[r].room);
    var submitters := st.windows[r].submitted.Keys;
    assert |submitters| == |st.windows[r].submitted|;
    assert people == people * submitters + (people - submitters);
    assert |people| == |people * submitters| + |people - submitters|;
    assert submitters == people * submitters + (submitters - people);
    assert |submitters| == |people * submitters| + |submitters - people|;
    assert people <= submitters <==> people - submitters == {};
  }

  /** Client 6 of two has an answer on its way to the database. */
  function Answering(): State {
    State(map[1 := 1],
          map[1 := NewWindow(1, Quiz, "q", {"x"}).(submitted := map[6 := "x"], next := 1,
                                                   saves := map[0 := Save(6, Answer("x", 0), None)],
                                                   manual := map[6 := Answer("x", 0)])],
          map[1 := {5, 6}], [])
  }

  lemma AnsweringExample()
    ensures Leads(EMPTY, [Open(1, 1, Quiz, "q", {"x"}), Connect(1, {5, 6}), Submit(6, 1, "x", 0)], Answering())
  {
    var s1 := OpenStep(EMPTY, 1, 1, Quiz, "q", {"x"});
    var s2 := Apply(s1, Connect(1, {5, 6}));
    assert SubmitStep(s2, 6, 1, "x", 0).windows == Answering().windows;
    ThreeEvents(EMPTY, Open(1, 1, Quiz, "q", {"x"}), s1, Connect(1, {5, 6}), s2, Submit(6, 1, "x", 0), Answering());
  }

  lemma StoredAfterLeaving(left: State)
    requires left == Answering().(connected := map[1 := {5}])
    ensures var last := SaveStep(left, 1, 0, true);
            && AllPlayersAnswered(1, 1) in last.out
            && ConnectedIn(last, 1) == {5} && 1 in last.windows && last.windows[1].submitted == map[6 := "x"]
  {
    assert SaveStep(left, 1, 0, true).out[2] == AllPlayersAnswered(1, 1);
  }

  /** Client 6 leaves before its answer is stored, and stands for client 5, who is still thinking. */
  lemma PrematureSignalExample() returns (es: seq<Event>, last: State)
    ensures Leads(EMPTY, es, last)
    ensures AllPlayersAnswered(1, 1) in last.out
    ensures 5 in ConnectedIn(last, 1) && 1 in last.windows && 5 !in last.windows[1].submitted
  {
    AnsweringExample();
    var first := [Open(1, 1, Quiz, "q", {"x"}), Connect(1, {5, 6}), Submit(6, 1, "x", 0)];
    var left := Answering().(connected := map[1 := {5}]);
    assert Apply(Answering(), Connect(1, {5})) == left;
    OneMore(EMPTY, first, Answering(), Connect(1, {5}));
    OneMore(EMPTY, first + [Connect(1, {5})], left, SaveAnswered(1, 0, true));
    StoredAfterLeaving(left);
    es, last := first + [Connect(1, {5})] + [SaveAnswered(1, 0, true)], SaveStep(left, 1, 0, true);
  }
}
