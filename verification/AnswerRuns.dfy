/** The answer service over all rooms: every interleaving of its handlers is a run of the steps below. */
module AnswerRuns {
  import opened Common
  import opened AnswerWindow

  datatype Reason = WindowClosed | InvalidAnswer | AlreadyAnswered | ServerError

  datatype Output =
    | Accepted(client: Client)
    | Rejected(client: Client, reason: Reason)
    | AnswerCount(room: Room, answered: nat, total: nat)
    | AllPlayersAnswered(room: Room, round: Round)
    | WindowFinalized(room: Room, round: Round)

  /** `open` maps rooms to their open windows; `windows` holds every window there has been, because a
      save in flight keeps its own alive. */
  datatype State = State(
    open: map<Room, Round>,
    windows: map<Round, Window>,
    connected: map<Room, set<Client>>,
    out: seq<Output>)

  // ---------- the steps ----------

  function Emit(st: State, o: Output): State {
    st.(out := st.out + [o])
  }

  function With(st: State, r: Round, w: Window): State {
    st.(windows := st.windows[r := w])
  }

  function OpenStep(st: State, room: Room, r: Round, mode: Mode, kind: string, options: set<string>): State {
    With(st, r, NewWindow(room, mode, kind, options)).(open := st.open[room := r])
  }

  /** A quiz answer, after the checks in their order. */
  function SubmitStep(st: State, c: Client, room: Room, option: string, timeMs: int): State {
    if room !in st.open || st.open[room] !in st.windows then Emit(st, Rejected(c, WindowClosed))
    else
      var r := st.open[room];
      var w := st.windows[r];
      if w.mode != Quiz || option !in w.options then Emit(st, Rejected(c, InvalidAnswer))
      else if c in w.submitted then Emit(st, Rejected(c, AlreadyAnswered))
      else With(st, r, StartSave(w, Save(c, Answer(option, timeMs), None)))
  }

  /** A minigame submission; `valid` is the verdict of the minigame's adapter. */
  function SubmitRoundStep(st: State, c: Client, room: Room, r: Round, kind: string, valid: bool, a: Answer): State {
    if room !in st.open || st.open[room] !in st.windows then Emit(st, Rejected(c, WindowClosed))
    else
      var w := st.windows[st.open[room]];
      if w.mode != Minigame || r != st.open[room] || kind != w.kind || !valid then Emit(st, Rejected(c, InvalidAnswer))
      else if c in w.submitted then Emit(st, Rejected(c, AlreadyAnswered))
      else With(st, r, StartSave(w, Save(c, a, None)))
  }

  /** The window accepts progress of this client. */
  predicate AcceptsProgress(st: State, c: Client, room: Room, r: Round, kind: string) {
    && room in st.open && st.open[room] == r && r in st.windows
    && st.windows[r].mode == Minigame && st.windows[r].kind == kind
    && c !in st.windows[r].submitted
  }

  function ProgressStep(st: State, c: Client, room: Room, r: Round, kind: string, valid: bool, a: Answer): State {
    if AcceptsProgress(st, c, room, r, kind) && valid then With(st, r, SetProgress(st.windows[r], c, a)) else st
  }

  /** The loop of a finalization from place `k`; when it ends, the room's window is deleted, whichever
      window that is by now. */
  function ResumeStep(st: State, r: Round, k: nat): State
    requires r in st.windows
  {
    var w := st.windows[r];
    var next := With(st, r, Resume(w, k));
    if LoopDone(w, k) then Emit(next.(open := st.open - {w.room}), WindowFinalized(w.room, r)) else next
  }

  function FinalizeStep(st: State, room: Room, r: Round): State {
    if room in st.open && st.open[room] == r && r in st.windows then ResumeStep(st, r, 0)
    else Emit(st, WindowFinalized(room, r))
  }

  function ConnectedIn(st: State, room: Room): set<Client> {
    if room in st.connected then st.connected[room] else {}
  }

  /** The signal to the engine that everybody answered is decided by the counts. */
  predicate CountsSayAll(connected: set<Client>, submitted: map<Client, string>) {
    |connected| > 0 && |submitted| >= |connected|
  }

  /** A submission that was stored is acknowledged and counted. */
  function TellStored(st: State, r: Round, c: Client): State
    requires r in st.windows
  {
    var w := st.windows[r];
    var people := ConnectedIn(st, w.room);
    var told := Emit(Emit(st, Accepted(c)), AnswerCount(w.room, |w.submitted|, |people|));
    if CountsSayAll(people, w.submitted) then Emit(told, AllPlayersAnswered(w.room, r)) else told
  }

  /** How the handler that waited for a save goes on: a finalization with its loop, a submission by
      telling its client; `taken` says that the unique index refused the row. */
  function GoOn(st: State, r: Round, s: Save, ok: bool, taken: bool): State
    requires r in st.windows
  {
    match s.pos
    case Some(k) => ResumeStep(st, r, k + 1)
    case None =>
      if !ok then Emit(st, Rejected(s.client, ServerError))
      else if taken then Emit(st, Rejected(s.client, AlreadyAnswered))
      else TellStored(st, r, s.client)
  }

  /** The database answers save `id` of round `r`. */
  function SaveStep(st: State, r: Round, id: nat, ok: bool): State {
    if r !in st.windows || id !in st.windows[r].saves then st
    else
      var w := st.windows[r];
      GoOn(With(st, r, Settle(w, id, ok)), r, w.saves[id], ok, w.saves[id].client in w.rows)
  }

  /** Closing and aborting both forget the room's window. */
  function CloseStep(st: State, room: Room): State {
    st.(open := st.open - {room})
  }

  datatype Event =
    | Open(room: Room, round: Round, mode: Mode, kind: string, options: set<string>)
    | Submit(client: Client, room: Room, option: string, timeMs: int)
    | SubmitRound(client: Client, room: Room, round: Round, kind: string, valid: bool, answer: Answer)
    | Progress(client: Client, room: Room, round: Round, kind: string, valid: bool, answer: Answer)
    | SaveAnswered(round: Round, id: nat, ok: bool)
    | FinalizeRequested(room: Room, round: Round)
    | Close(room: Room)
    | Connect(room: Room, clients: set<Client>)

  function Apply(st: State, e: Event): State {
    match e
    case Open(room, r, mode, kind, options) => OpenStep(st, room, r, mode, kind, options)
    case Submit(c, room, option, timeMs) => SubmitStep(st, c, room, option, timeMs)
    case SubmitRound(c, room, r, kind, valid, a) => SubmitRoundStep(st, c, room, r, kind, valid, a)
    case Progress(c, room, r, kind, valid, a) => ProgressStep(st, c, room, r, kind, valid, a)
    case SaveAnswered(r, id, ok) => SaveStep(st, r, id, ok)
    case FinalizeRequested(room, r) => FinalizeStep(st, room, r)
    case Close(room) => CloseStep(st, room)
    case Connect(room, clients) => st.(connected := st.connected[room := clients])
  }

  const EMPTY := State(map[], map[], map[], [])

  // ---------- the invariant ----------

  /** A room's open window is one of that room that no finalization has ended. */
  predicate OpenOk(windows: map<Round, Window>, room: Room, r: Round) {
    r in windows && windows[r].room == room && !windows[r].ended
  }

  ghost predicate AllOk(open: map<Room, Round>, windows: map<Round, Window>) {
    && (forall r :: r in windows ==> Good(windows[r]))
    && (forall room :: room in open ==> OpenOk(windows, room, open[room]))
  }

  ghost predicate Inv(st: State) {
    AllOk(st.open, st.windows)
  }

  /** Replacing one window by a good one of the same room keeps the invariant; the room may forget its
      window too, and must when the new one has just ended. */
  lemma ReplaceKeeps(open: map<Room, Round>, windows: map<Round, Window>, r: Round, v: Window, next: map<Room, Round>)
    requires AllOk(open, windows) && r in windows && Good(v) && v.room == windows[r].room
    requires forall room :: room in next ==> room in open && next[room] == open[room]
    requires v.ended ==> windows[r].ended || v.room !in next
    ensures AllOk(next, windows[r := v])
  {
    forall room | room in next ensures OpenOk(windows[r := v], room, next[room]) {
      assert OpenOk(windows, room, open[room]);
    }
  }

  lemma CloseKeeps(st: State, room: Room)
    requires Inv(st)
    ensures Inv(CloseStep(st, room))
  {
    var next := st.open - {room};
    forall x | x in next ensures OpenOk(st.windows, x, next[x]) {
      assert OpenOk(st.windows, x, st.open[x]);
    }
  }

  lemma OpenKeeps(st: State, room: Room, r: Round, mode: Mode, kind: string, options: set<string>)
    requires Inv(st) && r !in st.windows
    ensures Inv(OpenStep(st, room, r, mode, kind, options))
  {
    var next := OpenStep(st, room, r, mode, kind, options);
    NewWindowGood(room, mode, kind, options);
    forall x | x in next.open ensures OpenOk(next.windows, x, next.open[x]) {
      assert x in st.open ==> OpenOk(st.windows, x, st.open[x]);
    }
  }

  lemma ResumeStepKeeps(st: State, r: Round, k: nat)
    requires Inv(st) && r in st.windows && Covered(st.windows[r], k)
    ensures Inv(ResumeStep(st, r, k))
  {
    var w := st.windows[r];
    ResumeKeeps(w, k);
    ReplaceKeeps(st.open, st.windows, r, Resume(w, k), ResumeStep(st, r, k).open);
  }

  lemma SettleStepKeeps(st: State, r: Round, id: nat, ok: bool)
    requires Inv(st) && r in st.windows && id in st.windows[r].saves
    ensures var w := st.windows[r];
            var v := Settle(w, id, ok);
            Inv(With(st, r, v)) && (w.saves[id].pos.Some? ==> Covered(v, w.saves[id].pos.value + 1))
  {
    var w := st.windows[r];
    SettleKeeps(w, id, ok);
    if w.saves[id].pos.Some? { SettleCovers(w, id, ok); }
    ReplaceKeeps(st.open, st.windows, r, Settle(w, id, ok), st.open);
  }

  /** A submission's handler only tells clients and the engine once its save is answered. */
  lemma TellingChangesNoWindow(st: State, r: Round, s: Save, ok: bool, taken: bool)
    requires r in st.windows && s.pos.None?
    ensures GoOn(st, r, s, ok, taken).open == st.open && GoOn(st, r, s, ok, taken).windows == st.windows
    ensures Inv(GoOn(st, r, s, ok, taken)) <==> Inv(st)
  {
  }

  /** That of a finalization goes on with its loop. */
  lemma FinalizerGoesOn(st: State, r: Round, s: Save, ok: bool, taken: bool, k: nat)
    requires r in st.windows && s.pos == Some(k)
    ensures GoOn(st, r, s, ok, taken) == ResumeStep(st, r, k + 1)
  {
  }

  lemma SaveKeeps(st: State, r: Round, id: nat, ok: bool)
    requires Inv(st)
    ensures Inv(SaveStep(st, r, id, ok))
  {
    if r in st.windows && id in st.windows[r].saves {
      var w := st.windows[r];
      var next := With(st, r, Settle(w, id, ok));
      SettleStepKeeps(st, r, id, ok);
      if w.saves[id].pos.Some? {
        var k := w.saves[id].pos.value;
        FinalizerGoesOn(next, r, w.saves[id], ok, w.saves[id].client in w.rows, k);
        ResumeStepKeeps(next, r, k + 1);
      } else {
        TellingChangesNoWindow(next, r, w.saves[id], ok, w.saves[id].client in w.rows);
      }
    }
  }

  /** A handler that starts a save from the open window of its room keeps the invariant. */
  lemma SubmitKeeps(st: State, room: Room, s: Save)
    requires Inv(st) && room in st.open && s.pos.None?
    requires st.open[room] in st.windows && s.client !in st.windows[st.open[room]].submitted
    ensures Inv(With(st, st.open[room], StartSave(st.windows[st.open[room]], s)))
  {
    var r := st.open[room];
    StartKeeps(st.windows[r], s);
    ReplaceKeeps(st.open, st.windows, r, StartSave(st.windows[r], s), st.open);
  }

  lemma SubmitStepKeeps(st: State, c: Client, room: Room, option: string, timeMs: int)
    requires Inv(st)
    ensures Inv(SubmitStep(st, c, room, option, timeMs))
  {
    if room in st.open && st.open[room] in st.windows && c !in st.windows[st.open[room]].submitted {
      SubmitKeeps(st, room, Save(c, Answer(option, timeMs), None));
    }
  }

  lemma SubmitRoundStepKeeps(st: State, c: Client, room: Room, r: Round, kind: string, valid: bool, a: Answer)
    requires Inv(st)
    ensures Inv(SubmitRoundStep(st, c, room, r, kind, valid, a))
  {
    if room in st.open && st.open[room] in st.windows && c !in st.windows[st.open[room]].submitted {
      SubmitKeeps(st, room, Save(c, a, None));
    }
  }

  lemma FinalizeStepKeeps(st: State, room: Room, r: Round)
    requires Inv(st)
    ensures Inv(FinalizeStep(st, room, r))
  {
    if room in st.open && st.open[room] == r && r in st.windows {
      ResumeStepKeeps(st, r, 0);
    }
  }

  lemma ProgressStepKeeps(st: State, c: Client, room: Room, r: Round, kind: string, valid: bool, a: Answer)
    requires Inv(st)
    ensures Inv(ProgressStep(st, c, room, r, kind, valid, a))
  {
    if AcceptsProgress(st, c, room, r, kind) && valid {
      var v := SetProgress(st.windows[r], c, a);
      assert OpenOk(st.windows, room, r);
      ProgressKeeps(st.windows[r], c, a);
      ReplaceKeeps(st.open, st.windows, r, v, st.open);
    }
  }

  /** Rounds are opened once; anything else may happen at any time. */
  predicate Possible(st: State, e: Event) {
    e.Open? ==> e.round !in st.windows
  }

  /** Every handler step keeps the invariant, in whatever state it comes. */
  lemma ApplyKeeps(st: State, e: Event)
    requires Inv(st) && Possible(st, e)
    ensures Inv(Apply(st, e))
  {
    match e
    case Open(room, r, mode, kind, options) => OpenKeeps(st, room, r, mode, kind, options);
    case Submit(c, room, option, timeMs) => SubmitStepKeeps(st, c, room, option, timeMs);
    case SubmitRound(c, room, r, kind, valid, a) => SubmitRoundStepKeeps(st, c, room, r, kind, valid, a);
    case Progress(c, room, r, kind, valid, a) => ProgressStepKeeps(st, c, room, r, kind, valid, a);
    case SaveAnswered(r, id, ok) => SaveKeeps(st, r, id, ok);
    case FinalizeRequested(room, r) => FinalizeStepKeeps(st, room, r);
    case Close(room) => CloseKeeps(st, room);
    case Connect(room, clients) =>
  }

  // ---------- every run ----------

  predicate StepAt(es: seq<Event>, states: seq<State>, i: nat)
    requires i < |es| && |states| == |es| + 1
  {
    Possible(states[i], es[i]) && states[i + 1] == Apply(states[i], es[i])
  }

  /** The states the service goes through, from its start, as the events come in. */
  ghost predicate IsRun(es: seq<Event>, states: seq<State>) {
    && |states| == |es| + 1
    && states[0] == EMPTY
    && forall i: nat :: i < |es| ==> StepAt(es, states, i)
  }

  lemma {:induction false} RunKeeps(es: seq<Event>, states: seq<State>, i: nat)
    requires IsRun(es, states) && i < |states|
    ensures Inv(states[i])
  {
    if i > 0 {
      RunKeeps(es, states, i - 1);
      assert StepAt(es, states, i - 1);
      ApplyKeeps(states[i - 1], es[i - 1]);
    }
  }

  /** In every run, at every moment: whoever counts as having submitted has one row or one save in
      flight, never two, with the value that counts; and no save meets a row of its client. */
  lemma SubmittedAlwaysHeldOnce(es: seq<Event>, states: seq<State>, i: nat, r: Round, c: Client)
    requires IsRun(es, states) && i < |states| && r in states[i].windows
    ensures var w := states[i].windows[r];
            && (c in w.submitted <==> Held(w, c))
            && (c in w.rows ==> w.rows[c].value == w.submitted[c] && forall id :: !SavedBy(w, c, id))
            && (forall id :: SavedBy(w, c, id) ==> w.saves[id].answer.value == w.submitted[c] && c !in w.rows)
            && (forall id, j :: SavedBy(w, c, id) && SavedBy(w, c, j) ==> id == j)
  {
    RunKeeps(es, states, i);
    SubmittedIsHeldOnce(states[i].windows[r], c);
  }

  /** In every run: once a finalization of a round has ended and its saves are answered, the table holds
      the answer that counts of every client who gave one, except exactly those whose last save failed. */
  lemma FinalizedRoundsAreComplete(es: seq<Event>, states: seq<State>, i: nat, r: Round, c: Client)
    requires IsRun(es, states) && i < |states| && r in states[i].windows
    requires states[i].windows[r].ended && states[i].windows[r].saves == map[]
    ensures var w := states[i].windows[r];
            && (c in w.rows <==> (c in w.manual || c in w.progress) && c !in w.failed)
            && (c in w.rows ==> w.rows[c] == if c in w.manual then w.manual[c] else w.progress[c])
  {
    RunKeeps(es, states, i);
    EndedHoldsEveryAnswer(states[i].windows[r], c);
  }

  /** A client is told that its submission was accepted exactly when it has just got its row; otherwise
      it is told of the error, and may submit again. */
  lemma ToldWhatWasStored(st: State, r: Round, id: nat, ok: bool)
    requires Inv(st) && r in st.windows && id in st.windows[r].saves && st.windows[r].saves[id].pos.None?
    ensures var s := st.windows[r].saves[id];
            var next := SaveStep(st, r, id, ok);
            && |next.out| > |st.out| && r in next.windows
            && next.out[|st.out|] == (if ok then Accepted(s.client) else Rejected(s.client, ServerError))
            && (s.client in next.windows[r].rows <==> ok)
            && (if ok then next.windows[r].rows[s.client] == s.answer else s.client !in next.windows[r].submitted)
  {
    NoUniqueViolation(st.windows[r], id);
  }

  /** After a stored submission its client is told, then the room how many have submitted and how many are
      connected, and the engine exactly when the first reach the second. */
  lemma StoredIsTold(st: State, r: Round, c: Client, people: nat, news: seq<Output>)
    requires r in st.windows
    requires var room := st.windows[r].room;
             && people == (if room in st.connected then |st.connected[room]| else 0)
             && TellStored(st, r, c).out == st.out + news
    ensures var w := st.windows[r];
            && |news| == (if 0 < people <= |w.submitted| then 3 else 2)
            && news[0] == Accepted(c) && news[1] == AnswerCount(w.room, |w.submitted|, people)
            && (|news| == 3 ==> news[2] == AllPlayersAnswered(w.room, r))
  {
    var w := st.windows[r];
    assert |ConnectedIn(st, w.room)| == people;
    var last := if CountsSayAll(ConnectedIn(st, w.room), w.submitted) then [AllPlayersAnswered(w.room, r)] else [];
    var all := [Accepted(c), AnswerCount(w.room, |w.submitted|, people)] + last;
    assert TellStored(st, r, c).out == st.out + all;
    assert news == (st.out + news)[|st.out|..] == (st.out + all)[|st.out|..] == all;
  }

  /** What a submission whose save succeeded adds to the output is exactly this. */
  lemma RoomIsTold(st: State, r: Round, id: nat, next: State, people: nat, news: seq<Output>)
    requires Inv(st) && r in st.windows && id in st.windows[r].saves && st.windows[r].saves[id].pos.None?
    requires next == SaveStep(st, r, id, true) && next.out == st.out + news
    requires people == (if st.windows[r].room in st.connected then |st.connected[st.windows[r].room]| else 0)
    ensures r in next.windows
    ensures var w := next.windows[r];
            && |news| == (if 0 < people <= |w.submitted| then 3 else 2)
            && news[0] == Accepted(st.windows[r].saves[id].client)
            && news[1] == AnswerCount(w.room, |w.submitted|, people)
            && (|news| == 3 ==> news[2] == AllPlayersAnswered(w.room, r))
  {
    NoUniqueViolation(st.windows[r], id);
    var settled := With(st, r, Settle(st.windows[r], id, true));
    StoredIsTold(settled, r, st.windows[r].saves[id].client, people, news);
  }
}
