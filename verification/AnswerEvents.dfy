/** The answers that are stored, told from the events alone: a row is the last answer its client gave that
    the window accepted, apart from submissions that the database refused. */
module AnswerEvents {
  import opened Common
  import opened AnswerWindow
  import opened AnswerRuns

  // ---------- when an answer is accepted ----------

  predicate HasOpen(st: State, room: Room, r: Round) {
    room in st.open && st.open[room] == r && r in st.windows
  }

  /** The event gives an answer. */
  predicate Submits(e: Event) {
    e.Submit? || e.SubmitRound?
  }

  predicate Gives(e: Event) {
    Submits(e) || e.Progress?
  }

  function Given(e: Event): Answer
    requires Gives(e)
  {
    if e.Submit? then Answer(e.option, e.timeMs) else e.answer
  }

  /** Window `r` is that of the client's room, the answer is one it asks for, and the client has not
      submitted. */
  predicate Takes(st: State, e: Event, r: Round, c: Client) {
    && Gives(e) && e.client == c && HasOpen(st, e.room, r) && c !in st.windows[r].submitted
    && if e.Submit? then st.windows[r].mode == Quiz && e.option in st.windows[r].options
       else st.windows[r].mode == Minigame && e.round == r && e.kind == st.windows[r].kind && e.valid
  }

  /** Why an answer is rejected: the first check that fails. */
  function Why(st: State, e: Event): Reason
    requires Submits(e)
  {
    if e.room !in st.open || st.open[e.room] !in st.windows then WindowClosed
    else
      var r := st.open[e.room];
      var w := st.windows[r];
      if e.Submit? && (w.mode != Quiz || e.option !in w.options) then InvalidAnswer
      else if e.SubmitRound? && (w.mode != Minigame || e.round != r || e.kind != w.kind || !e.valid) then InvalidAnswer
      else AlreadyAnswered
  }

  /** The client counts as having submitted, and the save of its answer is in flight; nothing else changes. */
  predicate SaveStarted(w: Window, v: Window, c: Client, a: Answer) {
    && v.saves == w.saves[w.next := Save(c, a, None)] && v.next == w.next + 1
    && v.submitted == w.submitted[c := a.value] && v.manual == w.manual[c := a]
    && v == w.(saves := v.saves, next := v.next, submitted := v.submitted, manual := v.manual)
  }

  /** A submission that is taken starts the save of what was sent, and tells nobody yet; any other changes no
      window, and its client is told why. */
  lemma SubmissionExact(st: State, e: Event)
    requires Submits(e)
    ensures var next := Apply(st, e);
            && next.open == st.open && next.connected == st.connected
            && (forall r :: Takes(st, e, r, e.client) ==>
                  && next.out == st.out && r in next.windows
                  && next.windows == st.windows[r := next.windows[r]]
                  && SaveStarted(st.windows[r], next.windows[r], e.client, Given(e)))
            && ((forall r :: !Takes(st, e, r, e.client)) ==>
                  next.windows == st.windows && next.out == st.out + [Rejected(e.client, Why(st, e))])
  {
    if HasOpen(st, e.room, if e.room in st.open then st.open[e.room] else 0) {
      var r := st.open[e.room];
      assert Takes(st, e, r, e.client) || forall q :: !Takes(st, e, q, e.client);
    }
  }

  /** Progress that is taken replaces what the client had sent before; any other changes nothing.  Nobody is
      told. */
  lemma ProgressExact(st: State, e: Event)
    requires e.Progress?
    ensures var next := Apply(st, e);
            && next.open == st.open && next.connected == st.connected && next.out == st.out
            && (forall r :: Takes(st, e, r, e.client) ==>
                  var w := st.windows[r];
                  var order := if e.client in w.progress then w.order else w.order + [e.client];
                  next.windows == st.windows[r := w.(progress := w.progress[e.client := e.answer], order := order)])
            && ((forall r :: !Takes(st, e, r, e.client)) ==> next.windows == st.windows)
  {
    if HasOpen(st, e.room, e.round) {
      assert Takes(st, e, e.round, e.client) || forall q :: !Takes(st, e, q, e.client);
    }
  }

  // ---------- what an event does to one window ----------

  /** The database answers a save of window `r`, and it had failed. */
  predicate Answers(st: State, e: Event, r: Round) {
    e.SaveAnswered? && e.round == r && r in st.windows && e.id in st.windows[r].saves
  }

  predicate Fails(st: State, e: Event, r: Round) {
    Answers(st, e, r) && !e.ok
  }

  predicate TakesSubmission(st: State, e: Event, r: Round) {
    Submits(e) && Takes(st, e, r, e.client)
  }

  predicate TakesProgress(st: State, e: Event, r: Round) {
    e.Progress? && Takes(st, e, r, e.client)
  }

  /** What may have become of the saves of a window: those there were, but for one answered, and perhaps one
      more, numbered by `next`, of a submission taken or of a finalization for a client who has not
      submitted. */
  ghost predicate SavesMove(st: State, e: Event, r: Round, w: Window, v: Window)
    requires r in st.windows
  {
    && w.next <= v.next
    && (forall id :: id in v.saves && id != w.next ==>
          id in w.saves && v.saves[id] == w.saves[id] && !(Answers(st, e, r) && id == e.id))
    && (w.next in v.saves && w.next !in w.saves ==>
          && v.next > w.next
          && if TakesSubmission(st, e, r) then v.saves[w.next] == Save(e.client, Given(e), None)
             else && v.saves[w.next].pos.Some?
                  && (v.saves[w.next].client !in w.submitted
                      || (Fails(st, e, r) && e.id in w.saves && v.saves[w.next].client == w.saves[e.id].client)))
    && (TakesSubmission(st, e, r) ==> v.next > w.next && w.next in v.saves)
  }

  ghost predicate HistoryMoves(st: State, e: Event, r: Round, w: Window, v: Window)
    requires r in st.windows
  {
    && v.progress == (if TakesProgress(st, e, r) then w.progress[e.client := e.answer] else w.progress)
    && v.manual == (if TakesSubmission(st, e, r) then w.manual[e.client := Given(e)]
                    else if Fails(st, e, r) && e.id in w.saves then w.manual - {w.saves[e.id].client} else w.manual)
    && v.failed == (if !Answers(st, e, r) || e.id !in w.saves then w.failed
                    else if e.ok then w.failed - {w.saves[e.id].client} else w.failed + {w.saves[e.id].client})
  }

  /** The loop of a finalization may start one save. */
  predicate Grew(w: Window, v: Window) {
    && v.progress == w.progress && v.manual == w.manual && v.failed == w.failed
    && (if v.next == w.next then v.saves == w.saves
        else v.next == w.next + 1 && w.next in v.saves && v.saves[w.next].pos.Some?
             && v.saves[w.next].client !in w.submitted
             && v.saves == w.saves[w.next := v.saves[w.next]])
  }

  lemma ResumeMoves(w: Window, k: nat)
    ensures Grew(w, Resume(w, k))
  {
    if !LoopDone(w, k) {
      var i := NextUnsubmitted(w.order, w.submitted, k);
      if k <= |w.order| { NextUnsubmittedExact(w.order, w.submitted, k); }
      assert Resume(w, k).saves == w.saves[w.next := Save(w.order[i], LastProgress(w, w.order[i]), Some(i))];
    }
  }

  /** The save is gone, and with a failed one the submission. */
  predicate Lost(w: Window, v: Window, id: nat, ok: bool)
    requires id in w.saves
  {
    && v.progress == w.progress && v.saves == w.saves - {id} && v.next == w.next
    && v.submitted == (if ok then w.submitted else w.submitted - {w.saves[id].client})
    && v.manual == (if ok then w.manual else w.manual - {w.saves[id].client})
    && v.failed == (if ok then w.failed - {w.saves[id].client} else w.failed + {w.saves[id].client})
  }

  lemma SettleMoves(w: Window, id: nat, ok: bool)
    requires id in w.saves
    ensures Lost(w, Settle(w, id, ok), id, ok)
  {
  }

  predicate Moved(w: Window, v: Window, id: nat, ok: bool)
    requires id in w.saves
  {
    && v.progress == w.progress
    && v.manual == (if ok then w.manual else w.manual - {w.saves[id].client})
    && v.failed == (if ok then w.failed - {w.saves[id].client} else w.failed + {w.saves[id].client})
    && w.next <= v.next
    && (forall j :: j in v.saves && j != w.next ==> j in w.saves && v.saves[j] == w.saves[j] && j != id)
    && (w.next in v.saves && w.next !in w.saves ==>
          && v.next > w.next && v.saves[w.next].pos.Some?
          && (v.saves[w.next].client !in w.submitted || (!ok && v.saves[w.next].client == w.saves[id].client)))
  }

  lemma LostThenGrew(w: Window, u: Window, v: Window, id: nat, ok: bool)
    requires id in w.saves && id < w.next && Lost(w, u, id, ok) && (v == u || Grew(u, v))
    ensures Moved(w, v, id, ok)
  {
  }

  /** The window after the answer of the database. */
  function Settled(w: Window, id: nat, ok: bool): Window
    requires id in w.saves
  {
    var next := Settle(w, id, ok);
    match w.saves[id].pos
    case Some(k) => Resume(next, k + 1)
    case None => next
  }

  lemma SaveStepIs(st: State, e: Event, r: Round)
    requires Answers(st, e, r)
    ensures r in Apply(st, e).windows && Apply(st, e).windows[r] == Settled(st.windows[r], e.id, e.ok)
  {
    var w := st.windows[r];
    var s, next := w.saves[e.id], With(st, r, Settle(w, e.id, e.ok));
    assert Apply(st, e) == GoOn(next, r, s, e.ok, s.client in w.rows);
    match s.pos {
      case Some(k) => FinalizerGoesOn(next, r, s, e.ok, s.client in w.rows, k);
      case None => TellingChangesNoWindow(next, r, s, e.ok, s.client in w.rows);
    }
  }

  lemma UnansweredStays(st: State, e: Event, r: Round)
    requires e.SaveAnswered? && r in st.windows && !Answers(st, e, r)
    ensures r in Apply(st, e).windows && Apply(st, e).windows[r] == st.windows[r]
  {
  }

  lemma SettledMoves(w: Window, id: nat, ok: bool)
    requires id in w.saves && id < w.next
    ensures Moved(w, Settled(w, id, ok), id, ok)
  {
    var u := Settle(w, id, ok);
    SettleMoves(w, id, ok);
    match w.saves[id].pos {
      case Some(k) => ResumeMoves(u, k + 1);
      case None =>
    }
    LostThenGrew(w, u, Settled(w, id, ok), id, ok);
  }

  lemma SaveMoves(st: State, e: Event, r: Round)
    requires e.SaveAnswered? && r in st.windows && Good(st.windows[r])
    ensures r in Apply(st, e).windows
    ensures HistoryMoves(st, e, r, st.windows[r], Apply(st, e).windows[r])
    ensures SavesMove(st, e, r, st.windows[r], Apply(st, e).windows[r])
  {
    if Answers(st, e, r) {
      SaveStepIs(st, e, r);
      assert SaveOk(st.windows[r], e.id);
      SettledMoves(st.windows[r], e.id, e.ok);
      MovedIs(st, e, r, Settled(st.windows[r], e.id, e.ok));
    } else {
      UnansweredStays(st, e, r);
      UnmovedIs(st, e, r);
    }
  }

  lemma MovedIs(st: State, e: Event, r: Round, v: Window)
    requires Answers(st, e, r) && Moved(st.windows[r], v, e.id, e.ok)
    ensures HistoryMoves(st, e, r, st.windows[r], v) && SavesMove(st, e, r, st.windows[r], v)
  {
  }

  lemma UnmovedIs(st: State, e: Event, r: Round)
    requires e.SaveAnswered? && r in st.windows && !Answers(st, e, r)
    ensures HistoryMoves(st, e, r, st.windows[r], st.windows[r]) && SavesMove(st, e, r, st.windows[r], st.windows[r])
  {
  }

  lemma FinalizeStepIs(st: State, e: Event, r: Round)
    requires e.FinalizeRequested? && r in st.windows
    ensures r in Apply(st, e).windows
    ensures Apply(st, e).windows[r] == st.windows[r] || Apply(st, e).windows[r] == Resume(st.windows[r], 0)
  {
  }

  lemma FinalizeMoves(st: State, e: Event, r: Round)
    requires e.FinalizeRequested? && r in st.windows
    ensures r in Apply(st, e).windows
    ensures HistoryMoves(st, e, r, st.windows[r], Apply(st, e).windows[r])
    ensures SavesMove(st, e, r, st.windows[r], Apply(st, e).windows[r])
  {
    FinalizeStepIs(st, e, r);
    ResumeMoves(st.windows[r], 0);
  }

  /** What an event does to a window there was. */
  lemma WindowMoves(st: State, e: Event, r: Round)
    requires Possible(st, e) && r in st.windows && Good(st.windows[r])
    ensures r in Apply(st, e).windows
    ensures HistoryMoves(st, e, r, st.windows[r], Apply(st, e).windows[r])
    ensures SavesMove(st, e, r, st.windows[r], Apply(st, e).windows[r])
  {
    if e.SaveAnswered? {
      SaveMoves(st, e, r);
    } else if e.FinalizeRequested? {
      FinalizeMoves(st, e, r);
    } else if Submits(e) {
      SubmissionMoves(st, e, r);
    } else if e.Progress? {
      ProgressMoves(st, e, r);
    }
  }

  lemma SubmissionMoves(st: State, e: Event, r: Round)
    requires Submits(e) && r in st.windows
    ensures r in Apply(st, e).windows
    ensures HistoryMoves(st, e, r, st.windows[r], Apply(st, e).windows[r])
    ensures SavesMove(st, e, r, st.windows[r], Apply(st, e).windows[r])
  {
    SubmissionExact(st, e);
    if q :| Takes(st, e, q, e.client) {
    }
  }

  lemma ProgressMoves(st: State, e: Event, r: Round)
    requires e.Progress? && r in st.windows
    ensures r in Apply(st, e).windows
    ensures HistoryMoves(st, e, r, st.windows[r], Apply(st, e).windows[r])
    ensures SavesMove(st, e, r, st.windows[r], Apply(st, e).windows[r])
  {
    ProgressExact(st, e);
    if q :| Takes(st, e, q, e.client) {
    }
  }

  // ---------- which event a row comes from ----------

  /** Event `i` is an answer of client `c` that window `r` accepts. */
  ghost predicate TakenAt(es: seq<Event>, states: seq<State>, i: nat, r: Round, c: Client)
    requires i < |es| && |states| == |es| + 1
  {
    Takes(states[i], es[i], r, c)
  }

  ghost predicate SubmittedAt(es: seq<Event>, states: seq<State>, i: nat, r: Round, c: Client)
    requires i < |es| && |states| == |es| + 1
  {
    Submits(es[i]) && TakenAt(es, states, i, r, c)
  }

  ghost predicate ProgressAt(es: seq<Event>, states: seq<State>, i: nat, r: Round, c: Client)
    requires i < |es| && |states| == |es| + 1
  {
    es[i].Progress? && TakenAt(es, states, i, r, c)
  }

  /** Event `j` is the database's refusal of the save that the submission at `i` started. */
  ghost predicate RefusedAt(es: seq<Event>, states: seq<State>, i: nat, j: nat, r: Round)
    requires i < j < |es| && |states| == |es| + 1
  {
    r in states[i].windows && Fails(states[j], es[j], r) && es[j].id == states[i].windows[r].next
  }

  ghost predicate Refused(es: seq<Event>, states: seq<State>, i: nat, n: nat, r: Round)
    requires i < n <= |es| && |states| == |es| + 1
  {
    exists j: nat :: i < j < n && RefusedAt(es, states, i, j, r)
  }

  /** The submission that counts was made at event `i`: it has not been refused, all earlier ones have, and
      nothing was accepted after it; a save of the client is that of this submission. */
  ghost predicate MadeAt(es: seq<Event>, states: seq<State>, n: nat, r: Round, c: Client, i: nat)
    requires i < n <= |es| && |states| == |es| + 1 && r in states[n].windows
  {
    var w := states[n].windows[r];
    && SubmittedAt(es, states, i, r, c) && !Refused(es, states, i, n, r)
    && c in w.manual && w.manual[c] == Given(es[i])
    && (forall k: nat :: i < k < n ==> !TakenAt(es, states, k, r, c))
    && (forall k: nat :: k < i && SubmittedAt(es, states, k, r, c) ==> Refused(es, states, k, n, r))
    && states[i].windows[r].next < w.next
    && (forall id :: SavedBy(w, c, id) ==> id == states[i].windows[r].next)
    && (states[i].windows[r].next in w.saves ==> w.saves[states[i].windows[r].next].client == c)
  }

  /** No submission counts: all there were have been refused, and no save is of one. */
  ghost predicate NoneMade(es: seq<Event>, states: seq<State>, n: nat, r: Round, c: Client)
    requires n <= |es| && |states| == |es| + 1 && r in states[n].windows
  {
    var w := states[n].windows[r];
    && c !in w.manual
    && (forall k: nat :: k < n && SubmittedAt(es, states, k, r, c) ==> Refused(es, states, k, n, r))
    && (forall id :: SavedBy(w, c, id) ==> w.saves[id].pos.Some?)
  }

  ghost predicate Traced(es: seq<Event>, states: seq<State>, n: nat, r: Round, c: Client)
    requires n <= |es| && |states| == |es| + 1 && r in states[n].windows
  {
    NoneMade(es, states, n, r, c) || exists i: nat :: i < n && MadeAt(es, states, n, r, c, i)
  }

  lemma RefusedStays(es: seq<Event>, states: seq<State>, i: nat, n: nat, r: Round)
    requires i < n < |es| && |states| == |es| + 1
    ensures Refused(es, states, i, n, r) ==> Refused(es, states, i, n + 1, r)
    ensures Refused(es, states, i, n + 1, r) ==> Refused(es, states, i, n, r) || RefusedAt(es, states, i, n, r)
  {
    if j: nat :| i < j < n && RefusedAt(es, states, i, j, r) {
      assert i < j < n + 1;
    }
  }

  /** A window there was stays, and is moved by the event. */
  lemma RunMoves(es: seq<Event>, states: seq<State>, n: nat, r: Round)
    requires IsRun(es, states) && n < |es| && r in states[n].windows
    ensures r in states[n + 1].windows && Good(states[n].windows[r]) && Good(states[n + 1].windows[r])
    ensures HistoryMoves(states[n], es[n], r, states[n].windows[r], states[n + 1].windows[r])
    ensures SavesMove(states[n], es[n], r, states[n].windows[r], states[n + 1].windows[r])
  {
    RunKeeps(es, states, n);
    RunKeeps(es, states, n + 1);
    assert StepAt(es, states, n);
    WindowMoves(states[n], es[n], r);
  }

  lemma {:induction false} NotThereBefore(es: seq<Event>, states: seq<State>, k: nat, n: nat, r: Round)
    requires IsRun(es, states) && k <= n < |states| && r !in states[n].windows
    ensures r !in states[k].windows
  {
    if k < n {
      if r in states[n - 1].windows {
        RunMoves(es, states, n - 1, r);
      }
      NotThereBefore(es, states, k, n - 1, r);
    }
  }

  /** Whoever has a save in flight counts as having submitted. */
  lemma SaversSubmitted(w: Window)
    requires Good(w)
    ensures forall c: Client, id: nat :: SavedBy(w, c, id) ==> c in w.submitted && id < w.next
    ensures w.next !in w.saves
  {
    forall c: Client, id: nat | SavedBy(w, c, id) ensures c in w.submitted && id < w.next {
      assert SaveOk(w, id);
    }
    forall id | id in w.saves ensures id < w.next {
      assert SaveOk(w, id);
    }
  }

  /** The event makes the submission. */
  lemma NowMade(es: seq<Event>, states: seq<State>, n: nat, r: Round, c: Client)
    requires IsRun(es, states) && n < |es| && r in states[n].windows && NoneMade(es, states, n, r, c)
    requires SubmittedAt(es, states, n, r, c)
    ensures r in states[n + 1].windows && MadeAt(es, states, n + 1, r, c, n)
  {
    RunMoves(es, states, n, r);
    SaversSubmitted(states[n].windows[r]);
    forall k: nat | k < n && SubmittedAt(es, states, k, r, c) ensures Refused(es, states, k, n + 1, r) {
      RefusedStays(es, states, k, n, r);
    }
  }

  /** A save of a client who has just lost one is new, of a finalization. */
  lemma SavesAfterRefusal(st: State, e: Event, r: Round, w: Window, v: Window, c: Client)
    requires r in st.windows && w == st.windows[r] && Good(w) && SavesMove(st, e, r, w, v)
    requires Fails(st, e, r) && w.saves[e.id].client == c
    ensures forall id :: SavedBy(v, c, id) ==> v.saves[id].pos.Some?
  {
    assert SavedBy(w, c, e.id);
    SaversSubmitted(w);
    forall id | SavedBy(v, c, id) ensures v.saves[id].pos.Some? {
      assert id != w.next ==> SavedBy(w, c, id);
    }
  }

  /** The submission is refused. */
  lemma NowRefused(es: seq<Event>, states: seq<State>, n: nat, r: Round, c: Client, i: nat)
    requires IsRun(es, states) && n < |es| && r in states[n].windows && i < n && MadeAt(es, states, n, r, c, i)
    requires Fails(states[n], es[n], r) && states[n].windows[r].saves[es[n].id].client == c
    ensures r in states[n + 1].windows && NoneMade(es, states, n + 1, r, c)
  {
    var w := states[n].windows[r];
    RunMoves(es, states, n, r);
    SavesAfterRefusal(states[n], es[n], r, w, states[n + 1].windows[r], c);
    assert SavedBy(w, c, es[n].id) && RefusedAt(es, states, i, n, r);
    AllRefused(es, states, n, r, c, i);
  }

  lemma AllRefused(es: seq<Event>, states: seq<State>, n: nat, r: Round, c: Client, i: nat)
    requires n < |es| && |states| == |es| + 1 && r in states[n].windows && i < n && MadeAt(es, states, n, r, c, i)
    requires RefusedAt(es, states, i, n, r) && !SubmittedAt(es, states, n, r, c)
    ensures forall k: nat :: k < n + 1 && SubmittedAt(es, states, k, r, c) ==> Refused(es, states, k, n + 1, r)
  {
    forall k: nat | k < n + 1 && SubmittedAt(es, states, k, r, c) ensures Refused(es, states, k, n + 1, r) {
      if k < i { RefusedStays(es, states, k, n, r); }
    }
  }

  /** The submission made before still counts. */
  lemma StillMade(es: seq<Event>, states: seq<State>, n: nat, r: Round, c: Client, i: nat)
    requires IsRun(es, states) && n < |es| && r in states[n].windows && i < n && MadeAt(es, states, n, r, c, i)
    requires !(Fails(states[n], es[n], r) && states[n].windows[r].saves[es[n].id].client == c)
    ensures r in states[n + 1].windows && MadeAt(es, states, n + 1, r, c, i)
  {
    StillHeld(es, states, n, r, c, states[i].windows[r].next);
    StillStands(es, states, n, r, c, i);
  }

  lemma StillHeld(es: seq<Event>, states: seq<State>, n: nat, r: Round, c: Client, mine: nat)
    requires IsRun(es, states) && n < |es| && r in states[n].windows
    requires !(Fails(states[n], es[n], r) && states[n].windows[r].saves[es[n].id].client == c)
    requires Mine(states[n].windows[r], c, mine)
    ensures r in states[n + 1].windows && Mine(states[n + 1].windows[r], c, mine)
    ensures states[n + 1].windows[r].manual[c] == states[n].windows[r].manual[c]
    ensures !TakenAt(es, states, n, r, c)
  {
    RunMoves(es, states, n, r);
    StillSaved(states[n], es[n], r, states[n].windows[r], states[n + 1].windows[r], c, mine);
  }

  /** The client's submission counts, and `mine` was the number of its save. */
  ghost predicate Mine(w: Window, c: Client, mine: nat) {
    && c in w.manual && mine < w.next
    && (forall id :: SavedBy(w, c, id) ==> id == mine)
    && (mine in w.saves ==> w.saves[mine].client == c)
  }

  lemma StillStands(es: seq<Event>, states: seq<State>, n: nat, r: Round, c: Client, i: nat)
    requires n < |es| && |states| == |es| + 1 && r in states[n].windows && i < n && MadeAt(es, states, n, r, c, i)
    requires !(Fails(states[n], es[n], r) && states[n].windows[r].saves[es[n].id].client == c)
    ensures !Refused(es, states, i, n + 1, r)
    ensures forall k: nat :: k < i && SubmittedAt(es, states, k, r, c) ==> Refused(es, states, k, n + 1, r)
  {
    RefusedStays(es, states, i, n, r);
    forall k: nat | k < i && SubmittedAt(es, states, k, r, c) ensures Refused(es, states, k, n + 1, r) {
      RefusedStays(es, states, k, n, r);
    }
  }

  lemma StillSaved(st: State, e: Event, r: Round, w: Window, v: Window, c: Client, mine: nat)
    requires r in st.windows && w == st.windows[r] && Good(w) && SavesMove(st, e, r, w, v)
    requires HistoryMoves(st, e, r, w, v)
    requires Mine(w, c, mine) && !(Fails(st, e, r) && w.saves[e.id].client == c)
    ensures Mine(v, c, mine) && v.manual[c] == w.manual[c]
  {
    SaversSubmitted(w);
    assert c in w.submitted;
    forall id | SavedBy(v, c, id) ensures id == mine {
      assert id != w.next ==> SavedBy(w, c, id);
    }
  }

  /** There is still no submission that counts. */
  lemma StillNone(es: seq<Event>, states: seq<State>, n: nat, r: Round, c: Client)
    requires IsRun(es, states) && n < |es| && r in states[n].windows && NoneMade(es, states, n, r, c)
    requires !SubmittedAt(es, states, n, r, c)
    ensures r in states[n + 1].windows && NoneMade(es, states, n + 1, r, c)
  {
    var w := states[n].windows[r];
    RunMoves(es, states, n, r);
    NoneSaved(states[n], es[n], r, w, states[n + 1].windows[r], c);
    forall k: nat | k < n + 1 && SubmittedAt(es, states, k, r, c) ensures Refused(es, states, k, n + 1, r) {
      if k < n { RefusedStays(es, states, k, n, r); }
    }
  }

  lemma NoneSaved(st: State, e: Event, r: Round, w: Window, v: Window, c: Client)
    requires r in st.windows && w == st.windows[r] && Good(w)
    requires SavesMove(st, e, r, w, v) && HistoryMoves(st, e, r, w, v)
    requires c !in w.manual && !(Submits(e) && Takes(st, e, r, c))
    requires forall id :: SavedBy(w, c, id) ==> w.saves[id].pos.Some?
    ensures c !in v.manual && forall id :: SavedBy(v, c, id) ==> v.saves[id].pos.Some?
  {
    SaversSubmitted(w);
    forall id | SavedBy(v, c, id) ensures v.saves[id].pos.Some? {
      assert id != w.next ==> SavedBy(w, c, id);
    }
  }

  /** A window that was not there before is new. */
  lemma FreshWindow(es: seq<Event>, states: seq<State>, n: nat, r: Round)
    requires IsRun(es, states) && 0 < n < |states| && r in states[n].windows && r !in states[n - 1].windows
    ensures var w := states[n].windows[r];
            w.manual == map[] && w.saves == map[] && w.progress == map[] && w.failed == {}
  {
    assert StepAt(es, states, n - 1);
    var st, e := states[n - 1], es[n - 1];
    if Submits(e) {
      SubmissionExact(st, e);
    } else if e.Progress? {
      ProgressExact(st, e);
    } else if e.SaveAnswered? {
      NoNewWindow(st, e);
    }
  }

  lemma NoNewWindow(st: State, e: Event)
    requires e.SaveAnswered?
    ensures Apply(st, e).windows.Keys == st.windows.Keys
  {
  }

  lemma NothingTakenBefore(es: seq<Event>, states: seq<State>, n: nat, r: Round, c: Client)
    requires IsRun(es, states) && n < |states| && r !in states[n].windows
    ensures forall k: nat :: k <= n && k < |es| ==> !TakenAt(es, states, k, r, c) && !Answers(states[k], es[k], r)
  {
    forall k: nat | k <= n && k < |es| ensures !TakenAt(es, states, k, r, c) && !Answers(states[k], es[k], r) {
      NotThereBefore(es, states, k, n, r);
    }
  }

  /** In every run, every client's submission that counts is the one the events say. */
  lemma {:induction false} RunTraced(es: seq<Event>, states: seq<State>, n: nat, r: Round, c: Client)
    requires IsRun(es, states) && n < |states| && r in states[n].windows
    ensures Traced(es, states, n, r, c)
  {
    if n > 0 && r !in states[n - 1].windows {
      FreshWindow(es, states, n, r);
      NothingTakenBefore(es, states, n - 1, r, c);
    } else if n > 0 {
      var last := n - 1;
      RunTraced(es, states, last, r, c);
      TracedOn(es, states, last, r, c);
    }
  }

  lemma TracedOn(es: seq<Event>, states: seq<State>, n: nat, r: Round, c: Client)
    requires IsRun(es, states) && n < |es| && r in states[n].windows && Traced(es, states, n, r, c)
    ensures r in states[n + 1].windows && Traced(es, states, n + 1, r, c)
  {
    if NoneMade(es, states, n, r, c) {
      if SubmittedAt(es, states, n, r, c) {
        NowMade(es, states, n, r, c);
      } else {
        StillNone(es, states, n, r, c);
      }
    } else {
      var i: nat :| i < n && MadeAt(es, states, n, r, c, i);
      if Fails(states[n], es[n], r) && states[n].windows[r].saves[es[n].id].client == c {
        NowRefused(es, states, n, r, c, i);
      } else {
        StillMade(es, states, n, r, c, i);
      }
    }
  }

  // ---------- progress ----------

  ghost predicate LastProgressAt(es: seq<Event>, states: seq<State>, n: nat, r: Round, c: Client, i: nat)
    requires i < n <= |es| && |states| == |es| + 1 && r in states[n].windows
  {
    && ProgressAt(es, states, i, r, c) && c in states[n].windows[r].progress
    && states[n].windows[r].progress[c] == Given(es[i])
    && forall k: nat :: i < k < n ==> !ProgressAt(es, states, k, r, c)
  }

  ghost predicate ProgressTraced(es: seq<Event>, states: seq<State>, n: nat, r: Round, c: Client)
    requires n <= |es| && |states| == |es| + 1 && r in states[n].windows
  {
    || (c !in states[n].windows[r].progress && forall k: nat :: k < n ==> !ProgressAt(es, states, k, r, c))
    || exists i: nat :: i < n && LastProgressAt(es, states, n, r, c, i)
  }

  lemma {:induction false} RunProgress(es: seq<Event>, states: seq<State>, n: nat, r: Round, c: Client)
    requires IsRun(es, states) && n < |states| && r in states[n].windows
    ensures ProgressTraced(es, states, n, r, c)
  {
    if n > 0 && r !in states[n - 1].windows {
      FreshWindow(es, states, n, r);
      NothingTakenBefore(es, states, n - 1, r, c);
    } else if n > 0 {
      var last := n - 1;
      RunProgress(es, states, last, r, c);
      ProgressOn(es, states, last, r, c);
    }
  }

  lemma ProgressMovesOn(es: seq<Event>, states: seq<State>, n: nat, r: Round, c: Client)
    requires IsRun(es, states) && n < |es| && r in states[n].windows
    ensures r in states[n + 1].windows
    ensures var p, q := states[n].windows[r].progress, states[n + 1].windows[r].progress;
            if ProgressAt(es, states, n, r, c) then c in q && q[c] == Given(es[n])
            else (c in q <==> c in p) && (c in p ==> q[c] == p[c])
  {
    RunMoves(es, states, n, r);
  }

  lemma ProgressOn(es: seq<Event>, states: seq<State>, n: nat, r: Round, c: Client)
    requires IsRun(es, states) && n < |es| && r in states[n].windows && ProgressTraced(es, states, n, r, c)
    ensures r in states[n + 1].windows && ProgressTraced(es, states, n + 1, r, c)
  {
    ProgressMovesOn(es, states, n, r, c);
    if ProgressAt(es, states, n, r, c) {
      assert LastProgressAt(es, states, n + 1, r, c, n);
    } else if i: nat :| i < n && LastProgressAt(es, states, n, r, c, i) {
      assert LastProgressAt(es, states, n + 1, r, c, i);
    }
  }

  // ---------- the rows ----------

  /** The answer at event `i` was accepted, and not refused by the database since. */
  ghost predicate Stands(es: seq<Event>, states: seq<State>, i: nat, n: nat, r: Round, c: Client)
    requires i < n <= |es| && |states| == |es| + 1
  {
    TakenAt(es, states, i, r, c) && !(Submits(es[i]) && Refused(es, states, i, n, r))
  }

  ghost predicate LastStands(es: seq<Event>, states: seq<State>, i: nat, n: nat, r: Round, c: Client)
    requires i < n <= |es| && |states| == |es| + 1
  {
    Stands(es, states, i, n, r, c) && forall k: nat :: i < k < n ==> !Stands(es, states, k, n, r, c)
  }

  /** The answer that counts is the last one that stands; there is none exactly when none stands. */
  lemma DueIsLast(es: seq<Event>, states: seq<State>, n: nat, r: Round, c: Client)
    requires IsRun(es, states) && n < |states| && r in states[n].windows
    ensures var w := states[n].windows[r];
            (c in w.manual || c in w.progress) <==> exists i: nat :: i < n && Stands(es, states, i, n, r, c)
    ensures forall a :: IsDue(states[n].windows[r], c, a) ==>
              exists i: nat :: i < n && LastStands(es, states, i, n, r, c) && a == Given(es[i])
  {
    RunTraced(es, states, n, r, c);
    RunProgress(es, states, n, r, c);
    if i: nat :| i < n && MadeAt(es, states, n, r, c, i) {
      assert LastStands(es, states, i, n, r, c);
    } else {
      NoSubmissionStands(es, states, n, r, c);
      if i: nat :| i < n && LastProgressAt(es, states, n, r, c, i) {
        assert LastStands(es, states, i, n, r, c);
      }
    }
  }

  lemma NoSubmissionStands(es: seq<Event>, states: seq<State>, n: nat, r: Round, c: Client)
    requires n <= |es| && |states| == |es| + 1 && r in states[n].windows && NoneMade(es, states, n, r, c)
    ensures forall k: nat :: k < n && Stands(es, states, k, n, r, c) ==> ProgressAt(es, states, k, r, c)
  {
    forall k: nat | k < n && Stands(es, states, k, n, r, c) ensures ProgressAt(es, states, k, r, c) {
      assert !SubmittedAt(es, states, k, r, c);
    }
  }

  /** In every run, at every moment: a row is the last answer of its client that the window accepted and the
      database has not refused, with the value and the time that were sent. */
  lemma RowIsLastAnswer(es: seq<Event>, states: seq<State>, n: nat, r: Round, c: Client)
    requires IsRun(es, states) && n < |states| && r in states[n].windows && c in states[n].windows[r].rows
    ensures exists i: nat :: i < n && LastStands(es, states, i, n, r, c) && states[n].windows[r].rows[c] == Given(es[i])
  {
    RunKeeps(es, states, n);
    assert RowOk(states[n].windows[r], c);
    DueIsLast(es, states, n, r, c);
  }

  // ---------- which rows there are ----------

  /** Event `j` is the database's answer to a save of the client. */
  ghost predicate SaveAnsweredAt(es: seq<Event>, states: seq<State>, j: nat, r: Round, c: Client)
    requires j < |es| && |states| == |es| + 1
  {
    Answers(states[j], es[j], r) && states[j].windows[r].saves[es[j].id].client == c
  }

  /** The last save of the client that was answered had failed. */
  ghost predicate LastSaveFailed(es: seq<Event>, states: seq<State>, n: nat, r: Round, c: Client)
    requires n <= |es| && |states| == |es| + 1
  {
    exists j: nat :: j < n && LastSaveAt(es, states, n, r, c, j) && !es[j].ok
  }

  ghost predicate LastSaveAt(es: seq<Event>, states: seq<State>, n: nat, r: Round, c: Client, j: nat)
    requires j < n <= |es| && |states| == |es| + 1
  {
    SaveAnsweredAt(es, states, j, r, c) && forall k: nat :: j < k < n ==> !SaveAnsweredAt(es, states, k, r, c)
  }

  lemma FailedMovesOn(es: seq<Event>, states: seq<State>, n: nat, r: Round, c: Client)
    requires IsRun(es, states) && n < |es| && r in states[n].windows
    ensures r in states[n + 1].windows
    ensures c in states[n + 1].windows[r].failed <==>
              if SaveAnsweredAt(es, states, n, r, c) then !es[n].ok else c in states[n].windows[r].failed
  {
    RunMoves(es, states, n, r);
  }

  lemma FailedOn(es: seq<Event>, states: seq<State>, n: nat, r: Round, c: Client)
    requires IsRun(es, states) && n < |es| && r in states[n].windows
    requires c in states[n].windows[r].failed <==> LastSaveFailed(es, states, n, r, c)
    ensures r in states[n + 1].windows
    ensures c in states[n + 1].windows[r].failed <==> LastSaveFailed(es, states, n + 1, r, c)
  {
    FailedMovesOn(es, states, n, r, c);
    if SaveAnsweredAt(es, states, n, r, c) {
      assert LastSaveAt(es, states, n + 1, r, c, n);
    } else {
      if j: nat :| j < n && LastSaveAt(es, states, n, r, c, j) && !es[j].ok {
        assert LastSaveAt(es, states, n + 1, r, c, j);
      }
      if j: nat :| j < n + 1 && LastSaveAt(es, states, n + 1, r, c, j) && !es[j].ok {
        assert LastSaveAt(es, states, n, r, c, j);
      }
    }
  }

  lemma {:induction false} FailedMeans(es: seq<Event>, states: seq<State>, n: nat, r: Round, c: Client)
    requires IsRun(es, states) && n < |states| && r in states[n].windows
    ensures c in states[n].windows[r].failed <==> LastSaveFailed(es, states, n, r, c)
  {
    if n > 0 && r !in states[n - 1].windows {
      FreshWindow(es, states, n, r);
      NothingTakenBefore(es, states, n - 1, r, c);
    } else if n > 0 {
      var last := n - 1;
      FailedMeans(es, states, last, r, c);
      FailedOn(es, states, last, r, c);
    }
  }

  /** Once a finalization of a round has ended and its saves are answered, a client has a row exactly when some
      answer of it stands and its last save did not fail. */
  lemma FinalizedByEvents(es: seq<Event>, states: seq<State>, n: nat, r: Round, c: Client)
    requires IsRun(es, states) && n < |states| && r in states[n].windows
    requires states[n].windows[r].ended && states[n].windows[r].saves == map[]
    ensures c in states[n].windows[r].rows <==>
              (exists i: nat :: i < n && Stands(es, states, i, n, r, c)) && !LastSaveFailed(es, states, n, r, c)
  {
    FinalizedRoundsAreComplete(es, states, n, r, c);
    DueIsLast(es, states, n, r, c);
    FailedMeans(es, states, n, r, c);
  }

  // ---------- what a finalization does ----------

  /** A finalization of the room's open round saves the last progress of the first client who has sent some and
      not submitted; when there is none, the window is closed for good and the engine is told.  Asked for any
      other round, it tells the engine at once. */
  lemma FinalizationExact(st: State, room: Room, r: Round)
    requires Inv(st)
    ensures var next := Apply(st, FinalizeRequested(room, r));
            && (!HasOpen(st, room, r) ==> next == st.(out := st.out + [WindowFinalized(room, r)]))
            && (HasOpen(st, room, r) ==>
                  var w := st.windows[r];
                  if w.mode == Minigame && exists c :: c in w.progress && c !in w.submitted then
                    && next.open == st.open && next.out == st.out && r in next.windows
                    && next.windows == st.windows[r := next.windows[r]]
                    && exists i: nat :: FirstWithout(w, i) && NextSaved(w, next.windows[r], i)
                  else
                    && next.open == st.open - {room} && next.out == st.out + [WindowFinalized(room, r)]
                    && next.windows == st.windows[r := w.(ended := true)])
  {
    if HasOpen(st, room, r) {
      var w := st.windows[r];
      assert OpenOk(st.windows, room, r) && Good(w);
      var i := FirstTurn(w);
      assert Apply(st, FinalizeRequested(room, r)) == ResumeStep(st, r, 0);
    }
  }

  /** The first turn of the loop of a finalization. */
  lemma FirstTurn(w: Window) returns (i: nat)
    requires Good(w)
    ensures LoopDone(w, 0) <==> !(w.mode == Minigame && exists c :: c in w.progress && c !in w.submitted)
    ensures if LoopDone(w, 0) then Resume(w, 0) == w.(ended := true)
            else FirstWithout(w, i) && NextSaved(w, Resume(w, 0), i)
  {
    NextUnsubmittedExact(w.order, w.submitted, 0);
    i := NextUnsubmitted(w.order, w.submitted, 0);
    if !LoopDone(w, 0) {
      assert w.order[i] in w.progress;
    }
  }

  /** Place `i` is that of the first progress entry whose client has not submitted. */
  ghost predicate FirstWithout(w: Window, i: nat) {
    i < |w.order| && w.order[i] !in w.submitted && forall j: nat :: j < i ==> w.order[j] in w.submitted
  }

  /** The entry's save is started, and its client counts as having submitted. */
  predicate NextSaved(w: Window, v: Window, i: nat)
    requires i < |w.order|
  {
    && w.order[i] in w.progress
    && v == w.(saves := w.saves[w.next := Save(w.order[i], w.progress[w.order[i]], Some(i))], next := w.next + 1,
               submitted := w.submitted[w.order[i] := w.progress[w.order[i]].value])
  }

  // ---------- where windows come from ----------

  /** The event opens the window with just this room, mode, kind and options. */
  predicate Opens(e: Event, r: Round, w: Window) {
    e.Open? && e.round == r && e.room == w.room && e.mode == w.mode && e.kind == w.kind && e.options == w.options
  }

  predicate AskSame(v: Window, w: Window) {
    v.room == w.room && v.mode == w.mode && v.kind == w.kind && v.options == w.options
  }

  lemma AsksTheSame(st: State, e: Event, r: Round)
    requires Possible(st, e) && r in st.windows
    ensures r in Apply(st, e).windows && AskSame(Apply(st, e).windows[r], st.windows[r])
  {
    if Gives(e) {
      AnswersAskTheSame(st, e, r);
    } else if e.FinalizeRequested? {
      FinalizeStepIs(st, e, r);
    } else if e.SaveAnswered? && Answers(st, e, r) {
      SaveStepIs(st, e, r);
    } else if e.SaveAnswered? {
      UnansweredStays(st, e, r);
    }
  }

  lemma AnswersAskTheSame(st: State, e: Event, r: Round)
    requires Gives(e) && r in st.windows
    ensures r in Apply(st, e).windows && AskSame(Apply(st, e).windows[r], st.windows[r])
  {
    if Submits(e) { SubmissionExact(st, e); } else { ProgressExact(st, e); }
    if q :| Takes(st, e, q, e.client) {
    }
  }

  /** In every run, every window is for the room, mode, kind and options with which some event opened it. */
  lemma {:induction false} WindowIsAsOpened(es: seq<Event>, states: seq<State>, n: nat, r: Round) returns (i: nat)
    requires IsRun(es, states) && n < |states| && r in states[n].windows
    ensures i < n && Opens(es[i], r, states[n].windows[r])
  {
    assert n > 0;
    var last := n - 1;
    assert StepAt(es, states, last);
    if r in states[last].windows {
      i := WindowIsAsOpened(es, states, last, r);
      AsksTheSame(states[last], es[last], r);
      StillOpens(es[i], r, states[last].windows[r], states[n].windows[r]);
    } else {
      i := last;
      IsOpened(states[i], es[i], r);
    }
  }

  lemma StillOpens(e: Event, r: Round, w: Window, v: Window)
    requires Opens(e, r, w) && AskSame(v, w)
    ensures Opens(e, r, v)
  {
  }

  lemma IsOpened(st: State, e: Event, r: Round)
    requires r !in st.windows && r in Apply(st, e).windows
    ensures Opens(e, r, Apply(st, e).windows[r])
  {
    if Submits(e) {
      SubmissionExact(st, e);
    } else if e.Progress? {
      ProgressExact(st, e);
    } else if e.SaveAnswered? {
      NoNewWindow(st, e);
    }
  }

  /** The event decides which window the room has. */
  predicate ForWindowOf(e: Event, room: Room) {
    (e.Open? || e.Close?) && e.room == room
  }

  lemma OpenMoves(st: State, e: Event, room: Room)
    requires room in Apply(st, e).open
    ensures if e.Open? && e.room == room then Apply(st, e).open[room] == e.round
            else room in st.open && Apply(st, e).open[room] == st.open[room] && !ForWindowOf(e, room)
  {
  }

  /** A room's open window is that of the last event that opened one for it, and none was closed since. */
  lemma {:induction false} OpenIsLastOpened(es: seq<Event>, states: seq<State>, n: nat, room: Room) returns (i: nat)
    requires IsRun(es, states) && n < |states| && room in states[n].open
    ensures i < n && es[i].Open? && es[i].room == room && es[i].round == states[n].open[room]
    ensures forall k: nat :: i < k < n ==> !ForWindowOf(es[k], room)
  {
    assert n > 0 && StepAt(es, states, n - 1);
    i := n - 1;
    OpenMoves(states[i], es[i], room);
    if !(es[i].Open? && es[i].room == room) {
      i := OpenIsLastOpened(es, states, n - 1, room);
    }
  }
}
