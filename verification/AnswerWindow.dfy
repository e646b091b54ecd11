/** The answer window of one round: the steps its handlers take between two awaits, and the invariant
    that ties the window to the answer table.

    A save in flight keeps the window object it started from, so the windows of different rounds never
    touch each other's maps; a round is opened once, and its window and its rows are one record here. */
module AnswerWindow {
  import opened Common

  type Client = nat
  type Room = nat
  type Round = nat

  datatype Mode = Quiz | Minigame

  datatype Answer = Answer(value: string, timeMs: int)

  /** A save in flight, of a submission, or of the entry at place `pos` of the progress map by a
      finalization. */
  datatype Save = Save(client: Client, answer: Answer, pos: Option<nat>)

  /** `order` lists the clients with progress in the order in which the progress map iterates.  `rows` is
      the answer table at this round.  `manual`, `failed` and `ended` record history: the submissions
      accepted and not yet refused, the clients whose last answered save failed, and whether a
      finalization that found this window ran to its end. */
  datatype Window = Window(
    room: Room,
    mode: Mode,
    kind: string,
    options: set<string>,
    submitted: map<Client, string>,
    progress: map<Client, Answer>,
    order: seq<Client>,
    rows: map<Client, Answer>,
    saves: map<nat, Save>,
    next: nat,
    manual: map<Client, Answer>,
    failed: set<Client>,
    ended: bool)

  function NewWindow(room: Room, mode: Mode, kind: string, options: set<string>): Window {
    Window(room, mode, kind, options, map[], map[], [], map[], map[], 0, map[], {}, false)
  }

  // ---------- the steps ----------

  /** Setting a client's progress keeps the place of an entry there was, and appends a new one. */
  function SetProgress(w: Window, c: Client, a: Answer): Window {
    w.(progress := w.progress[c := a], order := if c in w.progress then w.order else w.order + [c])
  }

  /** The place from `k` on of the first client who has not submitted. */
  function NextUnsubmitted(order: seq<Client>, submitted: map<Client, string>, k: nat): nat
    decreases |order| - k
  {
    if k < |order| && order[k] in submitted then NextUnsubmitted(order, submitted, k + 1) else k
  }

  lemma {:induction false} NextUnsubmittedExact(order: seq<Client>, submitted: map<Client, string>, k: nat)
    requires k <= |order|
    ensures var i := NextUnsubmitted(order, submitted, k);
            && k <= i <= |order| && (i < |order| ==> order[i] !in submitted)
            && forall j :: k <= j < i ==> order[j] in submitted
    decreases |order| - k
  {
    if k < |order| && order[k] in submitted {
      NextUnsubmittedExact(order, submitted, k + 1);
    }
  }

  /** Marks the client as having submitted and starts the save. */
  function StartSave(w: Window, s: Save): Window {
    w.(submitted := w.submitted[s.client := s.answer.value],
       saves := w.saves[w.next := s],
       next := w.next + 1,
       manual := if s.pos.None? then w.manual[s.client := s.answer] else w.manual)
  }

  /** The loop of a finalization finds nothing left to save from place `k` on. */
  predicate LoopDone(w: Window, k: nat) {
    w.mode != Minigame || NextUnsubmitted(w.order, w.submitted, k) >= |w.order|
  }

  /** The last progress of a client; one without any has an empty answer. */
  function LastProgress(w: Window, c: Client): Answer {
    if c in w.progress then w.progress[c] else Answer("", 0)
  }

  /** The loop of a finalization, from place `k` to its next await or to its end. */
  function Resume(w: Window, k: nat): Window {
    if LoopDone(w, k) then w.(ended := true)
    else
      var i := NextUnsubmitted(w.order, w.submitted, k);
      StartSave(w, Save(w.order[i], LastProgress(w, w.order[i]), Some(i)))
  }

  /** The database answered the save: the row is stored unless the unique index already holds one, or
      the save failed and the client counts as not having submitted. */
  function Settle(w: Window, id: nat, ok: bool): Window
    requires id in w.saves
  {
    var s := w.saves[id];
    var rest := w.(saves := w.saves - {id});
    if !ok then rest.(submitted := w.submitted - {s.client}, manual := w.manual - {s.client},
                      failed := w.failed + {s.client})
    else if s.client in w.rows then rest.(failed := w.failed - {s.client})
    else rest.(rows := w.rows[s.client := s.answer], failed := w.failed - {s.client})
  }

  // ---------- the invariant ----------

  /** The answer that counts for a client: the submission if one was accepted, else the last progress. */
  predicate IsDue(w: Window, c: Client, a: Answer) {
    if c in w.manual then a == w.manual[c] else c in w.progress && a == w.progress[c]
  }

  predicate CoveredAt(w: Window, i: nat)
    requires i < |w.order|
  {
    w.order[i] in w.submitted || w.order[i] in w.failed
  }

  /** The clients of the first `k` progress entries have submitted, or their last save failed. */
  ghost predicate Covered(w: Window, k: nat) {
    k <= |w.order| && forall i: nat :: i < k ==> CoveredAt(w, i)
  }

  /** A save in flight is its client's only one, and carries the answer that counts. */
  ghost predicate SaveOk(w: Window, id: nat)
    requires id in w.saves
  {
    var s := w.saves[id];
    && id < w.next
    && s.client in w.submitted && w.submitted[s.client] == s.answer.value
    && s.client !in w.rows
    && IsDue(w, s.client, s.answer)
    && (s.pos.Some? ==> Covered(w, s.pos.value + 1))
  }

  predicate RowOk(w: Window, c: Client)
    requires c in w.rows
  {
    c in w.submitted && w.submitted[c] == w.rows[c].value && IsDue(w, c, w.rows[c])
  }

  predicate SavedBy(w: Window, c: Client, id: nat) {
    id in w.saves && w.saves[id].client == c
  }

  /** The client has a row, or a save in flight. */
  ghost predicate Held(w: Window, c: Client) {
    c in w.rows || exists id :: SavedBy(w, c, id)
  }

  ghost predicate AllHeld(w: Window) {
    forall c :: c in w.submitted ==> Held(w, c)
  }

  ghost predicate OneEach(w: Window) {
    forall i, j, c :: SavedBy(w, c, i) && SavedBy(w, c, j) ==> i == j
  }

  /** The progress map and the order of its entries agree, and only minigame windows have any. */
  predicate Listed(w: Window) {
    && (forall c :: c in w.progress ==> c in w.order)
    && (forall c :: c in w.order ==> c in w.progress)
    && (w.mode == Quiz ==> w.order == [])
  }

  ghost predicate Good(w: Window) {
    && Listed(w)
    && (forall id :: id in w.saves ==> SaveOk(w, id))
    && OneEach(w)
    && (forall c :: c in w.rows ==> RowOk(w, c))
    && AllHeld(w)
    && (forall c :: c in w.manual ==> c in w.submitted)
    && (forall c :: c in w.failed ==> c !in w.rows)
    && (w.ended ==> Covered(w, |w.order|))
  }

  // ---------- every step keeps it ----------

  lemma NewWindowGood(room: Room, mode: Mode, kind: string, options: set<string>)
    ensures Good(NewWindow(room, mode, kind, options))
  {
  }

  /** Covered entries stay covered while no client leaves the submitted and failed ones. */
  lemma CoverStays(w: Window, v: Window, k: nat)
    requires Covered(w, k) && w.order <= v.order
    requires forall c :: c in w.submitted || c in w.failed ==> c in v.submitted || c in v.failed
    ensures Covered(v, k)
  {
    forall i: nat | i < k ensures CoveredAt(v, i) {
      assert CoveredAt(w, i);
    }
  }

  lemma HeldStays(w: Window, v: Window, c: Client)
    requires Held(w, c)
    requires forall x :: x in w.rows ==> x in v.rows
    requires forall id :: SavedBy(w, c, id) ==> SavedBy(v, c, id)
    ensures Held(v, c)
  {
    if c !in w.rows {
      var id :| SavedBy(w, c, id);
      assert SavedBy(v, c, id);
    }
  }

  /** Progress is accepted of clients who have not submitted, while no finalization has ended. */
  lemma ProgressKeeps(w: Window, c: Client, a: Answer)
    requires Good(w) && c !in w.submitted && w.mode == Minigame && !w.ended
    ensures Good(SetProgress(w, c, a))
  {
    var v := SetProgress(w, c, a);
    forall id | id in v.saves ensures SaveOk(v, id) {
      assert SaveOk(w, id);
      if v.saves[id].pos.Some? { CoverStays(w, v, v.saves[id].pos.value + 1); }
    }
    forall i, j, x | SavedBy(v, x, i) && SavedBy(v, x, j) ensures i == j {
      assert SavedBy(w, x, i) && SavedBy(w, x, j);
    }
    forall x | x in v.rows ensures RowOk(v, x) {
      assert RowOk(w, x);
    }
    forall x | x in v.submitted ensures Held(v, x) {
      HeldStays(w, v, x);
    }
    forall x | x in v.progress ensures x in v.order {
      if x == c && c !in w.progress { assert v.order[|w.order|] == c; }
    }
  }

  /** What a handler has checked when it starts a save. */
  ghost predicate MayStart(w: Window, s: Save) {
    && s.client !in w.submitted
    && match s.pos
       case None => true
       case Some(k) =>
         && k < |w.order| && w.order[k] == s.client
         && s.client in w.progress && s.answer == w.progress[s.client]
         && Covered(w, k)
  }

  lemma StartFresh(w: Window, s: Save)
    requires Good(w) && MayStart(w, s)
    ensures s.client !in w.rows && s.client !in w.manual && w.next !in w.saves
    ensures forall id :: !SavedBy(w, s.client, id)
  {
    assert s.client in w.rows ==> RowOk(w, s.client);
    assert w.next in w.saves ==> SaveOk(w, w.next);
    forall id ensures !SavedBy(w, s.client, id) {
      assert id in w.saves ==> SaveOk(w, id);
    }
  }

  lemma StartSaveOk(w: Window, s: Save, id: nat)
    requires Good(w) && MayStart(w, s) && id in StartSave(w, s).saves
    ensures SaveOk(StartSave(w, s), id)
  {
    var v := StartSave(w, s);
    StartFresh(w, s);
    if id == w.next {
      if s.pos.Some? {
        CoverStays(w, v, s.pos.value);
        assert CoveredAt(v, s.pos.value);
      }
    } else {
      assert SaveOk(w, id);
      assert SavedBy(w, w.saves[id].client, id);
      if v.saves[id].pos.Some? { CoverStays(w, v, v.saves[id].pos.value + 1); }
    }
  }

  lemma StartOneEach(w: Window, s: Save)
    requires Good(w) && MayStart(w, s)
    ensures OneEach(StartSave(w, s))
  {
    var v := StartSave(w, s);
    StartFresh(w, s);
    forall i, j, x | SavedBy(v, x, i) && SavedBy(v, x, j) ensures i == j {
      assert i != w.next ==> SavedBy(w, x, i);
      assert j != w.next ==> SavedBy(w, x, j);
    }
  }

  lemma StartKeeps(w: Window, s: Save)
    requires Good(w) && MayStart(w, s)
    ensures Good(StartSave(w, s))
  {
    var v := StartSave(w, s);
    StartFresh(w, s);
    StartOneEach(w, s);
    forall id | id in v.saves ensures SaveOk(v, id) {
      StartSaveOk(w, s, id);
    }
    forall x | x in v.rows ensures RowOk(v, x) {
      assert RowOk(w, x);
    }
    forall x | x in v.submitted ensures Held(v, x) {
      if x == s.client { assert SavedBy(v, x, w.next); } else { HeldStays(w, v, x); }
    }
    if v.ended { CoverStays(w, v, |w.order|); }
  }

  /** A finalization may go on from place `k` once the entries before it are covered. */
  lemma ResumeKeeps(w: Window, k: nat)
    requires Good(w) && Covered(w, k)
    ensures Good(Resume(w, k))
  {
    NextUnsubmittedExact(w.order, w.submitted, k);
    var i := NextUnsubmitted(w.order, w.submitted, k);
    forall j: nat | j < i ensures CoveredAt(w, j) {
      assert j < k || w.order[j] in w.submitted;
    }
    if LoopDone(w, k) {
      EndKeeps(w);
    } else {
      assert w.order[i] in w.progress;
      StartKeeps(w, Save(w.order[i], LastProgress(w, w.order[i]), Some(i)));
    }
  }

  lemma EndKeeps(w: Window)
    requires Good(w) && Covered(w, |w.order|)
    ensures Good(w.(ended := true))
  {
    var v := w.(ended := true);
    forall id | id in v.saves ensures SaveOk(v, id) {
      assert SaveOk(w, id);
      if v.saves[id].pos.Some? { CoverStays(w, v, v.saves[id].pos.value + 1); }
    }
    forall i, j, x | SavedBy(v, x, i) && SavedBy(v, x, j) ensures i == j {
      assert SavedBy(w, x, i) && SavedBy(w, x, j);
    }
    forall x | x in v.rows ensures RowOk(v, x) {
      assert RowOk(w, x);
    }
    forall x | x in v.submitted ensures Held(v, x) {
      HeldStays(w, v, x);
    }
    CoverStays(w, v, |w.order|);
  }

  /** A save never meets a row of its client, so the unique index never refuses one. */
  lemma NoUniqueViolation(w: Window, id: nat)
    requires Good(w) && id in w.saves
    ensures w.saves[id].client !in w.rows
  {
    assert SaveOk(w, id);
  }

  lemma SettleSaveOk(w: Window, id: nat, ok: bool, j: nat)
    requires Good(w) && id in w.saves && j in w.saves && j != id
    ensures SaveOk(Settle(w, id, ok), j)
  {
    var v := Settle(w, id, ok);
    var s := w.saves[j];
    assert SaveOk(w, j) && SaveOk(w, id);
    assert s.client != w.saves[id].client by {
      assert SavedBy(w, s.client, j);
      assert s.client == w.saves[id].client ==> SavedBy(w, s.client, id);
    }
    assert v.saves[j] == s;
    if s.pos.Some? { CoverStays(w, v, s.pos.value + 1); }
  }

  lemma SettleRowOk(w: Window, id: nat, ok: bool, c: Client)
    requires Good(w) && id in w.saves && c in Settle(w, id, ok).rows
    ensures RowOk(Settle(w, id, ok), c)
  {
    assert SaveOk(w, id);
    if c in w.rows {
      assert RowOk(w, c);
    }
  }

  lemma SettleHeld(w: Window, id: nat, ok: bool, c: Client)
    requires Good(w) && id in w.saves && c in Settle(w, id, ok).submitted
    ensures Held(Settle(w, id, ok), c)
  {
    var v := Settle(w, id, ok);
    assert Held(w, c);
    if c !in v.rows {
      var j :| SavedBy(w, c, j);
      assert SavedBy(v, c, j);
    }
  }

  /** Whether it succeeds or fails, settling a save keeps the invariant. */
  lemma SettleKeeps(w: Window, id: nat, ok: bool)
    requires Good(w) && id in w.saves
    ensures Good(Settle(w, id, ok))
  {
    var v := Settle(w, id, ok);
    forall j | j in v.saves ensures SaveOk(v, j) {
      SettleSaveOk(w, id, ok, j);
    }
    forall i, j, x | SavedBy(v, x, i) && SavedBy(v, x, j) ensures i == j {
      assert SavedBy(w, x, i) && SavedBy(w, x, j);
    }
    forall x | x in v.rows ensures RowOk(v, x) {
      SettleRowOk(w, id, ok, x);
    }
    forall x | x in v.submitted ensures Held(v, x) {
      SettleHeld(w, id, ok, x);
    }
    if v.ended { CoverStays(w, v, |w.order|); }
  }

  /** After a finalization's own save, the entries up to it are covered. */
  lemma SettleCovers(w: Window, id: nat, ok: bool)
    requires Good(w) && id in w.saves && w.saves[id].pos.Some?
    ensures Covered(Settle(w, id, ok), w.saves[id].pos.value + 1)
  {
    assert SaveOk(w, id);
    CoverStays(w, Settle(w, id, ok), w.saves[id].pos.value + 1);
  }

  // ---------- what the invariant says ----------

  /** A client counts as having submitted exactly when one row or one save in flight holds the value;
      there are never two. */
  lemma SubmittedIsHeldOnce(w: Window, c: Client)
    requires Good(w)
    ensures c in w.submitted <==> Held(w, c)
    ensures c in w.rows ==> w.rows[c].value == w.submitted[c] && forall id :: !SavedBy(w, c, id)
    ensures forall id :: SavedBy(w, c, id) ==> w.saves[id].answer.value == w.submitted[c]
    ensures forall i, j :: SavedBy(w, c, i) && SavedBy(w, c, j) ==> i == j
  {
    assert c in w.rows ==> RowOk(w, c);
    forall id | SavedBy(w, c, id)
      ensures c !in w.rows && c in w.submitted && w.saves[id].answer.value == w.submitted[c]
    {
      assert SaveOk(w, id);
    }
  }

  /** Once a finalization has ended and no save is in flight, the table holds the submission accepted of
      each client, or else its last progress; and of those who submitted or sent progress, exactly the
      clients whose last save failed are missing. */
  lemma EndedHoldsEveryAnswer(w: Window, c: Client)
    requires Good(w) && w.ended && w.saves == map[]
    ensures c in w.rows <==> (c in w.manual || c in w.progress) && c !in w.failed
    ensures c in w.rows ==> w.rows[c] == if c in w.manual then w.manual[c] else w.progress[c]
  {
    assert c in w.rows ==> RowOk(w, c);
    if c !in w.manual && c in w.progress {
      var i: nat :| i < |w.order| && w.order[i] == c;
      assert CoveredAt(w, i);
    }
    assert c in w.submitted ==> Held(w, c);
  }
}
