/** The answer service as an object whose handlers update its maps; each one takes exactly its step. */
module AnswerService {
  import opened Common
  import opened AnswerWindow
  import opened AnswerRuns

  class Service {
    var open: map<Room, Round>
    var windows: map<Round, Window>
    var connected: map<Room, set<Client>>
    var out: seq<Output>

    function Now(): State
      reads this
    {
      State(open, windows, connected, out)
    }

    ghost predicate Valid()
      reads this
    {
      Inv(Now())
    }

    constructor ()
      ensures Valid() && Now() == EMPTY
    {
      open, windows, connected, out := map[], map[], map[], [];
    }

    method Ack(o: Output)
      modifies `out
      ensures Now() == Emit(old(Now()), o)
    {
      out := out + [o];
    }

    /** Marks the client and starts the save, before anything else can run. */
    method PersistSubmission(r: Round, s: Save)
      requires r in windows
      modifies `windows
      ensures Now() == With(old(Now()), r, StartSave(old(windows[r]), s))
    {
      windows := windows[r := StartSave(windows[r], s)];
    }

    method OnWindowOpened(room: Room, r: Round, mode: Mode, kind: string, options: set<string>)
      requires Valid() && r !in windows
      modifies this
      ensures Valid() && Now() == OpenStep(old(Now()), room, r, mode, kind, options)
    {
      OpenKeeps(Now(), room, r, mode, kind, options);
      open := open[room := r];
      windows := windows[r := NewWindow(room, mode, kind, options)];
    }

    method OnWindowClosed(room: Room)
      requires Valid()
      modifies `open
      ensures Valid() && Now() == CloseStep(old(Now()), room)
    {
      CloseKeeps(Now(), room);
      open := open - {room};
    }

    method OnConnected(room: Room, clients: set<Client>)
      requires Valid()
      modifies `connected
      ensures Valid() && Now() == old(Now()).(connected := old(connected)[room := clients])
    {
      connected := connected[room := clients];
    }

    method Submit(c: Client, room: Room, option: string, timeMs: int)
      requires Valid()
      modifies this
      ensures Valid() && Now() == SubmitStep(old(Now()), c, room, option, timeMs)
    {
      SubmitStepKeeps(Now(), c, room, option, timeMs);
      if room !in open || open[room] !in windows {
        Ack(Rejected(c, WindowClosed));
        return;
      }
      var w := windows[open[room]];
      if w.mode != Quiz {
        Ack(Rejected(c, InvalidAnswer));
        return;
      }
      if option !in w.options {
        Ack(Rejected(c, InvalidAnswer));
        return;
      }
      if c in w.submitted {
        Ack(Rejected(c, AlreadyAnswered));
        return;
      }
      PersistSubmission(open[room], Save(c, Answer(option, timeMs), None));
    }

    method SubmitRound(c: Client, room: Room, r: Round, kind: string, valid: bool, a: Answer)
      requires Valid()
      modifies this
      ensures Valid() && Now() == SubmitRoundStep(old(Now()), c, room, r, kind, valid, a)
    {
      SubmitRoundStepKeeps(Now(), c, room, r, kind, valid, a);
      if room !in open || open[room] !in windows {
        Ack(Rejected(c, WindowClosed));
        return;
      }
      var w := windows[open[room]];
      if w.mode != Minigame || r != open[room] || kind != w.kind {
        Ack(Rejected(c, InvalidAnswer));
        return;
      }
      if !valid {
        Ack(Rejected(c, InvalidAnswer));
        return;
      }
      if c in w.submitted {
        Ack(Rejected(c, AlreadyAnswered));
        return;
      }
      PersistSubmission(r, Save(c, a, None));
    }

    method UpdateRoundProgress(c: Client, room: Room, r: Round, kind: string, valid: bool, a: Answer)
      requires Valid()
      modifies `windows
      ensures Valid() && Now() == ProgressStep(old(Now()), c, room, r, kind, valid, a)
    {
      ProgressStepKeeps(Now(), c, room, r, kind, valid, a);
      ghost var goal := ProgressStep(Now(), c, room, r, kind, valid, a);
      if !AcceptsProgress(Now(), c, room, r, kind) {
        return;
      }
      if !valid {
        return;
      }
      windows := windows[r := SetProgress(windows[r], c, a)];
      assert Now() == goal;
    }

    /** The loop over the progress map, from place `k` until it awaits a save or runs out of entries. */
    method PersistProgressSnapshots(r: Round, k: nat) returns (done: bool)
      requires r in windows
      modifies `windows
      ensures done == LoopDone(old(windows[r]), k)
      ensures windows == if done then old(windows) else old(windows)[r := Resume(old(windows[r]), k)]
    {
      var w := windows[r];
      if w.mode != Minigame {
        return true;
      }
      var i := k;
      while i < |w.order| && w.order[i] in w.submitted
        invariant k <= i
        invariant NextUnsubmitted(w.order, w.submitted, k) == NextUnsubmitted(w.order, w.submitted, i)
        decreases |w.order| - i
      {
        i := i + 1;
      }
      if i >= |w.order| {
        return true;
      }
      PersistSubmission(r, Save(w.order[i], LastProgress(w, w.order[i]), Some(i)));
      return false;
    }

    /** A finalization from place `k`: the loop, and at its end the deletion and the report. */
    method FinalizeFrom(r: Round, k: nat)
      requires r in windows
      modifies this
      ensures Now() == ResumeStep(old(Now()), r, k)
    {
      var room := windows[r].room;
      var done := PersistProgressSnapshots(r, k);
      if done {
        windows := windows[r := windows[r].(ended := true)];
        open := open - {room};
        Ack(WindowFinalized(room, r));
      }
    }

    method FinalizeWindow(room: Room, r: Round)
      requires Valid()
      modifies this
      ensures Valid() && Now() == FinalizeStep(old(Now()), room, r)
    {
      FinalizeStepKeeps(Now(), room, r);
      if room !in open || open[room] != r || r !in windows {
        Ack(WindowFinalized(room, r));
        return;
      }
      FinalizeFrom(r, 0);
    }

    /** What a submission tells once its row is stored. */
    method TellAccepted(r: Round, c: Client)
      requires r in windows
      modifies `out
      ensures Now() == TellStored(old(Now()), r, c)
    {
      var w := windows[r];
      var people := ConnectedIn(Now(), w.room);
      Ack(Accepted(c));
      Ack(AnswerCount(w.room, |w.submitted|, |people|));
      if CountsSayAll(people, w.submitted) {
        Ack(AllPlayersAnswered(w.room, r));
      }
    }

    /** The handler that awaited a save goes on. */
    method AfterSave(r: Round, s: Save, ok: bool, taken: bool)
      requires r in windows
      modifies this
      ensures Now() == GoOn(old(Now()), r, s, ok, taken)
    {
      if s.pos.Some? {
        FinalizeFrom(r, s.pos.value + 1);
      } else if !ok {
        Ack(Rejected(s.client, ServerError));
      } else if taken {
        Ack(Rejected(s.client, AlreadyAnswered));
      } else {
        TellAccepted(r, s.client);
      }
    }

    /** The database answers a save. */
    method OnSaveAnswered(r: Round, id: nat, ok: bool)
      requires Valid()
      modifies this
      ensures Valid() && Now() == SaveStep(old(Now()), r, id, ok)
    {
      SaveKeeps(Now(), r, id, ok);
      if r !in windows || id !in windows[r].saves {
        return;
      }
      var w := windows[r];
      windows := windows[r := Settle(w, id, ok)];
      AfterSave(r, w.saves[id], ok, w.saves[id].client in w.rows);
    }
  }
}
