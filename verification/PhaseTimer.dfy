/** The countdown the game loop waits on: it ticks once a second and settles once. */
module PhaseTimer {
  import opened Common

  datatype Outcome = Expired | EndedEarly | Aborted

  /** One call of `start`: what it was asked for, the ticks it sent, and what its promise resolved to. */
  datatype Countdown = Countdown(seconds: int, ticks: seq<int>, outcome: Option<Outcome>)

  /** Every countdown there has been, and the one whose interval runs. */
  datatype Clock = Clock(starts: seq<Countdown>, running: Option<nat>)

  const IDLE := Clock([], None)

  datatype Op = Start(seconds: int) | Fire | EndEarly | Cancel

  function Settled(c: Clock, o: Outcome): Clock
    requires c.running.Some? ==> c.running.value < |c.starts|
  {
    match c.running
    case None => c
    case Some(p) => Clock(c.starts[p := c.starts[p].(outcome := Some(o))], None)
  }

  function Fired(c: Clock): Clock
    requires c.running.Some? ==> c.running.value < |c.starts|
  {
    match c.running
    case None => c
    case Some(p) =>
      var d := c.starts[p];
      var remaining := d.seconds - |d.ticks| - 1;
      var next := c.(starts := c.starts[p := d.(ticks := d.ticks + [remaining])]);
      if remaining <= 0 then Settled(next, Expired) else next
  }

  /** A second start forgets the first one's promise, which then never resolves. */
  function Started(c: Clock, seconds: int): Clock {
    Clock(c.starts + [Countdown(seconds, [], None)], Some(|c.starts|))
  }

  function Apply(c: Clock, op: Op): Clock
    requires c.running.Some? ==> c.running.value < |c.starts|
  {
    match op
    case Start(seconds) => Started(c, seconds)
    case Fire => Fired(c)
    case EndEarly => Settled(c, EndedEarly)
    case Cancel => Settled(c, Aborted)
  }

  // ---------- what every countdown keeps ----------

  /** Ticks a countdown sends before it expires: one a second, and one even for no time at all. */
  function Limit(seconds: int): nat {
    if seconds < 1 then 1 else seconds
  }

  /** The ticks count down without a gap, and the countdown has expired exactly when all have been sent. */
  ghost predicate CountsDown(d: Countdown) {
    && (forall k :: 0 <= k < |d.ticks| ==> d.ticks[k] == d.seconds - 1 - k)
    && |d.ticks| <= Limit(d.seconds)
    && (d.outcome == Some(Expired) <==> |d.ticks| == Limit(d.seconds))
  }

  /** Only the last countdown may be running, and it has not settled. */
  ghost predicate Good(c: Clock) {
    && (forall p :: 0 <= p < |c.starts| ==> CountsDown(c.starts[p]))
    && (c.running.Some? ==> c.running.value == |c.starts| - 1 && c.starts[c.running.value].outcome == None)
  }

  lemma ApplyKeeps(c: Clock, op: Op)
    requires Good(c)
    ensures Good(Apply(c, op))
  {
    if c.running.Some? {
      assert CountsDown(c.starts[c.running.value]);
    }
  }

  /** The next tick, which is the last one when the time is up. */
  function Ticked(d: Countdown): Countdown {
    Countdown(d.seconds, d.ticks + [d.seconds - |d.ticks| - 1],
              if |d.ticks| + 1 == Limit(d.seconds) then Some(Expired) else None)
  }

  /** One tick of the countdown that runs, which is the last one started. */
  lemma FireTicks(c: Clock)
    requires Good(c) && c.running.Some?
    ensures var last := |c.starts| - 1;
            var d, r := c.starts[last], Fired(c);
            && |r.starts| == |c.starts|
            && r.starts[last] == Ticked(d)
            && (r.running.Some? <==> r.starts[last].outcome == None)
  {
    assert CountsDown(c.starts[|c.starts| - 1]);
  }

  /** A countdown that is not running is never touched again: no tick after it settled, no second
      outcome. */
  lemma OnlyRunningChanges(c: Clock, op: Op, p: nat)
    requires Good(c) && p < |c.starts| && c.running != Some(p)
    ensures p < |Apply(c, op).starts| && Apply(c, op).starts[p] == c.starts[p] && Apply(c, op).running != Some(p)
  {
  }

  function After(c: Clock, ops: seq<Op>, k: nat): (r: Clock)
    requires Good(c) && k <= |ops|
    ensures Good(r)
  {
    if k == 0 then c else
      ApplyKeeps(After(c, ops, k - 1), ops[k - 1]);
      Apply(After(c, ops, k - 1), ops[k - 1])
  }

  /** Over any sequence of calls and ticks: a countdown that has settled or was replaced keeps its ticks
      and its outcome for good. */
  lemma {:induction false} DoneIsDone(c: Clock, ops: seq<Op>, k: nat, p: nat)
    requires Good(c) && k <= |ops| && p < |c.starts| && c.running != Some(p)
    ensures p < |After(c, ops, k).starts| && After(c, ops, k).starts[p] == c.starts[p]
    ensures After(c, ops, k).running != Some(p)
  {
    if k > 0 {
      DoneIsDone(c, ops, k - 1, p);
      OnlyRunningChanges(After(c, ops, k - 1), ops[k - 1], p);
    }
  }

  /** Left alone, a countdown expires after exactly its number of ticks. */
  lemma {:induction false} LeftAloneItExpires(c: Clock, ops: seq<Op>, k: nat)
    requires Good(c) && k <= |ops| && forall i :: 0 <= i < |ops| ==> ops[i] == Fire
    requires c.running.Some?
    ensures var p := c.running.value;
            var d := c.starts[p];
            var r := After(c, ops, k);
            && |r.starts| == |c.starts|
            && |r.starts[p].ticks| == (if |d.ticks| + k < Limit(d.seconds) then |d.ticks| + k else Limit(d.seconds))
            && r.running == (if |d.ticks| + k < Limit(d.seconds) then Some(p) else None)
            && r.starts[p].seconds == d.seconds
  {
    assert CountsDown(c.starts[c.running.value]);
    if k > 0 {
      LeftAloneItExpires(c, ops, k - 1);
      var before := After(c, ops, k - 1);
      assert ops[k - 1] == Fire;
      assert CountsDown(before.starts[c.running.value]);
    }
  }

  /** The timer itself.  `interval` names the countdown whose callback the running interval calls, and
      `remaining` is the variable that callback closes over. */
  class Timer {
    var interval: Option<nat>
    var remaining: int
    var resolveFn: Option<nat>
    var starts: seq<Countdown>

    function Now(): Clock
      reads this
    {
      Clock(starts, resolveFn)
    }

    ghost predicate Valid()
      reads this
    {
      && Good(Now())
      && interval == resolveFn
      && (interval.Some? ==> remaining == starts[interval.value].seconds - |starts[interval.value].ticks|)
    }

    constructor ()
      ensures Valid() && Now() == IDLE
    {
      interval, remaining, resolveFn, starts := None, 0, None, [];
    }

    method Clear()
      modifies this
      ensures interval == None && resolveFn == None && starts == old(starts) && remaining == old(remaining)
    {
      if interval.Some? {
        interval := None;
      }
      resolveFn := None;
    }

    method Start(seconds: int)
      requires Valid()
      modifies this
      ensures Valid() && Now() == Started(old(Now()), seconds)
    {
      ApplyKeeps(Now(), Op.Start(seconds));
      Clear();
      remaining := seconds;
      starts := starts + [Countdown(seconds, [], None)];
      resolveFn := Some(|starts| - 1);
      interval := Some(|starts| - 1);
    }

    method Settle(outcome: Outcome)
      requires resolveFn.Some? ==> resolveFn.value < |starts|
      modifies this
      ensures Now() == Settled(old(Now()), outcome)
      ensures old(resolveFn).Some? ==> interval == None
      ensures old(resolveFn).None? ==> interval == old(interval)
      ensures remaining == old(remaining)
    {
      var resolve := resolveFn;
      if resolve.None? {
        return;
      }
      Clear();
      starts := starts[resolve.value := starts[resolve.value].(outcome := Some(outcome))];
    }

    /** The interval calls back; a cleared one does not. */
    method OnInterval() returns (tick: Option<int>)
      requires Valid()
      modifies this
      ensures Valid() && Now() == Fired(old(Now()))
      ensures tick == if old(interval).Some? then Some(old(remaining) - 1) else None
    {
      ApplyKeeps(Now(), Fire);
      if interval.None? {
        return None;
      }
      var p := interval.value;
      remaining := remaining - 1;
      tick := Some(remaining);
      starts := starts[p := starts[p].(ticks := starts[p].ticks + [remaining])];
      if remaining <= 0 {
        Settle(Expired);
      }
    }

    method EndEarly()
      requires Valid()
      modifies this
      ensures Valid() && Now() == Settled(old(Now()), EndedEarly)
    {
      ApplyKeeps(Now(), Op.EndEarly);
      Settle(EndedEarly);
    }

    method Cancel()
      requires Valid()
      modifies this
      ensures Valid() && Now() == Settled(old(Now()), Aborted)
    {
      ApplyKeeps(Now(), Op.Cancel);
      Settle(Aborted);
    }
  }
}
