/** What a queue watch tells its host: an event for every delivery that can be sent,
    or one bare change for every receive that delivered anything. */
module QueueEmission {
  import opened QueueWindow
  import opened QueueSteps
  import opened QueueNumbers
  import opened QueueConservation

  // ---- An event for every delivery ----

  /** Every numbered delivery that can be sent is emitted, but for the one the
      receiver has just put in the window. */
  ghost predicate Told(c: Config, s: State) {
    forall id <- s.seqOf ::
      c.sendable(MsgAt(s.msgOf, id), s.seqOf[id]) ==> id in s.emitted || (s.receiver.Offered? && s.receiver.id == id)
  }

  lemma SendTells(c: Config, s: State)
    requires Numbered(s) && Told(c, s) && s.receiver.Offered?
    ensures Told(c, Sent(c, s))
  {
  }

  lemma ReceiverTells(c: Config, s: State, step: ReceiverStep)
    requires Fresh(s) && Numbered(s) && Told(c, s) && ReceiverCan(c, s, step)
    ensures Told(c, AfterReceiver(c, s, step))
  {
    var s' := AfterReceiver(c, s, step);
    if step.Send? {
      SendTells(c, s);
    } else if step.HoldNext? && s.receiver.hand != [] {
      TakingKeepsFresh(c, s, step);
    } else {
      OthersEmitNothing(c, s, step);
      OthersNumberNothing(c, s, step);
      forall id <- s'.seqOf
        ensures MsgAt(s'.msgOf, id) == MsgAt(s.msgOf, id) && !(s.receiver.Offered? && !s'.receiver.Offered?)
      {
      }
    }
  }

  lemma {:induction false} RunTells(c: Config, s: State, steps: seq<Step>)
    requires Sound(c, s) && Told(c, s) && Runs(c, s, steps)
    ensures Told(c, Final(c, s, steps))
    decreases |steps|
  {
    if steps != [] {
      StepSound(c, s, steps[0]);
      match steps[0] {
        case ByReceiver(r) => ReceiverTells(c, s, r);
        case BySettler(x) => SettlerLeaves(c, s, x);
        case ByOther(o) => OthersLeave(s, o);
      }
      RunTells(c, After(c, s, steps[0]), steps[1..]);
    }
  }

  /** In every interleaving a delivery put in the window is emitted by the time the
      receiver goes on, exactly if its event can be sent. */
  lemma EmittedIff(c: Config, available: set<Msg>, now: nat, steps: seq<Step>, s: State, id: Receipt)
    requires Reached(c, available, now, steps, s) && id in s.seqOf && !(s.receiver.Offered? && s.receiver.id == id)
    ensures id in s.emitted <==> c.sendable(MsgAt(s.msgOf, id), s.seqOf[id])
  {
    StartSound(c, available, now);
    RunTells(c, Start(available, now), steps);
    ReachedSound(c, available, now, steps, s);
  }

  // ---- A bare change for every receive ----

  /** How many receives of the run delivered anything. */
  function CountReceives(steps: seq<Step>): nat {
    if steps == [] then 0
    else One(steps[0].ByReceiver? && steps[0].r.Receive? && steps[0].r.msgs != []) + CountReceives(steps[1..])
  }

  /** A receive was given back because of a stop. */
  ghost predicate GivenBack(s: State) {
    s.receiver.ReleasingHand? || (s.receiver.Returned? && exists call :: call in s.calls && call.why == Stopping)
  }

  /** The receives not told of: the one in hand, or given back. */
  ghost function Untold(s: State): nat {
    One(s.receiver.Got? || s.receiver.AckingHand? || GivenBack(s))
  }

  /** A hand in use is not empty until something of it was settled, and a release
      for a stop ends the receiver. */
  ghost predicate InUse(s: State) {
    && (s.receiver.Got? ==> s.receiver.hand != [])
    && ((exists call :: call in s.calls && call.why == Stopping) ==> s.receiver.ReleasingHand? || s.receiver.Returned?)
    && (s.receiver.ReleasingHand? ==> s.receiver.hand != [] || exists call :: call in s.calls && call.why == Stopping)
  }

  lemma ReleaseInUse(s: State, heard: bool)
    requires InUse(s) && s.receiver.ReleasingHand?
    ensures InUse(HandReleased(s, heard)) && Untold(HandReleased(s, heard)) == 1
  {
    var s' := HandReleased(s, heard);
    if s.receiver.hand != [] {
      assert s'.calls[|s.calls|].why == Stopping && s'.calls[|s.calls|] in s'.calls;
    } else {
      var call :| call in s.calls && call.why == Stopping;
      assert call in s'.calls;
    }
  }

  /** The steps that release nothing. */
  lemma OthersStopNothing(c: Config, s: State, step: ReceiverStep)
    requires ReceiverCan(c, s, step) && !step.ReleaseNext?
    ensures var s' := AfterReceiver(c, s, step);
            (exists call :: call in s'.calls && call.why == Stopping) <==> (exists call :: call in s.calls && call.why == Stopping)
  {
    var s' := AfterReceiver(c, s, step);
    assert s'.calls == s.calls || (|s'.calls| == |s.calls| + 1 && s'.calls == s.calls + [s'.calls[|s.calls|]]
                                   && s'.calls[|s.calls|].why != Stopping);
    if call :| call in s.calls && call.why == Stopping {
      assert call in s'.calls;
    }
  }

  lemma SettlerStopsNothing(c: Config, s: State, step: SettlerStep)
    requires SettlerCan(s, step)
    ensures var s' := AfterSettler(c, s, step);
            (exists call :: call in s'.calls && call.why == Stopping) <==> (exists call :: call in s.calls && call.why == Stopping)
  {
    var s' := AfterSettler(c, s, step);
    assert s'.calls == s.calls || (|s'.calls| == |s.calls| + 1 && s'.calls == s.calls + [s'.calls[|s.calls|]]
                                   && s'.calls[|s.calls|].why != Stopping);
    if call :| call in s.calls && call.why == Stopping {
      assert call in s'.calls;
    }
  }

  lemma ReceiverCounts(c: Config, s: State, step: ReceiverStep)
    requires ReceiverCan(c, s, step) && !c.eventSource && ReceiverReasons(c, s) && InUse(s)
    ensures var s' := AfterReceiver(c, s, step);
            InUse(s') && s'.bare + Untold(s') == s.bare + Untold(s) + One(step.Receive? && step.msgs != [])
  {
    if step.ReleaseNext? {
      ReleaseInUse(s, step.heard);
    } else {
      OthersStopNothing(c, s, step);
    }
  }

  lemma OthersCount(c: Config, s: State, step: Step)
    requires Enabled(c, s, step) && !step.ByReceiver? && InUse(s)
    ensures var s' := After(c, s, step); InUse(s') && s'.bare + Untold(s') == s.bare + Untold(s)
  {
    match step {
      case BySettler(x) =>
        SettlerLeaves(c, s, x);
        SettlerStopsNothing(c, s, x);
        SettlerKeepsConnection(c, s, x);
      case ByOther(o) => OthersLeave(s, o);
    }
  }

  lemma {:induction false} RunCounts(c: Config, s: State, steps: seq<Step>)
    requires Sound(c, s) && !c.eventSource && InUse(s) && Runs(c, s, steps)
    ensures var f := Final(c, s, steps); f.bare + Untold(f) == s.bare + Untold(s) + CountReceives(steps)
    decreases |steps|
  {
    if steps != [] {
      StepSound(c, s, steps[0]);
      if steps[0].ByReceiver? {
        ReceiverCounts(c, s, steps[0].r);
      } else {
        OthersCount(c, s, steps[0]);
      }
      RunCounts(c, After(c, s, steps[0]), steps[1..]);
    }
  }

  /** A resource watch emits one bare change for every receive that delivered
      anything, but for the one whose deliveries are in hand, or were given back
      because the watch was stopped. */
  lemma OneBareChangePerReceive(c: Config, available: set<Msg>, now: nat, steps: seq<Step>, s: State)
    requires Reached(c, available, now, steps, s) && !c.eventSource
    ensures s.bare == CountReceives(steps) - One(s.receiver.Got? || s.receiver.AckingHand? || GivenBack(s))
  {
    StartSound(c, available, now);
    RunCounts(c, Start(available, now), steps);
  }

  // ---- Nothing new once stopped ----

  /** Past its hand: nothing the receiver has could still be emitted. */
  predicate PastOffers(r: Receiver) {
    !r.Offering? && !r.Offered? && !r.Removing? && !r.AckingHand?
  }

  /** What is received after a stop is told to nobody: it is released. */
  lemma {:induction false} StoppedTellsNothing(c: Config, s: State, steps: seq<Step>)
    requires s.stop && PastOffers(s.receiver) && Runs(c, s, steps)
    ensures var f := Final(c, s, steps); f.emitted == s.emitted && f.bare == s.bare && PastOffers(f.receiver)
    decreases |steps|
  {
    if steps != [] {
      match steps[0] {
        case ByReceiver(r) =>
          ReceiverLeaves(c, s, r);
          OthersEmitNothing(c, s, r);
        case BySettler(x) => SettlerLeaves(c, s, x);
        case ByOther(o) => OthersLeave(s, o);
      }
      StoppedTellsNothing(c, After(c, s, steps[0]), steps[1..]);
    }
  }

  // ---- Connecting again ----

  /** Without a connection nothing is received before one is made. */
  lemma {:induction false} ConnectsFirst(c: Config, s: State, steps: seq<Step>)
    requires !s.connected && !s.receiver.LookingForRoom? && !s.receiver.Receiving? && Runs(c, s, steps)
    requires exists i :: 0 <= i < |steps| && steps[i].ByReceiver? && steps[i].r.Receive?
    ensures exists i, j :: 0 <= i < j < |steps| && steps[i] == ByReceiver(Connect(true)) && steps[j].ByReceiver? && steps[j].r.Receive?
    decreases |steps|
  {
    var j :| 0 <= j < |steps| && steps[j].ByReceiver? && steps[j].r.Receive?;
    assert j > 0;
    if steps[0] != ByReceiver(Connect(true)) {
      match steps[0] {
        case ByReceiver(r) =>
        case BySettler(x) =>
          SettlerLeaves(c, s, x);
          SettlerKeepsConnection(c, s, x);
        case ByOther(o) => OthersLeave(s, o);
      }
      assert steps[1..][j - 1] == steps[j];
      ConnectsFirst(c, After(c, s, steps[0]), steps[1..]);
      var i, k :| 0 <= i < k < |steps[1..]| && steps[1..][i] == ByReceiver(Connect(true)) && steps[1..][k].ByReceiver? && steps[1..][k].r.Receive?;
      assert steps[i + 1] == steps[1..][i] && steps[k + 1] == steps[1..][k];
    }
  }

  lemma SettlerKeepsConnection(c: Config, s: State, step: SettlerStep)
    requires SettlerCan(s, step)
    ensures AfterSettler(c, s, step).connected == s.connected && AfterSettler(c, s, step).bare == s.bare
  {
  }

  /** After a receive failed, and at the start, the next receive comes after a
      connection was made. */
  lemma FailureReconnects(c: Config, s: State, steps: seq<Step>)
    requires (s.receiver.Receiving? && Runs(c, s, [ByReceiver(ReceiveFails)] + steps))
             || (exists available, now :: s == Start(available, now) && Runs(c, s, steps))
    requires exists i :: 0 <= i < |steps| && steps[i].ByReceiver? && steps[i].r.Receive?
    ensures exists i, j :: 0 <= i < j < |steps| && steps[i] == ByReceiver(Connect(true)) && steps[j].ByReceiver? && steps[j].r.Receive?
  {
    if s.receiver.Receiving? {
      assert ([ByReceiver(ReceiveFails)] + steps)[1..] == steps;
      ConnectsFirst(c, After(c, s, ByReceiver(ReceiveFails)), steps);
    } else {
      ConnectsFirst(c, s, steps);
    }
  }
}
