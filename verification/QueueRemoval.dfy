/** Exactly when a delivery whose event cannot be sent is called about twice: when
    the settler took it out of the window before the receiver could take it back. */
module QueueRemoval {
  import opened QueueWindow
  import opened QueueSteps
  import opened QueueNumbers
  import opened QueueConservation

  /** Held, and its event cannot be sent. */
  ghost predicate CannotSend(c: Config, s: State, id: Receipt) {
    id in s.seqOf && !c.sendable(MsgAt(s.msgOf, id), s.seqOf[id])
  }

  /** The settler takes the delivery out: it expired, or its number was
      acknowledged. */
  ghost predicate SettlerTakes(c: Config, s: State, step: Step, id: Receipt)
    requires Enabled(c, s, step)
  {
    step.BySettler? && CountHeld(After(c, s, step).window.pending, id) < CountHeld(s.window.pending, id)
  }

  /** Some step of the run is the settler taking the delivery out. */
  ghost predicate SettlerTook(c: Config, s: State, steps: seq<Step>, id: Receipt)
    requires Runs(c, s, steps)
    decreases |steps|
  {
    steps != [] && (SettlerTakes(c, s, steps[0], id) || SettlerTook(c, After(c, s, steps[0]), steps[1..], id))
  }

  function CountExtra(calls: seq<Call>, id: Receipt): nat {
    if calls == [] then 0
    else CountExtra(calls[..|calls| - 1], id) + One(calls[|calls| - 1].id == id && calls[|calls| - 1].extra)
  }

  lemma {:induction false} CallsAreBoth(calls: seq<Call>, id: Receipt)
    ensures CountCalls(calls, id) == CountSettled(calls, id) + CountExtra(calls, id)
  {
    if calls != [] {
      CallsAreBoth(calls[..|calls| - 1], id);
    }
  }

  lemma CountExtraCall(calls: seq<Call>, call: Call, id: Receipt)
    ensures CountExtra(calls + [call], id) == CountExtra(calls, id) + One(call.id == id && call.extra)
  {
    assert (calls + [call])[..|calls|] == calls;
  }

  /** The receiver has put the delivery in the window and not yet sent it, or is
      about to ack it as unsendable. */
  predicate Sending(r: Receiver, id: Receipt) { r.Offered? && r.id == id }

  predicate AboutToAck(r: Receiver, id: Receipt) { r.Removing? && r.id == id }

  /** What a delivery that cannot be sent has come to, given whether the settler
      `took` it. */
  ghost predicate Tracked(c: Config, s: State, id: Receipt, took: bool) {
    var held, extra := CountHeld(s.window.pending, id), CountExtra(s.calls, id);
    if id !in s.seqOf then !took && held == 0 && extra == 0
    else CannotSend(c, s, id) ==>
      if Sending(s.receiver, id) then extra == 0 && (took <==> held == 0)
      else if AboutToAck(s.receiver, id) then extra == 0 && held == 0 && (took <==> !s.receiver.wasHeld)
      else extra == One(took) && held == 0
  }

  // ---- Each thread keeps track ----

  /** What is held under the delivery's number is all that is held of it. */
  lemma TakesAll(s: State, id: Receipt)
    requires Numbered(s) && id in s.seqOf && Conserved(s, id)
    ensures var (w, held) := Taken(s.window, s.seqOf[id]);
            CountHeld(w.pending, id) == 0 && (held.Some? <==> CountHeld(s.window.pending, id) > 0)
  {
    var (w, held) := Taken(s.window, s.seqOf[id]);
    TakenMembers(s.window, s.seqOf[id]);
    TakenCount(s.window, s.seqOf[id], id);
    TakenIsOwn(s, id, s.seqOf[id]);
    HeldCounts(s.window.pending, id);
    if held.None? {
      forall h <- s.window.pending
        ensures h.receipt != id
      {
        assert HasNumber(s, h.receipt, h.seqno);
      }
    }
  }

  lemma SendOwnTracks(c: Config, s: State, id: Receipt, took: bool)
    requires Numbered(s) && Conserved(s, id) && Sending(s.receiver, id) && Tracked(c, s, id, took)
    ensures Tracked(c, Sent(c, s), id, took)
  {
    var s' := Sent(c, s);
    TakesAll(s, id);
    if CannotSend(c, s, id) {
      assert s'.receiver == Removing(id, CountHeld(s.window.pending, id) > 0, s.receiver.hand);
      assert CountHeld(s'.window.pending, id) == 0 && s'.calls == s.calls;
    }
  }

  lemma SendOtherTracks(c: Config, s: State, id: Receipt, took: bool)
    requires s.receiver.Offered? && s.receiver.id != id && Tracked(c, s, id, took)
    ensures Tracked(c, Sent(c, s), id, took)
  {
    var s' := Sent(c, s);
    TakenCount(s.window, s.receiver.seqno, id);
    assert CountHeld(s'.window.pending, id) <= CountHeld(s.window.pending, id) && s'.calls == s.calls;
    assert !Sending(s'.receiver, id) && !AboutToAck(s'.receiver, id);
  }

  lemma HoldTracks(c: Config, s: State, id: Receipt, took: bool)
    requires Sound(c, s) && s.receiver.Offering? && s.receiver.hand != [] && Tracked(c, s, id, took)
    ensures Tracked(c, HeldNext(s), id, took)
  {
    var first := s.receiver.hand[0];
    assert first in Unheld(s.receiver);
    var added := Held(s.window.nextSeq, first, s.now);
    CountHeldConcat(s.window.pending, [added], id);
    CountOne(added, id);
  }

  lemma AckTracks(c: Config, s: State, heard: bool, id: Receipt, took: bool)
    requires Sound(c, s) && s.receiver.Removing? && Tracked(c, s, id, took)
    ensures Tracked(c, UnsendableAcked(s, heard), id, took)
  {
    CountExtraCall(s.calls, Call(s.receiver.id, true, Unsendable, !s.receiver.wasHeld), id);
  }

  /** The other steps of the receiver call about nothing a second time. */
  lemma OthersAddNoExtra(c: Config, s: State, step: ReceiverStep, id: Receipt)
    requires ReceiverCan(c, s, step) && !step.Send? && !step.AckUnsendable? && !(step.HoldNext? && s.receiver.hand != [])
    ensures var s' := AfterReceiver(c, s, step);
            && CountExtra(s'.calls, id) == CountExtra(s.calls, id)
            && s'.window == s.window && s'.seqOf == s.seqOf && s.msgOf <= s'.msgOf
            && !s.receiver.Offered? && !s.receiver.Removing? && !s'.receiver.Offered? && !s'.receiver.Removing?
  {
    if step.ReleaseNext? && s.receiver.hand != [] {
      CountExtraCall(s.calls, Call(s.receiver.hand[0], false, Stopping, false), id);
    }
    if step.AckNext? && s.receiver.hand != [] {
      CountExtraCall(s.calls, Call(s.receiver.hand[0], true, Notified, false), id);
    }
  }

  lemma ReceiverTracks(c: Config, s: State, step: ReceiverStep, id: Receipt, took: bool)
    requires Sound(c, s) && ReceiverCan(c, s, step) && Tracked(c, s, id, took)
    ensures Tracked(c, AfterReceiver(c, s, step), id, took)
  {
    assert Conserved(s, id);
    if step.Send? {
      if s.receiver.id == id {
        SendOwnTracks(c, s, id, took);
      } else {
        SendOtherTracks(c, s, id, took);
      }
    } else if step.AckUnsendable? {
      AckTracks(c, s, step.heard, id, took);
    } else if step.HoldNext? && s.receiver.hand != [] {
      HoldTracks(c, s, id, took);
    } else {
      OthersAddNoExtra(c, s, step, id);
    }
  }

  /** The settler makes no extra call, and only takes out of the window. */
  lemma SettlerAddsNoExtra(c: Config, s: State, step: SettlerStep, id: Receipt)
    requires SettlerCan(s, step)
    ensures var s' := AfterSettler(c, s, step);
            && CountExtra(s'.calls, id) == CountExtra(s.calls, id)
            && CountHeld(s'.window.pending, id) <= CountHeld(s.window.pending, id)
  {
    match step {
      case Expire => OverdueCount(s.window.pending, s.now, c.ackTimeout, id);
      case TakeOut => TakenCount(s.window, s.settler.seqno, id);
      case ReleaseLate(heard) =>
        if s.settler.late != [] {
          CountExtraCall(s.calls, LateReleased(s, heard).calls[|s.calls|], id);
        }
      case AckTaken(heard) => CountExtraCall(s.calls, TakenAcked(s, heard).calls[|s.calls|], id);
      case ReleaseLeft(heard) =>
        if s.settler.left != [] {
          CountExtraCall(s.calls, LeftReleased(s, heard).calls[|s.calls|], id);
        }
      case _ =>
    }
  }

  lemma StepTracks(c: Config, s: State, step: Step, id: Receipt, took: bool)
    requires Sound(c, s) && Enabled(c, s, step) && Tracked(c, s, id, took)
    ensures Tracked(c, After(c, s, step), id, took || SettlerTakes(c, s, step, id))
  {
    match step {
      case ByReceiver(r) => ReceiverTracks(c, s, r, id, took);
      case BySettler(x) =>
        SettlerLeaves(c, s, x);
        SettlerAddsNoExtra(c, s, x, id);
        assert Conserved(s, id);
      case ByOther(o) => OthersLeave(s, o);
    }
  }

  lemma {:induction false} RunTracks(c: Config, s: State, steps: seq<Step>, id: Receipt, took: bool)
    requires Sound(c, s) && Runs(c, s, steps) && Tracked(c, s, id, took)
    ensures Tracked(c, Final(c, s, steps), id, took || SettlerTook(c, s, steps, id))
    decreases |steps|
  {
    if steps != [] {
      StepTracks(c, s, steps[0], id, took);
      StepSound(c, s, steps[0]);
      RunTracks(c, After(c, s, steps[0]), steps[1..], id, took || SettlerTakes(c, s, steps[0], id));
    }
  }

  /** Once a cancel returned, a delivery that was held and whose event could not be
      sent got one call, or two if and only if the settler took it out of the
      window before the receiver did. */
  lemma SettledTwiceIff(c: Config, available: set<Msg>, now: nat, steps: seq<Step>, s: State, id: Receipt)
    requires Reached(c, available, now, steps, s) && s.cancel == Cancel.Done && CannotSend(c, s, id)
    ensures CountCalls(s.calls, id) == if SettlerTook(c, Start(available, now), steps, id) then 2 else 1
  {
    StartSound(c, available, now);
    RunTracks(c, Start(available, now), steps, id, false);
    ReachedSound(c, available, now, steps, s);
    CancelSettlesAll(c, available, now, steps, s, id);
    CallsAreBoth(s.calls, id);
  }
}
