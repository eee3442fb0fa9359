/** Exactly which deliveries of a queue watch are acked, and that an ack the broker
    hears removes the message. */
module QueueAcks {
  import opened Strs
  import opened QueueWindow
  import opened QueueSteps
  import opened QueueNumbers
  import opened QueueConservation

  ghost predicate AckCalled(calls: seq<Call>, id: Receipt) {
    exists call :: call in calls && call.id == id && call.ack
  }

  /** The settler takes the acknowledgement of number `n` from its channel. */
  ghost predicate Hears(s: State, step: Step, n: nat) {
    step == BySettler(Hear) && s.channel != [] && s.channel[0] == AckOf(Some(n))
  }

  /** The delivery is in the window when the settler takes its next step. */
  ghost predicate HeldAtNextTurn(c: Config, s: State, steps: seq<Step>, id: Receipt)
    requires Runs(c, s, steps)
    decreases |steps|
  {
    steps != []
    && if steps[0].BySettler? then CountHeld(s.window.pending, id) > 0
       else HeldAtNextTurn(c, After(c, s, steps[0]), steps[1..], id)
  }

  /** In the run the settler heard the host acknowledge number `n`, and the delivery
      was in the window when it turned to it. */
  ghost predicate HeardWhileHeld(c: Config, s: State, steps: seq<Step>, id: Receipt, n: nat)
    requires Runs(c, s, steps)
    decreases |steps|
  {
    steps != []
    && ((Hears(s, steps[0], n) && HeldAtNextTurn(c, After(c, s, steps[0]), steps[1..], id))
        || HeardWhileHeld(c, After(c, s, steps[0]), steps[1..], id, n))
  }

  /** What is still to come of an ack of the delivery. */
  ghost predicate AckDue(c: Config, s: State, steps: seq<Step>, id: Receipt, n: nat)
    requires Runs(c, s, steps)
  {
    || (s.settler.Acking? && s.settler.held.receipt == id)
    || (s.settler == Taking(n) && HeldAtNextTurn(c, s, steps, id))
    || HeardWhileHeld(c, s, steps, id, n)
  }

  /** Number `n` is the delivery's once it has one, and no other's. */
  ghost predicate Owns(s: State, id: Receipt, n: nat) {
    && (id in s.seqOf ==> s.seqOf[id] == n)
    && (forall a | a in s.seqOf && s.seqOf[a] == n :: a == id)
  }

  lemma AckAppended(calls: seq<Call>, call: Call, id: Receipt)
    ensures AckCalled(calls + [call], id) <==> AckCalled(calls, id) || (call.id == id && call.ack)
  {
    if AckCalled(calls, id) {
      var x :| x in calls && x.id == id && x.ack;
      assert x in calls + [call];
    }
    if call.id == id && call.ack {
      assert call in calls + [call];
    }
  }

  /** The receiver acks nothing that is emitted. */
  lemma ReceiverAcksNone(c: Config, s: State, step: ReceiverStep, id: Receipt)
    requires Sound(c, s) && ReceiverCan(c, s, step) && c.eventSource
    requires id in s.seqOf ==> c.sendable(MsgAt(s.msgOf, id), s.seqOf[id])
    ensures AckCalled(AfterReceiver(c, s, step).calls, id) <==> AckCalled(s.calls, id)
  {
    var s' := AfterReceiver(c, s, step);
    if step.ReleaseNext? && s.receiver.hand != [] {
      AckAppended(s.calls, s'.calls[|s.calls|], id);
    } else if step.AckUnsendable? {
      AckAppended(s.calls, s'.calls[|s.calls|], id);
    }
  }

  /** The settler acks what it took for an acknowledgement. */
  lemma SettlerAcks(c: Config, s: State, step: SettlerStep, id: Receipt)
    requires SettlerCan(s, step)
    ensures var s' := AfterSettler(c, s, step);
            AckCalled(s'.calls, id)
            <==> AckCalled(s.calls, id) || (step.AckTaken? && s.settler.held.receipt == id)
  {
    var s' := AfterSettler(c, s, step);
    if (step.ReleaseLate? && s.settler.late != []) || step.AckTaken? || (step.ReleaseLeft? && s.settler.left != []) {
      AckAppended(s.calls, s'.calls[|s.calls|], id);
    }
  }

  /** What it takes under the number is the delivery, if it is held. */
  lemma TakesOwn(s: State, id: Receipt, n: nat)
    requires Numbered(s) && Conserved(s, id) && Owns(s, id, n)
    ensures var held := Taken(s.window, n).1;
            && (held.Some? ==> held.value.receipt == id)
            && (held.Some? <==> CountHeld(s.window.pending, id) > 0)
  {
    TakenMembers(s.window, n);
    TakenCount(s.window, n, id);
    HeldCounts(s.window.pending, id);
    var held := Taken(s.window, n).1;
    if held.Some? {
      assert HasNumber(s, held.value.receipt, n);
    } else {
      forall h | h in s.window.pending
        ensures h.receipt != id
      {
        assert HasNumber(s, h.receipt, h.seqno);
      }
    }
  }

  /** What it takes under another number is not the delivery. */
  lemma TakesOther(s: State, id: Receipt, n: nat, m: nat)
    requires Numbered(s) && Owns(s, id, n) && m != n
    ensures var held := Taken(s.window, m).1; held.Some? ==> held.value.receipt != id
  {
    TakenMembers(s.window, m);
    var held := Taken(s.window, m).1;
    if held.Some? {
      assert HasNumber(s, held.value.receipt, m);
    }
  }

  /** A settler's step, against what is to come. */
  lemma SettlerDue(c: Config, s: State, steps: seq<Step>, id: Receipt, n: nat)
    requires Sound(c, s) && Runs(c, s, steps) && steps != [] && steps[0].BySettler? && Owns(s, id, n)
    ensures var s' := After(c, s, steps[0]);
            AckCalled(s'.calls, id) || AckDue(c, s', steps[1..], id, n) <==> AckCalled(s.calls, id) || AckDue(c, s, steps, id, n)
  {
    var step := steps[0].x;
    assert Conserved(s, id);
    SettlerAcks(c, s, step, id);
    if step.TakeOut? {
      if s.settler.seqno == n {
        TakesOwn(s, id, n);
      } else {
        TakesOther(s, id, n, s.settler.seqno);
      }
    }
  }

  lemma OthersDue(c: Config, s: State, steps: seq<Step>, id: Receipt, n: nat)
    requires Sound(c, s) && Runs(c, s, steps) && steps != [] && !steps[0].BySettler? && c.eventSource
    requires id in s.seqOf ==> c.sendable(MsgAt(s.msgOf, id), s.seqOf[id])
    ensures var s' := After(c, s, steps[0]);
            AckCalled(s'.calls, id) || AckDue(c, s', steps[1..], id, n) <==> AckCalled(s.calls, id) || AckDue(c, s, steps, id, n)
  {
    match steps[0] {
      case ByReceiver(r) =>
        ReceiverLeaves(c, s, r);
        ReceiverAcksNone(c, s, r, id);
      case ByOther(o) => OthersLeave(s, o);
    }
  }

  /** What a run leads to says whose the number was. */
  lemma {:induction false} OwnsBefore(c: Config, s: State, steps: seq<Step>, id: Receipt)
    requires Sound(c, s) && Runs(c, s, steps)
    ensures var f := Final(c, s, steps);
            && s.msgOf <= f.msgOf && (forall a <- s.seqOf :: a in f.seqOf && f.seqOf[a] == s.seqOf[a])
            && Sound(c, f)
    decreases |steps|
  {
    if steps != [] {
      StepSound(c, s, steps[0]);
      StepGrows(c, s, steps[0]);
      OwnsBefore(c, After(c, s, steps[0]), steps[1..], id);
    }
  }

  lemma {:induction false} RunAcks(c: Config, s: State, steps: seq<Step>, id: Receipt, n: nat)
    requires Sound(c, s) && Runs(c, s, steps)
    requires var f := Final(c, s, steps); f.settler.Finished? && id in f.emitted && HasNumber(f, id, n)
    ensures AckCalled(Final(c, s, steps).calls, id) <==> AckCalled(s.calls, id) || AckDue(c, s, steps, id, n)
    decreases |steps|
  {
    var f := Final(c, s, steps);
    OwnsBefore(c, s, steps, id);
    if steps != [] {
      StepSound(c, s, steps[0]);
      RunAcks(c, After(c, s, steps[0]), steps[1..], id, n);
      if steps[0].BySettler? {
        SettlerDue(c, s, steps, id, n);
      } else {
        assert id in s.seqOf ==> MsgAt(s.msgOf, id) == MsgAt(f.msgOf, id);
        OthersDue(c, s, steps, id, n);
      }
    }
  }

  /** Once a cancel returned, the one call about an emitted delivery is an ack if and
      only if the settler heard the host acknowledge its number and the delivery was
      in the window when it turned to it. */
  lemma AckedIff(c: Config, available: set<Msg>, now: nat, steps: seq<Step>, s: State, id: Receipt)
    requires Reached(c, available, now, steps, s) && s.cancel == Cancel.Done && id in s.emitted
    ensures CountCalls(s.calls, id) == 1 && id in s.seqOf
    ensures AckCalled(s.calls, id) <==> HeardWhileHeld(c, Start(available, now), steps, id, s.seqOf[id])
  {
    StartSound(c, available, now);
    ReachedSound(c, available, now, steps, s);
    CancelSettlesAll(c, available, now, steps, s, id);
    RunAcks(c, Start(available, now), steps, id, s.seqOf[id]);
  }

  // ---- Every acknowledgement of a delivery held is answered ----

  /** In the run the settler heard number `n` acknowledged while the delivery was in
      the window. */
  ghost predicate HeardInWindow(c: Config, s: State, steps: seq<Step>, id: Receipt, n: nat)
    requires Runs(c, s, steps)
    decreases |steps|
  {
    steps != []
    && ((Hears(s, steps[0], n) && CountHeld(s.window.pending, id) > 0)
        || HeardInWindow(c, After(c, s, steps[0]), steps[1..], id, n))
  }

  /** Nothing but the settler takes a delivery that can be sent out of the window. */
  lemma ReceiverKeepsHeld(c: Config, s: State, step: ReceiverStep, id: Receipt)
    requires Sound(c, s) && ReceiverCan(c, s, step) && id in s.seqOf && c.sendable(MsgAt(s.msgOf, id), s.seqOf[id])
    ensures CountHeld(AfterReceiver(c, s, step).window.pending, id) >= CountHeld(s.window.pending, id)
  {
    if step.Send? {
      TakenCount(s.window, s.receiver.seqno, id);
      TakenIsOwn(s, s.receiver.id, s.receiver.seqno);
    } else if step.HoldNext? && s.receiver.hand != [] {
      CountHeldConcat(s.window.pending, [Held(s.window.nextSeq, s.receiver.hand[0], s.now)], id);
    } else {
      OthersNumberNothing(c, s, step);
    }
  }

  lemma {:induction false} KeptToNextTurn(c: Config, s: State, steps: seq<Step>, id: Receipt)
    requires Sound(c, s) && Runs(c, s, steps) && CountHeld(s.window.pending, id) > 0 && !s.settler.Finished?
    requires Final(c, s, steps).settler.Finished? && id in Final(c, s, steps).emitted
    ensures HeldAtNextTurn(c, s, steps, id)
    decreases |steps|
  {
    if steps != [] && !steps[0].BySettler? {
      OwnsBefore(c, s, steps, id);
      StepSound(c, s, steps[0]);
      HeldCounts(s.window.pending, id);
      var h :| h in s.window.pending && h.receipt == id;
      assert HasNumber(s, h.receipt, h.seqno);
      match steps[0] {
        case ByReceiver(r) =>
          ReceiverLeaves(c, s, r);
          ReceiverKeepsHeld(c, s, r, id);
        case ByOther(o) => OthersLeave(s, o);
      }
      KeptToNextTurn(c, After(c, s, steps[0]), steps[1..], id);
    }
  }

  lemma {:induction false} HeardIsTaken(c: Config, s: State, steps: seq<Step>, id: Receipt, n: nat)
    requires Sound(c, s) && Runs(c, s, steps) && HeardInWindow(c, s, steps, id, n)
    requires Final(c, s, steps).settler.Finished? && id in Final(c, s, steps).emitted
    ensures HeardWhileHeld(c, s, steps, id, n)
    decreases |steps|
  {
    StepSound(c, s, steps[0]);
    if Hears(s, steps[0], n) && CountHeld(s.window.pending, id) > 0 {
      KeptToNextTurn(c, After(c, s, steps[0]), steps[1..], id);
    } else {
      HeardIsTaken(c, After(c, s, steps[0]), steps[1..], id, n);
    }
  }

  /** So an emitted delivery whose number the host acknowledged, and the settler heard
      of while it was held, is acked and never released. */
  lemma AcknowledgedIsAcked(c: Config, available: set<Msg>, now: nat, steps: seq<Step>, s: State, id: Receipt)
    requires Reached(c, available, now, steps, s) && s.cancel == Cancel.Done && id in s.emitted && id in s.seqOf
    requires HeardInWindow(c, Start(available, now), steps, id, s.seqOf[id])
    ensures AckCalled(s.calls, id) && CountCalls(s.calls, id) == 1
  {
    StartSound(c, available, now);
    ReachedSound(c, available, now, steps, s);
    HeardIsTaken(c, Start(available, now), steps, id, s.seqOf[id]);
    AckedIff(c, available, now, steps, s, id);
  }

  // ---- Nothing sent to the settler is lost on the way ----

  /** What is sent to the settler in the run, in order. */
  function SentIn(steps: seq<Step>): seq<Settle> {
    if steps == [] then []
    else
      (match steps[0]
       case ByOther(HostAcks(position)) => [AckOf(position)]
       case ByOther(JoinReceiver) => [StopSettling]
       case _ => [])
      + SentIn(steps[1..])
  }

  /** What the settler hears of it. */
  ghost function HeardIn(c: Config, s: State, steps: seq<Step>): seq<Settle>
    requires Runs(c, s, steps)
    decreases |steps|
  {
    if steps == [] then []
    else (if steps[0] == BySettler(Hear) then [s.channel[0]] else []) + HeardIn(c, After(c, s, steps[0]), steps[1..])
  }

  /** A step adds to the channel what it sends, and takes from it what it hears. */
  lemma StepChannel(c: Config, s: State, step: Step)
    requires Enabled(c, s, step)
    ensures s.channel + SentIn([step])
         == (if step == BySettler(Hear) then [s.channel[0]] else []) + After(c, s, step).channel
  {
    assert [step][1..] == [];
    match step {
      case ByReceiver(r) => ReceiverLeaves(c, s, r);
      case BySettler(x) => SettlerChannel(c, s, x);
      case ByOther(o) =>
    }
  }

  lemma SettlerChannel(c: Config, s: State, step: SettlerStep)
    requires SettlerCan(s, step)
    ensures AfterSettler(c, s, step).channel == if step.Hear? then s.channel[1..] else s.channel
  {
  }

  lemma {:induction false} ChannelInOrder(c: Config, s: State, steps: seq<Step>)
    requires Runs(c, s, steps)
    ensures s.channel + SentIn(steps) == HeardIn(c, s, steps) + Final(c, s, steps).channel
    decreases |steps|
  {
    if steps != [] {
      var s' := After(c, s, steps[0]);
      StepChannel(c, s, steps[0]);
      ChannelInOrder(c, s', steps[1..]);
      var sent, heard := SentIn([steps[0]]), if steps[0] == BySettler(Hear) then [s.channel[0]] else [];
      assert [steps[0]][1..] == [] && SentIn(steps) == sent + SentIn(steps[1..]);
      Regrouped(s.channel, sent, SentIn(steps[1..]), heard, s'.channel, HeardIn(c, s', steps[1..]), Final(c, s, steps).channel);
    }
  }

  lemma Regrouped<T>(a: seq<T>, b: seq<T>, rest: seq<T>, x: seq<T>, y: seq<T>, z: seq<T>, end: seq<T>)
    requires a + b == x + y && y + rest == z + end
    ensures a + (b + rest) == x + z + end
  {
    assert a + (b + rest) == (a + b) + rest == x + (y + rest);
  }

  lemma {:induction false} EndsHeard(c: Config, s: State, steps: seq<Step>)
    requires Runs(c, s, steps) && !Ending(s.settler) && Ending(Final(c, s, steps).settler)
    ensures StopSettling in HeardIn(c, s, steps)
    decreases |steps|
  {
    var s' := After(c, s, steps[0]);
    match steps[0] {
      case ByReceiver(r) => ReceiverLeaves(c, s, r);
      case BySettler(x) => assert Ending(s'.settler) ==> x.Hear? && s.channel[0] == StopSettling;
      case ByOther(o) => OthersLeave(s, o);
    }
    if !Ending(s'.settler) {
      EndsHeard(c, s', steps[1..]);
    }
  }

  /** By the time a cancel returned the settler has heard, in order and each once,
      every acknowledgement the host sent before the receiver was joined. */
  lemma EveryAckHeard(c: Config, available: set<Msg>, now: nat, steps: seq<Step>, s: State)
    requires Reached(c, available, now, steps, s)
    ensures HeardIn(c, Start(available, now), steps) <= SentIn(steps)
    ensures s.cancel == Cancel.Done ==> StopSettling in HeardIn(c, Start(available, now), steps)
  {
    ReachedSound(c, available, now, steps, s);
    ChannelInOrder(c, Start(available, now), steps);
    assert [] + SentIn(steps) == SentIn(steps);
    if s.cancel == Cancel.Done {
      EndsHeard(c, Start(available, now), steps);
    }
  }

  // ---- An ack that is heard removes the message ----

  lemma ReceiverKeepsRemoved(c: Config, s: State, step: ReceiverStep)
    requires ReceiverCan(c, s, step)
    ensures var s' := AfterReceiver(c, s, step); s.broker.removed <= s'.broker.removed && s.msgOf <= s'.msgOf
  {
  }

  lemma SettlerKeepsRemoved(c: Config, s: State, step: SettlerStep)
    requires SettlerCan(s, step)
    ensures var s' := AfterSettler(c, s, step); s.broker.removed <= s'.broker.removed && s.msgOf <= s'.msgOf
  {
  }

  lemma StepKeepsRemoved(c: Config, s: State, step: Step)
    requires Enabled(c, s, step)
    ensures s.broker.removed <= After(c, s, step).broker.removed && s.msgOf <= After(c, s, step).msgOf
  {
    match step {
      case ByReceiver(r) => ReceiverKeepsRemoved(c, s, r);
      case BySettler(x) => SettlerKeepsRemoved(c, s, x);
      case ByOther(o) => OthersLeave(s, o);
    }
  }

  lemma {:induction false} RunKeepsRemoved(c: Config, s: State, steps: seq<Step>)
    requires Runs(c, s, steps)
    ensures s.broker.removed <= Final(c, s, steps).broker.removed && s.msgOf <= Final(c, s, steps).msgOf
    decreases |steps|
  {
    if steps != [] {
      StepKeepsRemoved(c, s, steps[0]);
      RunKeepsRemoved(c, After(c, s, steps[0]), steps[1..]);
    }
  }

  /** An ack the broker hears, of a delivery it holds locked, removes its message for
      good, whatever follows. */
  lemma HeardAckRemoves(c: Config, available: set<Msg>, now: nat, before: seq<Step>, s: State, steps: seq<Step>)
    requires Reached(c, available, now, before, s) && s.settler.Acking? && s.settler.held.receipt in s.broker.locked
    requires Runs(c, After(c, s, BySettler(AckTaken(true))), steps)
    ensures var f := Final(c, After(c, s, BySettler(AckTaken(true))), steps);
            MsgAt(f.msgOf, s.settler.held.receipt) in f.broker.removed
  {
    ReachedSound(c, available, now, before, s);
    assert HasNumber(s, s.settler.held.receipt, s.settler.held.seqno);
    RunKeepsRemoved(c, After(c, s, BySettler(AckTaken(true))), steps);
  }
}
