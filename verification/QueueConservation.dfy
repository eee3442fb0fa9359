/** Every delivery a queue watch receives is in exactly one place, and is settled
    once, for a good reason, by the time a cancel returns. */
module QueueConservation {
  import opened Strs
  import opened QueueWindow
  import opened QueueSteps
  import opened QueueNumbers

  // ---- Where a delivery is ----

  function One(b: bool): nat { if b then 1 else 0 }

  function CountIn(hand: seq<Receipt>, id: Receipt): nat {
    if hand == [] then 0 else One(hand[0] == id) + CountIn(hand[1..], id)
  }

  function CountHeld(held: seq<Held>, id: Receipt): nat {
    if held == [] then 0 else One(held[0].receipt == id) + CountHeld(held[1..], id)
  }

  /** How many calls settle the delivery: an extra one does not. */
  function CountSettled(calls: seq<Call>, id: Receipt): nat {
    if calls == [] then 0
    else
      var last := calls[|calls| - 1];
      CountSettled(calls[..|calls| - 1], id) + One(last.id == id && !last.extra)
  }

  /** How many calls are made about the delivery. */
  function CountCalls(calls: seq<Call>, id: Receipt): nat {
    if calls == [] then 0
    else CountCalls(calls[..|calls| - 1], id) + One(calls[|calls| - 1].id == id)
  }

  /** In the receiver's hand: not yet in the window, or taken back out of it. */
  function InReceiver(r: Receiver, id: Receipt): nat {
    CountIn(Unheld(r), id) + One(r.Removing? && r.wasHeld && r.id == id)
  }

  /** The places a delivery is in, counted. */
  function Places(s: State, id: Receipt): nat {
    InReceiver(s.receiver, id) + CountHeld(s.window.pending, id)
    + CountHeld(Handling(s.settler), id) + CountSettled(s.calls, id)
  }

  ghost predicate Conserved(s: State, id: Receipt) {
    Places(s, id) == One(id < |s.msgOf|)
  }

  // ---- Counting ----

  lemma {:induction false} CountHeldConcat(a: seq<Held>, b: seq<Held>, id: Receipt)
    ensures CountHeld(a + b, id) == CountHeld(a, id) + CountHeld(b, id)
  {
    if a == [] {
      assert a + b == b;
    } else {
      assert (a + b)[1..] == a[1..] + b;
      CountHeldConcat(a[1..], b, id);
    }
  }

  lemma CountOne(held: Held, id: Receipt)
    ensures CountHeld([held], id) == One(held.receipt == id)
  {
  }

  lemma CountSettledCall(calls: seq<Call>, call: Call, id: Receipt)
    ensures CountSettled(calls + [call], id) == CountSettled(calls, id) + One(call.id == id && !call.extra)
    ensures CountCalls(calls + [call], id) == CountCalls(calls, id) + One(call.id == id)
  {
  }

  lemma {:induction false} CountDeliveries(first: nat, n: nat, id: Receipt)
    ensures CountIn(Deliveries(first, n), id) == One(first <= id < first + n)
    decreases n
  {
    if n > 0 {
      assert Deliveries(first, n)[1..] == Deliveries(first + 1, n - 1);
      CountDeliveries(first + 1, n - 1, id);
    }
  }

  lemma TakenCount(w: Window, seqno: nat, id: Receipt)
    ensures var (w', held) := Taken(w, seqno);
            CountHeld(w.pending, id) == CountHeld(w'.pending, id) + One(held.Some? && held.value.receipt == id)
  {
    var found := Find(w.pending, seqno);
    if found.Some? {
      var i := found.value;
      var front, back := w.pending[..i], w.pending[i + 1..];
      assert w.pending == front + ([w.pending[i]] + back);
      CountHeldConcat(front, [w.pending[i]] + back, id);
      CountHeldConcat([w.pending[i]], back, id);
      CountHeldConcat(front, back, id);
    }
  }

  lemma {:induction false} OverdueCount(pending: seq<Held>, now: nat, timeout: nat, id: Receipt)
    ensures CountHeld(pending, id)
         == CountHeld(Overdue(pending, now, timeout, true), id) + CountHeld(Overdue(pending, now, timeout, false), id)
  {
    if pending != [] {
      OverdueCount(pending[1..], now, timeout, id);
      var late := Late(pending[0], now, timeout);
      CountHeldConcat([pending[0]], Overdue(pending[1..], now, timeout, late), id);
      assert Overdue(pending, now, timeout, !late) == Overdue(pending[1..], now, timeout, !late);
    }
  }

  lemma {:induction false} HeldCounts(held: seq<Held>, id: Receipt)
    ensures CountHeld(held, id) == 0 <==> forall h <- held :: h.receipt != id
  {
    if held != [] {
      HeldCounts(held[1..], id);
      assert forall h <- held :: h == held[0] || h in held[1..];
    }
  }

  // ---- Conservation, step by step ----

  /** The first delivery of the receiver's hand is settled by a call. */
  lemma HandSettled(s: State, s': State, call: Call, id: Receipt)
    requires Conserved(s, id) && Unheld(s.receiver) != [] && !s.receiver.Removing? && !s'.receiver.Removing?
    requires Unheld(s'.receiver) == Unheld(s.receiver)[1..] && s'.calls == s.calls + [call]
    requires call.id == Unheld(s.receiver)[0] && !call.extra
    requires s'.settler == s.settler && s'.window == s.window && s'.msgOf == s.msgOf
    ensures Conserved(s', id)
  {
    CountSettledCall(s.calls, call, id);
  }

  /** The first delivery of the settler's hand is settled by a call. */
  lemma TakenSettled(s: State, s': State, call: Call, id: Receipt)
    requires Conserved(s, id) && Handling(s.settler) != []
    requires Handling(s'.settler) == Handling(s.settler)[1..] && s'.calls == s.calls + [call]
    requires call.id == Handling(s.settler)[0].receipt && !call.extra
    requires s'.receiver == s.receiver && s'.window == s.window && s'.msgOf == s.msgOf
    ensures Conserved(s', id)
  {
    CountSettledCall(s.calls, call, id);
  }

  lemma ReceiveConserves(s: State, msgs: seq<Msg>, id: Receipt)
    requires Conserved(s, id) && s.receiver.Receiving?
    ensures Conserved(Received(s, msgs), id)
  {
    CountDeliveries(|s.msgOf|, |msgs|, id);
  }

  lemma HandReleaseConserves(s: State, heard: bool, id: Receipt)
    requires Conserved(s, id) && s.receiver.ReleasingHand?
    ensures Conserved(HandReleased(s, heard), id)
  {
    if s.receiver.hand != [] {
      var s' := HandReleased(s, heard);
      HandSettled(s, s', s'.calls[|s.calls|], id);
    }
  }

  lemma HandAckConserves(s: State, heard: bool, id: Receipt)
    requires Conserved(s, id) && s.receiver.AckingHand?
    ensures Conserved(HandAcked(s, heard), id)
  {
    if s.receiver.hand != [] {
      var s' := HandAcked(s, heard);
      HandSettled(s, s', s'.calls[|s.calls|], id);
    }
  }

  lemma HoldConserves(s: State, id: Receipt)
    requires Conserved(s, id) && s.receiver.Offering?
    ensures Conserved(HeldNext(s), id)
  {
    if s.receiver.hand != [] {
      CountHeldConcat(s.window.pending, [Held(s.window.nextSeq, s.receiver.hand[0], s.now)], id);
    }
  }

  /** A delivery the receiver took back out of the window, if it was there. */
  lemma TakenBack(s: State, s': State, held: Option<Held>, id: Receipt)
    requires Conserved(s, id) && !s.receiver.Removing? && Unheld(s'.receiver) == Unheld(s.receiver)
    requires CountHeld(s.window.pending, id) == CountHeld(s'.window.pending, id) + One(held.Some? && held.value.receipt == id)
    requires s'.receiver.Removing? && s'.receiver.wasHeld == held.Some?
    requires held.Some? ==> held.value.receipt == s'.receiver.id
    requires s'.settler == s.settler && s'.calls == s.calls && s'.msgOf == s.msgOf
    ensures Conserved(s', id)
  {
  }

  lemma SendConserves(c: Config, s: State, id: Receipt)
    requires Conserved(s, id) && Numbered(s) && s.receiver.Offered?
    ensures Conserved(Sent(c, s), id)
  {
    var Offered(sent, seqno, _) := s.receiver;
    if !c.sendable(MsgAt(s.msgOf, sent), seqno) {
      TakenCount(s.window, seqno, id);
      TakenIsOwn(s, sent, seqno);
      TakenBack(s, Sent(c, s), Taken(s.window, seqno).1, id);
    }
  }

  lemma RemoveConserves(s: State, heard: bool, id: Receipt)
    requires Conserved(s, id) && s.receiver.Removing?
    ensures Conserved(UnsendableAcked(s, heard), id)
  {
  }

  lemma OthersReceiveNothing(c: Config, s: State, step: ReceiverStep)
    requires ReceiverCan(c, s, step) && !step.Receive? && !TakesFromHand(step) && !step.Send? && !step.AckUnsendable?
    ensures var s' := AfterReceiver(c, s, step);
            && Unheld(s'.receiver) == Unheld(s.receiver) && !s'.receiver.Removing? && !s.receiver.Removing?
            && s'.window == s.window && s'.calls == s.calls && s'.msgOf == s.msgOf && s'.settler == s.settler
  {
  }

  lemma ReceiverConserves(c: Config, s: State, step: ReceiverStep, id: Receipt)
    requires Conserved(s, id) && Numbered(s) && ReceiverCan(c, s, step)
    ensures Conserved(AfterReceiver(c, s, step), id)
  {
    match step {
      case Receive(msgs) => ReceiveConserves(s, msgs, id);
      case ReleaseNext(heard) => HandReleaseConserves(s, heard, id);
      case AckNext(heard) => HandAckConserves(s, heard, id);
      case HoldNext => HoldConserves(s, id);
      case Send => SendConserves(c, s, id);
      case AckUnsendable(heard) => RemoveConserves(s, heard, id);
      case _ => OthersReceiveNothing(c, s, step);
    }
  }

  lemma ReleaseLateConserves(s: State, heard: bool, id: Receipt)
    requires Conserved(s, id) && s.settler.ReleasingLate?
    ensures Conserved(LateReleased(s, heard), id)
  {
    if s.settler.late != [] {
      var s' := LateReleased(s, heard);
      TakenSettled(s, s', s'.calls[|s.calls|], id);
    }
  }

  lemma ReleaseLeftConserves(s: State, heard: bool, id: Receipt)
    requires Conserved(s, id) && s.settler.ReleasingAll?
    ensures Conserved(LeftReleased(s, heard), id)
  {
    if s.settler.left != [] {
      var s' := LeftReleased(s, heard);
      TakenSettled(s, s', s'.calls[|s.calls|], id);
    }
  }

  lemma AckTakenConserves(s: State, heard: bool, id: Receipt)
    requires Conserved(s, id) && s.settler.Acking?
    ensures Conserved(TakenAcked(s, heard), id)
  {
    var s' := TakenAcked(s, heard);
    TakenSettled(s, s', s'.calls[|s.calls|], id);
  }

  lemma TakeOutConserves(s: State, id: Receipt)
    requires Conserved(s, id) && s.settler.Taking?
    ensures Conserved(TakenOut(s), id)
  {
    TakenCount(s.window, s.settler.seqno, id);
    var held := Taken(s.window, s.settler.seqno).1;
    if held.Some? {
      CountOne(held.value, id);
    }
  }

  lemma OthersSettleNothing(c: Config, s: State, step: SettlerStep)
    requires SettlerCan(s, step) && (step.Measure? || step.Hear? || step.WaitOver?)
    ensures var s' := AfterSettler(c, s, step);
            && Handling(s'.settler) == Handling(s.settler) == [] && s'.window == s.window && s'.calls == s.calls
  {
  }

  lemma SettlerConserves(c: Config, s: State, step: SettlerStep, id: Receipt)
    requires Conserved(s, id) && SettlerCan(s, step)
    ensures Conserved(AfterSettler(c, s, step), id)
  {
    match step {
      case Expire => OverdueCount(s.window.pending, s.now, c.ackTimeout, id);
      case ReleaseLate(heard) => ReleaseLateConserves(s, heard, id);
      case TakeOut => TakeOutConserves(s, id);
      case AckTaken(heard) => AckTakenConserves(s, heard, id);
      case Drain =>
      case ReleaseLeft(heard) => ReleaseLeftConserves(s, heard, id);
      case _ =>
        SettlerLeaves(c, s, step);
        OthersSettleNothing(c, s, step);
    }
  }

  lemma StepConserves(c: Config, s: State, step: Step, id: Receipt)
    requires Conserved(s, id) && Numbered(s) && Enabled(c, s, step)
    ensures Conserved(After(c, s, step), id)
  {
    match step {
      case ByReceiver(r) => ReceiverConserves(c, s, r, id);
      case BySettler(x) => SettlerConserves(c, s, x, id);
      case ByOther(o) => OthersLeave(s, o);
    }
  }

  // ---- Every run ----

  ghost predicate Sound(c: Config, s: State) {
    && Fresh(s) && Numbered(s) && Phased(s) && InHand(c, s) && Justifies(c, s) && Emitted(c, s)
    && (forall id :: Conserved(s, id))
  }

  lemma StartSound(c: Config, available: set<Msg>, now: nat)
    ensures Sound(c, Start(available, now))
  {
  }

  lemma StepSound(c: Config, s: State, step: Step)
    requires Sound(c, s) && Enabled(c, s, step)
    ensures Sound(c, After(c, s, step))
  {
    StepKeepsFresh(c, s, step);
    StepKeepsNumbered(c, s, step);
    StepKeepsPhased(c, s, step);
    StepKeepsInHand(c, s, step);
    StepKeepsJustified(c, s, step);
    StepKeepsEmitted(c, s, step);
    forall id
      ensures Conserved(After(c, s, step), id)
    {
      StepConserves(c, s, step, id);
    }
  }

  lemma {:induction false} RunSound(c: Config, s: State, steps: seq<Step>)
    requires Sound(c, s) && Runs(c, s, steps)
    ensures Sound(c, Final(c, s, steps))
    decreases |steps|
  {
    if steps != [] {
      StepSound(c, s, steps[0]);
      RunSound(c, After(c, s, steps[0]), steps[1..]);
    }
  }

  ghost predicate Reached(c: Config, available: set<Msg>, now: nat, steps: seq<Step>, s: State) {
    Runs(c, Start(available, now), steps) && s == Final(c, Start(available, now), steps)
  }

  lemma ReachedSound(c: Config, available: set<Msg>, now: nat, steps: seq<Step>, s: State)
    requires Reached(c, available, now, steps, s)
    ensures Sound(c, s)
  {
    StartSound(c, available, now);
    RunSound(c, Start(available, now), steps);
  }

  /** In every interleaving each delivery received is in exactly one place: the
      receiver's hand, the window, the settler's hand, or settled. */
  lemma InOnePlace(c: Config, available: set<Msg>, now: nat, steps: seq<Step>, s: State, id: Receipt)
    requires Reached(c, available, now, steps, s)
    ensures InReceiver(s.receiver, id) + CountHeld(s.window.pending, id)
          + CountHeld(Handling(s.settler), id) + CountSettled(s.calls, id)
         == if id < |s.msgOf| then 1 else 0
  {
    ReachedSound(c, available, now, steps, s);
    assert Conserved(s, id);
  }

  /** Calls that are not extra settle. */
  lemma {:induction false} AllSettle(calls: seq<Call>, id: Receipt)
    requires forall call <- calls :: call.id == id ==> !call.extra
    ensures CountCalls(calls, id) == CountSettled(calls, id)
  {
    if calls != [] {
      var front := calls[..|calls| - 1];
      assert calls[|calls| - 1] in calls && forall call <- front :: call in calls;
      AllSettle(front, id);
    }
  }

  lemma EmittedCallsSettle(c: Config, s: State, id: Receipt)
    requires Sound(c, s) && id in s.emitted
    ensures CountCalls(s.calls, id) == CountSettled(s.calls, id)
    ensures forall call <- s.calls :: call.id == id && call.ack ==>
              call.why == HostAcked(s.seqOf[id]) && s.seqOf[id] in s.hostAcked
  {
    forall call | call in s.calls && call.id == id
      ensures !call.extra && (call.ack ==> call.why == HostAcked(s.seqOf[id]) && s.seqOf[id] in s.hostAcked)
    {
      assert Justified(c, s, call);
    }
    AllSettle(s.calls, id);
  }

  /** An emitted delivery gets at most one call, of either kind; an ack only if
      the host acknowledged that delivery's own number. */
  lemma EmittedSettledAtMostOnce(c: Config, available: set<Msg>, now: nat, steps: seq<Step>, s: State, id: Receipt)
    requires Reached(c, available, now, steps, s) && id in s.emitted
    ensures CountCalls(s.calls, id) <= 1
    ensures forall call <- s.calls :: call.id == id && call.ack ==>
              id in s.seqOf && call.why == HostAcked(s.seqOf[id]) && s.seqOf[id] in s.hostAcked
  {
    ReachedSound(c, available, now, steps, s);
    EmittedCallsSettle(c, s, id);
    assert Conserved(s, id);
  }

  /** Once a cancel returned, the window is empty, every delivery received is
      settled exactly once, and one that was emitted got exactly one call. */
  lemma CancelSettlesAll(c: Config, available: set<Msg>, now: nat, steps: seq<Step>, s: State, id: Receipt)
    requires Reached(c, available, now, steps, s) && s.cancel == Cancel.Done
    ensures s.window.pending == []
    ensures id < |s.msgOf| ==> CountSettled(s.calls, id) == 1
    ensures id in s.emitted ==> CountCalls(s.calls, id) == 1
  {
    ReachedSound(c, available, now, steps, s);
    assert Conserved(s, id);
    if id in s.emitted {
      EmittedCallsSettle(c, s, id);
    }
  }

  /** Two deliveries never share a number, and a host acknowledgement settles
      nothing but the delivery that carries it. */
  lemma AckSettlesItsOwn(c: Config, available: set<Msg>, now: nat, steps: seq<Step>, s: State, a: Call, b: Call)
    requires Reached(c, available, now, steps, s) && a in s.calls && b in s.calls
    requires a.why.HostAcked? && a.why == b.why
    ensures a.id == b.id
  {
    ReachedSound(c, available, now, steps, s);
    assert Justified(c, s, a) && Justified(c, s, b);
  }

  /** A delivery is released for being late only past the timeout. */
  lemma ReleasedOnlyLate(c: Config, available: set<Msg>, now: nat, steps: seq<Step>, s: State, call: Call)
    requires Reached(c, available, now, steps, s) && call in s.calls && !call.ack
    ensures s.stop || (call.why.TimedOut? && call.why.age >= c.ackTimeout)
  {
    ReachedSound(c, available, now, steps, s);
    assert Justified(c, s, call);
  }
}
