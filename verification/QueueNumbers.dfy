/** What every interleaving of a queue watch keeps about identities and sequence
    numbers, and why each call to the broker is made. */
module QueueNumbers {
  import opened QueueWindow
  import opened QueueSteps

  // ---- Identities ----

  /** Received and not yet put in the window. */
  function Unheld(r: Receiver): seq<Receipt> {
    match r
    case Got(hand) => hand
    case ReleasingHand(hand) => hand
    case AckingHand(hand) => hand
    case Offering(hand) => hand
    case Offered(_, _, hand) => hand
    case Removing(_, _, hand) => hand
    case _ => []
  }

  /** A delivery not yet in the window has no number, and is in hand once. */
  ghost predicate Fresh(s: State) {
    && NoDuplicates(Unheld(s.receiver))
    && (forall id <- Unheld(s.receiver) :: id < |s.msgOf| && id !in s.seqOf)
    && (forall id <- s.seqOf :: id < |s.msgOf|)
  }

  lemma TailFresh(hand: seq<Receipt>)
    requires NoDuplicates(hand) && hand != []
    ensures NoDuplicates(hand[1..]) && forall id <- hand[1..] :: id in hand && id != hand[0]
  {
  }

  predicate TakesFromHand(step: ReceiverStep) {
    step.HoldNext? || step.ReleaseNext? || step.AckNext?
  }

  lemma OthersKeepHand(c: Config, s: State, step: ReceiverStep)
    requires ReceiverCan(c, s, step) && !step.Receive? && !TakesFromHand(step)
    ensures var s' := AfterReceiver(c, s, step);
            Unheld(s'.receiver) == Unheld(s.receiver) && s'.msgOf == s.msgOf && s'.seqOf == s.seqOf
  {
  }

  lemma TakingKeepsFresh(c: Config, s: State, step: ReceiverStep)
    requires Fresh(s) && ReceiverCan(c, s, step) && TakesFromHand(step) && s.receiver.hand != []
    ensures var s', hand := AfterReceiver(c, s, step), s.receiver.hand;
            && hand[0] < |s.msgOf| && hand[0] !in s.seqOf && s'.msgOf == s.msgOf
            && Unheld(s'.receiver) == hand[1..]
            && s'.seqOf.Keys == (if step.HoldNext? then s.seqOf.Keys + {hand[0]} else s.seqOf.Keys)
  {
    assert s.receiver.hand == Unheld(s.receiver);
    assert s.receiver.hand[0] in Unheld(s.receiver);
  }

  lemma ReceivedFresh(s: State, msgs: seq<Msg>)
    requires Fresh(s)
    ensures Fresh(Received(s, msgs))
  {
  }

  lemma StepKeepsFresh(c: Config, s: State, step: Step)
    requires Fresh(s) && Enabled(c, s, step)
    ensures Fresh(After(c, s, step))
  {
    match step {
      case ByReceiver(r) => ReceiverKeepsFresh(c, s, r);
      case BySettler(x) => SettlerLeaves(c, s, x);
      case ByOther(o) => OthersLeave(s, o);
    }
  }

  lemma ReceiverKeepsFresh(c: Config, s: State, step: ReceiverStep)
    requires Fresh(s) && ReceiverCan(c, s, step)
    ensures Fresh(AfterReceiver(c, s, step))
  {
    if step.Receive? {
      ReceivedFresh(s, step.msgs);
    } else if !TakesFromHand(step) {
      OthersKeepHand(c, s, step);
    } else if s.receiver.hand != [] {
      TakingKeepsFresh(c, s, step);
      TailFresh(s.receiver.hand);
      assert s.receiver.hand == Unheld(s.receiver);
    }
  }

  // ---- Numbers ----

  ghost predicate HasNumber(s: State, id: Receipt, seqno: nat) {
    id in s.seqOf && s.seqOf[id] == seqno
  }

  ghost predicate HeldHaveNumbers(s: State, held: seq<Held>) {
    forall h <- held :: HasNumber(s, h.receipt, h.seqno)
  }

  /** What the settler took out of the window and not yet settled. */
  function Handling(x: Settler): seq<Held> {
    match x
    case ReleasingLate(late, _) => late
    case Acking(held) => [held]
    case ReleasingAll(left) => left
    case _ => []
  }

  /** The settler was told to stop. */
  predicate Ending(x: Settler) {
    x.Draining? || x.ReleasingAll? || x.Finished?
  }

  /** A delivery's number is given once and is its own, wherever it is. */
  ghost predicate Numbered(s: State) {
    && Ordered(s.window)
    && (forall id <- s.seqOf :: s.seqOf[id] < s.window.nextSeq)
    && (forall a, b | a in s.seqOf && b in s.seqOf && a != b :: s.seqOf[a] != s.seqOf[b])
    && HeldHaveNumbers(s, s.window.pending)
    && HeldHaveNumbers(s, Handling(s.settler))
    && (s.receiver.Offered? ==> HasNumber(s, s.receiver.id, s.receiver.seqno))
    && (s.receiver.Removing? ==> s.receiver.id in s.seqOf)
  }

  lemma TakenMembers(w: Window, seqno: nat)
    ensures var (w', held) := Taken(w, seqno);
            && w'.nextSeq == w.nextSeq
            && (forall h <- w'.pending :: h in w.pending)
            && (held.Some? ==> held.value in w.pending && held.value.seqno == seqno)
            && (held.None? ==> w' == w && forall h <- w.pending :: h.seqno != seqno)
            && |w'.pending| == |w.pending| - (if held.Some? then 1 else 0)
  {
  }

  /** Moving deliveries out of the window keeps the numbers. */
  lemma MovedNumbered(s: State, s': State)
    requires Numbered(s) && Ordered(s'.window) && s'.window.nextSeq == s.window.nextSeq && s'.seqOf == s.seqOf
    requires forall h <- s'.window.pending :: h in s.window.pending
    requires forall h <- Handling(s'.settler) :: h in s.window.pending || h in Handling(s.settler)
    requires s'.receiver.Offered? ==> s'.receiver == s.receiver
    requires s'.receiver.Removing? ==> s'.receiver.id in s.seqOf
    ensures Numbered(s')
  {
  }

  lemma HoldKeepsNumbered(s: State)
    requires Fresh(s) && Numbered(s) && s.receiver.Offering? && s.receiver.hand != []
    ensures Numbered(HeldNext(s))
  {
    var s' := HeldNext(s);
    assert s.receiver.hand[0] in Unheld(s.receiver);
    forall h | h in s.window.pending || h in Handling(s.settler)
      ensures HasNumber(s', h.receipt, h.seqno)
    {
      assert HasNumber(s, h.receipt, h.seqno);
    }
    assert HeldHaveNumbers(s', s'.window.pending);
  }

  lemma OthersNumberNothing(c: Config, s: State, step: ReceiverStep)
    requires ReceiverCan(c, s, step) && !step.Send? && !(step.HoldNext? && s.receiver.hand != [])
    ensures var s' := AfterReceiver(c, s, step);
            && (s'.receiver.Offered? ==> s'.receiver == s.receiver)
            && (s'.receiver.Removing? ==> s'.receiver == s.receiver)
            && s'.window == s.window && s'.seqOf == s.seqOf
  {
  }

  lemma SendLeaves(c: Config, s: State)
    requires s.receiver.Offered?
    ensures var s' := Sent(c, s);
            && (s'.window == s.window || s'.window == Taken(s.window, s.receiver.seqno).0)
            && s'.seqOf == s.seqOf && s'.settler == s.settler && !s'.receiver.Offered?
            && (s'.receiver.Removing? ==> s'.receiver.id == s.receiver.id)
  {
  }

  lemma TakenMoves(w: Window, seqno: nat)
    requires Ordered(w)
    ensures var w' := Taken(w, seqno).0;
            Ordered(w') && w'.nextSeq == w.nextSeq && forall h <- w'.pending :: h in w.pending
  {
    TakenMembers(w, seqno);
    TakenOrdered(w, seqno);
  }

  lemma ReceiverKeepsNumbered(c: Config, s: State, step: ReceiverStep)
    requires Fresh(s) && Numbered(s) && ReceiverCan(c, s, step)
    ensures Numbered(AfterReceiver(c, s, step))
  {
    if step.HoldNext? && s.receiver.hand != [] {
      HoldKeepsNumbered(s);
    } else {
      if step.Send? {
        SendLeaves(c, s);
        TakenMoves(s.window, s.receiver.seqno);
      } else {
        ReceiverLeaves(c, s, step);
        OthersNumberNothing(c, s, step);
      }
      MovedNumbered(s, AfterReceiver(c, s, step));
    }
  }

  lemma OthersMoveNothing(c: Config, s: State, step: SettlerStep)
    requires SettlerCan(s, step) && !step.Expire? && !step.TakeOut? && !step.Drain?
    ensures var s' := AfterSettler(c, s, step);
            s'.window == s.window && forall h <- Handling(s'.settler) :: h in Handling(s.settler)
  {
  }

  /** What the settler handles next it has, or takes out of the window. */
  lemma SettlerMoves(c: Config, s: State, step: SettlerStep)
    requires SettlerCan(s, step) && Ordered(s.window)
    ensures var s' := AfterSettler(c, s, step);
            && Ordered(s'.window)
            && (forall h <- s'.window.pending :: h in s.window.pending)
            && (forall h <- Handling(s'.settler) :: h in s.window.pending || h in Handling(s.settler))
  {
    match step {
      case Expire => RestOrdered(s.window, s.now, c.ackTimeout);
      case TakeOut =>
        TakenMembers(s.window, s.settler.seqno);
        TakenOrdered(s.window, s.settler.seqno);
      case Drain =>
      case _ => OthersMoveNothing(c, s, step);
    }
  }

  lemma StepKeepsNumbered(c: Config, s: State, step: Step)
    requires Fresh(s) && Numbered(s) && Enabled(c, s, step)
    ensures Numbered(After(c, s, step))
  {
    match step {
      case ByReceiver(r) => ReceiverKeepsNumbered(c, s, r);
      case BySettler(x) =>
        SettlerLeaves(c, s, x);
        SettlerMoves(c, s, x);
        MovedNumbered(s, AfterSettler(c, s, x));
      case ByOther(o) =>
        OthersLeave(s, o);
        MovedNumbered(s, AfterOther(s, o));
    }
  }

  /** What the window holds under a delivery's number is that delivery. */
  lemma TakenIsOwn(s: State, id: Receipt, seqno: nat)
    requires Numbered(s) && HasNumber(s, id, seqno)
    ensures var held := Taken(s.window, seqno).1; held.Some? ==> held.value.receipt == id
  {
    TakenMembers(s.window, seqno);
    var held := Taken(s.window, seqno).1;
    if held.Some? {
      assert HasNumber(s, held.value.receipt, seqno);
    }
  }

  // ---- Why a delivery is settled ----

  ghost predicate HostHasAcked(s: State, settle: Settle) {
    settle.AckOf? && settle.position.Some? ==> settle.position.value in s.hostAcked
  }

  /** Each call is made for a reason that holds: an ack because the host
      acknowledged this delivery's own number, or the event cannot be sent, or
      the watch only notifies; a release for lateness only past the timeout. */
  ghost predicate Justified(c: Config, s: State, call: Call) {
    && call.id < |s.msgOf|
    && match call.why
       case HostAcked(seqno) => call.ack && !call.extra && HasNumber(s, call.id, seqno) && seqno in s.hostAcked
       case TimedOut(age) => !call.ack && !call.extra && age >= c.ackTimeout
       case AtTheEnd => !call.ack && !call.extra && s.stop
       case Stopping => !call.ack && !call.extra && s.stop
       case Notified => call.ack && !call.extra && !c.eventSource
       case Unsendable =>
         call.ack && c.eventSource && call.id in s.seqOf && !c.sendable(MsgAt(s.msgOf, call.id), s.seqOf[call.id])
  }

  /** The receiver returns only once stopped; only a stopped watch stops settling, and
      only once its receiver is gone. */
  ghost predicate Phased(s: State) {
    && (s.cancel != NotCalled ==> s.stop)
    && (s.receiver.Returned? ==> s.stop)
    && (s.cancel.JoiningSettler? || s.cancel.Done? ==> s.receiver.Returned?)
    && (s.cancel.NotCalled? || s.cancel.JoiningReceiver? ==>
          StopSettling !in s.channel && !s.settler.Draining? && !s.settler.ReleasingAll? && !s.settler.Finished?)
    && (s.settler.ReleasingAll? || s.settler.Finished? ==> s.window.pending == [])
    && (s.cancel.Done? ==> s.settler.Finished?)
    && (s.receiver.ReleasingHand? ==> s.stop)
  }

  ghost predicate ReceiverReasons(c: Config, s: State) {
    && (s.receiver.AckingHand? ==> !c.eventSource)
    && (s.receiver.Offering? || s.receiver.Offered? || s.receiver.Removing? ==> c.eventSource)
    && (s.receiver.Removing? ==>
          s.receiver.id in s.seqOf && !c.sendable(MsgAt(s.msgOf, s.receiver.id), s.seqOf[s.receiver.id]))
  }

  ghost predicate SettlerReasons(c: Config, s: State) {
    && (forall settle <- s.channel :: HostHasAcked(s, settle))
    && (s.settler.Taking? ==> s.settler.seqno in s.hostAcked)
    && (s.settler.Acking? ==> s.settler.held.seqno in s.hostAcked)
    && (s.settler.ReleasingLate? ==> forall h <- s.settler.late :: Late(h, s.settler.read, c.ackTimeout))
  }

  /** An event is emitted only where one can be sent. */
  ghost predicate Emitted(c: Config, s: State) {
    forall id <- s.emitted ::
      c.eventSource && id in s.seqOf && c.sendable(MsgAt(s.msgOf, id), s.seqOf[id])
  }

  ghost predicate Justifies(c: Config, s: State) {
    forall call <- s.calls :: Justified(c, s, call)
  }

  /** What a step adds to: the record of what was received, numbered, acked. */
  ghost predicate Grows(s: State, s': State) {
    && s.msgOf <= s'.msgOf && s.hostAcked <= s'.hostAcked && (s.stop ==> s'.stop)
    && (forall id <- s.seqOf :: id in s'.seqOf && s'.seqOf[id] == s.seqOf[id])
  }

  lemma StepGrows(c: Config, s: State, step: Step)
    requires Fresh(s) && Enabled(c, s, step)
    ensures Grows(s, After(c, s, step))
  {
    match step {
      case ByReceiver(r) =>
        ReceiverLeaves(c, s, r);
        if r.HoldNext? && s.receiver.hand != [] {
          TakingKeepsFresh(c, s, r);
        }
      case BySettler(x) => SettlerLeaves(c, s, x);
      case ByOther(o) => OthersLeave(s, o);
    }
  }

  lemma ReasonsLast(c: Config, s: State, s': State, call: Call)
    requires Justified(c, s, call) && Fresh(s) && Grows(s, s')
    ensures Justified(c, s', call)
  {
  }

  // The phases.

  lemma StepKeepsPhased(c: Config, s: State, step: Step)
    requires Phased(s) && Enabled(c, s, step)
    ensures Phased(After(c, s, step))
  {
    match step {
      case ByReceiver(r) => ReceiverKeepsPhased(c, s, r);
      case BySettler(x) => SettlerKeepsPhased(c, s, x);
      case ByOther(o) => OthersLeave(s, o);
    }
  }

  lemma ReceiverKeepsPhased(c: Config, s: State, step: ReceiverStep)
    requires Phased(s) && ReceiverCan(c, s, step)
    ensures Phased(AfterReceiver(c, s, step))
  {
    ReceiverLeaves(c, s, step);
    assert s.cancel.NotCalled? || s.cancel.JoiningReceiver?;
    assert AfterReceiver(c, s, step).receiver.ReleasingHand? ==> s.receiver.ReleasingHand? || s.stop;
  }

  lemma SettlerKeepsPhased(c: Config, s: State, step: SettlerStep)
    requires Phased(s) && SettlerCan(s, step)
    ensures Phased(AfterSettler(c, s, step))
  {
    SettlerLeaves(c, s, step);
    if step.Hear? {
      assert s.channel[0] in s.channel;
    }
  }

  // The reasons in hand.

  lemma ReceiverKeepsOwnReasons(c: Config, s: State, step: ReceiverStep)
    requires Fresh(s) && Numbered(s) && ReceiverReasons(c, s) && ReceiverCan(c, s, step)
    ensures ReceiverReasons(c, AfterReceiver(c, s, step))
  {
  }

  lemma SettlerKeepsOwnReasons(c: Config, s: State, step: SettlerStep)
    requires SettlerReasons(c, s) && SettlerCan(s, step)
    ensures SettlerReasons(c, AfterSettler(c, s, step))
  {
    SettlerLeaves(c, s, step);
    match step {
      case Hear =>
        assert HostHasAcked(s, s.channel[0]);
        assert forall settle <- s.channel[1..] :: settle in s.channel && HostHasAcked(s, settle);
      case TakeOut => TakenMembers(s.window, s.settler.seqno);
      case _ =>
    }
  }

  lemma OthersKeepSettlerReasons(c: Config, s: State, step: OtherStep)
    requires SettlerReasons(c, s) && OtherCan(s, step)
    ensures SettlerReasons(c, AfterOther(s, step))
  {
  }

  ghost predicate InHand(c: Config, s: State) {
    ReceiverReasons(c, s) && SettlerReasons(c, s)
  }

  lemma StepKeepsInHand(c: Config, s: State, step: Step)
    requires Fresh(s) && Numbered(s) && InHand(c, s) && Enabled(c, s, step)
    ensures InHand(c, After(c, s, step))
  {
    match step {
      case ByReceiver(r) =>
        ReceiverLeaves(c, s, r);
        ReceiverKeepsOwnReasons(c, s, r);
      case BySettler(x) =>
        SettlerLeaves(c, s, x);
        SettlerKeepsOwnReasons(c, s, x);
      case ByOther(o) =>
        OthersLeave(s, o);
        OthersKeepSettlerReasons(c, s, o);
    }
  }

  // The calls.

  /** The call a step makes, if it makes one. */
  lemma ReceiverCalls(c: Config, s: State, step: ReceiverStep)
    requires Fresh(s) && Phased(s) && ReceiverReasons(c, s) && ReceiverCan(c, s, step)
    ensures var s' := AfterReceiver(c, s, step);
            s'.calls == s.calls
            || (exists call :: s'.calls == s.calls + [call] && Justified(c, s', call))
  {
    var s' := AfterReceiver(c, s, step);
    if step.ReleaseNext? || step.AckNext? {
      if s.receiver.hand != [] {
        assert s.receiver.hand[0] in Unheld(s.receiver);
        var call := s'.calls[|s.calls|];
        assert s'.calls == s.calls + [call] && Justified(c, s', call);
      }
    } else if step.AckUnsendable? {
      var call := s'.calls[|s.calls|];
      assert s'.calls == s.calls + [call] && Justified(c, s', call);
    }
  }

  lemma SettlerCalls(c: Config, s: State, step: SettlerStep)
    requires Fresh(s) && Numbered(s) && Phased(s) && SettlerReasons(c, s) && SettlerCan(s, step)
    ensures var s' := AfterSettler(c, s, step);
            s'.calls == s.calls
            || (exists call :: s'.calls == s.calls + [call] && Justified(c, s', call))
  {
    var s' := AfterSettler(c, s, step);
    if |s'.calls| > |s.calls| {
      var h := Handling(s.settler)[0];
      assert HasNumber(s, h.receipt, h.seqno);
      assert s.settler.ReleasingLate? ==> Late(h, s.settler.read, c.ackTimeout);
      var call := s'.calls[|s.calls|];
      assert s'.calls == s.calls + [call] && Justified(c, s', call);
    }
  }

  lemma StepKeepsJustified(c: Config, s: State, step: Step)
    requires Fresh(s) && Numbered(s) && Phased(s) && InHand(c, s) && Justifies(c, s) && Enabled(c, s, step)
    ensures Justifies(c, After(c, s, step))
  {
    var s' := After(c, s, step);
    StepGrows(c, s, step);
    match step {
      case ByReceiver(r) => ReceiverCalls(c, s, r);
      case BySettler(x) => SettlerCalls(c, s, x);
      case ByOther(o) => OthersLeave(s, o);
    }
    forall call | call in s.calls
      ensures Justified(c, s', call)
    {
      ReasonsLast(c, s, s', call);
    }
  }

  lemma StepEmits(c: Config, s: State, step: Step)
    requires Enabled(c, s, step) && Numbered(s)
    ensures var s' := After(c, s, step);
            forall id <- s'.emitted :: id in s.emitted
              || (s.receiver.Offered? && id == s.receiver.id && c.sendable(MsgAt(s.msgOf, id), s.receiver.seqno)
                  && HasNumber(s, id, s.receiver.seqno))
  {
    match step {
      case ByReceiver(r) =>
        if !r.Send? { OthersEmitNothing(c, s, r); }
      case BySettler(x) => SettlerLeaves(c, s, x);
      case ByOther(o) => OthersLeave(s, o);
    }
  }

  lemma OthersEmitNothing(c: Config, s: State, step: ReceiverStep)
    requires ReceiverCan(c, s, step) && !step.Send?
    ensures AfterReceiver(c, s, step).emitted == s.emitted
  {
  }

  lemma StepKeepsEmitted(c: Config, s: State, step: Step)
    requires Fresh(s) && Numbered(s) && InHand(c, s) && Emitted(c, s) && Enabled(c, s, step)
    ensures Emitted(c, After(c, s, step))
  {
    StepGrows(c, s, step);
    StepEmits(c, s, step);
  }
}
