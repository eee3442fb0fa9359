/** A queue watch and its broker: the bound on what is held, and that no message
    is lost. */
module QueueBroker {
  import opened Strs
  import opened QueueWindow
  import opened QueueSteps
  import opened QueueNumbers
  import opened QueueConservation

  // ---- The bound ----

  function InHandNow(r: Receiver): nat {
    |Unheld(r)| + One(r.Removing? && r.wasHeld) + if r.Receiving? then r.room else 0
  }

  /** The window, the receiver's hand and the room a receive asked for fit. */
  ghost predicate Bounded(c: Config, s: State) {
    |s.window.pending| + InHandNow(s.receiver) <= c.maxInFlight
  }

  lemma OthersGainNothing(c: Config, s: State, step: ReceiverStep)
    requires ReceiverCan(c, s, step) && !step.LookForRoom? && !step.Receive? && !step.Send?
    ensures var s' := AfterReceiver(c, s, step);
            |s'.window.pending| + InHandNow(s'.receiver) <= |s.window.pending| + InHandNow(s.receiver)
  {
  }

  lemma ReceiverKeepsBound(c: Config, s: State, step: ReceiverStep)
    requires c.respectsMax && Bounded(c, s) && ReceiverCan(c, s, step)
    ensures Bounded(c, AfterReceiver(c, s, step))
  {
    if step.Send? {
      TakenMembers(s.window, s.receiver.seqno);
    } else if !step.LookForRoom? && !step.Receive? {
      OthersGainNothing(c, s, step);
    }
  }

  lemma {:induction false} OverdueFits(pending: seq<Held>, now: nat, timeout: nat, late: bool)
    ensures |Overdue(pending, now, timeout, late)| <= |pending|
  {
    if pending != [] {
      OverdueFits(pending[1..], now, timeout, late);
    }
  }

  lemma SettlerKeepsBound(c: Config, s: State, step: SettlerStep)
    requires Bounded(c, s) && SettlerCan(s, step)
    ensures Bounded(c, AfterSettler(c, s, step))
  {
    match step {
      case Expire => OverdueFits(s.window.pending, s.now, c.ackTimeout, false);
      case TakeOut => TakenMembers(s.window, s.settler.seqno);
      case Drain =>
      case _ =>
        SettlerLeaves(c, s, step);
        QueueNumbers.OthersMoveNothing(c, s, step);
    }
  }

  /** And what the settler took out and has not settled fits the bound by itself. */
  ghost predicate BoundedTwice(c: Config, s: State) {
    Bounded(c, s) && |Handling(s.settler)| <= c.maxInFlight
  }

  lemma SettlerTakesNoMore(c: Config, s: State, step: SettlerStep)
    requires BoundedTwice(c, s) && SettlerCan(s, step)
    ensures |Handling(AfterSettler(c, s, step).settler)| <= c.maxInFlight
  {
    match step {
      case Expire => OverdueFits(s.window.pending, s.now, c.ackTimeout, true);
      case TakeOut => TakenMembers(s.window, s.settler.seqno);
      case _ =>
    }
  }

  lemma {:induction false} RunKeepsBound(c: Config, s: State, steps: seq<Step>)
    requires c.respectsMax && BoundedTwice(c, s) && Runs(c, s, steps)
    ensures BoundedTwice(c, Final(c, s, steps))
    decreases |steps|
  {
    if steps != [] {
      match steps[0] {
        case ByReceiver(r) =>
          ReceiverKeepsBound(c, s, r);
          ReceiverLeaves(c, s, r);
        case BySettler(x) =>
          SettlerKeepsBound(c, s, x);
          SettlerTakesNoMore(c, s, x);
        case ByOther(o) => OthersLeave(s, o);
      }
      RunKeepsBound(c, After(c, s, steps[0]), steps[1..]);
    }
  }

  /** With a source that respects what it is asked for, the window and the
      deliveries in the receiver's hand never exceed `maxInFlight`, though the
      mutex is free between the look for room and the receive. */
  lemma NeverOverBound(c: Config, available: set<Msg>, now: nat, steps: seq<Step>, s: State)
    requires c.respectsMax && Reached(c, available, now, steps, s)
    ensures |s.window.pending| + |Unheld(s.receiver)| + One(s.receiver.Removing? && s.receiver.wasHeld) <= c.maxInFlight
  {
    RunKeepsBound(c, Start(available, now), steps);
  }

  /** The deliveries received that no call has settled yet. */
  ghost function Unsettled(s: State): set<Receipt> {
    set id | 0 <= id < |s.msgOf| && CountSettled(s.calls, id) == 0
  }

  ghost function InHandIds(hand: seq<Receipt>): set<Receipt> {
    set id | id in hand
  }

  ghost function HeldIds(held: seq<Held>): set<Receipt> {
    set h | h in held :: h.receipt
  }

  lemma {:induction false} InHandFew(hand: seq<Receipt>, id: Receipt)
    ensures |InHandIds(hand)| <= |hand|
    ensures CountIn(hand, id) > 0 ==> id in InHandIds(hand)
  {
    if hand != [] {
      InHandFew(hand[1..], id);
      assert InHandIds(hand) == {hand[0]} + InHandIds(hand[1..]);
    }
  }

  lemma {:induction false} HeldFew(held: seq<Held>, id: Receipt)
    ensures |HeldIds(held)| <= |held|
    ensures CountHeld(held, id) > 0 ==> id in HeldIds(held)
  {
    if held != [] {
      HeldFew(held[1..], id);
      assert HeldIds(held) == {held[0].receipt} + HeldIds(held[1..]);
    }
  }

  /** What is not settled is in the receiver's hand, the window or the settler's. */
  lemma UnsettledIsSomewhere(c: Config, s: State, id: Receipt)
    requires Sound(c, s) && id in Unsettled(s)
    ensures id in InHandIds(Unheld(s.receiver)) + HeldIds(s.window.pending) + HeldIds(Handling(s.settler))
         || (s.receiver.Removing? && s.receiver.wasHeld && s.receiver.id == id)
  {
    assert Conserved(s, id);
    InHandFew(Unheld(s.receiver), id);
    HeldFew(s.window.pending, id);
    HeldFew(Handling(s.settler), id);
  }

  lemma UnsettledFew(c: Config, s: State)
    requires Sound(c, s)
    ensures |Unsettled(s)| <= |Unheld(s.receiver)| + One(s.receiver.Removing? && s.receiver.wasHeld)
                              + |s.window.pending| + |Handling(s.settler)|
  {
    InHandFew(Unheld(s.receiver), 0);
    HeldFew(s.window.pending, 0);
    HeldFew(Handling(s.settler), 0);
    var hand, held, handled := InHandIds(Unheld(s.receiver)), HeldIds(s.window.pending), HeldIds(Handling(s.settler));
    var taken := if s.receiver.Removing? && s.receiver.wasHeld then {s.receiver.id} else {};
    forall id | id in Unsettled(s)
      ensures id in hand + taken + held + handled
    {
      UnsettledIsSomewhere(c, s, id);
    }
    SubsetSize(Unsettled(s), hand + taken + held + handled);
  }

  /** The deliveries not yet settled number at most twice `maxInFlight`: what the
      settler took out frees room before it is released or acked. */
  lemma UnsettledAtMostTwice(c: Config, available: set<Msg>, now: nat, steps: seq<Step>, s: State)
    requires c.respectsMax && Reached(c, available, now, steps, s)
    ensures |Unsettled(s)| <= 2 * c.maxInFlight
  {
    RunKeepsBound(c, Start(available, now), steps);
    ReachedSound(c, available, now, steps, s);
    UnsettledFew(c, s);
  }

  // ---- No message is lost ----

  ghost predicate LockedUp(b: Broker, msgOf: seq<Msg>, m: Msg) {
    exists id :: id in b.locked && MsgAt(msgOf, id) == m
  }

  ghost predicate AckedFor(calls: seq<Call>, msgOf: seq<Msg>, m: Msg) {
    exists call :: call in calls && call.ack && MsgAt(msgOf, call.id) == m
  }

  /** A message is in one place at the broker: available, locked under one
      delivery, or removed by an ack. */
  ghost predicate Kept(b: Broker, msgOf: seq<Msg>, calls: seq<Call>) {
    && (forall m <- b.published :: m in b.available || m in b.removed || LockedUp(b, msgOf, m))
    && (forall m <- b.removed :: AckedFor(calls, msgOf, m) && m in b.published)
    && b.available <= b.published && b.available !! b.removed
    && (forall id <- b.locked :: id < |msgOf| && MsgAt(msgOf, id) in b.published - b.available - b.removed)
    && (forall a, b' | a in b.locked && b' in b.locked && a != b' :: MsgAt(msgOf, a) != MsgAt(msgOf, b'))
    && (forall call <- calls :: call.id < |msgOf|)
  }

  lemma CallKeeps(b: Broker, msgOf: seq<Msg>, calls: seq<Call>, call: Call, heard: bool)
    requires Kept(b, msgOf, calls) && call.id < |msgOf|
    ensures Kept(Heard(b, MsgAt(msgOf, call.id), call.id, call.ack, heard), msgOf, calls + [call])
  {
  }

  lemma LapseKeeps(b: Broker, msgOf: seq<Msg>, calls: seq<Call>, id: Receipt)
    requires Kept(b, msgOf, calls) && id in b.locked
    ensures Kept(Heard(b, MsgAt(msgOf, id), id, false, true), msgOf, calls)
  {
  }

  lemma PublishKeeps(b: Broker, msgOf: seq<Msg>, calls: seq<Call>, m: Msg)
    requires Kept(b, msgOf, calls) && m !in b.published
    ensures Kept(b.(published := b.published + {m}, available := b.available + {m}), msgOf, calls)
  {
  }

  ghost predicate BrokerKept(s: State) {
    Kept(s.broker, s.msgOf, s.calls)
  }

  lemma DeliveryOf(msgOf: seq<Msg>, msgs: seq<Msg>, i: nat)
    requires i < |msgs|
    ensures |msgOf| + i in Locks(|msgOf|, |msgs|) && MsgAt(msgOf + msgs, |msgOf| + i) == msgs[i]
  {
    assert Deliveries(|msgOf|, |msgs|)[i] == |msgOf| + i;
  }

  lemma LocksAre(first: nat, n: nat, id: Receipt)
    ensures id in Locks(first, n) <==> first <= id < first + n
  {
    if first <= id < first + n {
      assert Deliveries(first, n)[id - first] == id;
    }
  }

  lemma ReceiveKeeps(b: Broker, msgOf: seq<Msg>, calls: seq<Call>, msgs: seq<Msg>)
    requires Kept(b, msgOf, calls) && NoDuplicates(msgs) && forall m <- msgs :: m in b.available
    ensures Kept(b.(available := b.available - (set m | m in msgs), locked := b.locked + Locks(|msgOf|, |msgs|)),
                 msgOf + msgs, calls)
  {
    var after := b.(available := b.available - (set m | m in msgs), locked := b.locked + Locks(|msgOf|, |msgs|));
    forall id | id in after.locked
      ensures id < |msgOf + msgs|
      ensures id in b.locked ==> MsgAt(msgOf + msgs, id) == MsgAt(msgOf, id)
      ensures id !in b.locked ==> |msgOf| <= id && MsgAt(msgOf + msgs, id) == msgs[id - |msgOf|]
    {
      LocksAre(|msgOf|, |msgs|, id);
    }
    forall m | m in b.published
      ensures m in after.available || m in after.removed || LockedUp(after, msgOf + msgs, m)
    {
      if m in msgs {
        var i :| 0 <= i < |msgs| && msgs[i] == m;
        DeliveryOf(msgOf, msgs, i);
        assert |msgOf| + i in after.locked;
      } else if LockedUp(b, msgOf, m) {
        var id :| id in b.locked && MsgAt(msgOf, id) == m;
        assert id in after.locked;
      }
    }
    forall m | m in b.removed
      ensures AckedFor(calls, msgOf + msgs, m)
    {
      var call :| call in calls && call.ack && MsgAt(msgOf, call.id) == m;
      assert MsgAt(msgOf + msgs, call.id) == m;
    }
  }

  /** What a step does with the broker besides a receive: nothing, or one call. */
  lemma ReceiverBroker(c: Config, s: State, step: ReceiverStep) returns (call: Call, heard: bool)
    requires Fresh(s) && Numbered(s) && ReceiverCan(c, s, step) && !step.Receive?
    ensures var s' := AfterReceiver(c, s, step);
            s'.msgOf == s.msgOf
            && ((s'.broker == s.broker && s'.calls == s.calls)
                || (call.id < |s.msgOf| && s'.calls == s.calls + [call]
                    && s'.broker == Heard(s.broker, MsgAt(s.msgOf, call.id), call.id, call.ack, heard)))
  {
    var s' := AfterReceiver(c, s, step);
    call, heard := Call(0, false, Stopping, false), false;
    if TakesFromHand(step) && s.receiver.hand != [] {
      assert s.receiver.hand[0] in Unheld(s.receiver);
    }
    if step.ReleaseNext? || step.AckNext? || step.AckUnsendable? {
      if |s'.calls| > |s.calls| {
        call, heard := s'.calls[|s.calls|], step.heard;
      }
    }
  }

  lemma SettlerBroker(c: Config, s: State, step: SettlerStep) returns (call: Call, heard: bool)
    requires Fresh(s) && Numbered(s) && SettlerCan(s, step)
    ensures var s' := AfterSettler(c, s, step);
            s'.msgOf == s.msgOf
            && ((s'.broker == s.broker && s'.calls == s.calls)
                || (call.id < |s.msgOf| && s'.calls == s.calls + [call]
                    && s'.broker == Heard(s.broker, MsgAt(s.msgOf, call.id), call.id, call.ack, heard)))
  {
    var s' := AfterSettler(c, s, step);
    call, heard := Call(0, false, Stopping, false), false;
    if step.ReleaseLate? || step.AckTaken? || step.ReleaseLeft? {
      if Handling(s.settler) != [] {
        var h := Handling(s.settler)[0];
        assert HasNumber(s, h.receipt, h.seqno);
        call, heard := s'.calls[|s.calls|], step.heard;
      }
    }
  }

  lemma StepKeepsBroker(c: Config, s: State, step: Step)
    requires Fresh(s) && Numbered(s) && BrokerKept(s) && Enabled(c, s, step)
    ensures BrokerKept(After(c, s, step))
  {
    match step {
      case ByReceiver(r) =>
        if r.Receive? {
          ReceiveKeeps(s.broker, s.msgOf, s.calls, r.msgs);
        } else {
          var call, heard := ReceiverBroker(c, s, r);
          if AfterReceiver(c, s, r).calls != s.calls { CallKeeps(s.broker, s.msgOf, s.calls, call, heard); }
        }
      case BySettler(x) =>
        var call, heard := SettlerBroker(c, s, x);
        if AfterSettler(c, s, x).calls != s.calls { CallKeeps(s.broker, s.msgOf, s.calls, call, heard); }
      case ByOther(o) => OthersKeepBroker(s, o);
    }
  }

  lemma OthersKeepBroker(s: State, step: OtherStep)
    requires BrokerKept(s) && OtherCan(s, step)
    ensures BrokerKept(AfterOther(s, step))
  {
    match step {
      case Publish(m) => PublishKeeps(s.broker, s.msgOf, s.calls, m);
      case LockLapses(id) => LapseKeeps(s.broker, s.msgOf, s.calls, id);
      case _ =>
    }
  }

  lemma {:induction false} RunKeepsBroker(c: Config, s: State, steps: seq<Step>)
    requires Sound(c, s) && BrokerKept(s) && Runs(c, s, steps)
    ensures BrokerKept(Final(c, s, steps))
    decreases |steps|
  {
    if steps != [] {
      StepSound(c, s, steps[0]);
      StepKeepsBroker(c, s, steps[0]);
      RunKeepsBroker(c, After(c, s, steps[0]), steps[1..]);
    }
  }

  /** No message is lost: one that is neither available nor locked under a
      delivery was acked, because the host acknowledged the number of one of its
      deliveries, or its event could not be sent, or the watch only notifies. */
  lemma NoMessageLost(c: Config, available: set<Msg>, now: nat, steps: seq<Step>, s: State, m: Msg)
    requires Reached(c, available, now, steps, s)
    requires m in s.broker.published && m !in s.broker.available && !LockedUp(s.broker, s.msgOf, m)
    ensures exists call :: call in s.calls && call.ack && MsgAt(s.msgOf, call.id) == m
              && (!c.eventSource
                  || (call.id in s.seqOf
                      && (s.seqOf[call.id] in s.hostAcked || !c.sendable(m, s.seqOf[call.id]))))
  {
    StartSound(c, available, now);
    RunKeepsBroker(c, Start(available, now), steps);
    ReachedSound(c, available, now, steps, s);
    assert AckedFor(s.calls, s.msgOf, m);
    var call :| call in s.calls && call.ack && MsgAt(s.msgOf, call.id) == m;
    assert Justified(c, s, call);
  }

  /** Nor is one delivered twice at a time: a locked message is not available, and
      is locked under one delivery. */
  lemma LockedOnce(c: Config, available: set<Msg>, now: nat, steps: seq<Step>, s: State, a: Receipt, b: Receipt)
    requires Reached(c, available, now, steps, s)
    requires a in s.broker.locked && b in s.broker.locked
    ensures MsgAt(s.msgOf, a) !in s.broker.available && MsgAt(s.msgOf, a) !in s.broker.removed
    ensures a != b ==> MsgAt(s.msgOf, a) != MsgAt(s.msgOf, b)
  {
    StartSound(c, available, now);
    RunKeepsBroker(c, Start(available, now), steps);
  }
}
