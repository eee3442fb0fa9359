/** A cancel of a queue watch returns: each step its threads take lowers a rank, and
    until it returned there is a step to take. */
module QueueCancel {
  import opened QueueSteps
  import opened QueueNumbers
  import opened QueueConservation

  // ---- The receiver, once stopped ----

  /** How far the receiver is from its return: what it is at, and how much of its
      hand is left. */
  function ReceiverRank(r: Receiver): (nat, nat) {
    match r
    case Returned => (0, 0)
    case Top => (1, 0)
    case Pausing => (2, 0)
    case LookingForRoom => (2, 0)
    case Connecting => (3, 0)
    case AckingHand(hand) => (4, |hand|)
    case ReleasingHand(hand) => (4, |hand|)
    case Offering(hand) => (5, 3 * |hand|)
    case Offered(_, _, hand) => (5, 3 * |hand| + 2)
    case Removing(_, _, hand) => (5, 3 * |hand| + 1)
    case Got(_) => (6, 0)
    case Receiving(_) => (7, 0)
  }

  predicate Lower(a: (nat, nat), b: (nat, nat)) {
    a.0 < b.0 || (a.0 == b.0 && a.1 < b.1)
  }

  /** Once stopped the receiver only comes nearer to its return, whatever the broker
      answers. */
  lemma ReceiverLowers(c: Config, s: State, step: ReceiverStep)
    requires s.stop && ReceiverCan(c, s, step)
    ensures Lower(ReceiverRank(AfterReceiver(c, s, step).receiver), ReceiverRank(s.receiver))
  {
  }

  /** A step it can take. */
  function NextReceiver(r: Receiver): ReceiverStep
    requires !r.Returned?
  {
    match r
    case Top => LoopTop
    case Pausing => PauseOver
    case LookingForRoom => LookForRoom
    case Connecting => Connect(true)
    case AckingHand(_) => AckNext(true)
    case ReleasingHand(_) => ReleaseNext(true)
    case Offering(_) => HoldNext
    case Offered(_, _, _) => Send
    case Removing(_, _, _) => AckUnsendable(true)
    case Got(_) => Dispatch
    case Receiving(_) => ReceiveFails
  }

  lemma {:induction false} ReceiverReturns(c: Config, s: State) returns (steps: seq<Step>)
    requires s.stop
    ensures Runs(c, s, steps)
    ensures var f := Final(c, s, steps); f.receiver.Returned? && f.cancel == s.cancel && f.stop
    decreases ReceiverRank(s.receiver).0, ReceiverRank(s.receiver).1
  {
    if s.receiver.Returned? {
      steps := [];
    } else {
      var step := NextReceiver(s.receiver);
      assert ReceiverCan(c, s, step);
      ReceiverLowers(c, s, step);
      ReceiverLeaves(c, s, step);
      var rest := ReceiverReturns(c, AfterReceiver(c, s, step));
      steps := [ByReceiver(step)] + rest;
      assert steps[1..] == rest;
    }
  }

  // ---- The settler, once told to stop ----

  function StopIndex(channel: seq<Settle>): nat {
    if channel == [] || channel[0].StopSettling? then 0 else 1 + StopIndex(channel[1..])
  }

  /** What the settler has still to hear, and where it is with what it has heard. */
  function SettlerRank(s: State): (nat, (nat, nat)) {
    match s.settler
    case Finished => (0, (0, 0))
    case ReleasingAll(left) => (0, (1, |left|))
    case Draining => (0, (2, 0))
    case Waiting(_) => (StopIndex(s.channel) + 1, (1, 0))
    case Measuring => (StopIndex(s.channel) + 1, (2, 0))
    case ReleasingLate(late, _) => (StopIndex(s.channel) + 1, (3, |late|))
    case Expiring => (StopIndex(s.channel) + 1, (4, 0))
    case Acking(_) => (StopIndex(s.channel) + 1, (5, 0))
    case Taking(_) => (StopIndex(s.channel) + 1, (6, 0))
  }

  ghost predicate Told(s: State) {
    Ending(s.settler) || StopSettling in s.channel
  }

  lemma HearLowers(s: State)
    requires Told(s) && s.settler.Waiting? && s.channel != []
    ensures var s' := HeardSettle(s); Told(s') && SettlerRank(s').0 < SettlerRank(s).0
  {
    assert s.channel == [s.channel[0]] + s.channel[1..];
  }

  lemma SettlerLowers(c: Config, s: State, step: SettlerStep)
    requires Told(s) && SettlerCan(s, step)
    ensures var s' := AfterSettler(c, s, step);
            var a, b := SettlerRank(s'), SettlerRank(s);
            Told(s') && (a.0 < b.0 || (a.0 == b.0 && Lower(a.1, b.1)))
  {
    match step {
      case Hear => HearLowers(s);
      case WaitOver =>
      case _ => assert AfterSettler(c, s, step).channel == s.channel;
    }
  }

  lemma {:induction false} StopIndexAppend(channel: seq<Settle>, more: Settle)
    requires StopSettling in channel
    ensures StopIndex(channel + [more]) == StopIndex(channel)
  {
    assert (channel + [more])[0] == channel[0];
    if !channel[0].StopSettling? {
      assert (channel + [more])[1..] == channel[1..] + [more];
      StopIndexAppend(channel[1..], more);
    }
  }

  /** Nor does anything else set it back: later acknowledgements queue behind. */
  lemma OthersKeepRank(s: State, step: OtherStep)
    requires Told(s) && OtherCan(s, step)
    ensures var s' := AfterOther(s, step); Told(s') && SettlerRank(s') == SettlerRank(s)
  {
    OthersLeave(s, step);
    if !Ending(s.settler) {
      match step {
        case HostAcks(position) => StopIndexAppend(s.channel, AckOf(position));
        case JoinReceiver => StopIndexAppend(s.channel, StopSettling);
        case _ =>
      }
    }
  }

  function NextSettler(s: State): SettlerStep
    requires !s.settler.Finished?
  {
    match s.settler
    case Expiring => Expire
    case ReleasingLate(_, _) => ReleaseLate(true)
    case Measuring => Measure
    case Waiting(_) => Hear
    case Taking(_) => TakeOut
    case Acking(_) => AckTaken(true)
    case Draining => Drain
    case ReleasingAll(_) => ReleaseLeft(true)
  }

  lemma {:induction false} SettlerFinishes(c: Config, s: State) returns (steps: seq<Step>)
    requires Told(s)
    ensures Runs(c, s, steps)
    ensures var f := Final(c, s, steps); f.settler.Finished? && f.cancel == s.cancel
    decreases SettlerRank(s).0, SettlerRank(s).1.0, SettlerRank(s).1.1
  {
    if s.settler.Finished? {
      steps := [];
    } else {
      var step := NextSettler(s);
      assert SettlerCan(s, step);
      SettlerLowers(c, s, step);
      SettlerLeaves(c, s, step);
      var rest := SettlerFinishes(c, AfterSettler(c, s, step));
      steps := [BySettler(step)] + rest;
      assert steps[1..] == rest;
    }
  }

  // ---- The cancel ----

  /** The settler is told once the receiver is joined. */
  ghost predicate ToldOnceJoined(s: State) {
    s.cancel.JoiningSettler? ==> Told(s)
  }

  lemma StepTells(c: Config, s: State, step: Step)
    requires ToldOnceJoined(s) && Enabled(c, s, step)
    ensures ToldOnceJoined(After(c, s, step))
  {
    match step {
      case ByReceiver(r) => ReceiverLeaves(c, s, r);
      case BySettler(x) =>
        SettlerLeaves(c, s, x);
        if s.cancel.JoiningSettler? {
          SettlerLowers(c, s, x);
        }
      case ByOther(o) =>
        if s.cancel.JoiningSettler? {
          OthersKeepRank(s, o);
        }
    }
  }

  lemma {:induction false} RunTells(c: Config, s: State, steps: seq<Step>)
    requires ToldOnceJoined(s) && Runs(c, s, steps)
    ensures ToldOnceJoined(Final(c, s, steps))
    decreases |steps|
  {
    if steps != [] {
      StepTells(c, s, steps[0]);
      RunTells(c, After(c, s, steps[0]), steps[1..]);
    }
  }

  lemma {:induction false} RunsConcat(c: Config, s: State, a: seq<Step>, b: seq<Step>)
    requires Runs(c, s, a) && Runs(c, Final(c, s, a), b)
    ensures Runs(c, s, a + b) && Final(c, s, a + b) == Final(c, Final(c, s, a), b)
    decreases |a|
  {
    if a == [] {
      assert a + b == b;
    } else {
      assert (a + b)[0] == a[0] && (a + b)[1..] == a[1..] + b;
      RunsConcat(c, After(c, s, a[0]), a[1..], b);
    }
  }

  lemma Then(c: Config, s: State, a: seq<Step>, step: Step)
    requires Runs(c, s, a) && Enabled(c, Final(c, s, a), step)
    ensures Runs(c, s, a + [step]) && Final(c, s, a + [step]) == After(c, Final(c, s, a), step)
  {
    assert [step][1..] == [];
    RunsConcat(c, s, a, [step]);
  }

  /** With the receiver gone and the settler told, the cancel returns. */
  lemma JoinsSettler(c: Config, s: State) returns (steps: seq<Step>)
    requires s.cancel.JoiningSettler? && Told(s)
    ensures Runs(c, s, steps) && Final(c, s, steps).cancel == Cancel.Done
  {
    var before := SettlerFinishes(c, s);
    Then(c, s, before, ByOther(JoinSettler));
    steps := before + [ByOther(JoinSettler)];
  }

  lemma JoinsReceiver(c: Config, s: State) returns (steps: seq<Step>)
    requires s.cancel.JoiningReceiver? && s.stop
    ensures Runs(c, s, steps) && Final(c, s, steps).cancel == Cancel.Done
  {
    var before := ReceiverReturns(c, s);
    Then(c, s, before, ByOther(JoinReceiver));
    var joined := before + [ByOther(JoinReceiver)];
    var s' := Final(c, s, joined);
    assert s'.channel[|s'.channel| - 1] == StopSettling;
    var after := JoinsSettler(c, s');
    RunsConcat(c, s, joined, after);
    steps := joined + after;
  }

  /** From every state of every run a cancel can be called and return, if it was not
      yet: no state is stuck, whatever is held, queued or in hand. */
  lemma CancelReturns(c: Config, available: set<Msg>, now: nat, before: seq<Step>, s: State) returns (steps: seq<Step>)
    requires Reached(c, available, now, before, s)
    ensures Runs(c, s, steps) && Final(c, s, steps).cancel == Cancel.Done
  {
    ReachedSound(c, available, now, before, s);
    RunTells(c, Start(available, now), before);
    match s.cancel {
      case NotCalled =>
        var s1 := After(c, s, ByOther(CallCancel));
        var rest := JoinsReceiver(c, s1);
        steps := [ByOther(CallCancel)] + rest;
        assert steps[1..] == rest;
      case JoiningReceiver => steps := JoinsReceiver(c, s);
      case JoiningSettler => steps := JoinsSettler(c, s);
      case Done => steps := [];
    }
  }
}
