/** Three runs of a queue watch: the second its deliveries may wait is reached, an
    event that cannot be sent may be settled twice, and more than `maxInFlight`
    deliveries may be unsettled. */
module QueueExamples {
  import opened QueueWindow
  import opened QueueSteps
  import opened QueueConservation
  import opened QueueBroker
  import opened QueueTiming

  /** One step more in front of a run. */
  lemma More(c: Config, s: State, step: Step, rest: seq<Step>) returns (steps: seq<Step>)
    requires Enabled(c, s, step) && Prompt(s, step) && PromptRuns(c, After(c, s, step), rest)
    ensures PromptRuns(c, s, steps) && Runs(c, s, steps) && Runs(c, After(c, s, step), rest)
    ensures Final(c, s, steps) == Final(c, After(c, s, step), rest)
  {
    steps := [step] + rest;
    assert steps[1..] == rest;
    PromptRunsRun(c, After(c, s, step), rest);
    PromptRunsRun(c, s, steps);
  }

  function Waits(): State { Start({7}, 0).(settler := Waiting(ONE_SECOND)) }

  /** Message 7 came just after the settler measured its wait, a second ago. */
  function SecondOld(): State {
    State(Window([Held(0, 0, 0)], 1), false, true, [], Offered(0, 0, []), Waiting(ONE_SECOND), NotCalled, ONE_SECOND,
          [7], map[0 := 0], {}, 0, {}, [], Broker({7}, {}, {0}, {}))
  }

  /** Message 7 was just received. */
  function JustIn(): State {
    State(Window([], 0), false, true, [], Got([0]), Waiting(ONE_SECOND), NotCalled, 0,
          [7], map[], {}, 0, {}, [], Broker({7}, {}, {0}, {}))
  }

  lemma SecondOldFromIn(c: Config, rest: seq<Step>) returns (steps: seq<Step>)
    requires c.eventSource && PromptRuns(c, SecondOld(), rest)
    ensures PromptRuns(c, JustIn(), steps) && Runs(c, JustIn(), steps) && Runs(c, SecondOld(), rest)
    ensures Final(c, JustIn(), steps) == Final(c, SecondOld(), rest)
  {
    var s1 := After(c, JustIn(), ByReceiver(Dispatch));
    var s2 := After(c, s1, ByReceiver(HoldNext));
    assert s2.window.pending == SecondOld().window.pending && s2.seqOf == map[0 := 0];
    assert s2.receiver == SecondOld().receiver;
    assert s2.(now := ONE_SECOND) == SecondOld();
    steps := More(c, s2, ByOther(Tick(ONE_SECOND)), rest);
    steps := More(c, s1, ByReceiver(HoldNext), steps);
    steps := More(c, JustIn(), ByReceiver(Dispatch), steps);
  }

  lemma InFromWait(c: Config, rest: seq<Step>) returns (steps: seq<Step>)
    requires c.maxInFlight > 0 && PromptRuns(c, JustIn(), rest)
    ensures PromptRuns(c, Waits(), steps) && Runs(c, Waits(), steps) && Runs(c, JustIn(), rest)
    ensures Final(c, Waits(), steps) == Final(c, JustIn(), rest)
  {
    var s1 := After(c, Waits(), ByReceiver(LoopTop));
    var s2 := After(c, s1, ByReceiver(Connect(true)));
    var s3 := After(c, s2, ByReceiver(LookForRoom));
    var m: seq<Msg> := [7];
    assert (set x | x in m) == {7} && Deliveries(0, 1) == [0] && Locks(0, 1) == {0};
    assert After(c, s3, ByReceiver(Receive([7]))) == JustIn();
    steps := More(c, s3, ByReceiver(Receive([7])), rest);
    steps := More(c, s2, ByReceiver(LookForRoom), steps);
    steps := More(c, s1, ByReceiver(Connect(true)), steps);
    steps := More(c, Waits(), ByReceiver(LoopTop), steps);
  }

  lemma SecondOldFromStart(c: Config, rest: seq<Step>) returns (steps: seq<Step>)
    requires c.maxInFlight > 0 && c.eventSource && PromptRuns(c, SecondOld(), rest)
    ensures PromptRuns(c, Start({7}, 0), steps) && Runs(c, Start({7}, 0), steps) && Runs(c, SecondOld(), rest)
    ensures Final(c, Start({7}, 0), steps) == Final(c, SecondOld(), rest)
  {
    steps := SecondOldFromIn(c, rest);
    steps := InFromWait(c, steps);
    var s0 := Start({7}, 0);
    var s1 := After(c, s0, BySettler(Expire));
    var s2 := After(c, s1, BySettler(ReleaseLate(true)));
    assert After(c, s2, BySettler(Measure)) == Waits();
    steps := More(c, s2, BySettler(Measure), steps);
    steps := More(c, s1, BySettler(ReleaseLate(true)), steps);
    steps := More(c, s0, BySettler(Expire), steps);
  }

  /** The second is reached, however short the timeout: the settler measured its
      wait just before the delivery came. */
  lemma HeldASecond(c: Config) returns (steps: seq<Step>)
    requires c.maxInFlight > 0 && c.eventSource
    ensures PromptRuns(c, Start({7}, 0), steps) && Runs(c, Start({7}, 0), steps)
    ensures Final(c, Start({7}, 0), steps).window.pending == [Held(0, 0, 0)]
    ensures Final(c, Start({7}, 0), steps).now == 1000
  {
    steps := SecondOldFromStart(c, []);
  }

  lemma SecondOldIsLate(c: Config)
    requires c.ackTimeout <= ONE_SECOND
    ensures Overdue([Held(0, 0, 0)], ONE_SECOND, c.ackTimeout, true) == [Held(0, 0, 0)]
    ensures Overdue([Held(0, 0, 0)], ONE_SECOND, c.ackTimeout, false) == []
  {
    var held := [Held(0, 0, 0)];
    assert held[1..] == [] && Late(held[0], ONE_SECOND, c.ackTimeout);
    assert Overdue(held[1..], ONE_SECOND, c.ackTimeout, true) == Overdue(held[1..], ONE_SECOND, c.ackTimeout, false) == [];
  }

  /** Its event not yet sent, it is out of the window and about to be released. */
  function Lapsed(): State {
    SecondOld().(window := Window([], 1), settler := ReleasingLate([Held(0, 0, 0)], ONE_SECOND))
  }

  lemma LapsesUnsent(c: Config, rest: seq<Step>) returns (steps: seq<Step>)
    requires c.ackTimeout <= ONE_SECOND && PromptRuns(c, Lapsed(), rest)
    ensures PromptRuns(c, SecondOld(), steps) && Runs(c, SecondOld(), steps) && Runs(c, Lapsed(), rest)
    ensures Final(c, SecondOld(), steps) == Final(c, Lapsed(), rest)
  {
    var s1 := After(c, SecondOld(), BySettler(WaitOver));
    SecondOldIsLate(c);
    assert After(c, s1, BySettler(Expire)) == Lapsed();
    steps := More(c, s1, BySettler(Expire), rest);
    steps := More(c, SecondOld(), BySettler(WaitOver), steps);
  }

  lemma ReleasedThenAcked(c: Config) returns (rest: seq<Step>)
    requires !c.sendable(7, 0)
    ensures PromptRuns(c, Lapsed(), rest) && Runs(c, Lapsed(), rest)
    ensures CountCalls(Final(c, Lapsed(), rest).calls, 0) == 2
  {
    var s1 := After(c, Lapsed(), BySettler(ReleaseLate(true)));
    var s2 := After(c, s1, ByReceiver(Send));
    assert s2.receiver == Removing(0, false, []);
    var s3 := After(c, s2, ByReceiver(AckUnsendable(true)));
    CountSettledCall([], s3.calls[0], 0);
    assert s1.calls == [] + [s3.calls[0]];
    CountSettledCall(s1.calls, s3.calls[1], 0);
    rest := More(c, s2, ByReceiver(AckUnsendable(true)), []);
    rest := More(c, s1, ByReceiver(Send), rest);
    rest := More(c, Lapsed(), BySettler(ReleaseLate(true)), rest);
  }

  /** A delivery whose event cannot be sent may be released and then acked too:
      it timed out before it was taken back. */
  lemma SettledTwice(c: Config) returns (steps: seq<Step>)
    requires c.maxInFlight > 0 && c.eventSource && c.ackTimeout <= ONE_SECOND && !c.sendable(7, 0)
    ensures Runs(c, Start({7}, 0), steps)
    ensures CountCalls(Final(c, Start({7}, 0), steps).calls, 0) == 2
  {
    var rest := ReleasedThenAcked(c);
    rest := LapsesUnsent(c, rest);
    steps := SecondOldFromStart(c, rest);
  }

  /** Message 7 was emitted, timed out and is about to be released. */
  function Releasing(): State {
    State(Window([], 1), false, true, [], Top, ReleasingLate([Held(0, 0, 0)], ONE_SECOND), NotCalled, ONE_SECOND,
          [7], map[0 := 0], {0}, 0, {}, [], Broker({7}, {}, {0}, {}))
  }

  /** The window is empty then, so the receiver asks for another message. */
  lemma ReceivesMeanwhile(c: Config) returns (rest: seq<Step>)
    requires c.maxInFlight == 1
    ensures PromptRuns(c, Releasing(), rest) && Runs(c, Releasing(), rest)
    ensures Unsettled(Final(c, Releasing(), rest)) == {0, 1}
  {
    var s0 := Releasing();
    var s1 := After(c, s0, ByOther(Publish(8)));
    var s2 := After(c, s1, ByReceiver(LoopTop));
    var s3 := After(c, s2, ByReceiver(LookForRoom));
    assert s3.receiver == Receiving(1);
    var m: seq<Msg> := [8];
    var s4 := After(c, s3, ByReceiver(Receive(m)));
    assert |s4.msgOf| == 2 && s4.calls == [];
    assert Unsettled(s4) == {0, 1};
    rest := More(c, s3, ByReceiver(Receive(m)), []);
    rest := More(c, s2, ByReceiver(LookForRoom), rest);
    rest := More(c, s1, ByReceiver(LoopTop), rest);
    rest := More(c, s0, ByOther(Publish(8)), rest);
  }

  lemma ReleasingFromSecondOld(c: Config, rest: seq<Step>) returns (steps: seq<Step>)
    requires c.ackTimeout <= ONE_SECOND && c.sendable(7, 0) && PromptRuns(c, Releasing(), rest)
    ensures PromptRuns(c, SecondOld(), steps) && Runs(c, SecondOld(), steps) && Runs(c, Releasing(), rest)
    ensures Final(c, SecondOld(), steps) == Final(c, Releasing(), rest)
  {
    var s0 := SecondOld();
    var s1 := After(c, s0, ByReceiver(Send));
    var s2 := After(c, s1, ByReceiver(HoldNext));
    var s3 := After(c, s2, BySettler(WaitOver));
    SecondOldIsLate(c);
    assert After(c, s3, BySettler(Expire)) == Releasing();
    steps := More(c, s3, BySettler(Expire), rest);
    steps := More(c, s2, BySettler(WaitOver), steps);
    steps := More(c, s1, ByReceiver(HoldNext), steps);
    steps := More(c, s0, ByReceiver(Send), steps);
  }

  /** With room for one, two deliveries may be unsettled: one in the settler's
      hand, one just received. */
  lemma TwoUnsettled(c: Config) returns (steps: seq<Step>)
    requires c.maxInFlight == 1 && c.eventSource && c.ackTimeout <= ONE_SECOND && c.sendable(7, 0)
    ensures Runs(c, Start({7}, 0), steps)
    ensures |Unsettled(Final(c, Start({7}, 0), steps))| == 2 > c.maxInFlight
  {
    var rest := ReceivesMeanwhile(c);
    rest := ReleasingFromSecondOld(c, rest);
    steps := SecondOldFromStart(c, rest);
  }
}
