/** How long a delivery waits in the window of a queue watch when calls take no
    time: time passes only while the settler waits, and not past its wait. */
module QueueTiming {
  import opened QueueWindow
  import opened QueueSteps
  import opened QueueNumbers

  /** The clock moves only within a wait of the settler, or once it finished. */
  predicate Prompt(s: State, step: Step) {
    step.ByOther? && step.o.Tick? ==>
      s.settler.Finished? || (s.settler.Waiting? && s.now + step.o.ms <= s.settler.until)
  }

  ghost predicate PromptRuns(c: Config, s: State, steps: seq<Step>)
    decreases |steps|
  {
    steps == [] || (Enabled(c, s, steps[0]) && Prompt(s, steps[0]) && PromptRuns(c, After(c, s, steps[0]), steps[1..]))
  }

  lemma {:induction false} PromptRunsRun(c: Config, s: State, steps: seq<Step>)
    requires PromptRuns(c, s, steps)
    ensures Runs(c, s, steps)
    decreases |steps|
  {
    if steps != [] {
      PromptRunsRun(c, After(c, s, steps[0]), steps[1..]);
    }
  }

  /** The longest a delivery stays: the ack timeout, or a second if that is more. */
  function Longest(c: Config): nat {
    if c.ackTimeout >= ONE_SECOND then c.ackTimeout else ONE_SECOND
  }

  ghost predicate Within(c: Config, h: Held, now: nat) {
    h.at <= now <= h.at + Longest(c)
  }

  ghost predicate AllWithin(c: Config, held: seq<Held>, now: nat) {
    forall h <- held :: Within(c, h, now)
  }

  ghost predicate LateCalls(c: Config, calls: seq<Call>) {
    forall call <- calls :: call.why.TimedOut? ==> call.why.age <= Longest(c)
  }

  ghost predicate Timely(c: Config, s: State) {
    && AllWithin(c, s.window.pending, s.now)
    && (s.settler.Waiting? ==>
          s.now <= s.settler.until <= s.now + ONE_SECOND && AllWithin(c, s.window.pending, s.settler.until))
    && (s.settler.ReleasingLate? ==> AllWithin(c, s.settler.late, s.settler.read))
    && LateCalls(c, s.calls)
  }

  /** The settler waits for the first delivery held to time out, a second at most. */
  lemma WaitsForTheFirst(c: Config, s: State)
    requires s.settler.Measuring?
    ensures var until := Measured(c, s).settler.until;
            && s.now <= until <= s.now + 1000
            && (forall h <- s.window.pending :: until <= h.at + c.ackTimeout || until == s.now)
            && (until == s.now + 1000
                || exists h :: h in s.window.pending && until == if h.at + c.ackTimeout >= s.now then h.at + c.ackTimeout else s.now)
  {
  }

  lemma MeasureTimely(c: Config, s: State)
    requires Timely(c, s) && s.settler.Measuring?
    ensures Timely(c, Measured(c, s))
  {
  }

  lemma SettlerTimely(c: Config, s: State, step: SettlerStep)
    requires Timely(c, s) && SettlerCan(s, step) && Ordered(s.window)
    ensures Timely(c, AfterSettler(c, s, step))
  {
    match step {
      case Expire => RestOrdered(s.window, s.now, c.ackTimeout);
      case ReleaseLate(_) =>
        if s.settler.late != [] {
          assert Within(c, s.settler.late[0], s.settler.read);
        }
      case Measure => MeasureTimely(c, s);
      case TakeOut => TakenMembers(s.window, s.settler.seqno);
      case _ =>
    }
  }

  lemma ReceiverTimely(c: Config, s: State, step: ReceiverStep)
    requires Timely(c, s) && ReceiverCan(c, s, step)
    ensures Timely(c, AfterReceiver(c, s, step))
  {
    ReceiverLeaves(c, s, step);
    if step.Send? {
      TakenMembers(s.window, s.receiver.seqno);
    } else if step.HoldNext? && s.receiver.hand != [] {
      assert Within(c, Held(s.window.nextSeq, s.receiver.hand[0], s.now), s.now);
    } else {
      OthersNumberNothing(c, s, step);
    }
  }

  lemma OtherTimely(c: Config, s: State, step: OtherStep)
    requires Timely(c, s) && OtherCan(s, step) && Prompt(s, ByOther(step)) && Phased(s)
    ensures Timely(c, AfterOther(s, step))
  {
  }

  lemma {:induction false} RunTimely(c: Config, s: State, steps: seq<Step>)
    requires Fresh(s) && Numbered(s) && Phased(s) && Timely(c, s) && PromptRuns(c, s, steps)
    ensures Runs(c, s, steps) && Timely(c, Final(c, s, steps))
    decreases |steps|
  {
    PromptRunsRun(c, s, steps);
    if steps != [] {
      match steps[0] {
        case ByReceiver(r) => ReceiverTimely(c, s, r);
        case BySettler(x) => SettlerTimely(c, s, x);
        case ByOther(o) => OtherTimely(c, s, o);
      }
      StepKeepsFresh(c, s, steps[0]);
      StepKeepsNumbered(c, s, steps[0]);
      StepKeepsPhased(c, s, steps[0]);
      RunTimely(c, After(c, s, steps[0]), steps[1..]);
    }
  }

  /** With calls that take no time, for any arrivals and acknowledgements, no
      delivery stays in the window past the longer of the ack timeout and a
      second, and none is released for being late past that. */
  lemma NeverHeldLonger(c: Config, available: set<Msg>, now: nat, steps: seq<Step>)
    requires PromptRuns(c, Start(available, now), steps)
    ensures Runs(c, Start(available, now), steps)
    ensures var s := Final(c, Start(available, now), steps);
            && (forall h <- s.window.pending :: s.now - h.at <= if c.ackTimeout >= 1000 then c.ackTimeout else 1000)
            && (forall call <- s.calls :: call.why.TimedOut? ==>
                  call.why.age <= if c.ackTimeout >= 1000 then c.ackTimeout else 1000)
  {
    RunTimely(c, Start(available, now), steps);
    var s := Final(c, Start(available, now), steps);
    forall h | h in s.window.pending
      ensures s.now - h.at <= Longest(c)
    {
      assert Within(c, h, s.now);
    }
  }
}
