/** What ends a wait of an inventory watch's thread, and that its turns are a run of
    the engine. */
module InventoryWaits {
  import opened Strs
  import opened Framing
  import opened InventorySpec
  import opened InventoryRuns
  import opened InventoryThread

  // ---- One wait ----

  function AllOf(b: Burst): seq<Wake> {
    [b.first] + b.queued
  }

  /** The first stop among the wakes. */
  ghost predicate StopsAt(wakes: seq<Wake>, n: nat) {
    n < |wakes| && wakes[n].Stop? && forall j | 0 <= j < n :: !wakes[j].Stop?
  }

  ghost predicate OnlyAcks(bursts: seq<Burst>) {
    forall w <- Wakes(bursts) :: w.Ack?
  }

  lemma {:induction false} DrainGoesOn(s: State, queued: seq<Wake>)
    requires Wake.Stop !in queued
    ensures Drained(s, queued) == (AckEach(s, queued), WakeUp in queued, false)
    decreases |queued|
  {
    if queued != [] {
      assert queued == [queued[0]] + queued[1..];
      DrainGoesOn(if queued[0].Ack? then Acked(s, queued[0].position) else s, queued[1..]);
    }
  }

  lemma {:induction false} DrainStops(s: State, queued: seq<Wake>, n: nat)
    requires StopsAt(queued, n)
    ensures Drained(s, queued).0 == AckEach(s, queued[..n]) && Drained(s, queued).2
    decreases |queued|
  {
    if n > 0 {
      assert queued[..n][0] == queued[0] && queued[..n][1..] == queued[1..][..n - 1];
      DrainStops(if queued[0].Ack? then Acked(s, queued[0].position) else s, queued[1..], n - 1);
    }
  }

  lemma WakesCons(b: Burst, rest: seq<Burst>)
    ensures Wakes([b] + rest) == AllOf(b) + Wakes(rest)
  {
    assert ([b] + rest)[1..] == rest;
  }

  /** A burst of acknowledgements alone lets the wait go on. */
  lemma AcksGoOn(s: State, b: Burst, rest: seq<Burst>)
    requires forall w <- AllOf(b) :: w.Ack?
    ensures Waited(s, [b] + rest) == Waited(AckEach(s, AllOf(b)), rest)
  {
    assert AllOf(b)[0] == b.first && AllOf(b)[1..] == b.queued && ([b] + rest)[1..] == rest;
    assert forall w <- b.queued :: w in AllOf(b);
    DrainedAcks(Acked(s, b.first.position), b.queued);
  }

  lemma {:induction false} AcksFirst(s: State, pre: seq<Burst>, rest: seq<Burst>)
    requires OnlyAcks(pre)
    ensures Waited(s, pre + rest) == Waited(AckEach(s, Wakes(pre)), rest)
    decreases |pre|
  {
    if pre == [] {
      assert pre + rest == rest;
    } else {
      var b, tail := pre[0], pre[1..];
      assert pre == [b] + tail && pre + rest == [b] + (tail + rest);
      WakesCons(b, tail);
      assert forall w <- AllOf(b) :: w in Wakes(pre);
      assert forall w <- Wakes(tail) :: w in Wakes(pre);
      AcksGoOn(s, b, tail + rest);
      AcksFirst(AckEach(s, AllOf(b)), tail, rest);
      AckEachConcat(s, AllOf(b), Wakes(tail));
    }
  }

  lemma {:induction false} WakesConcat(a: seq<Burst>, b: seq<Burst>)
    ensures Wakes(a + b) == Wakes(a) + Wakes(b)
  {
    if a == [] {
      assert a + b == b;
    } else {
      assert a + b == [a[0]] + (a[1..] + b) && a == [a[0]] + a[1..];
      WakesCons(a[0], a[1..] + b);
      WakesCons(a[0], a[1..]);
      WakesConcat(a[1..], b);
    }
  }

  lemma BurstWakes(s: State, b: Burst, rest: seq<Burst>)
    requires WakeUp in AllOf(b) && Wake.Stop !in AllOf(b)
    ensures Waited(s, [b] + rest) == (AckEach(s, AllOf(b)), false)
  {
    assert AllOf(b)[0] == b.first && AllOf(b)[1..] == b.queued && ([b] + rest)[0] == b;
    DrainGoesOn(if b.first.Ack? then Acked(s, b.first.position) else s, b.queued);
  }

  lemma BurstStops(s: State, b: Burst, rest: seq<Burst>, n: nat)
    requires StopsAt(AllOf(b), n)
    ensures Waited(s, [b] + rest) == (AckEach(s, AllOf(b)[..n]), true)
  {
    assert AllOf(b)[0] == b.first && AllOf(b)[1..] == b.queued && ([b] + rest)[0] == b;
    if n > 0 {
      assert AllOf(b)[..n][0] == b.first && AllOf(b)[..n][1..] == b.queued[..n - 1];
      DrainStops(if b.first.Ack? then Acked(s, b.first.position) else s, b.queued, n - 1);
    }
  }

  /** A wake-up ends the wait, whatever comes after: the thread lists next, with the
      acknowledgements received so far applied. */
  lemma WakeUpEndsWait(s: State, pre: seq<Burst>, b: Burst, rest: seq<Burst>)
    requires OnlyAcks(pre) && WakeUp in AllOf(b) && Wake.Stop !in AllOf(b)
    ensures Waited(s, pre + [b] + rest) == (AckEach(s, Wakes(pre + [b])), false)
  {
    assert pre + [b] + rest == pre + ([b] + rest);
    AcksFirst(s, pre, [b] + rest);
    BurstWakes(AckEach(s, Wakes(pre)), b, rest);
    WakesConcat(pre, [b]);
    assert [b] + [] == [b];
    WakesCons(b, []);
    assert AllOf(b) + [] == AllOf(b);
    AckEachConcat(s, Wakes(pre), AllOf(b));
  }

  /** A stop ends the thread, with the acknowledgements before it applied and none
      after. */
  lemma StopEndsWait(s: State, pre: seq<Burst>, b: Burst, rest: seq<Burst>, n: nat)
    requires OnlyAcks(pre) && StopsAt(AllOf(b), n)
    ensures Waited(s, pre + [b] + rest) == (AckEach(s, Wakes(pre) + AllOf(b)[..n]), true)
  {
    assert pre + [b] + rest == pre + ([b] + rest);
    AcksFirst(s, pre, [b] + rest);
    BurstStops(AckEach(s, Wakes(pre)), b, rest, n);
    AckEachConcat(s, Wakes(pre), AllOf(b)[..n]);
  }

  /** After a stop, by the flag or in a wait, no later turn is run: nothing of it is
      emitted, listed or acknowledged. */
  lemma StopEndsWatch(o: Options, s: State, eventSource: bool, t: Turn, later: seq<Turn>)
    requires t.stopped || exists pre, b, rest, n :: t.bursts == pre + [b] + rest && OnlyAcks(pre) && StopsAt(AllOf(b), n)
    ensures Watched(o, s, eventSource, [t] + later) == Watched(o, s, eventSource, [t])
    ensures t.stopped ==> Watched(o, s, eventSource, [t] + later) == (s, [])
    ensures !t.stopped ==> Watched(o, s, eventSource, [t] + later).1 == Listed(o, s, eventSource, t.answer, t.now).1
  {
    assert ([t] + later)[0] == t && [t][0] == t;
    if !t.stopped {
      var pre, b, rest, n :| t.bursts == pre + [b] + rest && OnlyAcks(pre) && StopsAt(AllOf(b), n);
      StopEndsWait(Listed(o, s, eventSource, t.answer, t.now).0, pre, b, rest, n);
    }
  }

  // ---- The turns are a run of the engine ----

  function UpToStop(wakes: seq<Wake>): seq<Wake> {
    if wakes == [] || wakes[0].Stop? then [] else [wakes[0]] + UpToStop(wakes[1..])
  }

  /** The wakes a wait takes: all of its bursts up to the one with a wake-up, or up
      to a stop. */
  function HeardIn(bursts: seq<Burst>): seq<Wake> {
    if bursts == [] then []
    else if Wake.Stop in AllOf(bursts[0]) then UpToStop(AllOf(bursts[0]))
    else if WakeUp in AllOf(bursts[0]) then AllOf(bursts[0])
    else AllOf(bursts[0]) + HeardIn(bursts[1..])
  }

  predicate StopsIn(bursts: seq<Burst>) {
    bursts != []
    && (Wake.Stop in AllOf(bursts[0]) || (WakeUp !in AllOf(bursts[0]) && StopsIn(bursts[1..])))
  }

  lemma {:induction false} UpToStopIs(wakes: seq<Wake>) returns (n: nat)
    requires Wake.Stop in wakes
    ensures StopsAt(wakes, n) && UpToStop(wakes) == wakes[..n]
  {
    if wakes[0].Stop? {
      n := 0;
    } else {
      var m := UpToStopIs(wakes[1..]);
      n := m + 1;
      assert wakes[..n] == [wakes[0]] + wakes[1..][..m];
    }
  }

  /** Any wait at all. */
  lemma {:induction false} WaitedIs(s: State, bursts: seq<Burst>)
    ensures Waited(s, bursts) == (AckEach(s, HeardIn(bursts)), StopsIn(bursts))
    decreases |bursts|
  {
    if bursts != [] {
      var b, rest := bursts[0], bursts[1..];
      assert bursts == [b] + rest;
      if Wake.Stop in AllOf(b) {
        var n := UpToStopIs(AllOf(b));
        BurstStops(s, b, rest, n);
      } else if WakeUp in AllOf(b) {
        BurstWakes(s, b, rest);
      } else {
        forall w <- AllOf(b)
          ensures w.Ack?
        {
          assert w != Wake.Stop && w != WakeUp;
        }
        AcksGoOn(s, b, rest);
        WaitedIs(AckEach(s, AllOf(b)), rest);
        AckEachConcat(s, AllOf(b), HeardIn(rest));
      }
    }
  }

  function AckSteps(wakes: seq<Wake>): seq<Step> {
    if wakes == [] then []
    else (if wakes[0].Ack? then [Step.Ack(wakes[0].position)] else []) + AckSteps(wakes[1..])
  }

  lemma {:induction false} RunConcat(o: Options, h: History, a: seq<Step>, b: seq<Step>)
    ensures Run(o, h, a + b) == Run(o, Run(o, h, a), b)
  {
    if b == [] {
      assert a + b == a;
    } else {
      assert (a + b)[..|a + b| - 1] == a + b[..|b| - 1];
      RunConcat(o, h, a, b[..|b| - 1]);
    }
  }

  lemma {:induction false} RunAcks(o: Options, h: History, wakes: seq<Wake>)
    ensures Run(o, h, AckSteps(wakes)).state == AckEach(h.state, wakes)
    ensures Run(o, h, AckSteps(wakes)).clock == h.clock
    decreases |wakes|
  {
    if wakes != [] {
      if wakes[0].Ack? {
        var step := Step.Ack(wakes[0].position);
        RunSplit(o, h, [step]);
        RunConcat(o, h, [step], AckSteps(wakes[1..]));
        RunAcks(o, Next(o, h, step), wakes[1..]);
      } else {
        assert [] + AckSteps(wakes[1..]) == AckSteps(wakes[1..]);
        RunAcks(o, h, wakes[1..]);
      }
    }
  }

  /** One turn: a listing if the window has room and the lister answers, then the
      acknowledgements of its wait. */
  ghost function TurnSteps(o: Options, s: State, t: Turn): seq<Step> {
    (if |s.pending| < o.maxInFlight && t.answer.Ok? then [Poll(t.answer.value, t.now)] else []) + AckSteps(HeardIn(t.bursts))
  }

  ghost function StepsOf(o: Options, h: History, turns: seq<Turn>): seq<Step>
    decreases |turns|
  {
    if turns == [] || turns[0].stopped then []
    else
      var steps := TurnSteps(o, h.state, turns[0]);
      if StopsIn(turns[0].bursts) then steps else steps + StepsOf(o, Run(o, h, steps), turns[1..])
  }

  /** Every event its listings report, in order. */
  ghost function EventsOf(o: Options, h: History, steps: seq<Step>): seq<Event> {
    if steps == [] then []
    else
      var init, last := steps[..|steps| - 1], steps[|steps| - 1];
      EventsOf(o, h, init) + Told(o, Run(o, h, init).state, last)
  }

  /** What one step reports. */
  ghost function Told(o: Options, s: State, step: Step): seq<Event> {
    if step.Poll? then Polled(o, s, step.listing, step.now).1 else []
  }

  lemma EventsStep(o: Options, h: History, steps: seq<Step>)
    requires steps != []
    ensures var init, last := steps[..|steps| - 1], steps[|steps| - 1];
            EventsOf(o, h, steps) == EventsOf(o, h, init) + Told(o, Run(o, h, init).state, last)
  {
  }

  lemma {:induction false} EventsConcat(o: Options, h: History, a: seq<Step>, b: seq<Step>)
    ensures EventsOf(o, h, a + b) == EventsOf(o, h, a) + EventsOf(o, Run(o, h, a), b)
  {
    if b == [] {
      assert a + b == a;
    } else {
      var init, last := b[..|b| - 1], b[|b| - 1];
      assert (a + b)[..|a + b| - 1] == a + init && (a + b)[|a + b| - 1] == last;
      EventsConcat(o, h, a, init);
      RunConcat(o, h, a, init);
      EventsStep(o, h, a + b);
      EventsStep(o, Run(o, h, a), b);
      Grouped(EventsOf(o, h, a), EventsOf(o, Run(o, h, a), init), Told(o, Run(o, h, a + init).state, last));
    }
  }

  lemma Grouped(a: seq<Event>, b: seq<Event>, c: seq<Event>)
    ensures a + (b + c) == a + b + c
  {
  }

  lemma {:induction false} AcksReportNothing(o: Options, h: History, wakes: seq<Wake>)
    ensures EventsOf(o, h, AckSteps(wakes)) == []
    decreases |wakes|
  {
    if wakes != [] {
      var rest := AckSteps(wakes[1..]);
      if wakes[0].Ack? {
        var step := Step.Ack(wakes[0].position);
        assert [step][..0] == [] && EventsOf(o, h, [step]) == [];
        EventsConcat(o, h, [step], rest);
        AcksReportNothing(o, Run(o, h, [step]), wakes[1..]);
      } else {
        assert [] + rest == rest;
        AcksReportNothing(o, h, wakes[1..]);
      }
    }
  }

  /** The payloads an event watch emits for events. */
  ghost predicate Emits(payloads: seq<Payload>, events: seq<Event>) {
    |payloads| == |events| && forall i | 0 <= i < |events| :: payloads[i] == EventJson(events[i])
  }

  lemma EmitsConcat(a: seq<Payload>, b: seq<Payload>, x: seq<Event>, y: seq<Event>)
    requires Emits(a, x) && Emits(b, y)
    ensures Emits(a + b, x + y)
  {
  }

  lemma ListedSteps(o: Options, h: History, answer: Result<seq<ObjectEntry>, ()>, now: nat) returns (polls: seq<Step>)
    ensures polls == if |h.state.pending| < o.maxInFlight && answer.Ok? then [Poll(answer.value, now)] else []
    ensures Listed(o, h.state, true, answer, now).0 == Run(o, h, polls).state
    ensures Emits(Listed(o, h.state, true, answer, now).1, EventsOf(o, h, polls))
    ensures Run(o, h, polls).clock == if polls == [] then h.clock else now
  {
    polls := if |h.state.pending| < o.maxInFlight && answer.Ok? then [Poll(answer.value, now)] else [];
    if polls != [] {
      assert polls[..0] == [];
      assert [] + Polled(o, h.state, answer.value, now).1 == Polled(o, h.state, answer.value, now).1;
    }
  }

  lemma TurnIs(o: Options, h: History, t: Turn)
    ensures var steps := TurnSteps(o, h.state, t);
            var (s1, out) := Listed(o, h.state, true, t.answer, t.now);
            && Waited(s1, t.bursts) == (Run(o, h, steps).state, StopsIn(t.bursts))
            && Emits(out, EventsOf(o, h, steps))
  {
    var polls := ListedSteps(o, h, t.answer, t.now);
    var acks := AckSteps(HeardIn(t.bursts));
    var h1 := Run(o, h, polls);
    RunConcat(o, h, polls, acks);
    RunAcks(o, h1, HeardIn(t.bursts));
    WaitedIs(h1.state, t.bursts);
    EventsConcat(o, h, polls, acks);
    AcksReportNothing(o, h1, HeardIn(t.bursts));
    assert EventsOf(o, h, polls) + [] == EventsOf(o, h, polls);
  }

  /** Whatever the lister answers and the waits receive, an event watch's thread is a
      run of the engine: it ends in its state and emits each of its events, in order
      and nothing else. So what every run keeps, the thread keeps. */
  lemma {:induction false} WatchIsARun(o: Options, h: History, turns: seq<Turn>)
    ensures var (s, emitted) := Watched(o, h.state, true, turns);
            var steps := StepsOf(o, h, turns);
            s == Run(o, h, steps).state && Emits(emitted, EventsOf(o, h, steps))
    decreases |turns|
  {
    if turns != [] && !turns[0].stopped {
      var t := turns[0];
      var steps := TurnSteps(o, h.state, t);
      TurnIs(o, h, t);
      if !StopsIn(t.bursts) {
        var h2 := Run(o, h, steps);
        WatchIsARun(o, h2, turns[1..]);
        RunConcat(o, h, steps, StepsOf(o, h2, turns[1..]));
        EventsConcat(o, h, steps, StepsOf(o, h2, turns[1..]));
        EmitsConcat(Listed(o, h.state, true, t.answer, t.now).1, Watched(o, h2.state, true, turns[1..]).1,
                    EventsOf(o, h, steps), EventsOf(o, h2, StepsOf(o, h2, turns[1..])));
      }
    }
  }

  /** The clock the turns read never runs backwards. */
  ghost predicate InTime(turns: seq<Turn>, from: nat) {
    turns == [] || (from <= turns[0].now && InTime(turns[1..], turns[0].now))
  }

  lemma {:induction false} AcksClocked(wakes: seq<Wake>, from: nat)
    ensures Clocked(AckSteps(wakes), from)
  {
    if wakes != [] {
      AcksClocked(wakes[1..], from);
      if wakes[0].Ack? {
        assert AckSteps(wakes)[1..] == AckSteps(wakes[1..]);
      } else {
        assert AckSteps(wakes) == AckSteps(wakes[1..]);
      }
    }
  }

  lemma TurnKeeps(o: Options, h: History, t: Turn)
    requires Inv(o, h) && h.clock <= t.now
    ensures var h' := Run(o, h, TurnSteps(o, h.state, t)); Inv(o, h') && h'.clock <= t.now
  {
    var polls := ListedSteps(o, h, t.answer, t.now);
    var acks := AckSteps(HeardIn(t.bursts));
    RunConcat(o, h, polls, acks);
    var h1 := Run(o, h, polls);
    assert Clocked(polls, h.clock);
    RunKeeps(o, h, polls);
    AcksClocked(HeardIn(t.bursts), h1.clock);
    RunKeeps(o, h1, acks);
    RunAcks(o, h1, HeardIn(t.bursts));
  }

  lemma {:induction false} TurnsKeep(o: Options, h: History, turns: seq<Turn>, from: nat)
    requires Inv(o, h) && h.clock <= from && InTime(turns, from)
    ensures Inv(o, Run(o, h, StepsOf(o, h, turns)))
    decreases |turns|
  {
    if turns != [] && !turns[0].stopped {
      var steps := TurnSteps(o, h.state, turns[0]);
      TurnKeeps(o, h, turns[0]);
      if !StopsIn(turns[0].bursts) {
        var h2 := Run(o, h, steps);
        TurnsKeep(o, h2, turns[1..], turns[0].now);
        RunConcat(o, h, steps, StepsOf(o, h2, turns[1..]));
      }
    }
  }

  /** From any start, after any turns: the state of the thread is one that a run of
      the engine reaches, with all that every run keeps. */
  lemma EveryThread(o: Options, resume: Resume, quiet: bool, turns: seq<Turn>)
    requires !resume.Malformed? && InTime(turns, 0)
    ensures var h := Begin(Start0(o, resume, quiet).value);
            var h' := Run(o, h, StepsOf(o, h, turns));
            Watched(o, h.state, true, turns).0 == h'.state && Inv(o, h')
  {
    var h := Begin(Start0(o, resume, quiet).value);
    StartInv(o, resume, quiet);
    TurnsKeep(o, h, turns, 0);
    WatchIsARun(o, h, turns);
  }
}
