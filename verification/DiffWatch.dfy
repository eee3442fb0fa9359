/** A watch that polls a state and emits what changed. */
module DiffWatch {
  import opened Strs

  /** What one poll returned: a state, no signal yet, or a failure. */
  datatype Polled<S> = Seen(state: S) | NoSignal | PollFailed

  /** An event, or the bare change a resource watch gets. */
  datatype Emission<E> = Event(event: E) | Bare

  // ---- What a watch should emit ----

  /** The states polled, in order. */
  function States<S>(polls: seq<Polled<S>>): seq<S> {
    if polls == [] then []
    else
      var last := polls[|polls| - 1];
      States(polls[..|polls| - 1]) + (if last.Seen? then [last.state] else [])
  }

  /** Without those equal to the one before. */
  function Distinct<S(==)>(states: seq<S>): (r: seq<S>)
    ensures states != [] ==> r != [] && r[|r| - 1] == states[|states| - 1] && r[0] == states[0]
    ensures states == [] ==> r == []
    ensures forall i | 0 < i < |r| :: r[i - 1] != r[i]
  {
    if states == [] then []
    else
      var front, last := Distinct(states[..|states| - 1]), states[|states| - 1];
      if front != [] && front[|front| - 1] == last then front else front + [last]
  }

  function Sendable<E>(events: seq<E>, serializes: E -> bool): (r: seq<Emission<E>>)
    ensures (forall e <- events :: serializes(e)) ==> |r| == |events| && forall i | 0 <= i < |r| :: r[i] == Event(events[i])
  {
    if events == [] then []
    else
      var last := events[|events| - 1];
      Sendable(events[..|events| - 1], serializes) + (if serializes(last) then [Event(last)] else [])
  }

  lemma SendsLast<E>(events: seq<E>, last: E, serializes: E -> bool)
    ensures Sendable(events + [last], serializes) == Sendable(events, serializes) + if serializes(last) then [Event(last)] else []
  {
    assert (events + [last])[..|events|] == events;
  }

  lemma Grouped<T>(a: seq<T>, b: seq<T>, c: seq<T>, d: seq<T>)
    ensures a + b + c + d == a + b + (c + d)
  {
  }

  /** An event that does not serialize is left out, and those around it are sent. */
  lemma {:induction false} SendsAround<E>(a: seq<E>, e: E, b: seq<E>, serializes: E -> bool)
    ensures Sendable(a + [e] + b, serializes)
         == Sendable(a, serializes) + (if serializes(e) then [Event(e)] else []) + Sendable(b, serializes)
  {
    SendsLast(a, e, serializes);
    if b == [] {
      assert a + [e] + b == a + [e];
    } else {
      var init, last := b[..|b| - 1], b[|b| - 1];
      assert b == init + [last] && a + [e] + b == a + [e] + init + [last];
      SendsAround(a, e, init, serializes);
      SendsLast(a + [e] + init, last, serializes);
      SendsLast(init, last, serializes);
      Grouped(Sendable(a, serializes), if serializes(e) then [Event(e)] else [], Sendable(init, serializes),
              if serializes(last) then [Event(last)] else []);
    }
  }

  /** The changes between consecutive states of a list, in order. */
  function Changes<S, E>(eventSource: bool, states: seq<S>, diff: (S, S) -> seq<E>, serializes: E -> bool): seq<Emission<E>> {
    if |states| < 2 then []
    else
      Changes(eventSource, states[..|states| - 1], diff, serializes)
      + if eventSource then Sendable(diff(states[|states| - 2], states[|states| - 1]), serializes) else [Bare]
  }

  // ---- The loop ----

  method EmitAll<E>(events: seq<E>, serializes: E -> bool, before: seq<Emission<E>>) returns (emitted: seq<Emission<E>>)
    ensures emitted == before + Sendable(events, serializes)
  {
    emitted := before;
    for i := 0 to |events|
      invariant emitted == before + Sendable(events[..i], serializes)
    {
      assert events[..i + 1][..i] == events[..i] && events[..i + 1][i] == events[i];
      if serializes(events[i]) {
        emitted := emitted + [Event(events[i])];
      }
    }
    assert events[..|events|] == events;
  }

  lemma OnePollMore<S>(polls: seq<Polled<S>>, i: nat)
    requires i < |polls|
    ensures States(polls[..i + 1])
         == if polls[i].Seen? then States(polls[..i]) + [polls[i].state] else States(polls[..i])
    ensures polls[i].Seen? ==>
              Distinct(States(polls[..i + 1])) ==
                var seen := Distinct(States(polls[..i]));
                if seen != [] && seen[|seen| - 1] == polls[i].state then seen else seen + [polls[i].state]
  {
    assert polls[..i + 1][..i] == polls[..i] && polls[..i + 1][i] == polls[i];
    if polls[i].Seen? {
      var states := States(polls[..i]) + [polls[i].state];
      assert states[..|states| - 1] == States(polls[..i]);
    }
  }

  lemma OneChangeMore<S, E>(eventSource: bool, states: seq<S>, cur: S, diff: (S, S) -> seq<E>, serializes: E -> bool)
    requires states != []
    ensures Changes(eventSource, states + [cur], diff, serializes)
         == Changes(eventSource, states, diff, serializes)
            + if eventSource then Sendable(diff(states[|states| - 1], cur), serializes) else [Bare]
  {
  }

  /** What a watch has emitted after `polls`, and the state it holds. */
  ghost function Reached<S, E>(eventSource: bool, polls: seq<Polled<S>>, diff: (S, S) -> seq<E>, serializes: E -> bool): (seq<Emission<E>>, Option<S>) {
    var seen := Distinct(States(polls));
    (Changes(eventSource, seen, diff, serializes), if seen == [] then None else Some(seen[|seen| - 1]))
  }

  lemma ReachedStep<S, E>(eventSource: bool, polls: seq<Polled<S>>, i: nat, diff: (S, S) -> seq<E>, serializes: E -> bool)
    requires i < |polls|
    ensures var (emitted, last) := Reached(eventSource, polls[..i], diff, serializes);
            Reached(eventSource, polls[..i + 1], diff, serializes)
            == if !polls[i].Seen? || last == Some(polls[i].state) then (emitted, last)
               else if last.None? then (emitted, Some(polls[i].state))
               else (emitted + if eventSource then Sendable(diff(last.value, polls[i].state), serializes) else [Bare],
                     Some(polls[i].state))
  {
    OnePollMore(polls, i);
    var seen := Distinct(States(polls[..i]));
    if polls[i].Seen? && seen != [] {
      OneChangeMore(eventSource, seen, polls[i].state, diff, serializes);
    }
  }

  /** The loop, over what its polls return until it is stopped. */
  method Watch<S(==), E>(eventSource: bool, polls: seq<Polled<S>>, diff: (S, S) -> seq<E>, serializes: E -> bool)
    returns (emitted: seq<Emission<E>>, last: Option<S>)
    ensures emitted == Changes(eventSource, Distinct(States(polls)), diff, serializes)
    ensures States(polls) == [] ==> last == None
    ensures States(polls) != [] ==> last == Some(States(polls)[|States(polls)| - 1])
  {
    emitted := [];
    last := None;
    for i := 0 to |polls|
      invariant (emitted, last) == Reached(eventSource, polls[..i], diff, serializes)
    {
      ReachedStep(eventSource, polls, i, diff, serializes);
      match polls[i] {
        case Seen(cur) =>
          if last.None? {
            last := Some(cur);
          } else if last.value != cur {
            if eventSource {
              emitted := EmitAll(diff(last.value, cur), serializes, emitted);
            } else {
              emitted := emitted + [Bare];
            }
            last := Some(cur);
          }
        case NoSignal =>
        case PollFailed =>
      }
    }
    assert polls[..|polls|] == polls;
  }

  // ---- What it amounts to ----

  function Replay<S, E>(step: (S, E) -> S, state: S, emitted: seq<Emission<E>>): S {
    if emitted == [] then state
    else
      var before := Replay(step, state, emitted[..|emitted| - 1]);
      match emitted[|emitted| - 1]
      case Event(e) => step(before, e)
      case Bare => before
  }

  lemma {:induction false} ReplayConcat<S, E>(step: (S, E) -> S, state: S, a: seq<Emission<E>>, b: seq<Emission<E>>)
    ensures Replay(step, state, a + b) == Replay(step, Replay(step, state, a), b)
  {
    if b == [] {
      assert a + b == a;
    } else {
      assert (a + b)[..|a + b| - 1] == a + b[..|b| - 1];
      ReplayConcat(step, state, a, b[..|b| - 1]);
    }
  }

  /** Events that turn one state into the other, each of which can be sent. */
  ghost predicate Turns<S(!new), E(!new)>(step: (S, E) -> S, diff: (S, S) -> seq<E>, serializes: E -> bool) {
    forall a: S, b: S ::
      a != b ==> Replay(step, a, Sendable(diff(a, b), serializes)) == b
  }

  lemma {:induction false} ChangesReplay<S(!new), E(!new)>(states: seq<S>, step: (S, E) -> S, diff: (S, S) -> seq<E>,
                                                           serializes: E -> bool)
    requires states != [] && Turns(step, diff, serializes)
    requires forall i | 0 < i < |states| :: states[i - 1] != states[i]
    ensures Replay(step, states[0], Changes(true, states, diff, serializes)) == states[|states| - 1]
  {
    if |states| >= 2 {
      var front := states[..|states| - 1];
      ChangesReplay(front, step, diff, serializes);
      ReplayConcat(step, states[0], Changes(true, front, diff, serializes),
                   Sendable(diff(states[|states| - 2], states[|states| - 1]), serializes));
      var a, b := states[|states| - 2], states[|states| - 1];
      assert Replay(step, a, Sendable(diff(a, b), serializes)) == b;
    }
  }

  /** If what `diff` sends turns one state into the other, replaying everything an
      event watch emitted from its baseline gives the last state it observed. */
  lemma EmittedReplays<S(!new), E(!new)>(polls: seq<Polled<S>>, step: (S, E) -> S, diff: (S, S) -> seq<E>,
                                             serializes: E -> bool)
    requires States(polls) != [] && Turns(step, diff, serializes)
    ensures Replay(step, States(polls)[0], Changes(true, Distinct(States(polls)), diff, serializes))
         == States(polls)[|States(polls)| - 1]
  {
    ChangesReplay(Distinct(States(polls)), step, diff, serializes);
  }

  /** How often the state moved. */
  function Advances<S(==)>(states: seq<S>): nat {
    if |states| < 2 then 0
    else Advances(states[..|states| - 1]) + if states[|states| - 2] != states[|states| - 1] then 1 else 0
  }

  lemma {:induction false} DistinctCounts<S>(states: seq<S>)
    requires states != []
    ensures |Distinct(states)| == Advances(states) + 1
  {
    if |states| == 1 {
      assert states[..0] == [];
      assert Distinct(states[..0]) == [];
    } else {
      DistinctCounts(states[..|states| - 1]);
    }
  }

  lemma {:induction false} BareChanges<S, E>(states: seq<S>, diff: (S, S) -> seq<E>, serializes: E -> bool)
    ensures var r := Changes(false, states, diff, serializes);
            |r| == (if states == [] then 0 else |states| - 1) && forall e <- r :: e == Bare
  {
    if |states| >= 2 {
      BareChanges(states[..|states| - 1], diff, serializes);
    }
  }

  /** A resource watch emits one bare change for each advance: not for its baseline,
      a repeat, a poll without a signal or one that failed. */
  lemma OneBareChangePerAdvance<S, E>(polls: seq<Polled<S>>, diff: (S, S) -> seq<E>, serializes: E -> bool)
    ensures var r := Changes(false, Distinct(States(polls)), diff, serializes);
            |r| == Advances(States(polls)) && forall e <- r :: e == Bare
  {
    BareChanges(Distinct(States(polls)), diff, serializes);
    if States(polls) != [] {
      DistinctCounts(States(polls));
    }
  }

  // ---- The sleep between polls ----

  const SLICE: nat := 200

  /** Sleeps `total`, in slices; a stop set at `stopAt` is seen before the next. */
  method SleepInterruptible(total: nat, stopAt: Option<nat>) returns (elapsed: nat)
    ensures elapsed <= total
    ensures elapsed < total ==> stopAt.Some? && stopAt.value <= elapsed
    ensures stopAt.Some? && elapsed > 0 ==> elapsed < stopAt.value + 200
    ensures stopAt == Some(0) ==> elapsed == 0
  {
    elapsed := 0;
    while elapsed < total
      invariant elapsed <= total
      invariant stopAt.Some? && elapsed > 0 ==> elapsed < stopAt.value + SLICE
      invariant stopAt == Some(0) ==> elapsed == 0
    {
      if stopAt.Some? && stopAt.value <= elapsed {
        return;
      }
      var nap := if SLICE <= total - elapsed then SLICE else total - elapsed;
      elapsed := elapsed + nap;
    }
  }
}
