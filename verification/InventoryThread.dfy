/** The thread of an inventory watch: a listing when the window has room, then
    acknowledgements and wake-ups until the next one is due. */
module InventoryThread {
  import opened Strs
  import opened Framing
  import opened InventorySpec
  import opened InventoryEngine
  import opened InventoryRuns
  import opened InventoryReports
  import opened InventoryConverge
  import opened InventoryRestart

  datatype Wake = Ack(position: Option<nat>) | WakeUp | Stop

  /** One wake a wait received, and those already queued behind it. */
  datatype Burst = Burst(first: Wake, queued: seq<Wake>)

  /** Whether the stop flag was seen, what the lister answers if it is asked, when,
      and what the wait after it receives before its deadline. */
  datatype Turn = Turn(stopped: bool, answer: Result<seq<ObjectEntry>, ()>, now: nat, bursts: seq<Burst>)

  datatype Payload = EventJson(event: Event) | BareChange

  // ---- What one turn does ----

  predicate IsChange(e: Event) {
    e.Changed?
  }

  ghost predicate AnyChange(events: seq<Event>) {
    exists i :: 0 <= i < |events| && IsChange(events[i])
  }

  ghost function Payloads(events: seq<Event>): seq<Payload> {
    seq(|events|, i requires 0 <= i < |events| => EventJson(events[i]))
  }

  ghost function Listed(o: Options, s: State, eventSource: bool, answer: Result<seq<ObjectEntry>, ()>, now: nat): (State, seq<Payload>) {
    if Room(o, s) == 0 || answer.Err? then (s, [])
    else
      var (s', events) := Polled(o, s, answer.value, now);
      if eventSource then (s', Payloads(events))
      else if AnyChange(events) then (AckAll(s', events), [BareChange])
      else (s', [])
  }

  /** The wakes of a burst, in order: the state, whether one asked for a
      listing, whether one stopped the thread. */
  function Drained(s: State, queued: seq<Wake>): (State, bool, bool)
    decreases |queued|
  {
    if queued == [] then (s, false, false)
    else
      match queued[0]
      case Ack(position) => Drained(Acked(s, position), queued[1..])
      case WakeUp => var (s', _, stopped) := Drained(s, queued[1..]); (s', true, stopped)
      case Stop => (s, false, true)
  }

  /** The wait after a listing: the state, and whether the thread ended. */
  function Waited(s: State, bursts: seq<Burst>): (State, bool)
    decreases |bursts|
  {
    if bursts == [] then (s, false)
    else
      match bursts[0].first
      case Stop => (s, true)
      case WakeUp => var (s', _, stopped) := Drained(s, bursts[0].queued); (s', stopped)
      case Ack(position) =>
        var (s', changed, stopped) := Drained(Acked(s, position), bursts[0].queued);
        if changed || stopped then (s', stopped) else Waited(s', bursts[1..])
  }

  ghost function Watched(o: Options, s: State, eventSource: bool, turns: seq<Turn>): (State, seq<Payload>)
    decreases |turns|
  {
    if turns == [] then (s, [])
    else
      var t := turns[0];
      if t.stopped then (s, [])
      else
        var (s1, emitted) := Listed(o, s, eventSource, t.answer, t.now);
        var (s2, stopped) := Waited(s1, t.bursts);
        if stopped then (s2, emitted)
        else
          var (s3, rest) := Watched(o, s2, eventSource, turns[1..]);
          (s3, emitted + rest)
  }

  // ---- The loops ----

  method DrainQueued(inventory: Inventory, queued: seq<Wake>) returns (changed: bool, stopped: bool)
    modifies inventory
    ensures (inventory.View(), changed, stopped) == Drained(old(inventory.View()), queued)
  {
    changed := false;
    stopped := false;
    for i := 0 to |queued|
      invariant !stopped
      invariant var r := Drained(inventory.View(), queued[i..]);
                Drained(old(inventory.View()), queued) == (r.0, changed || r.1, r.2)
    {
      assert queued[i..][1..] == queued[i + 1..];
      match queued[i] {
        case Ack(position) => inventory.Acknowledged(position);
        case WakeUp => changed := true;
        case Stop =>
          stopped := true;
          return;
      }
    }
    assert queued[|queued|..] == [];
  }

  method Wait(inventory: Inventory, bursts: seq<Burst>) returns (stopped: bool)
    modifies inventory
    ensures (inventory.View(), stopped) == Waited(old(inventory.View()), bursts)
  {
    stopped := false;
    for i := 0 to |bursts|
      invariant !stopped
      invariant Waited(old(inventory.View()), bursts) == Waited(inventory.View(), bursts[i..])
    {
      assert bursts[i..][1..] == bursts[i + 1..];
      match bursts[i].first {
        case Ack(position) =>
          inventory.Acknowledged(position);
          var changed, ended := DrainQueued(inventory, bursts[i].queued);
          stopped := ended;
          if changed || stopped {
            return;
          }
        case WakeUp =>
          var changed, ended := DrainQueued(inventory, bursts[i].queued);
          stopped := ended;
          return;
        case Stop =>
          stopped := true;
          return;
      }
    }
    assert bursts[|bursts|..] == [];
  }

  method SendAll(events: seq<Event>) returns (emitted: seq<Payload>)
    ensures emitted == Payloads(events)
  {
    emitted := [];
    for i := 0 to |events|
      invariant emitted == Payloads(events[..i])
    {
      emitted := emitted + [EventJson(events[i])];
    }
    assert events[..|events|] == events;
  }

  method List(inventory: Inventory, eventSource: bool, answer: Result<seq<ObjectEntry>, ()>, now: nat) returns (emitted: seq<Payload>)
    modifies inventory
    ensures (inventory.View(), emitted) == Listed(inventory.options, old(inventory.View()), eventSource, answer, now)
  {
    emitted := [];
    var room := inventory.HasRoom();
    if !room || answer.Err? {
      return;
    }
    var events := inventory.Poll(answer.value, now);
    if eventSource {
      emitted := SendAll(events);
      return;
    }
    if exists i :: 0 <= i < |events| && IsChange(events[i]) {
      AcknowledgeAll(inventory, events);
      emitted := [BareChange];
    }
  }

  /** A resource watch acknowledges for its host. */
  method AcknowledgeAll(inventory: Inventory, events: seq<Event>)
    modifies inventory
    ensures inventory.View() == AckAll(old(inventory.View()), events)
  {
    for i := 0 to |events|
      invariant AckAll(old(inventory.View()), events) == AckAll(inventory.View(), events[i..])
    {
      assert events[i..][1..] == events[i + 1..];
      if events[i].Changed? {
        inventory.Acknowledged(Some(events[i].cursor.seqno));
      }
    }
    assert events[|events|..] == [];
  }

  ghost function Behind(emitted: seq<Payload>, r: (State, seq<Payload>)): (State, seq<Payload>) {
    (r.0, emitted + r.1)
  }

  /** One turn of the outer loop. */
  lemma WatchedStep(o: Options, s: State, eventSource: bool, turns: seq<Turn>, emitted: seq<Payload>,
                    s1: State, out: seq<Payload>, s2: State, stopped: bool)
    requires turns != [] && !turns[0].stopped
    requires Listed(o, s, eventSource, turns[0].answer, turns[0].now) == (s1, out)
    requires Waited(s1, turns[0].bursts) == (s2, stopped)
    ensures Behind(emitted, Watched(o, s, eventSource, turns))
         == if stopped then (s2, emitted + out) else Behind(emitted + out, Watched(o, s2, eventSource, turns[1..]))
  {
    var rest := Watched(o, s2, eventSource, turns[1..]).1;
    assert emitted + (out + rest) == emitted + out + rest;
  }

  /** The thread's outer loop. */
  method Watch(inventory: Inventory, eventSource: bool, turns: seq<Turn>) returns (emitted: seq<Payload>)
    modifies inventory
    ensures (inventory.View(), emitted) == Watched(inventory.options, old(inventory.View()), eventSource, turns)
  {
    emitted := [];
    ghost var all := Watched(inventory.options, inventory.View(), eventSource, turns);
    assert turns[0..] == turns && [] + all.1 == all.1;
    for i := 0 to |turns|
      invariant all == Behind(emitted, Watched(inventory.options, inventory.View(), eventSource, turns[i..]))
    {
      assert turns[i..][1..] == turns[i + 1..];
      if turns[i].stopped {
        assert emitted + [] == emitted;
        return;
      }
      ghost var s, before := inventory.View(), emitted;
      var out := List(inventory, eventSource, turns[i].answer, turns[i].now);
      ghost var s1 := inventory.View();
      emitted := emitted + out;
      var stopped := Wait(inventory, turns[i].bursts);
      WatchedStep(inventory.options, s, eventSource, turns[i..], before, s1, out, inventory.View(), stopped);
      if stopped {
        return;
      }
    }
    assert turns[|turns|..] == [];
    assert emitted + [] == emitted;
  }

  // ---- A resource watch ----

  /** With nothing in flight, no wake changes anything. */
  lemma {:induction false} IdleDrained(s: State, queued: seq<Wake>)
    requires s.pending == []
    ensures Drained(s, queued).0 == s
    decreases |queued|
  {
    if queued != [] && !queued[0].Stop? {
      IdleDrained(s, queued[1..]);
    }
  }

  lemma {:induction false} IdleWaited(s: State, bursts: seq<Burst>)
    requires s.pending == []
    ensures Waited(s, bursts).0 == s
    decreases |bursts|
  {
    if bursts != [] && !bursts[0].first.Stop? {
      IdleDrained(s, bursts[0].queued);
      IdleWaited(s, bursts[1..]);
    }
  }

  /** The first listing of a watch without a baseline reports no change. */
  lemma BaselineListing(o: Options, s: State, listing: seq<ObjectEntry>, now: nat)
    requires s.baseline.Silent?
    ensures var (s', events) := Polled(o, s, listing, now); !AnyChange(events) && AckAll(s', events) == s'
  {
  }

  /** Once it is settled, every event of a poll is a change, and acknowledging
      them leaves it settled. */
  lemma SettledListing(o: Options, s: State, listing: seq<ObjectEntry>, now: nat)
    requires Settled(s)
    ensures var (s', events) := Polled(o, s, listing, now);
            && Settled(AckAll(s', events))
            && (events == [] ==> s'.pending == [])
            && (events != [] ==> AnyChange(events))
  {
    var (s', events) := Polled(o, s, listing, now);
    SettledPoll(o, s, listing, now);
    AckAllInOrder(s', events);
    if events != [] {
      assert IsChange(events[0]);
    }
  }

  /** A watch between turns of a resource watch: nothing in flight, and at most the
      gap of a resume outstanding. */
  ghost predicate AtRest(s: State) {
    s.pending == [] && !s.quiet && SeenKeyed(s) && (s.gap ==> s.baseline.Silent?)
  }

  /** A listing of a resource watch is a poll whose changes are acknowledged at
      once: the room gate never blocks it, it leaves nothing in flight, and it
      emits one bare change exactly when the poll found a change. */
  lemma ResourceListing(o: Options, s: State, listing: seq<ObjectEntry>, now: nat)
    requires AtRest(s) && o.maxInFlight >= 1
    ensures var r := Listed(o, s, false, Ok(listing), now);
            && r.0 == Round(o, s, listing, now).0
            && r.0.pending == [] && SeenKeyed(r.0) && !r.0.gap && !r.0.baseline.Silent? && !r.0.quiet
            && r.1 == (if exists e :: e in Round(o, s, listing, now).1 && e.Changed? then [BareChange] else [])
  {
    var (s', events) := Polled(o, s, listing, now);
    if s.baseline.Silent? {
      BaselineListing(o, s, listing, now);
    } else {
      SettledListing(o, s, listing, now);
      assert events == [] ==> !AnyChange(events) && AckAll(s', events) == s';
    }
  }

  /** One turn of a resource watch changes nothing but by its listing. */
  lemma ResourceTurn(o: Options, s: State, turns: seq<Turn>) returns (s1: State)
    requires AtRest(s) && o.maxInFlight >= 1 && turns != [] && !turns[0].stopped
    ensures AtRest(s1)
    ensures Watched(o, s, false, turns).0 in {s1, Watched(o, s1, false, turns[1..]).0}
  {
    var t := turns[0];
    s1 := Listed(o, s, false, t.answer, t.now).0;
    if t.answer.Ok? {
      ResourceListing(o, s, t.answer.value, t.now);
    }
    IdleWaited(s1, t.bursts);
  }

  /** At every loop head of a resource watch nothing is in flight, whatever was
      listed, failed or received before. */
  lemma {:induction false} ResourceWatchHoldsNothing(o: Options, s: State, turns: seq<Turn>)
    requires AtRest(s) && o.maxInFlight >= 1
    ensures var r := Watched(o, s, false, turns).0;
            r.pending == [] && Room(o, r) == o.maxInFlight
    decreases |turns|
  {
    if turns != [] && !turns[0].stopped {
      var s1 := ResourceTurn(o, s, turns);
      ResourceWatchHoldsNothing(o, s1, turns[1..]);
    }
  }

  /** No wake of the wait stops the thread. */
  predicate GoesOn(bursts: seq<Burst>) {
    forall b <- bursts :: !b.first.Stop? && Stop !in b.queued
  }

  lemma {:induction false} QueueGoesOn(s: State, queued: seq<Wake>)
    requires Stop !in queued
    ensures !Drained(s, queued).2
    decreases |queued|
  {
    if queued != [] {
      assert queued[0] in queued;
      QueueGoesOn(if queued[0].Ack? then Acked(s, queued[0].position) else s, queued[1..]);
    }
  }

  lemma {:induction false} WaitGoesOn(s: State, bursts: seq<Burst>)
    requires GoesOn(bursts)
    ensures !Waited(s, bursts).1
    decreases |bursts|
  {
    if bursts != [] {
      var b := bursts[0];
      assert b in bursts;
      var s1 := if b.first.Ack? then Acked(s, b.first.position) else s;
      QueueGoesOn(s1, b.queued);
      WaitGoesOn(Drained(s1, b.queued).0, bursts[1..]);
    }
  }

  /** Turns that list the same, whatever wakes them. */
  ghost predicate Steady(listing: seq<ObjectEntry>, turns: seq<Turn>) {
    forall t <- turns :: !t.stopped && t.answer == Ok(listing) && GoesOn(t.bursts)
  }

  /** What is left of `d` once `max` of them are done. */
  function Left(d: nat, max: nat): nat {
    if d <= max then 0 else d - max
  }

  lemma OneTurnFewer(d: nat, turns: nat, fewer: nat, max: nat)
    requires d <= turns * max && turns == fewer + 1
    ensures Left(d, max) <= fewer * max
  {
    assert turns * max == fewer * max + max;
  }

  /** One turn that lists and goes on is a round. */
  lemma SteadyTurn(o: Options, s: State, listing: seq<ObjectEntry>, turns: seq<Turn>) returns (s1: State)
    requires Settled(s) && o.maxInFlight >= 1 && turns != []
    requires !turns[0].stopped && turns[0].answer == Ok(listing) && GoesOn(turns[0].bursts)
    ensures Settled(s1)
    ensures var current := Current(listing);
            |Differing(o.env, s1.confirmed, current)| == Left(|Differing(o.env, s.confirmed, current)|, o.maxInFlight)
    ensures Watched(o, s, false, turns).0 == Watched(o, s1, false, turns[1..]).0
  {
    var t := turns[0];
    RoundLowers(o, s, listing, t.now);
    ResourceListing(o, s, listing, t.now);
    s1 := Listed(o, s, false, t.answer, t.now).0;
    IdleWaited(s1, t.bursts);
    WaitGoesOn(s1, t.bursts);
  }

  /** A stable listing is confirmed by a resource watch after D / max_in_flight
      turns, whatever wakes the thread between them short of stopping it. */
  lemma {:induction false} ResourceWatchConverges(o: Options, s: State, listing: seq<ObjectEntry>, turns: seq<Turn>)
    requires Settled(s) && o.maxInFlight >= 1 && Steady(listing, turns)
    requires |Differing(o.env, s.confirmed, Current(listing))| <= |turns| * o.maxInFlight
    ensures Watched(o, s, false, turns).0.confirmed == Digests(o.env, Current(listing))
    decreases |turns|
  {
    if turns == [] {
      assert |turns| * o.maxInFlight == 0;
      NoneDiffers(o.env, s.confirmed, Current(listing));
    } else {
      assert turns[0] in turns && Steady(listing, turns[1..]);
      var s1 := SteadyTurn(o, s, listing, turns);
      OneTurnFewer(|Differing(o.env, s.confirmed, Current(listing))|, |turns|, |turns[1..]|, o.maxInFlight);
      ResourceWatchConverges(o, s1, listing, turns[1..]);
    }
  }

  /** A failed listing changes nothing and emits nothing. */
  lemma FailedListingChangesNothing(o: Options, s: State, eventSource: bool, now: nat)
    ensures Listed(o, s, eventSource, Err(()), now) == (s, [])
  {
  }

  /** The turns without those that failed and received nothing. */
  function Answered(turns: seq<Turn>): seq<Turn> {
    if turns == [] then []
    else (if !turns[0].stopped && turns[0].answer.Err? && turns[0].bursts == [] then [] else [turns[0]]) + Answered(turns[1..])
  }

  /** Failed listings leave no trace in a run: without them it ends in the same
      state and emits the same. */
  lemma {:induction false} FailedListingsLeaveNoTrace(o: Options, s: State, eventSource: bool, turns: seq<Turn>)
    ensures Watched(o, s, eventSource, turns) == Watched(o, s, eventSource, Answered(turns))
    decreases |turns|
  {
    if turns != [] {
      var t, rest := turns[0], turns[1..];
      if !t.stopped && t.answer.Err? && t.bursts == [] {
        FailedListingChangesNothing(o, s, eventSource, t.now);
        FailedListingsLeaveNoTrace(o, s, eventSource, rest);
        assert Answered(turns) == Answered(rest);
        var (s3, emitted) := Watched(o, s, eventSource, rest);
        var none: seq<Payload> := [];
        assert Listed(o, s, eventSource, t.answer, t.now) == (s, none) && Waited(s, t.bursts) == (s, false);
        assert none + emitted == emitted;
      } else {
        var s1 := Listed(o, s, eventSource, t.answer, t.now).0;
        FailedListingsLeaveNoTrace(o, Waited(s1, t.bursts).0, eventSource, rest);
        assert Answered(turns)[1..] == Answered(rest);
      }
    }
  }

  // ---- An event watch whose host acknowledges ----

  /** Every wake of a wait, in order. */
  function Wakes(bursts: seq<Burst>): seq<Wake> {
    if bursts == [] then [] else [bursts[0].first] + bursts[0].queued + Wakes(bursts[1..])
  }

  function AckEach(s: State, wakes: seq<Wake>): State
    decreases |wakes|
  {
    if wakes == [] then s
    else AckEach(if wakes[0].Ack? then Acked(s, wakes[0].position) else s, wakes[1..])
  }

  lemma {:induction false} AckEachConcat(s: State, a: seq<Wake>, b: seq<Wake>)
    ensures AckEach(s, a + b) == AckEach(AckEach(s, a), b)
    decreases |a|
  {
    if a == [] {
      assert a + b == b;
    } else {
      assert (a + b)[0] == a[0] && (a + b)[1..] == a[1..] + b;
      AckEachConcat(if a[0].Ack? then Acked(s, a[0].position) else s, a[1..], b);
    }
  }

  lemma {:induction false} DrainedAcks(s: State, queued: seq<Wake>)
    requires forall w <- queued :: w.Ack?
    ensures Drained(s, queued) == (AckEach(s, queued), false, false)
    decreases |queued|
  {
    if queued != [] {
      assert queued[0] in queued;
      DrainedAcks(Acked(s, queued[0].position), queued[1..]);
    }
  }

  /** A wait that receives acknowledgements alone applies them all and goes on. */
  lemma {:induction false} WaitedAcks(s: State, bursts: seq<Burst>)
    requires forall w <- Wakes(bursts) :: w.Ack?
    ensures Waited(s, bursts) == (AckEach(s, Wakes(bursts)), false)
    decreases |bursts|
  {
    if bursts != [] {
      var b, rest := bursts[0], bursts[1..];
      var front := [b.first] + b.queued;
      assert Wakes(bursts) == front + Wakes(rest);
      assert b.first in Wakes(bursts) && (forall w <- b.queued :: w in Wakes(bursts)) && forall w <- Wakes(rest) :: w in Wakes(bursts);
      assert front[1..] == b.queued;
      var s1 := Acked(s, b.first.position);
      DrainedAcks(s1, b.queued);
      WaitedAcks(AckEach(s1, b.queued), rest);
      AckEachConcat(s, front, Wakes(rest));
    }
  }

  /** The acknowledgements of events, in order. */
  ghost function AckWakes(events: seq<Event>): seq<Wake> {
    if events == [] then []
    else (if events[0].Changed? then [Wake.Ack(Some(events[0].cursor.seqno))] else []) + AckWakes(events[1..])
  }

  lemma {:induction false} AckWakesAckAll(s: State, events: seq<Event>)
    ensures AckEach(s, AckWakes(events)) == AckAll(s, events)
    ensures forall w <- AckWakes(events) :: w.Ack?
    decreases |events|
  {
    if events != [] {
      var rest := AckWakes(events[1..]);
      if events[0].Changed? {
        var all := [Wake.Ack(Some(events[0].cursor.seqno))] + rest;
        assert all[1..] == rest;
        AckWakesAckAll(Acked(s, Some(events[0].cursor.seqno)), events[1..]);
      } else {
        assert [] + rest == rest;
        AckWakesAckAll(s, events[1..]);
      }
    }
  }

  /** The turn lists, and its wait brings the acknowledgements of the events it
      emitted, in whatever bursts. */
  ghost predicate Acknowledges(o: Options, s: State, listing: seq<ObjectEntry>, t: Turn) {
    !t.stopped && t.answer == Ok(listing) && Wakes(t.bursts) == AckWakes(Polled(o, s, listing, t.now).1)
  }

  /** Every turn lists the same and is acknowledged. */
  ghost predicate Attended(o: Options, s: State, listing: seq<ObjectEntry>, turns: seq<Turn>)
    decreases |turns|
  {
    turns == []
    || (Acknowledges(o, s, listing, turns[0]) && Attended(o, Round(o, s, listing, turns[0].now).0, listing, turns[1..]))
  }

  /** One such turn is a round, and emits its events. */
  lemma AttendedTurn(o: Options, s: State, listing: seq<ObjectEntry>, turns: seq<Turn>) returns (s1: State, emitted: seq<Payload>)
    requires Settled(s) && o.maxInFlight >= 1 && turns != [] && Attended(o, s, listing, turns)
    ensures Settled(s1) && Attended(o, s1, listing, turns[1..])
    ensures var current := Current(listing);
            var d := |Differing(o.env, s.confirmed, current)|;
            |Differing(o.env, s1.confirmed, current)| == Left(d, o.maxInFlight) == d - |emitted|
    ensures Watched(o, s, true, turns) == Behind(emitted, Watched(o, s1, true, turns[1..]))
  {
    var t := turns[0];
    var (s', events) := Polled(o, s, listing, t.now);
    s1, emitted := Round(o, s, listing, t.now).0, Payloads(events);
    RoundLowers(o, s, listing, t.now);
    AckWakesAckAll(s', events);
    WaitedAcks(s', t.bursts);
  }

  lemma Behinds(emitted: seq<Payload>, r: (State, seq<Payload>))
    ensures Behind(emitted, r).0 == r.0 && |Behind(emitted, r).1| == |emitted| + |r.1|
  {
  }

  /** An event watch whose host acknowledges each turn's events confirms a stable
      listing within D / max_in_flight turns, and emits D events by then. */
  lemma {:induction false} EventWatchConverges(o: Options, s: State, listing: seq<ObjectEntry>, turns: seq<Turn>)
    requires Settled(s) && o.maxInFlight >= 1 && Attended(o, s, listing, turns)
    requires |Differing(o.env, s.confirmed, Current(listing))| <= |turns| * o.maxInFlight
    ensures Watched(o, s, true, turns).0.confirmed == Digests(o.env, Current(listing))
    ensures |Watched(o, s, true, turns).1| == |Differing(o.env, s.confirmed, Current(listing))|
    decreases |turns|
  {
    if turns == [] {
      assert |turns| * o.maxInFlight == 0;
      NoneDiffers(o.env, s.confirmed, Current(listing));
    } else {
      var s1, emitted := AttendedTurn(o, s, listing, turns);
      OneTurnFewer(|Differing(o.env, s.confirmed, Current(listing))|, |turns|, |turns[1..]|, o.maxInFlight);
      EventWatchConverges(o, s1, listing, turns[1..]);
      Behinds(emitted, Watched(o, s1, true, turns[1..]));
    }
  }

  // ---- The room gate of an event watch ----

  /** The wake settles no change in flight: a notification, a stop, or an
      acknowledgement of something else. */
  predicate Unheard(s: State, wake: Wake) {
    wake.Ack? ==> Honoured(s, wake.position).None?
  }

  ghost predicate NoneHeard(s: State, bursts: seq<Burst>) {
    forall b <- bursts :: Unheard(s, b.first) && forall w <- b.queued :: Unheard(s, w)
  }

  lemma {:induction false} UnheardDrained(s: State, queued: seq<Wake>)
    requires forall w <- queued :: Unheard(s, w)
    ensures Drained(s, queued).0 == s
    decreases |queued|
  {
    if queued != [] {
      assert Unheard(s, queued[0]);
      UnheardDrained(s, queued[1..]);
    }
  }

  lemma {:induction false} UnheardWaited(s: State, bursts: seq<Burst>)
    requires NoneHeard(s, bursts)
    ensures Waited(s, bursts).0 == s
    decreases |bursts|
  {
    if bursts != [] {
      assert bursts[0] in bursts && Unheard(s, bursts[0].first);
      UnheardDrained(s, bursts[0].queued);
      UnheardWaited(s, bursts[1..]);
    }
  }

  /** Once the window is full and the host acknowledges none of it, the thread
      never lists again: nothing is emitted and nothing changes, however long it
      runs, however overdue what is in flight becomes and whatever notifies it. */
  lemma {:induction false} FullWindowStalls(o: Options, s: State, eventSource: bool, turns: seq<Turn>)
    requires Room(o, s) == 0
    requires forall t <- turns :: NoneHeard(s, t.bursts)
    ensures Watched(o, s, eventSource, turns) == (s, [])
    decreases |turns|
  {
    if turns != [] {
      var t := turns[0];
      assert t in turns;
      UnheardWaited(s, t.bursts);
      FullWindowStalls(o, s, eventSource, turns[1..]);
      var none: seq<Payload> := [];
      assert none + none == none;
      assert Listed(o, s, eventSource, t.answer, t.now) == (s, none);
    }
  }

  lemma FillsWindow(o: Options, s: State, listing: seq<ObjectEntry>, now: nat)
    requires s.confirmed == map[] && s.pending == [] && SeenKeyed(s) && !s.baseline.Silent? && !s.quiet && !s.gap
    requires |Current(listing)| >= o.maxInFlight
    ensures |Polled(o, s, listing, now).0.pending| == |Polled(o, s, listing, now).1| == o.maxInFlight
  {
    var s1, current := Opened(o, s, now), Current(listing);
    DueKeysCount(o.env, s1, current);
    assert Differing(o.env, map[], current) == current.Keys;
    TakenFacts(o, s, current, now);
  }

  /** Such a run exists: the first listing of everything there fills the window, and
      no turn after it emits anything. */
  lemma FirstListingStalls(o: Options, first: Turn, turns: seq<Turn>)
    requires o.start.Existing? && o.maxInFlight >= 1
    requires !first.stopped && first.answer.Ok? && |Current(first.answer.value)| >= o.maxInFlight
    requires var s1 := Polled(o, Start0(o, Absent, false).value, first.answer.value, first.now).0;
             NoneHeard(s1, first.bursts) && forall t <- turns :: NoneHeard(s1, t.bursts)
    ensures |Watched(o, Start0(o, Absent, false).value, true, [first] + turns).1| == o.maxInFlight
  {
    var s := Start0(o, Absent, false).value;
    FillsWindow(o, s, first.answer.value, first.now);
    var s1 := Polled(o, s, first.answer.value, first.now).0;
    UnheardWaited(s1, first.bursts);
    FullWindowStalls(o, s1, true, turns);
    assert ([first] + turns)[0] == first && ([first] + turns)[1..] == turns;
  }

  // ---- What a turn reports ----

  ghost predicate TellsOf(payloads: seq<Payload>, k: Str) {
    exists i :: 0 <= i < |payloads| && payloads[i].EventJson? && payloads[i].event.Changed?
                && payloads[i].event.entry.key == k
  }

  /** The events of a listing tell of the first due keys, in order. */
  lemma EventKeys(o: Options, s: State, listing: seq<ObjectEntry>, now: nat, i: nat)
    requires !s.baseline.Silent? && !s.gap && SeenKeyed(s)
    ensures var s1 := Opened(o, s, now);
            var keys, events := DueKeys(o.env, s1, Current(listing)), Polled(o, s, listing, now).1;
            && |events| == Min(|keys|, Room(o, s1))
            && (i < |events| ==> events[i].Changed? && events[i].entry.key == keys[i])
  {
    TakenFacts(o, s, Current(listing), now);
  }

  /** A change in flight is overdue and its key due again: the next turn reports it
      if and only if the window had room before anything expired and, with what
      expired gone, reaches the key among those due before it. Others may be within
      the timeout. */
  lemma OverdueReportedAgainIff(o: Options, s: State, listing: seq<ObjectEntry>, now: nat, i: nat, j: nat)
    requires !s.baseline.Silent? && !s.quiet && !s.gap && SeenKeyed(s)
    requires i < |s.pending| && now - s.pending[i].at >= o.ackTimeout
    requires var keys := DueKeys(o.env, Opened(o, s, now), Current(listing));
             j < |keys| && keys[j] == s.pending[i].key
    ensures TellsOf(Listed(o, s, true, Ok(listing), now).1, s.pending[i].key)
       <==> |s.pending| < o.maxInFlight && j + |Unexpired(s.pending, now, o.ackTimeout)| < o.maxInFlight
  {
    var k := s.pending[i].key;
    var keys := DueKeys(o.env, Opened(o, s, now), Current(listing));
    var events := Polled(o, s, listing, now).1;
    var payloads := Listed(o, s, true, Ok(listing), now).1;
    DueKeysDistinct(o.env, Opened(o, s, now), Current(listing));
    EventKeys(o, s, listing, now, j);
    if |s.pending| < o.maxInFlight {
      assert payloads == Payloads(events);
      if j < |events| {
        assert payloads[j] == EventJson(events[j]);
      }
      if n :| 0 <= n < |payloads| && payloads[n].EventJson? && payloads[n].event.Changed? && payloads[n].event.entry.key == k {
        EventKeys(o, s, listing, now, n);
        assert keys[n] == keys[j];
      }
    }
  }

  lemma CurrentAppend(listing: seq<ObjectEntry>, e: ObjectEntry)
    ensures Current(listing + [e]) == Current(listing)[e.key := e]
  {
    assert (listing + [e])[..|listing|] == listing;
  }

  lemma CurrentOfThree(a: ObjectEntry, b: ObjectEntry, z: ObjectEntry)
    ensures Current([a, b, z]) == map[a.key := a, b.key := b, z.key := z]
  {
    CurrentAppend([], a);
    CurrentAppend([a], b);
    CurrentAppend([a, b], z);
    assert [] + [a] == [a] && [a] + [b] == [a, b] && [a, b] + [z] == [a, b, z];
  }

  /** Nothing confirmed and nothing in flight: every key listed is due, in order. */
  lemma ThreeDue(env: Env, s: State, current: map<Str, ObjectEntry>, a: Str, b: Str, z: Str)
    requires s.confirmed == map[] && s.pending == [] && !s.quiet && current.Keys == {a, b, z} && Lt(a, b) && Lt(b, z)
    ensures DueKeys(env, s, current) == [a, b, z]
  {
    LtTransitive(a, b, z);
    assert AliveDue(env, s, current) == {a, b, z} && GoneDue(env, s, current) == {};
    ListsUnique([a, b, z], {a, b, z});
    ListsUnique([], {});
  }

  /** From the start, an overdue change that is not reported though the window had
      room: two new objects come before it in key order. */
  lemma CrowdedOut(o: Options, a: ObjectEntry, b: ObjectEntry, z: ObjectEntry, at: nat, now: nat)
    requires Lt(a.key, b.key) && Lt(b.key, z.key) && o.maxInFlight == 2 && o.start.Existing?
    requires now >= at + o.ackTimeout
    ensures var s := Polled(o, Start0(o, Absent, false).value, [z], at).0;
            && |s.pending| == 1 && s.pending[0].key == z.key && now - s.pending[0].at >= o.ackTimeout
            && Listed(o, s, true, Ok([a, b, z]), now).1 != []
            && !TellsOf(Listed(o, s, true, Ok([a, b, z]), now).1, z.key)
  {
    var s0 := Start0(o, Absent, false).value;
    CurrentOf(z, z);
    assert AliveDue(o.env, Opened(o, s0, at), Current([z])) == Elements([z.key]);
    ReportsAll(o, s0, [z], [z.key], at);
    CrowdsOut(o, Polled(o, s0, [z], at).0, a, b, z, now);
  }

  lemma CrowdsOut(o: Options, s: State, a: ObjectEntry, b: ObjectEntry, z: ObjectEntry, now: nat)
    requires Lt(a.key, b.key) && Lt(b.key, z.key) && o.maxInFlight == 2
    requires s.confirmed == map[] && !s.baseline.Silent? && !s.quiet && !s.gap && SeenKeyed(s)
    requires |s.pending| == 1 && s.pending[0].key == z.key && now - s.pending[0].at >= o.ackTimeout
    ensures Listed(o, s, true, Ok([a, b, z]), now).1 != []
    ensures !TellsOf(Listed(o, s, true, Ok([a, b, z]), now).1, z.key)
  {
    CurrentOfThree(a, b, z);
    ThreeDue(o.env, Opened(o, s, now), Current([a, b, z]), a.key, b.key, z.key);
    OverdueReportedAgainIff(o, s, [a, b, z], now, 0, 2);
    EventKeys(o, s, [a, b, z], now, 0);
  }
}
