/** A listing that stays the same, acknowledged as it is reported, is confirmed
    after the least number of rounds that has room for its changes. */
module InventoryConverge {
  import opened Strs
  import opened Framing
  import opened InventorySpec
  import opened InventoryRuns
  import opened InventoryReports

  /** The host acknowledges `events` in order. */
  ghost function AckAll(s: State, events: seq<Event>): State
    decreases |events|
  {
    if events == [] then s
    else if events[0].Gap? then AckAll(s, events[1..])
    else AckAll(Acked(s, Some(events[0].cursor.seqno)), events[1..])
  }

  ghost function Round(o: Options, s: State, listing: seq<ObjectEntry>, now: nat): (State, seq<Event>) {
    var (s', events) := Polled(o, s, listing, now);
    (AckAll(s', events), events)
  }

  /** One round at each of `times`. */
  ghost function Rounds(o: Options, s: State, listing: seq<ObjectEntry>, times: seq<nat>): (State, seq<Event>) {
    if times == [] then (s, [])
    else
      var (s', before) := Rounds(o, s, listing, times[..|times| - 1]);
      var (s'', events) := Round(o, s', listing, times[|times| - 1]);
      (s'', before + events)
  }

  /** Nothing in flight, nothing to announce, a baseline known. */
  ghost predicate Settled(s: State) {
    s.pending == [] && !s.baseline.Silent? && !s.gap && !s.quiet && SeenKeyed(s)
  }

  // ---- Acknowledging in order ----

  ghost predicate Matches(events: seq<Event>, pending: seq<Pending>) {
    && |events| == |pending|
    && forall i | 0 <= i < |events| :: events[i].Changed? && events[i].cursor.seqno == pending[i].seqno
  }

  ghost predicate DistinctKeys(pending: seq<Pending>) {
    forall i, j | 0 <= i < j < |pending| :: pending[i].key != pending[j].key
  }

  /** What acknowledging all of `pending` in order leaves at each key. */
  ghost predicate AckedTo(from: map<Str, Str>, pending: seq<Pending>, to: map<Str, Str>) {
    && (forall i | 0 <= i < |pending| :: Held(to, pending[i].key) == pending[i].digest)
    && (forall k | forall i | 0 <= i < |pending| :: pending[i].key != k :: Held(to, k) == Held(from, k))
  }

  lemma AckFirst(s: State)
    requires s.pending != [] && PendingOrdered(s.pending)
    ensures var p := s.pending[0];
            var r := Acked(s, Some(p.seqno));
            && r.pending == s.pending[1..]
            && r.confirmed == Apply(s.confirmed, p.key, p.digest)
            && r.(pending := s.pending, confirmed := s.confirmed, seen := s.seen) == s
            && (SeenKeyed(s) ==> SeenKeyed(r))
  {
    AfterIsSuffix(s.pending, 0);
  }

  lemma {:induction false} AckAllInOrder(s: State, events: seq<Event>)
    requires Matches(events, s.pending) && PendingOrdered(s.pending) && SeenKeyed(s)
    ensures var r := AckAll(s, events);
            && r.pending == []
            && (DistinctKeys(s.pending) ==> AckedTo(s.confirmed, s.pending, r.confirmed))
            && r.(pending := s.pending, confirmed := s.confirmed, seen := s.seen) == s
            && SeenKeyed(r)
    decreases |events|
  {
    if events != [] {
      var p := s.pending[0];
      var s1 := Acked(s, Some(p.seqno));
      AckFirst(s);
      AckAllInOrder(s1, events[1..]);
      var r := AckAll(s1, events[1..]);
      if DistinctKeys(s.pending) {
        AckedToCons(s.confirmed, s.pending, s1.confirmed, r.confirmed);
      }
    }
  }

  lemma AckedToCons(from: map<Str, Str>, pending: seq<Pending>, mid: map<Str, Str>, to: map<Str, Str>)
    requires pending != [] && DistinctKeys(pending)
    requires mid == Apply(from, pending[0].key, pending[0].digest)
    requires AckedTo(mid, pending[1..], to)
    ensures AckedTo(from, pending, to)
  {
  }

  /** From any reachable state with a baseline, acknowledging what is in flight
      in order leaves nothing in flight and nothing to announce. */
  lemma InFlightAcknowledged(o: Options, h: History, events: seq<Event>)
    requires Inv(o, h) && !h.state.quiet && !h.state.baseline.Silent?
    requires Matches(events, h.state.pending)
    ensures Settled(AckAll(h.state, events))
  {
    AckAllInOrder(h.state, events);
  }

  // ---- One round ----

  /** After a round the listing is due at what the window had no room for, and
      only there, in the same order. */
  lemma RoundDrops(o: Options, s: State, listing: seq<ObjectEntry>, now: nat)
    requires Settled(s)
    ensures var current := Current(listing);
            var keys := DueKeys(o.env, s, current);
            var n := Min(|keys|, o.maxInFlight);
            var (s', events) := Round(o, s, listing, now);
            && Settled(s')
            && |events| == n
            && (forall i | 0 <= i < n :: events[i].Changed? && events[i].entry.key == keys[i]
                                         && EventFits(o, s.confirmed, current, events[i]))
            && (forall i | 0 <= i < n :: Held(s'.confirmed, keys[i]) == Target(o.env, current, keys[i]))
            && (forall k | k !in keys[..n] :: Held(s'.confirmed, k) == Held(s.confirmed, k))
  {
    var keys := DueKeys(o.env, s, Current(listing));
    var n := Min(|keys|, o.maxInFlight);
    var (polled, events) := Polled(o, s, listing, now);
    SettledPoll(o, s, listing, now);
    AckAllInOrder(polled, events);
    var s' := AckAll(polled, events);
    forall i | 0 <= i < n
      ensures Held(s'.confirmed, keys[i]) == Target(o.env, Current(listing), keys[i])
    {
      assert polled.pending[i].key == keys[i];
    }
    forall k | k !in keys[..n]
      ensures Held(s'.confirmed, k) == Held(s.confirmed, k)
    {
      assert forall i | 0 <= i < n :: keys[i] == keys[..n][i];
      assert forall i | 0 <= i < |polled.pending| :: polled.pending[i].key != k;
    }
  }

  /** A listing with nothing in flight, spelled out. */
  lemma PolledShape(o: Options, s: State, listing: seq<ObjectEntry>, now: nat)
    requires Settled(s)
    ensures var cs := Taken(o, s, Current(listing), now);
            Polled(o, s, listing, now)
            == (s.(seen := s.seen + Current(listing), pending := NewPending(cs, s.nextSeq, now),
                   nextSeq := s.nextSeq + |cs|, baseline := Baseline.Known),
                NewEvents(o, s.confirmed, cs, s.nextSeq))
  {
    var cs := Taken(o, s, Current(listing), now);
    assert s.pending + NewPending(cs, s.nextSeq, now) == NewPending(cs, s.nextSeq, now);
    assert GapEvents(s) + NewEvents(o, s.confirmed, cs, s.nextSeq) == NewEvents(o, s.confirmed, cs, s.nextSeq);
  }

  ghost predicate ChangesAt(o: Options, confirmed: map<Str, Str>, current: map<Str, ObjectEntry>, keys: seq<Str>, cs: seq<Change>) {
    && |cs| <= |keys|
    && (forall i | 0 <= i < |cs| :: cs[i].entry.key == keys[i] && cs[i].target == Target(o.env, current, keys[i])
                                    && cs[i].op == OpFor(Held(confirmed, keys[i]), cs[i].target)
                                    && (cs[i].target.Some? ==> cs[i].target.value == Digest(o.env, cs[i].entry)))
    && (forall i, j | 0 <= i < j < |cs| :: cs[i].entry.key != cs[j].entry.key)
  }

  lemma TakenShape(o: Options, s: State, current: map<Str, ObjectEntry>, now: nat)
    requires Settled(s) && forall k <- current :: current[k].key == k
    ensures var keys := DueKeys(o.env, s, current);
            var cs := Taken(o, s, current, now);
            |cs| == Min(|keys|, o.maxInFlight) && ChangesAt(o, s.confirmed, current, keys, cs)
  {
    DueSameState(o.env, s, Opened(o, s, now), current);
    TakenFacts(o, s, current, now);
  }

  lemma NewEventsFit(o: Options, confirmed: map<Str, Str>, current: map<Str, ObjectEntry>, keys: seq<Str>, cs: seq<Change>,
                     seqno: nat, now: nat)
    requires ChangesAt(o, confirmed, current, keys, cs)
    ensures var pending, events := NewPending(cs, seqno, now), NewEvents(o, confirmed, cs, seqno);
            && Matches(events, pending) && PendingOrdered(pending) && DistinctKeys(pending)
            && (forall i | 0 <= i < |cs| :: events[i].entry.key == keys[i] && EventFits(o, confirmed, current, events[i])
                                            && pending[i].key == keys[i]
                                            && pending[i].digest == Target(o.env, current, keys[i]))
  {
    forall i | 0 <= i < |cs|
      ensures Target(o.env, current, keys[i]) == Held(Digests(o.env, current), keys[i])
    {
    }
  }

  /** The listing of a round, before its acknowledgements. */
  lemma SettledPoll(o: Options, s: State, listing: seq<ObjectEntry>, now: nat)
    requires Settled(s)
    ensures var current := Current(listing);
            var keys := DueKeys(o.env, s, current);
            var n := Min(|keys|, o.maxInFlight);
            var (polled, events) := Polled(o, s, listing, now);
            && polled.(pending := [], seen := s.seen, nextSeq := s.nextSeq, baseline := s.baseline) == s
            && !polled.baseline.Silent? && SeenKeyed(polled)
            && |polled.pending| == n
            && Matches(events, polled.pending) && PendingOrdered(polled.pending) && DistinctKeys(polled.pending)
            && (forall i | 0 <= i < n :: events[i].entry.key == keys[i] && EventFits(o, s.confirmed, current, events[i])
                                         && polled.pending[i].key == keys[i]
                                         && polled.pending[i].digest == Target(o.env, current, keys[i]))
  {
    var current := Current(listing);
    var keys := DueKeys(o.env, s, current);
    var cs := Taken(o, s, current, now);
    PolledSeen(o, s, listing, now);
    PolledShape(o, s, listing, now);
    TakenShape(o, s, current, now);
    NewEventsFit(o, s.confirmed, current, keys, cs, s.nextSeq, now);
  }

  lemma DueSameState(env: Env, s: State, s1: State, current: map<Str, ObjectEntry>)
    requires s1.confirmed == s.confirmed && s1.pending == s.pending && s1.quiet == s.quiet
    ensures DueKeys(env, s1, current) == DueKeys(env, s, current)
  {
    assert AliveDue(env, s1, current) == AliveDue(env, s, current);
    assert GoneDue(env, s1, current) == GoneDue(env, s, current);
  }

  /** The due keys after acknowledging the first `n` of them. */
  lemma DueKeysDrop(env: Env, s: State, s': State, current: map<Str, ObjectEntry>, n: nat)
    requires Settled(s) && Settled(s')
    requires n <= |DueKeys(env, s, current)|
    requires forall i | 0 <= i < n :: Held(s'.confirmed, DueKeys(env, s, current)[i]) == Target(env, current, DueKeys(env, s, current)[i])
    requires forall k | k !in DueKeys(env, s, current)[..n] :: Held(s'.confirmed, k) == Held(s.confirmed, k)
    ensures DueKeys(env, s', current) == DueKeys(env, s, current)[n..]
  {
    var keys := DueKeys(env, s, current);
    var alive, gone := SortedKeys(AliveDue(env, s, current)), SortedKeys(GoneDue(env, s, current));
    assert keys == alive + gone;
    forall k
      ensures Due(env, s', current, k) <==> Due(env, s, current, k) && k !in keys[..n]
    {
      if k in keys[..n] {
        var i :| 0 <= i < n && keys[..n][i] == k;
        assert keys[i] == k;
      }
    }
    if n <= |alive| {
      assert keys[..n] == alive[..n] && keys[n..] == alive[n..] + gone;
      SortedKeysDrop(AliveDue(env, s, current), alive, n);
      assert AliveDue(env, s', current) == AliveDue(env, s, current) - Elements(alive[..n]);
      assert forall k <- alive[..n] :: k in alive;
      assert GoneDue(env, s', current) == GoneDue(env, s, current);
    } else {
      assert keys[..n] == alive + gone[..n - |alive|] && keys[n..] == gone[n - |alive|..];
      SortedKeysDrop(GoneDue(env, s, current), gone, n - |alive|);
      assert AliveDue(env, s', current) == {};
      ListsUnique([], {});
      assert GoneDue(env, s', current) == GoneDue(env, s, current) - Elements(gone[..n - |alive|]);
    }
  }

  // ---- All rounds ----

  /** After rounds that reported the first `m` of the keys that differed. */
  ghost predicate Progress(o: Options, s: State, current: map<Str, ObjectEntry>, keys: seq<Str>, m: nat, s': State, events: seq<Event>) {
    && Settled(s')
    && m <= |keys|
    && |events| == m
    && (forall i | 0 <= i < m :: events[i].Changed? && events[i].entry.key == keys[i]
                                 && EventFits(o, s.confirmed, current, events[i]))
    && (forall i | 0 <= i < m :: Held(s'.confirmed, keys[i]) == Target(o.env, current, keys[i]))
    && (forall k | k !in keys[..m] :: Held(s'.confirmed, k) == Held(s.confirmed, k))
  }

  lemma {:induction false} RoundsProgress(o: Options, s: State, listing: seq<ObjectEntry>, times: seq<nat>)
    requires Settled(s)
    ensures var keys := DueKeys(o.env, s, Current(listing));
            var (s', events) := Rounds(o, s, listing, times);
            Progress(o, s, Current(listing), keys, Min(|keys|, |times| * o.maxInFlight), s', events)
  {
    var current := Current(listing);
    var keys := DueKeys(o.env, s, current);
    if times != [] {
      var init := times[..|times| - 1];
      RoundsProgress(o, s, listing, init);
      var (s1, before) := Rounds(o, s, listing, init);
      var m := Min(|keys|, |init| * o.maxInFlight);
      DueKeysDrop(o.env, s, s1, current, m);
      RoundDrops(o, s1, listing, times[|times| - 1]);
      var (s2, events) := Round(o, s1, listing, times[|times| - 1]);
      assert Rounds(o, s, listing, times) == (s2, before + events);
      RoundsAdd(|keys|, |init|, o.maxInFlight);
      ProgressStep(o, s, current, keys, m, s1, before, s2, events);
    }
  }

  lemma RoundsAdd(d: nat, rounds: nat, max: nat)
    ensures var m := Min(d, rounds * max); m <= d && m + Min(d - m, max) == Min(d, (rounds + 1) * max)
  {
  }

  /** A key a round reports was not reported before. */
  lemma NextReported(o: Options, s: State, current: map<Str, ObjectEntry>, keys: seq<Str>, m: nat,
                     s1: State, before: seq<Event>, s2: State, events: seq<Event>, i: nat)
    requires i < |events| && forall a, b | 0 <= a < |keys| && 0 <= b < |keys| && keys[a] == keys[b] :: a == b
    requires Progress(o, s, current, keys, m, s1, before)
    requires Progress(o, s1, current, keys[m..], |events|, s2, events)
    ensures events[i].Changed? && events[i].entry.key == keys[m + i] && EventFits(o, s.confirmed, current, events[i])
    ensures Held(s2.confirmed, keys[m + i]) == Target(o.env, current, keys[m + i])
  {
    assert keys[m..][i] == keys[m + i];
    assert keys[m + i] !in keys[..m];
  }

  lemma ProgressStep(o: Options, s: State, current: map<Str, ObjectEntry>, keys: seq<Str>, m: nat,
                     s1: State, before: seq<Event>, s2: State, events: seq<Event>)
    requires Settled(s) && keys == DueKeys(o.env, s, current)
    requires Progress(o, s, current, keys, m, s1, before)
    requires Progress(o, s1, current, keys[m..], |events|, s2, events)
    ensures Progress(o, s, current, keys, m + |events|, s2, before + events)
  {
    var n := |events|;
    DueKeysDistinct(o.env, s, current);
    forall i | m <= i < m + n
      ensures var e := (before + events)[i];
              e.Changed? && e.entry.key == keys[i] && EventFits(o, s.confirmed, current, e)
      ensures Held(s2.confirmed, keys[i]) == Target(o.env, current, keys[i])
    {
      NextReported(o, s, current, keys, m, s1, before, s2, events, i - m);
    }
    forall i | 0 <= i < m
      ensures Held(s2.confirmed, keys[i]) == Target(o.env, current, keys[i])
    {
      assert keys[i] !in keys[m..][..n];
    }
    forall k | k !in keys[..m + n]
      ensures Held(s2.confirmed, k) == Held(s.confirmed, k)
    {
      assert keys[..m + n] == keys[..m] + keys[m..][..n];
    }
  }

  /** A stable listing, acknowledged in order: once the rounds have room for all
      D differing keys, each was reported exactly once with the operation that
      leads there, and the confirmed listing is the one listed. */
  lemma Converges(o: Options, s: State, listing: seq<ObjectEntry>, times: seq<nat>)
    requires Settled(s)
    requires |Differing(o.env, s.confirmed, Current(listing))| <= |times| * o.maxInFlight
    ensures var target := Digests(o.env, Current(listing));
            var (s', events) := Rounds(o, s, listing, times);
            s'.confirmed == target && ExactDiff(o.env, s.confirmed, target, events) && Settled(s')
  {
    var current := Current(listing);
    var target := Digests(o.env, current);
    var keys := DueKeys(o.env, s, current);
    DueKeysCount(o.env, s, current);
    DueKeysDistinct(o.env, s, current);
    RoundsProgress(o, s, listing, times);
    var (s', events) := Rounds(o, s, listing, times);
    Assemble(o, s.confirmed, current, keys, events);
    assert keys[..|keys|] == keys;
    forall k
      ensures Held(s'.confirmed, k) == Held(target, k)
    {
      DueWithoutPending(o.env, s, current, k);
      if k in keys {
        var i :| 0 <= i < |keys| && keys[i] == k;
      } else {
        assert !Differs(o.env, s.confirmed, current, k);
      }
    }
    HeldDetermines(s'.confirmed, target);
  }

  /** With fewer rounds some keys are still to be reported: the bound on the
      number of rounds is the least one. */
  lemma ConvergesNoSooner(o: Options, s: State, listing: seq<ObjectEntry>, times: seq<nat>)
    requires Settled(s)
    requires |times| * o.maxInFlight < |Differing(o.env, s.confirmed, Current(listing))|
    ensures Rounds(o, s, listing, times).0.confirmed != Digests(o.env, Current(listing))
    ensures |Rounds(o, s, listing, times).1| == |times| * o.maxInFlight
  {
    var current := Current(listing);
    var keys := DueKeys(o.env, s, current);
    DueKeysCount(o.env, s, current);
    DueKeysDistinct(o.env, s, current);
    RoundsProgress(o, s, listing, times);
    var m := |times| * o.maxInFlight;
    assert keys[m] !in keys[..m];
    assert keys[m] in keys;
    DueWithoutPending(o.env, s, current, keys[m]);
  }

  /** And it is silent from then on. */
  lemma SilentOnceConverged(o: Options, s: State, listing: seq<ObjectEntry>, now: nat)
    requires Settled(s) && s.confirmed == Digests(o.env, Current(listing))
    ensures Polled(o, s, listing, now).1 == []
    ensures Round(o, s, listing, now).0.confirmed == s.confirmed
  {
    NothingDue(o, s, Current(listing), now);
  }

  /** A round leaves fewer keys that differ, by as many as there was room for. */
  lemma RoundLowers(o: Options, s: State, listing: seq<ObjectEntry>, now: nat)
    requires Settled(s)
    ensures var current := Current(listing);
            var d := |Differing(o.env, s.confirmed, current)|;
            var (s', events) := Round(o, s, listing, now);
            && Settled(s')
            && |events| == Min(d, o.maxInFlight)
            && |Differing(o.env, s'.confirmed, current)| == d - |events|
  {
    var current := Current(listing);
    var (s', events) := Round(o, s, listing, now);
    DueKeysCount(o.env, s, current);
    RoundDrops(o, s, listing, now);
    DueKeysDrop(o.env, s, s', current, |events|);
    DueKeysCount(o.env, s', current);
  }

  lemma NoneDiffers(env: Env, confirmed: map<Str, Str>, current: map<Str, ObjectEntry>)
    requires |Differing(env, confirmed, current)| == 0
    ensures confirmed == Digests(env, current)
  {
    forall k
      ensures Held(confirmed, k) == Held(Digests(env, current), k)
    {
      assert k !in Differing(env, confirmed, current);
    }
    HeldDetermines(confirmed, Digests(env, current));
  }
}
