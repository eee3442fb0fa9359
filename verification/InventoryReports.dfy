/** What a listing reports, and what it reports the next time. */
module InventoryReports {
  import opened Strs
  import opened Framing
  import opened InventorySpec
  import opened InventoryRuns

  /** Replaying an event on a listing of digests. */
  ghost function Replay(env: Env, m: map<Str, Str>, e: Event): map<Str, Str> {
    match e
    case Gap => m
    case Changed(_, op, entry, _) => if op.Deleted? then m - {entry.key} else m[entry.key := Digest(env, entry)]
  }

  ghost function ReplayAll(env: Env, m: map<Str, Str>, events: seq<Event>): map<Str, Str> {
    if events == [] then m
    else Replay(env, ReplayAll(env, m, events[..|events| - 1]), events[|events| - 1])
  }

  // ---- Exactness of one report ----

  /** `events` are changes of distinct keys, exactly the keys at which `target`
      differs from `held`, each with the operation that leads there. */
  ghost predicate ExactDiff(env: Env, held: map<Str, Str>, target: map<Str, Str>, events: seq<Event>) {
    && (forall e <- events :: e.Changed?)
    && (forall i, j | 0 <= i < j < |events| :: events[i].entry.key != events[j].entry.key)
    && (forall k :: (exists i :: 0 <= i < |events| && events[i].entry.key == k) <==> Held(held, k) != Held(target, k))
    && (forall e <- events ::
          && e.op == (if e.entry.key !in target then Deleted else if e.entry.key in held then Modified else Created)
          && (!e.op.Deleted? ==> Held(target, e.entry.key) == Some(Digest(env, e.entry))))
  }

  lemma HeldDetermines(a: map<Str, Str>, b: map<Str, Str>)
    requires forall k :: Held(a, k) == Held(b, k)
    ensures a == b
  {
    forall k
      ensures k in a <==> k in b
      ensures k in a ==> a[k] == b[k]
    {
      assert Held(a, k) == Held(b, k);
    }
  }

  ghost predicate Reports(events: seq<Event>, k: Str) {
    exists i :: 0 <= i < |events| && events[i].Changed? && events[i].entry.key == k
  }

  /** The event leads its key to what `target` holds there. */
  ghost predicate Leads(env: Env, target: map<Str, Str>, e: Event) {
    e.Changed? && Held(target, e.entry.key) == if e.op.Deleted? then None else Some(Digest(env, e.entry))
  }

  lemma ReplayStep(env: Env, m: map<Str, Str>, e: Event, target: map<Str, Str>, k: Str)
    requires Leads(env, target, e)
    ensures Held(Replay(env, m, e), k) == if e.entry.key == k then Held(target, k) else Held(m, k)
  {
  }

  lemma {:induction false} ReplayAt(env: Env, held: map<Str, Str>, target: map<Str, Str>, events: seq<Event>, k: Str)
    requires forall e <- events :: Leads(env, target, e)
    ensures Held(ReplayAll(env, held, events), k) == if Reports(events, k) then Held(target, k) else Held(held, k)
  {
    if events != [] {
      var init, last := events[..|events| - 1], events[|events| - 1];
      ReplayAt(env, held, target, init, k);
      ReplayStep(env, ReplayAll(env, held, init), last, target, k);
      assert Reports(events, k) <==> Reports(init, k) || last.entry.key == k by {
        assert events[|events| - 1] == last && last in events;
        if i :| 0 <= i < |init| && init[i].Changed? && init[i].entry.key == k {
          assert events[i] == init[i];
        }
        if i :| 0 <= i < |events| && events[i].Changed? && events[i].entry.key == k && i < |init| {
          assert events[i] == init[i];
        }
      }
    }
  }

  /** An exact report replays the one listing into the other. */
  lemma ExactDiffReplays(env: Env, held: map<Str, Str>, target: map<Str, Str>, events: seq<Event>)
    requires ExactDiff(env, held, target, events)
    ensures ReplayAll(env, held, events) == target
  {
    forall e <- events
      ensures Leads(env, target, e)
    {
    }
    forall k
      ensures Held(ReplayAll(env, held, events), k) == Held(target, k)
    {
      ReplayAt(env, held, target, events, k);
      if !Reports(events, k) {
        assert !exists i :: 0 <= i < |events| && events[i].entry.key == k;
      }
    }
    HeldDetermines(ReplayAll(env, held, events), target);
  }

  /** Without anything in flight a listing is due at every key where it differs. */
  lemma DueWithoutPending(env: Env, s: State, current: map<Str, ObjectEntry>, k: Str)
    requires s.pending == []
    ensures Due(env, s, current, k) <==> Held(s.confirmed, k) != Held(Digests(env, current), k)
    ensures Target(env, current, k) == Held(Digests(env, current), k)
  {
  }

  ghost predicate Differs(env: Env, confirmed: map<Str, Str>, current: map<Str, ObjectEntry>, k: Str) {
    Held(confirmed, k) != Held(Digests(env, current), k)
  }

  /** The number of keys at which the listing differs. */
  ghost function Differing(env: Env, confirmed: map<Str, Str>, current: map<Str, ObjectEntry>): set<Str> {
    set k | k in confirmed.Keys + current.Keys && Differs(env, confirmed, current, k)
  }

  lemma DueIsDiffering(env: Env, s: State, current: map<Str, ObjectEntry>)
    requires s.pending == []
    ensures AliveDue(env, s, current) !! GoneDue(env, s, current)
    ensures AliveDue(env, s, current) + GoneDue(env, s, current) == Differing(env, s.confirmed, current)
  {
  }

  /** The due keys, when nothing is in flight, are the differing keys. */
  lemma DueKeysCount(env: Env, s: State, current: map<Str, ObjectEntry>)
    requires s.pending == [] && !s.quiet
    ensures |DueKeys(env, s, current)| == |Differing(env, s.confirmed, current)|
    ensures forall k :: k in DueKeys(env, s, current) <==> k in Differing(env, s.confirmed, current)
  {
    DueIsDiffering(env, s, current);
    SortedKeysSize(AliveDue(env, s, current));
    SortedKeysSize(GoneDue(env, s, current));
  }

  /** The event of the `i`-th change taken from a listing. */
  lemma EventAt(o: Options, s: State, listing: seq<ObjectEntry>, now: nat, i: nat)
    requires !s.baseline.Silent? && SeenKeyed(s) && i < |Taken(o, s, Current(listing), now)|
    ensures var cs := Taken(o, s, Current(listing), now);
            var events := Polled(o, s, listing, now).1;
            && |events| == |GapEvents(s)| + |cs|
            && events[|GapEvents(s)| + i]
               == EventFor(o, Polled(o, s, listing, now).0.confirmed, cs[i], s.nextSeq + i, i + 1 == |cs|)
            && cs[i] == ChangeFor(o.env, Opened(o, s, now), Current(listing), cs[i].entry.key)
            && Due(o.env, Opened(o, s, now), Current(listing), cs[i].entry.key)
  {
    TakenFacts(o, s, Current(listing), now);
  }

  /** With nothing in flight and room for all, each event is that of its due key. */
  lemma EventsFit(o: Options, s: State, listing: seq<ObjectEntry>, now: nat)
    requires s.pending == [] && !s.baseline.Silent? && !s.quiet && !s.gap && SeenKeyed(s)
    requires |DueKeys(o.env, Opened(o, s, now), Current(listing))| <= o.maxInFlight
    ensures var current := Current(listing);
            var keys, events := DueKeys(o.env, Opened(o, s, now), current), Polled(o, s, listing, now).1;
            && |events| == |keys|
            && forall i | 0 <= i < |events| :: EventFits(o, s.confirmed, current, events[i]) && events[i].entry.key == keys[i]
  {
    var current := Current(listing);
    var s1 := Opened(o, s, now);
    var cs := Taken(o, s, current, now);
    TakenFacts(o, s, current, now);
    assert [] + NewEvents(o, s.confirmed, cs, s.nextSeq) == NewEvents(o, s.confirmed, cs, s.nextSeq);
    ChangesFit(o, s.confirmed, s1, current, cs, s.nextSeq);
  }

  lemma ChangesFit(o: Options, confirmed: map<Str, Str>, s1: State, current: map<Str, ObjectEntry>, cs: seq<Change>, seqno: nat)
    requires s1.confirmed == confirmed
    requires forall i | 0 <= i < |cs| :: cs[i] == ChangeFor(o.env, s1, current, cs[i].entry.key)
    ensures var events := NewEvents(o, confirmed, cs, seqno);
            forall i | 0 <= i < |events| :: EventFits(o, confirmed, current, events[i]) && events[i].entry == cs[i].entry
  {
  }

  /** A listing that finds nothing in flight and fits the window reports exactly
      the difference between what is confirmed and what it shows. */
  lemma PollIsExact(o: Options, s: State, listing: seq<ObjectEntry>, now: nat)
    requires s.pending == [] && !s.baseline.Silent? && !s.quiet && !s.gap && SeenKeyed(s)
    requires |Differing(o.env, s.confirmed, Current(listing))| <= o.maxInFlight
    ensures ExactDiff(o.env, s.confirmed, Digests(o.env, Current(listing)), Polled(o, s, listing, now).1)
  {
    var current := Current(listing);
    var s1 := Opened(o, s, now);
    var keys := DueKeys(o.env, s1, current);
    DueKeysCount(o.env, s1, current);
    EventsFit(o, s, listing, now);
    DueKeysDistinct(o.env, s1, current);
    Assemble(o, s.confirmed, current, keys, Polled(o, s, listing, now).1);
  }

  lemma Assemble(o: Options, confirmed: map<Str, Str>, current: map<Str, ObjectEntry>, keys: seq<Str>, events: seq<Event>)
    requires |events| == |keys|
    requires forall i | 0 <= i < |events| :: EventFits(o, confirmed, current, events[i]) && events[i].entry.key == keys[i]
    requires forall k :: k in keys <==> k in Differing(o.env, confirmed, current)
    requires forall i, j | 0 <= i < |keys| && 0 <= j < |keys| && keys[i] == keys[j] :: i == j
    ensures ExactDiff(o.env, confirmed, Digests(o.env, current), events)
  {
    ListedKeysAreDiffering(o.env, confirmed, current, keys, events);
    forall e <- events
      ensures EventFits(o, confirmed, current, e)
    {
    }
    var target := Digests(o.env, current);
    forall k
      ensures (exists i :: 0 <= i < |events| && events[i].entry.key == k) <==> Held(confirmed, k) != Held(target, k)
    {
      assert Differs(o.env, confirmed, current, k) <==> Held(confirmed, k) != Held(target, k);
    }
  }

  /** Operation and digest are those of the key. */
  ghost predicate EventFits(o: Options, confirmed: map<Str, Str>, current: map<Str, ObjectEntry>, e: Event) {
    && e.Changed?
    && e.op == OpFor(Held(confirmed, e.entry.key), Held(Digests(o.env, current), e.entry.key))
    && (!e.op.Deleted? ==> Held(Digests(o.env, current), e.entry.key) == Some(Digest(o.env, e.entry)))
  }

  lemma ListedKeysAreDiffering(env: Env, confirmed: map<Str, Str>, current: map<Str, ObjectEntry>, keys: seq<Str>, events: seq<Event>)
    requires |events| == |keys|
    requires forall i | 0 <= i < |events| :: events[i].Changed? && events[i].entry.key == keys[i]
    requires forall k :: k in keys <==> k in Differing(env, confirmed, current)
    ensures forall k :: (exists i :: 0 <= i < |events| && events[i].entry.key == k) <==> Differs(env, confirmed, current, k)
  {
    forall k
      ensures (exists i :: 0 <= i < |events| && events[i].entry.key == k) <==> Differs(env, confirmed, current, k)
    {
      if Differs(env, confirmed, current, k) {
        assert k in keys;
        var i :| 0 <= i < |keys| && keys[i] == k;
        assert events[i].entry.key == k;
      }
      if i :| 0 <= i < |events| && events[i].entry.key == k {
        assert keys[i] in keys;
      }
    }
  }

  // ---- A resume is exact or announced ----

  /** From a cursor with a snapshot the first listing reports exactly what
      turned the snapshot into it: no gap, every differing key once. */
  lemma ResumeIsExact(o: Options, seqno: nat, snap: map<Str, Str>, listing: seq<ObjectEntry>, now: nat)
    requires |Differing(o.env, snap, Current(listing))| <= o.maxInFlight
    ensures var s := Start0(o, Stored(Cursor(seqno, Some(snap))), false).value;
            var events := Polled(o, s, listing, now).1;
            && ExactDiff(o.env, snap, Digests(o.env, Current(listing)), events)
            && ReplayAll(o.env, snap, events) == Digests(o.env, Current(listing))
  {
    var s := Start0(o, Stored(Cursor(seqno, Some(snap))), false).value;
    PollIsExact(o, s, listing, now);
    ExactDiffReplays(o.env, snap, Digests(o.env, Current(listing)), Polled(o, s, listing, now).1);
  }

  /** From a cursor without one, the first listing announces the gap and nothing
      else, and is itself the baseline: listed again, it reports nothing. */
  lemma ResumeIsAnnounced(o: Options, seqno: nat, listing: seq<ObjectEntry>, now: nat, later: nat)
    ensures var s := Start0(o, Stored(Cursor(seqno, None)), false).value;
            var (s', events) := Polled(o, s, listing, now);
            && events == [Gap]
            && s'.confirmed == Digests(o.env, Current(listing))
            && Polled(o, s', listing, later).1 == []
  {
    var s := Start0(o, Stored(Cursor(seqno, None)), false).value;
    var s' := Polled(o, s, listing, now).0;
    NothingDue(o, s', Current(listing), later);
  }

  /** A fresh start reports nothing of what is there: the first listing is the
      baseline, and the next one is reported exactly against it. */
  lemma FreshStartIsSilent(o: Options, quiet: bool, listing: seq<ObjectEntry>, now: nat, found: seq<ObjectEntry>, later: nat)
    requires o.start.Now?
    ensures var (s', events) := Polled(o, Start0(o, Absent, quiet).value, listing, now);
            && events == [] && s'.confirmed == Digests(o.env, Current(listing))
            && (!quiet && |Differing(o.env, s'.confirmed, Current(found))| <= o.maxInFlight ==>
                  ExactDiff(o.env, s'.confirmed, Digests(o.env, Current(found)), Polled(o, s', found, later).1))
  {
    var s' := Polled(o, Start0(o, Absent, quiet).value, listing, now).0;
    if !quiet && |Differing(o.env, s'.confirmed, Current(found))| <= o.maxInFlight {
      PollIsExact(o, s', found, later);
    }
  }

  /** Asked for what is there, a start reports all of it, as created. */
  lemma ExistingAreReported(o: Options, listing: seq<ObjectEntry>, now: nat)
    requires o.start.Existing? && |Differing(o.env, map[], Current(listing))| <= o.maxInFlight
    ensures var events := Polled(o, Start0(o, Absent, false).value, listing, now).1;
            ExactDiff(o.env, map[], Digests(o.env, Current(listing)), events) && forall e <- events :: e.op.Created?
  {
    PollIsExact(o, Start0(o, Absent, false).value, listing, now);
  }

  lemma NoDueKeys(env: Env, s: State, current: map<Str, ObjectEntry>)
    requires forall k :: !Due(env, s, current, k)
    ensures DueKeys(env, s, current) == []
  {
    assert AliveDue(env, s, current) == {} && GoneDue(env, s, current) == {};
    ListsUnique([], {});
  }

  /** A state whose confirmed listing is the one found reports nothing. */
  lemma NothingDue(o: Options, s: State, current: map<Str, ObjectEntry>, now: nat)
    requires s.confirmed == Digests(o.env, current)
    ensures DueKeys(o.env, Opened(o, s, now), current) == []
    ensures Taken(o, s, current, now) == []
  {
    NoDueKeys(o.env, Opened(o, s, now), current);
  }

  /** Only the last event of a listing carries a snapshot, if it fits the budget:
      what is confirmed, with the event's own change. */
  lemma SnapshotSays(o: Options, s: State, listing: seq<ObjectEntry>, now: nat, i: nat)
    requires SeenKeyed(s) && i < |Polled(o, s, listing, now).1|
    requires Polled(o, s, listing, now).1[i].Changed?
    ensures var (s', events) := Polled(o, s, listing, now);
            var snap := Replay(o.env, s'.confirmed, events[i]);
            events[i].cursor.snap
            == if i == |events| - 1 && (o.env.jsonSize)(snap) <= o.snapshotBytes then Some(snap) else None
  {
    EventAt(o, s, listing, now, i - |GapEvents(s)|);
  }

  // ---- Nothing is reported twice while it is in flight ----

  lemma NewPendingDigest(cs: seq<Change>, seqno: nat, now: nat, key: Str)
    requires forall i, j | 0 <= i < j < |cs| :: cs[i].entry.key != cs[j].entry.key
    ensures (forall i | 0 <= i < |cs| :: cs[i].entry.key != key) ==> PendingDigest(NewPending(cs, seqno, now), key).None?
    ensures forall i | 0 <= i < |cs| && cs[i].entry.key == key ::
              PendingDigest(NewPending(cs, seqno, now), key) == Some(cs[i].target)
  {
    var p := NewPending(cs, seqno, now);
    if i :| 0 <= i < |cs| && cs[i].entry.key == key {
      PendingDigestIsLast(p, i);
    } else {
      PendingDigestAbsent(p, key);
    }
  }

  /** After a listing, a key that is still due is one the window had no room for. */
  lemma StillDue(o: Options, s: State, listing: seq<ObjectEntry>, now: nat, k: Str)
    requires !s.baseline.Silent? && SeenKeyed(s)
    ensures var (s', _) := Polled(o, s, listing, now);
            Due(o.env, s', Current(listing), k) ==>
              && Due(o.env, Opened(o, s, now), Current(listing), k)
              && !exists i :: 0 <= i < |Taken(o, s, Current(listing), now)|
                              && Taken(o, s, Current(listing), now)[i].entry.key == k
  {
    var current := Current(listing);
    var cs := Taken(o, s, current, now);
    TakenFacts(o, s, current, now);
    NewPendingDigest(cs, s.nextSeq, now, k);
    PendingDigestConcat(Unexpired(s.pending, now, o.ackTimeout), NewPending(cs, s.nextSeq, now), k);
  }

  lemma TakesNone(o: Options, s: State, current: map<Str, ObjectEntry>, now: nat)
    requires Room(o, Opened(o, s, now)) == 0 || DueKeys(o.env, Opened(o, s, now), current) == []
    ensures Taken(o, s, current, now) == []
  {
  }

  lemma PolledIdle(o: Options, s: State, listing: seq<ObjectEntry>, now: nat)
    requires Opened(o, s, now) == s && Forget(o.env, s, Current(listing)) == s
    requires s.seen + Current(listing) == s.seen && Taken(o, s, Current(listing), now) == []
    ensures Polled(o, s, listing, now) == (s, [])
  {
    assert NewPending([], s.nextSeq, now) == [];
    assert NewEvents(o, s.confirmed, [], s.nextSeq) == [];
    assert s.pending + [] == s.pending;
    assert s.baseline == Opened(o, s, now).baseline && s.gap == Opened(o, s, now).gap;
    var (s', events) := Polled(o, s, listing, now);
    assert s'.pending == s.pending && s'.seen == s.seen;
    assert s' == s;
    assert |events| == 0;
  }

  /** A listing repeated before anything expires or is acknowledged reports
      nothing more, so each of its keys is reported at most once. */
  lemma RepeatedListingIsSilent(o: Options, s: State, listing: seq<ObjectEntry>, now: nat, later: nat)
    requires SeenKeyed(s)
    requires forall p <- Polled(o, s, listing, now).0.pending :: later - p.at < o.ackTimeout
    ensures var s' := Polled(o, s, listing, now).0; Polled(o, s', listing, later) == (s', [])
  {
    var current := Current(listing);
    var s' := Polled(o, s, listing, now).0;
    AllUnexpired(s'.pending, later, o.ackTimeout);
    assert Opened(o, s', later) == s';
    assert s'.seen + current == s'.seen;
    if s.baseline.Silent? {
      NothingDue(o, s', current, later);
      assert GoneDue(o.env, s', current) == {};
      assert s'.confirmed - {} == s'.confirmed && s'.seen - {} == s'.seen;
    } else {
      RepeatForgets(o, s, listing, now);
      RepeatTakes(o, s, listing, now);
      TakesNone(o, s', current, later);
    }
    PolledIdle(o, s', listing, later);
  }

  lemma {:induction false} AllExpired(pending: seq<Pending>, now: nat, timeout: nat)
    requires forall p <- pending :: now - p.at >= timeout
    ensures Unexpired(pending, now, timeout) == []
  {
    if pending != [] {
      assert pending[0] in pending;
      AllExpired(pending[1..], now, timeout);
    }
  }

  lemma IssuedNow(o: Options, s: State, listing: seq<ObjectEntry>, now: nat)
    requires s.pending == []
    ensures forall p <- Polled(o, s, listing, now).0.pending :: p.at == now
  {
  }

  /** Unacknowledged, a report is not repeated before the timeout, and is repeated
      exactly once it has passed. */
  lemma ReportedAgainIff(o: Options, s: State, listing: seq<ObjectEntry>, now: nat, later: nat)
    requires s.pending == [] && !s.baseline.Silent? && !s.quiet && !s.gap && SeenKeyed(s)
    requires |Differing(o.env, s.confirmed, Current(listing))| <= o.maxInFlight
    ensures var again := Polled(o, Polled(o, s, listing, now).0, listing, later).1;
            && (later < now + o.ackTimeout ==> again == [])
            && (later >= now + o.ackTimeout ==> ExactDiff(o.env, s.confirmed, Digests(o.env, Current(listing)), again))
  {
    var s' := Polled(o, s, listing, now).0;
    IssuedNow(o, s, listing, now);
    if later < now + o.ackTimeout {
      RepeatedListingIsSilent(o, s, listing, now, later);
    } else {
      AllExpired(s'.pending, later, o.ackTimeout);
      var none := s'.(pending := []);
      assert Opened(o, s', later) == Opened(o, none, later);
      PolledSeen(o, s, listing, now);
      PollIsExact(o, none, listing, later);
    }
  }

  ghost function PollAll(o: Options, s: State, listing: seq<ObjectEntry>, times: seq<nat>): seq<Event>
    decreases |times|
  {
    if times == [] then []
    else
      var (s', events) := Polled(o, s, listing, times[0]);
      events + PollAll(o, s', listing, times[1..])
  }

  /** Listed any number of times within the timeout, unacknowledged, a listing
      reports what its first poll reported and no more. */
  lemma {:induction false} StableListingReportsOnce(o: Options, s: State, listing: seq<ObjectEntry>, now: nat, times: seq<nat>)
    requires SeenKeyed(s)
    requires forall t <- times :: forall p <- Polled(o, s, listing, now).0.pending :: t - p.at < o.ackTimeout
    ensures PollAll(o, s, listing, [now] + times) == Polled(o, s, listing, now).1
  {
    var s' := Polled(o, s, listing, now).0;
    assert ([now] + times)[1..] == times;
    SilentAfter(o, s, listing, now, times);
  }

  lemma {:induction false} SilentAfter(o: Options, s: State, listing: seq<ObjectEntry>, now: nat, times: seq<nat>)
    requires SeenKeyed(s)
    requires forall t <- times :: forall p <- Polled(o, s, listing, now).0.pending :: t - p.at < o.ackTimeout
    ensures PollAll(o, Polled(o, s, listing, now).0, listing, times) == []
  {
    if times != [] {
      assert times[0] in times;
      RepeatedListingIsSilent(o, s, listing, now, times[0]);
      assert forall t <- times[1..] :: t in times;
      SilentAfter(o, s, listing, now, times[1..]);
    }
  }

  lemma RepeatForgets(o: Options, s: State, listing: seq<ObjectEntry>, now: nat)
    requires !s.baseline.Silent? && SeenKeyed(s)
    ensures var s' := Polled(o, s, listing, now).0; Forget(o.env, s', Current(listing)) == s'
  {
    var s' := Polled(o, s, listing, now).0;
    if s.quiet {
      forall k
        ensures k !in GoneDue(o.env, s', Current(listing))
      {
        StillDue(o, s, listing, now, k);
      }
      assert s'.confirmed - {} == s'.confirmed && s'.seen - {} == s'.seen;
      assert GoneDue(o.env, s', Current(listing)) == {};
    }
  }

  lemma RepeatTakes(o: Options, s: State, listing: seq<ObjectEntry>, now: nat)
    requires !s.baseline.Silent? && SeenKeyed(s)
    ensures var s' := Polled(o, s, listing, now).0;
            Room(o, s') == 0 || DueKeys(o.env, s', Current(listing)) == []
  {
    var current := Current(listing);
    var s1 := Opened(o, s, now);
    var s' := Polled(o, s, listing, now).0;
    var keys := DueKeys(o.env, s1, current);
    TakenFacts(o, s, current, now);
    if |keys| <= Room(o, s1) {
      DueKeysDistinct(o.env, s1, current);
      forall k | k in current || (k in s'.confirmed && !s.quiet)
        ensures !Due(o.env, s', current, k)
      {
        StillDue(o, s, listing, now, k);
        if k in keys {
          var i :| 0 <= i < |keys| && keys[i] == k;
          assert Taken(o, s, current, now)[i].entry.key == k;
        }
      }
      assert AliveDue(o.env, s', current) == {};
      assert !s.quiet ==> GoneDue(o.env, s', current) == {};
      ListsUnique([], {});
    }
  }

  // ---- Nothing is lost: what is neither confirmed nor in flight is reported ----

  /** After a listing with room for all it found, every key is confirmed as
      listed or has a change to that in flight. */
  lemma PollCovers(o: Options, s: State, listing: seq<ObjectEntry>, now: nat, k: Str)
    requires !s.baseline.Silent? && !s.quiet && SeenKeyed(s)
    requires |DueKeys(o.env, Opened(o, s, now), Current(listing))| <= Room(o, Opened(o, s, now))
    ensures var s' := Polled(o, s, listing, now).0;
            || Held(s'.confirmed, k) == Target(o.env, Current(listing), k)
            || PendingDigest(s'.pending, k) == Some(Target(o.env, Current(listing), k))
  {
    var current := Current(listing);
    var s1 := Opened(o, s, now);
    var keys := DueKeys(o.env, s1, current);
    TakenFacts(o, s, current, now);
    DueKeysDistinct(o.env, s1, current);
    StillDue(o, s, listing, now, k);
    if k in keys {
      var i :| 0 <= i < |keys| && keys[i] == k;
      assert Taken(o, s, current, now)[i].entry.key == k;
    }
  }

  /** An acknowledgement past a change leaves its key due again as long as the
      listing still shows it and no change of the key from the acknowledged one on
      is in flight: the host dropped it, so it is reported again. */
  lemma PassedOverIsDue(o: Options, s: State, position: Option<nat>, current: map<Str, ObjectEntry>, i: nat)
    requires PendingOrdered(s.pending) && Honoured(s, position).Some? && i < |s.pending|
    requires s.pending[i].seqno < Honoured(s, position).value.seqno
    requires forall p <- s.pending :: p.seqno >= Honoured(s, position).value.seqno ==> p.key != s.pending[i].key
    requires Target(o.env, current, s.pending[i].key) == s.pending[i].digest
    requires Held(s.confirmed, s.pending[i].key) != s.pending[i].digest
    ensures Due(o.env, Acked(s, position), current, s.pending[i].key)
  {
    AckedPending(o, s, position);
    var at := PositionOf(s.pending, position.value).value;
    assert forall p <- s.pending[at + 1..] :: p in s.pending && p.seqno > s.pending[at].seqno;
    PendingDigestAbsent(s.pending[at + 1..], s.pending[i].key);
    AckHolds(s, position, s.pending[i].key, at);
  }

  lemma AckHolds(s: State, position: Option<nat>, key: Str, at: nat)
    requires at < |s.pending| && Honoured(s, position) == Some(s.pending[at]) && s.pending[at].key != key
    ensures Held(Acked(s, position).confirmed, key) == Held(s.confirmed, key)
  {
  }

  /** Two reports of a key carry the same id when what is confirmed and what is
      listed for it are the same, so the host takes the change once. */
  lemma ReportedAgainSameId(o: Options, a: State, b: State, listing: seq<ObjectEntry>, listing': seq<ObjectEntry>,
                            now: nat, now': nat, i: nat, j: nat)
    requires SeenKeyed(a) && SeenKeyed(b) && !a.baseline.Silent? && !b.baseline.Silent?
    requires i < |Taken(o, a, Current(listing), now)| && j < |Taken(o, b, Current(listing'), now')|
    requires var k := Taken(o, a, Current(listing), now)[i].entry.key;
             && Taken(o, b, Current(listing'), now')[j].entry.key == k
             && Held(a.confirmed, k) == Held(b.confirmed, k)
             && Target(o.env, Current(listing), k) == Target(o.env, Current(listing'), k)
    ensures var ea := Polled(o, a, listing, now).1[|GapEvents(a)| + i];
            var eb := Polled(o, b, listing', now').1[|GapEvents(b)| + j];
            ea.Changed? && eb.Changed? && ea.id == eb.id && ea.op == eb.op && ea.entry.key == eb.entry.key
  {
    EventAt(o, a, listing, now, i);
    EventAt(o, b, listing', now', j);
  }

  /** Where the hash does not collide on their bytes, two entries of a store have the
      same digest exactly when nothing the store tells of them differs but absent
      from empty, so any such change is a modification. */
  lemma SameDigestSameDetails(hash12: Str -> Str, hash32: Str -> Str, store: Str, location: Str,
                              jsonSize: map<Str, Str> -> nat, a: ObjectEntry, b: ObjectEntry)
    requires EntryFits(a) && EntryFits(b)
    requires hash12(DigestBytes(a)) == hash12(DigestBytes(b)) ==> DigestBytes(a) == DigestBytes(b)
    ensures var env := StoreEnv(hash12, hash32, store, location, jsonSize);
            Digest(env, a) == Digest(env, b) <==>
              a.size == b.size && a.modifiedAtMs == b.modifiedAtMs && OrEmpty(a.etag) == OrEmpty(b.etag)
              && OrEmpty(a.version) == OrEmpty(b.version)
  {
    DigestBytesDetermine(a, b);
  }

  /** Where the hash does not collide on the framed bytes, two events share an id
      exactly when they tell the same change of the same object of one store. */
  lemma SameIdSameChange(hash12: Str -> Str, hash32: Str -> Str, jsonSize: map<Str, Str> -> nat,
                         store: Str, location: Str, o: Options, a: Event, p: Pending,
                         store': Str, location': Str, o': Options, b: Event, q: Pending)
    requires o.env == StoreEnv(hash12, hash32, store, location, jsonSize) && Tells(o, a, p)
    requires o'.env == StoreEnv(hash12, hash32, store', location', jsonSize) && Tells(o', b, q)
    requires |store| < U64_LIMIT && |location| < U64_LIMIT && |p.key| < U64_LIMIT && |OrEmpty(p.digest)| < U64_LIMIT
    requires |store'| < U64_LIMIT && |location'| < U64_LIMIT && |q.key| < U64_LIMIT && |OrEmpty(q.digest)| < U64_LIMIT
    requires var x := EventIdBytes(store, location, p.key, a.op, p.digest);
             var y := EventIdBytes(store', location', q.key, b.op, q.digest);
             hash32(x) == hash32(y) ==> x == y
    ensures a.id == b.id
       <==> store == store' && location == location' && p.key == q.key && a.op == b.op && p.digest == q.digest
  {
    if a.id == b.id {
      EventIdBytesInjective(store, location, p.key, a.op, p.digest, store', location', q.key, b.op, q.digest);
    }
  }
}
