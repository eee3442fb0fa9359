/** A restart from the position of a listing's last event: what it misses, what
    it reports again, and exactly when it is exact. */
module InventoryRestart {
  import opened Strs
  import opened Framing
  import opened InventorySpec
  import opened InventoryRuns
  import opened InventoryReports
  import opened InventoryConverge

  /** A listing that reported something and whose last event carries a snapshot;
      earlier changes may still be in flight. */
  ghost predicate Reported(o: Options, s: State, listing: seq<ObjectEntry>, now: nat) {
    && !s.baseline.Silent? && !s.gap && !s.quiet && SeenKeyed(s)
    && Polled(o, s, listing, now).1 != []
    && LastEvent(o, s, listing, now).Changed?
    && LastEvent(o, s, listing, now).cursor.snap.Some?
  }

  ghost function LastEvent(o: Options, s: State, listing: seq<ObjectEntry>, now: nat): Event
    requires Polled(o, s, listing, now).1 != []
  {
    var events := Polled(o, s, listing, now).1;
    events[|events| - 1]
  }

  /** The snapshot the host stored with that last event. */
  ghost function StoredSnapshot(o: Options, s: State, listing: seq<ObjectEntry>, now: nat): map<Str, Str>
    requires Reported(o, s, listing, now)
  {
    LastEvent(o, s, listing, now).cursor.snap.value
  }

  /** The listing confirmed once the host acknowledged, in order, the `events` of
      everything the listing left in flight. */
  ghost function Acknowledged(o: Options, s: State, listing: seq<ObjectEntry>, now: nat, events: seq<Event>): map<Str, Str> {
    AckAll(Polled(o, s, listing, now).0, events).confirmed
  }

  /** The latest of the `changes` of the key, if any, leaves it as it was. */
  predicate Unmoved(changes: seq<Pending>, confirmed: map<Str, Str>, k: Str) {
    PendingDigest(changes, k) == None || PendingDigest(changes, k) == Some(Held(confirmed, k))
  }

  /** What the host's acknowledgements honoured from `before` to `after`. */
  ghost function Since(before: History, after: History): seq<Pending> {
    if |before.honoured| <= |after.honoured| then after.honoured[|before.honoured|..] else []
  }

  // ---- The two listings compared ----

  lemma PendingDigestCons(p: Pending, rest: seq<Pending>, k: Str)
    ensures PendingDigest([p] + rest, k)
         == if PendingDigest(rest, k).Some? then PendingDigest(rest, k) else if p.key == k then Some(p.digest) else None
  {
    PendingDigestConcat([p], rest, k);
    assert [p][..0] == [];
  }

  lemma HeldApply(confirmed: map<Str, Str>, key: Str, digest: Option<Str>, k: Str)
    ensures Held(Apply(confirmed, key, digest), k) == if k == key then digest else Held(confirmed, k)
  {
  }

  lemma {:induction false} AckAllHeld(s: State, events: seq<Event>, k: Str)
    requires Matches(events, s.pending) && PendingOrdered(s.pending)
    ensures Held(AckAll(s, events).confirmed, k)
         == match PendingDigest(s.pending, k)
            case Some(digest) => digest
            case None => Held(s.confirmed, k)
    decreases |events|
  {
    if events != [] {
      var p, rest := s.pending[0], s.pending[1..];
      AckFirst(s);
      AckAllHeld(Acked(s, Some(p.seqno)), events[1..], k);
      PendingDigestCons(p, rest, k);
      HeldApply(s.confirmed, p.key, p.digest, k);
      assert [p] + rest == s.pending;
    }
  }

  lemma {:induction false} PendingDigestComes(pending: seq<Pending>, k: Str) returns (i: nat)
    requires PendingDigest(pending, k).Some?
    ensures i < |pending| && pending[i].key == k && PendingDigest(pending, k) == Some(pending[i].digest)
  {
    i := |pending| - 1;
    if pending[i].key != k {
      i := PendingDigestComes(pending[..i], k);
    }
  }

  /** The change leads to an entry that was listed, so a listing can show it again. */
  ghost predicate WasListed(env: Env, p: Pending) {
    p.digest.Some? ==> exists e: ObjectEntry :: e.key == p.key && Digest(env, e) == p.digest.value
  }

  lemma IssuedWasListed(o: Options, h: History, changes: seq<Pending>)
    requires Inv(o, h) && forall p <- changes :: p in h.honoured || p in h.state.pending
    ensures forall p <- changes :: WasListed(o.env, p)
  {
    forall p | p in changes
      ensures WasListed(o.env, p)
    {
      assert p == h.issued[p.seqno];
      assert Tells(o, h.reported[p.seqno], p);
    }
  }

  /** A change that leads its key from what is confirmed to what is listed. */
  ghost predicate Moves(env: Env, confirmed: map<Str, Str>, current: map<Str, ObjectEntry>, c: Change) {
    && c.target == Target(env, current, c.entry.key) && c.target != Held(confirmed, c.entry.key)
    && c.target == if c.op.Deleted? then None else Some(Digest(env, c.entry))
  }

  lemma TakenLead(o: Options, s: State, current: map<Str, ObjectEntry>, now: nat)
    requires SeenKeyed(s) && (forall k <- current :: current[k].key == k)
    ensures var cs := Taken(o, s, current, now);
            && (forall i | 0 <= i < |cs| :: Moves(o.env, s.confirmed, current, cs[i]))
            && (forall i, j | 0 <= i < j < |cs| :: cs[i].entry.key != cs[j].entry.key)
  {
    TakenFacts(o, s, current, now);
  }

  /** What a listing reports, leaves in flight and confirmed. */
  lemma ListingLeaves(o: Options, s: State, listing: seq<ObjectEntry>, now: nat) returns (cs: seq<Change>)
    requires !s.baseline.Silent? && !s.gap && !s.quiet && SeenKeyed(s)
    ensures var (s', events) := Polled(o, s, listing, now);
            && s'.pending == Unexpired(s.pending, now, o.ackTimeout) + NewPending(cs, s.nextSeq, now)
            && s'.confirmed == s.confirmed
            && events == NewEvents(o, s.confirmed, cs, s.nextSeq)
    ensures forall i | 0 <= i < |cs| :: Moves(o.env, s.confirmed, Current(listing), cs[i])
    ensures forall i, j | 0 <= i < j < |cs| :: cs[i].entry.key != cs[j].entry.key
  {
    cs := Taken(o, s, Current(listing), now);
    TakenLead(o, s, Current(listing), now);
    assert [] + NewEvents(o, s.confirmed, cs, s.nextSeq) == NewEvents(o, s.confirmed, cs, s.nextSeq);
  }

  /** The last event tells of the last change taken, with its snapshot. */
  lemma LastOfNew(o: Options, confirmed: map<Str, Str>, cs: seq<Change>, seqno: nat, events: seq<Event>, k: Str)
    requires events == NewEvents(o, confirmed, cs, seqno) && events != []
    ensures var e, c := events[|events| - 1], cs[|cs| - 1];
            && e.Changed? && e.entry == c.entry
            && (e.cursor.snap.Some? ==>
                  Held(e.cursor.snap.value, k) == if k == c.entry.key then c.target else Held(confirmed, k))
  {
  }

  lemma LatestAdded(kept: seq<Pending>, cs: seq<Change>, seqno: nat, now: nat)
    requires cs != []
    ensures PendingDigest(kept + NewPending(cs, seqno, now), cs[|cs| - 1].entry.key) == Some(cs[|cs| - 1].target)
  {
  }

  /** The snapshot is the listing confirmed before, with the last change only, which
      is its key's latest in flight. */
  lemma StoredAt(o: Options, s: State, listing: seq<ObjectEntry>, now: nat, k: Str)
    requires Reported(o, s, listing, now)
    ensures var s' := Polled(o, s, listing, now).0;
            var last := LastEvent(o, s, listing, now).entry.key;
            && s'.confirmed == s.confirmed
            && (k != last ==> Held(StoredSnapshot(o, s, listing, now), k) == Held(s.confirmed, k))
            && (k == last ==> Held(StoredSnapshot(o, s, listing, now), k) == Target(o.env, Current(listing), k)
                              && PendingDigest(s'.pending, k) == Some(Target(o.env, Current(listing), k)))
  {
    var cs := ListingLeaves(o, s, listing, now);
    LastOfNew(o, s.confirmed, cs, s.nextSeq, Polled(o, s, listing, now).1, k);
    LatestAdded(Unexpired(s.pending, now, o.ackTimeout), cs, s.nextSeq, now);
  }

  /** Restarted on the same listing, every key at which it differs from what was
      confirmed is reported again, but the last event's. */
  lemma RestartReportsTheOthers(o: Options, s: State, listing: seq<ObjectEntry>, now: nat)
    requires Reported(o, s, listing, now)
    ensures Differing(o.env, StoredSnapshot(o, s, listing, now), Current(listing))
         == Differing(o.env, s.confirmed, Current(listing)) - {LastEvent(o, s, listing, now).entry.key}
  {
    var current := Current(listing);
    forall k
      ensures k in Differing(o.env, StoredSnapshot(o, s, listing, now), current)
              <==> k in Differing(o.env, s.confirmed, current) && k != LastEvent(o, s, listing, now).entry.key
    {
      StoredAt(o, s, listing, now, k);
    }
  }

  /** The first listing of a restart reports exactly what differs from the
      acknowledged listing, whatever it finds. */
  ghost predicate ExactRestart(env: Env, stored: map<Str, Str>, acknowledged: map<Str, Str>) {
    forall listing :: Differing(env, stored, Current(listing)) == Differing(env, acknowledged, Current(listing))
  }

  /** Where the two listings part, some listing shows it: the empty one, or the
      one of the entry acknowledged there. */
  lemma PartingShows(env: Env, stored: map<Str, Str>, acknowledged: map<Str, Str>, k: Str, e: ObjectEntry)
    requires Held(stored, k) != Held(acknowledged, k)
    requires k in acknowledged ==> e.key == k && acknowledged[k] == Digest(env, e)
    ensures !ExactRestart(env, stored, acknowledged)
  {
    var listing: seq<ObjectEntry> := if k in acknowledged then [e] else [];
    if k in acknowledged {
      assert [e][..0] == [];
      assert Current([e]) == map[e.key := e];
    }
    assert k in Differing(env, stored, Current(listing));
    assert k !in Differing(env, acknowledged, Current(listing));
  }

  lemma ListingOrdered(o: Options, h: History, listing: seq<ObjectEntry>, now: nat)
    requires Inv(o, h) && h.clock <= now
    ensures PendingOrdered(Polled(o, h.state, listing, now).0.pending)
  {
    PollKeeps(o, h, listing, now);
  }

  // ---- What the host honours after a listing ----

  lemma {:induction false} FoldConcat(base: map<Str, Str>, a: seq<Pending>, b: seq<Pending>)
    ensures Fold(base, a + b) == Fold(Fold(base, a), b)
  {
    if b == [] {
      assert a + b == a;
    } else {
      assert (a + b)[..|a + b| - 1] == a + b[..|b| - 1];
      FoldConcat(base, a, b[..|b| - 1]);
    }
  }

  lemma {:induction false} FoldHeld(base: map<Str, Str>, changes: seq<Pending>, k: Str)
    ensures Held(Fold(base, changes), k)
         == match PendingDigest(changes, k)
            case Some(digest) => digest
            case None => Held(base, k)
  {
    if changes != [] {
      var init, last := changes[..|changes| - 1], changes[|changes| - 1];
      FoldHeld(base, init, k);
      HeldApply(Fold(base, init), last.key, last.digest, k);
    }
  }

  /** With a baseline, a run keeps it and adds to what was honoured, issued and
      reported. */
  ghost predicate Extends(before: History, after: History) {
    && after.base == before.base && after.state.quiet == before.state.quiet && !after.state.baseline.Silent?
    && before.honoured <= after.honoured && before.issued <= after.issued && before.reported <= after.reported
  }

  lemma StepExtends(o: Options, h: History, step: Step)
    requires !h.state.baseline.Silent?
    ensures Extends(h, Next(o, h, step))
  {
  }

  lemma {:induction false} RunExtends(o: Options, h: History, steps: seq<Step>)
    requires !h.state.baseline.Silent?
    ensures Extends(h, Run(o, h, steps))
  {
    if steps != [] {
      RunExtends(o, h, steps[..|steps| - 1]);
      StepExtends(o, Run(o, h, steps[..|steps| - 1]), steps[|steps| - 1]);
    }
  }

  lemma ConfirmsSince(h: History, h': History)
    requires FoldInv(h) && FoldInv(h') && Extends(h, h') && !h.state.quiet
    ensures h'.state.confirmed == Fold(h.state.confirmed, Since(h, h'))
  {
    assert h.honoured + Since(h, h') == h'.honoured;
    FoldConcat(h.base, h.honoured, Since(h, h'));
  }

  /** What a run confirms is what was confirmed, folded with what it honoured. */
  lemma RunConfirms(o: Options, h: History, steps: seq<Step>)
    requires Inv(o, h) && Clocked(steps, h.clock) && !h.state.baseline.Silent? && !h.state.quiet
    ensures var h' := Run(o, h, steps);
            Inv(o, h') && Extends(h, h') && h'.state.confirmed == Fold(h.state.confirmed, Since(h, h'))
  {
    RunKeeps(o, h, steps);
    RunExtends(o, h, steps);
    ConfirmsSince(h, Run(o, h, steps));
  }

  lemma ListingAdds(o: Options, h: History, listing: seq<ObjectEntry>, now: nat)
    requires Reported(o, h.state, listing, now)
    ensures var h1 := Next(o, h, Poll(listing, now));
            && h1.state == Polled(o, h.state, listing, now).0 && h1.clock == now
            && h1.state.confirmed == h.state.confirmed && !h1.state.baseline.Silent? && !h1.state.quiet
            && h1.reported == h.reported + Polled(o, h.state, listing, now).1
  {
    var events := Polled(o, h.state, listing, now).1;
    assert events[0..] == events;
  }

  /** The change honoured last is the one the position names. */
  ghost predicate EndsAt(changes: seq<Pending>, position: nat) {
    changes != [] && changes[|changes| - 1].seqno == position
  }

  /** Where the event leads its key. */
  function LedTo(env: Env, e: Event): Option<Str>
    requires e.Changed?
  {
    if e.op.Deleted? then None else Some(Digest(env, e.entry))
  }

  /** When the change honoured last is the one the event `e` last reported tells of,
      its key is led where the event says. */
  lemma LastHonoured(o: Options, h1: History, e: Event, h2: History)
    requires Inv(o, h1) && Inv(o, h2) && Extends(h1, h2)
    requires h1.reported != [] && e == h1.reported[|h1.reported| - 1] && e.Changed?
    requires EndsAt(Since(h1, h2), e.cursor.seqno)
    ensures PendingDigest(Since(h1, h2), e.entry.key) == Some(LedTo(o.env, e))
  {
    var since, n := Since(h1, h2), |h1.reported| - 1;
    var p := since[|since| - 1];
    assert Tells(o, h1.reported[n], h1.issued[n]) && h1.issued[n].seqno == n;
    assert p in h2.honoured && p == h2.issued[p.seqno] == h1.issued[n];
  }

  lemma LastLeads(o: Options, s: State, listing: seq<ObjectEntry>, now: nat)
    requires Reported(o, s, listing, now)
    ensures var e := LastEvent(o, s, listing, now); Target(o.env, Current(listing), e.entry.key) == LedTo(o.env, e)
  {
    var cs := ListingLeaves(o, s, listing, now);
    LastTaken(o, s.confirmed, Current(listing), cs, s.nextSeq, Polled(o, s, listing, now).1);
  }

  lemma LastTaken(o: Options, confirmed: map<Str, Str>, current: map<Str, ObjectEntry>, cs: seq<Change>, seqno: nat, events: seq<Event>)
    requires events == NewEvents(o, confirmed, cs, seqno) && events != []
    requires forall i | 0 <= i < |cs| :: Moves(o.env, confirmed, current, cs[i])
    ensures var e := events[|events| - 1]; e.Changed? && Target(o.env, current, e.entry.key) == LedTo(o.env, e)
  {
    assert Moves(o.env, confirmed, current, cs[|cs| - 1]);
  }

  /** Where the listing confirmed since is what the changes `since` made of it, and
      they lead the last event's key where it was listed, a restart is exact if and
      only if they leave every other key as it was. */
  lemma ExactWhere(o: Options, s: State, listing: seq<ObjectEntry>, now: nat, acknowledged: map<Str, Str>, since: seq<Pending>)
    requires Reported(o, s, listing, now) && acknowledged == Fold(s.confirmed, since)
    requires forall p <- since :: WasListed(o.env, p)
    requires var e := LastEvent(o, s, listing, now); PendingDigest(since, e.entry.key) == Some(LedTo(o.env, e))
    ensures ExactRestart(o.env, StoredSnapshot(o, s, listing, now), acknowledged)
       <==> forall k | k != LastEvent(o, s, listing, now).entry.key :: Unmoved(since, s.confirmed, k)
  {
    var last := LastEvent(o, s, listing, now).entry.key;
    var stored := StoredSnapshot(o, s, listing, now);
    LastLeads(o, s, listing, now);
    forall k
      ensures Held(stored, k) == Held(acknowledged, k) <==> k == last || Unmoved(since, s.confirmed, k)
    {
      StoredAt(o, s, listing, now, k);
      FoldHeld(s.confirmed, since, k);
    }
    if forall k | k != last :: Unmoved(since, s.confirmed, k) {
      HeldDetermines(stored, acknowledged);
    } else {
      var k :| k != last && !Unmoved(since, s.confirmed, k);
      Parted(o.env, stored, s.confirmed, since, k);
    }
  }

  lemma Parted(env: Env, stored: map<Str, Str>, confirmed: map<Str, Str>, since: seq<Pending>, k: Str)
    requires forall p <- since :: WasListed(env, p)
    requires Held(stored, k) != Held(Fold(confirmed, since), k) && !Unmoved(since, confirmed, k)
    ensures !ExactRestart(env, stored, Fold(confirmed, since))
  {
    FoldHeld(confirmed, since, k);
    var i := PendingDigestComes(since, k);
    var e := ObjectEntry(k, None, None, None, None);
    assert since[i] in since && WasListed(env, since[i]);
    if since[i].digest.Some? {
      e :| e.key == k && Digest(env, e) == since[i].digest.value;
    }
    PartingShows(env, stored, Fold(confirmed, since), k, e);
  }

  /** In any run, whatever was in flight before the listing and whatever is listed,
      expires, is lost, skipped or acknowledged after it: when the host stops at the
      position of the listing's last event, a restart from it is exact if and only
      if the changes honoured since leave every other key as it was. */
  lemma RestartIsExactIff(o: Options, h: History, listing: seq<ObjectEntry>, now: nat, steps: seq<Step>)
    requires Inv(o, h) && h.clock <= now && Reported(o, h.state, listing, now) && Clocked(steps, now)
    requires var h1 := Next(o, h, Poll(listing, now));
             EndsAt(Since(h1, Run(o, h1, steps)), LastEvent(o, h.state, listing, now).cursor.seqno)
    ensures var h1 := Next(o, h, Poll(listing, now));
            var h2 := Run(o, h1, steps);
            ExactRestart(o.env, StoredSnapshot(o, h.state, listing, now), h2.state.confirmed)
            <==> forall k | k != LastEvent(o, h.state, listing, now).entry.key :: Unmoved(Since(h1, h2), h.state.confirmed, k)
  {
    var h1 := Next(o, h, Poll(listing, now));
    var h2 := Run(o, h1, steps);
    PollKeeps(o, h, listing, now);
    ListingAdds(o, h, listing, now);
    RunConfirms(o, h1, steps);
    LastHonoured(o, h1, LastEvent(o, h.state, listing, now), h2);
    IssuedWasListed(o, h2, Since(h1, h2));
    ExactWhere(o, h.state, listing, now, h2.state.confirmed, Since(h1, h2));
  }

  // ---- When everything, or only the last event, is acknowledged ----

  /** Once everything left in flight is acknowledged in order, a restart is exact if
      and only if nothing in flight but the last event changes a key. */
  lemma AllAcknowledgedIff(o: Options, h: History, listing: seq<ObjectEntry>, now: nat, events: seq<Event>)
    requires Inv(o, h) && h.clock <= now && Reported(o, h.state, listing, now)
    requires Matches(events, Polled(o, h.state, listing, now).0.pending)
    ensures ExactRestart(o.env, StoredSnapshot(o, h.state, listing, now), Acknowledged(o, h.state, listing, now, events))
       <==> forall k | k != LastEvent(o, h.state, listing, now).entry.key ::
              Unmoved(Polled(o, h.state, listing, now).0.pending, h.state.confirmed, k)
  {
    var s' := Polled(o, h.state, listing, now).0;
    ListingOrdered(o, h, listing, now);
    InFlightWasListed(o, h, listing, now);
    AckAllFolds(s', events);
    StoredAt(o, h.state, listing, now, LastEvent(o, h.state, listing, now).entry.key);
    LastLeads(o, h.state, listing, now);
    ExactWhere(o, h.state, listing, now, AckAll(s', events).confirmed, s'.pending);
  }

  lemma InFlightWasListed(o: Options, h: History, listing: seq<ObjectEntry>, now: nat)
    requires Inv(o, h) && h.clock <= now
    ensures forall p <- Polled(o, h.state, listing, now).0.pending :: WasListed(o.env, p)
  {
    PollKeeps(o, h, listing, now);
    var h1 := Next(o, h, Poll(listing, now));
    IssuedWasListed(o, h1, h1.state.pending);
  }

  lemma AckAllFolds(s: State, events: seq<Event>)
    requires Matches(events, s.pending) && PendingOrdered(s.pending)
    ensures AckAll(s, events).confirmed == Fold(s.confirmed, s.pending)
  {
    forall k
      ensures Held(AckAll(s, events).confirmed, k) == Held(Fold(s.confirmed, s.pending), k)
    {
      AckAllHeld(s, events, k);
      FoldHeld(s.confirmed, s.pending, k);
    }
    HeldDetermines(AckAll(s, events).confirmed, Fold(s.confirmed, s.pending));
  }

  /** A host that acknowledges the last event alone confirms exactly what it stored,
      whatever else was in flight. */
  lemma LastAloneIsExact(o: Options, h: History, listing: seq<ObjectEntry>, now: nat)
    requires Inv(o, h) && h.clock <= now && Reported(o, h.state, listing, now)
    ensures Acked(Polled(o, h.state, listing, now).0, Some(LastEvent(o, h.state, listing, now).cursor.seqno)).confirmed
         == StoredSnapshot(o, h.state, listing, now)
  {
    var s' := Polled(o, h.state, listing, now).0;
    var e := LastEvent(o, h.state, listing, now);
    var stored := StoredSnapshot(o, h.state, listing, now);
    ListingOrdered(o, h, listing, now);
    var cs := ListingLeaves(o, h.state, listing, now);
    AckedLast(o, s', Unexpired(h.state.pending, now, o.ackTimeout), cs, h.state.nextSeq, now, e);
    LastLeads(o, h.state, listing, now);
    forall k
      ensures Held(Acked(s', Some(e.cursor.seqno)).confirmed, k) == Held(stored, k)
    {
      StoredAt(o, h.state, listing, now, k);
      HeldApply(s'.confirmed, e.entry.key, cs[|cs| - 1].target, k);
    }
    HeldDetermines(Acked(s', Some(e.cursor.seqno)).confirmed, stored);
  }

  lemma AckedLast(o: Options, s: State, kept: seq<Pending>, cs: seq<Change>, seqno: nat, now: nat, e: Event)
    requires PendingOrdered(s.pending) && cs != [] && s.pending == kept + NewPending(cs, seqno, now)
    requires e == EventFor(o, s.confirmed, cs[|cs| - 1], seqno + |cs| - 1, true)
    ensures Acked(s, Some(e.cursor.seqno)).confirmed == Apply(s.confirmed, e.entry.key, cs[|cs| - 1].target)
  {
    assert s.pending[|s.pending| - 1] == Pending(seqno + |cs| - 1, cs[|cs| - 1].entry.key, cs[|cs| - 1].target, now);
  }

  /** With nothing else in flight, all acknowledged, that is a listing whose only
      event it is. */
  lemma RestartIsExactAloneIff(o: Options, h: History, listing: seq<ObjectEntry>, now: nat, events: seq<Event>)
    requires Inv(o, h) && h.clock <= now && Reported(o, h.state, listing, now)
    requires Unexpired(h.state.pending, now, o.ackTimeout) == []
    requires Matches(events, Polled(o, h.state, listing, now).0.pending)
    ensures ExactRestart(o.env, StoredSnapshot(o, h.state, listing, now), Acknowledged(o, h.state, listing, now, events))
       <==> |Polled(o, h.state, listing, now).1| == 1
  {
    var s := h.state;
    var (s', reported) := Polled(o, s, listing, now);
    var cs := ListingLeaves(o, s, listing, now);
    AllAcknowledgedIff(o, h, listing, now, events);
    LastOfNew(o, s.confirmed, cs, s.nextSeq, reported, []);
    assert [] + NewPending(cs, s.nextSeq, now) == NewPending(cs, s.nextSeq, now);
    AllMove(o.env, s.confirmed, Current(listing), cs, s.nextSeq, now);
  }

  /** Changes of distinct keys all move their keys, and nothing else. */
  lemma AllMove(env: Env, confirmed: map<Str, Str>, current: map<Str, ObjectEntry>, cs: seq<Change>, seqno: nat, now: nat)
    requires cs != []
    requires forall i | 0 <= i < |cs| :: Moves(env, confirmed, current, cs[i])
    requires forall i, j | 0 <= i < j < |cs| :: cs[i].entry.key != cs[j].entry.key
    ensures (forall k | k != cs[|cs| - 1].entry.key :: Unmoved(NewPending(cs, seqno, now), confirmed, k)) <==> |cs| == 1
  {
    var changes := NewPending(cs, seqno, now);
    forall k
      ensures Unmoved(changes, confirmed, k) <==> forall i | 0 <= i < |cs| :: cs[i].entry.key != k
    {
      NewPendingDigest(cs, seqno, now, k);
    }
    assert |cs| > 1 ==> !Unmoved(changes, confirmed, cs[0].entry.key) && cs[0].entry.key != cs[|cs| - 1].entry.key;
  }

  /** What an inexact restart misses: an object whose creation was in flight
      beside the last event, acknowledged, and deleted while stopped, is never
      reported deleted. */
  lemma DeletionLostWhileStopped(o: Options, h: History, listing: seq<ObjectEntry>, now: nat, events: seq<Event>, k: Str,
                                 found: seq<ObjectEntry>)
    requires Inv(o, h) && h.clock <= now && Reported(o, h.state, listing, now)
    requires var s' := Polled(o, h.state, listing, now).0;
             && Matches(events, s'.pending)
             && k != LastEvent(o, h.state, listing, now).entry.key && k !in s'.confirmed
             && PendingDigest(s'.pending, k).Some? && PendingDigest(s'.pending, k).value.Some?
    requires k !in Current(found)
    ensures var acknowledged := Acknowledged(o, h.state, listing, now, events);
            && k in acknowledged && k in Differing(o.env, acknowledged, Current(found))
            && k !in Differing(o.env, StoredSnapshot(o, h.state, listing, now), Current(found))
  {
    ListingOrdered(o, h, listing, now);
    AckAllHeld(Polled(o, h.state, listing, now).0, events, k);
    StoredAt(o, h.state, listing, now, k);
  }

  // ---- Two runs on which the documented promise fails ----

  lemma CurrentOf(a: ObjectEntry, b: ObjectEntry)
    ensures Current([a]) == map[a.key := a]
    ensures Current([b]) == map[b.key := b]
    ensures Current([a, b]) == map[a.key := a, b.key := b]
  {
    assert [a, b][..1] == [a] && [a][..0] == [] && [b][..0] == [];
  }

  /** A listing that is due at `keys`, all shown, reports them all. */
  lemma ReportsAll(o: Options, s: State, listing: seq<ObjectEntry>, keys: seq<Str>, now: nat)
    requires !s.baseline.Silent? && !s.gap && !s.quiet && Sorted(keys)
    requires AliveDue(o.env, Opened(o, s, now), Current(listing)) == Elements(keys)
    requires GoneDue(o.env, Opened(o, s, now), Current(listing)) == {}
    requires |keys| <= Room(o, Opened(o, s, now))
    ensures var cs := ChangesFor(o.env, Opened(o, s, now), Current(listing), keys);
            var (s', events) := Polled(o, s, listing, now);
            && s' == s.(pending := Unexpired(s.pending, now, o.ackTimeout) + NewPending(cs, s.nextSeq, now),
                        seen := s.seen + Current(listing), nextSeq := s.nextSeq + |keys|, baseline := Baseline.Known)
            && events == NewEvents(o, s.confirmed, cs, s.nextSeq)
  {
    var s1, current := Opened(o, s, now), Current(listing);
    ListsUnique(keys, Elements(keys));
    ListsUnique([], {});
    assert keys + [] == keys && keys[..|keys|] == keys;
    assert Taken(o, s, current, now) == ChangesFor(o.env, s1, current, keys);
    var cs := ChangesFor(o.env, s1, current, keys);
    assert [] + NewEvents(o, s.confirmed, cs, s.nextSeq) == NewEvents(o, s.confirmed, cs, s.nextSeq);
  }

  /** Only `b` is stored with the last event, if that alone fits the budget. */
  ghost predicate FitsAlone(o: Options, b: ObjectEntry) {
    (o.env.jsonSize)(map[b.key := Digest(o.env, b)]) <= o.snapshotBytes
  }

  /** A restart from a snapshot of `b` alone, which finds `b` alone, is silent. */
  lemma SilentRestart(o: Options, seqno: nat, b: ObjectEntry, later: nat)
    ensures var s := Start0(o, Resume.Stored(Cursor(seqno, Some(map[b.key := Digest(o.env, b)]))), false).value;
            Polled(o, s, [b], later).1 == []
  {
    CurrentOf(b, b);
    assert map[b.key := Digest(o.env, b)] == Digests(o.env, Current([b]));
    SilentOnceConverged(
      o, Start0(o, Resume.Stored(Cursor(seqno, Some(map[b.key := Digest(o.env, b)]))), false).value, [b], later);
  }

  lemma BothDue(env: Env, s: State, current: map<Str, ObjectEntry>, a: Str, b: Str)
    requires s.confirmed == map[] && s.pending == [] && current.Keys == {a, b} && Lt(a, b)
    ensures AliveDue(env, s, current) == Elements([a, b]) && GoneDue(env, s, current) == {} && Sorted([a, b])
  {
  }

  /** With creations of `a` and `b` in flight, acknowledging them confirms `a`. */
  lemma FirstConfirmed(o: Options, s: State, events: seq<Event>, a: ObjectEntry, b: ObjectEntry, at: nat, mid: nat)
    requires a.key != b.key && Matches(events, s.pending)
    requires s.pending == [Pending(0, a.key, Some(Digest(o.env, a)), at), Pending(1, b.key, Some(Digest(o.env, b)), mid)]
    ensures a.key in AckAll(s, events).confirmed
  {
    PendingDigestIsLast(s.pending, 0);
    AckAllHeld(s, events, a.key);
  }

  /** The event of the creation of `b`, last of its listing. */
  lemma LastOf(o: Options, b: ObjectEntry, seqno: nat)
    requires FitsAlone(o, b)
    ensures EventFor(o, map[], Change(Created, b, Some(Digest(o.env, b))), seqno, true).cursor
         == Cursor(seqno, Some(map[b.key := Digest(o.env, b)]))
  {
    var none: map<Str, Str> := map[];
    assert none[b.key := Digest(o.env, b)] == map[b.key := Digest(o.env, b)];
  }

  /** `a` and `b` are created and acknowledged, and `a` is deleted while stopped: a
      restart from the stored position reports nothing. */
  lemma RestartMissesADeletion(o: Options, a: ObjectEntry, b: ObjectEntry, now: nat, later: nat)
    requires Lt(a.key, b.key) && o.start.Existing? && o.maxInFlight >= 2 && FitsAlone(o, b)
    ensures var s := Start0(o, Absent, false).value;
            var (s', events) := Polled(o, s, [a, b], now);
            && |events| == 2 && Matches(events, s'.pending)
            && Reported(o, s, [a, b], now)
            && a.key in Acknowledged(o, s, [a, b], now, events)
            && Polled(o, Start0(o, Resume.Stored(events[1].cursor), false).value, [b], later).1 == []
  {
    LtAntisymmetric(a.key, b.key);
    CurrentOf(a, b);
    var s := Start0(o, Absent, false).value;
    BothDue(o.env, Opened(o, s, now), Current([a, b]), a.key, b.key);
    ReportsAll(o, s, [a, b], [a.key, b.key], now);
    var (s', events) := Polled(o, s, [a, b], now);
    FirstConfirmed(o, s', events, a, b, now, now);
    LastOf(o, b, 1);
    SilentRestart(o, 1, b, later);
  }

  /** So it does where each of two listings reported one event, the first still in
      flight at the second. */
  lemma TwoListingsMissADeletion(o: Options, a: ObjectEntry, b: ObjectEntry, now: nat, mid: nat, later: nat)
    requires Lt(a.key, b.key) && o.start.Existing? && o.maxInFlight >= 2 && FitsAlone(o, b)
    requires mid - now < o.ackTimeout
    ensures var (s1, first) := Polled(o, Start0(o, Absent, false).value, [a], now);
            var (s2, second) := Polled(o, s1, [a, b], mid);
            && |first| == 1 && |second| == 1 && Matches(first + second, s2.pending)
            && Reported(o, s1, [a, b], mid)
            && a.key in Acknowledged(o, s1, [a, b], mid, first + second)
            && Polled(o, Start0(o, Resume.Stored(second[0].cursor), false).value, [b], later).1 == []
  {
    LtAntisymmetric(a.key, b.key);
    CurrentOf(a, b);
    var s0 := Start0(o, Absent, false).value;
    assert AliveDue(o.env, Opened(o, s0, now), Current([a])) == Elements([a.key]);
    ReportsAll(o, s0, [a], [a.key], now);
    var (s1, first) := Polled(o, s0, [a], now);
    SecondListing(o, s1, first, a, b, now, mid, later);
  }

  lemma OnlySecondDue(env: Env, s: State, current: map<Str, ObjectEntry>, a: ObjectEntry, b: ObjectEntry)
    requires a.key != b.key && s.confirmed == map[] && current == map[a.key := a, b.key := b]
    requires |s.pending| == 1 && s.pending[0].key == a.key && s.pending[0].digest == Some(Digest(env, a))
    ensures AliveDue(env, s, current) == Elements([b.key]) && GoneDue(env, s, current) == {}
  {
    PendingDigestIsLast(s.pending, 0);
    PendingDigestAbsent(s.pending, b.key);
  }

  lemma SecondListing(o: Options, s1: State, first: seq<Event>, a: ObjectEntry, b: ObjectEntry, now: nat, mid: nat, later: nat)
    requires Lt(a.key, b.key) && o.maxInFlight >= 2 && FitsAlone(o, b) && mid - now < o.ackTimeout
    requires s1.confirmed == map[] && s1.pending == [Pending(0, a.key, Some(Digest(o.env, a)), now)]
    requires s1.baseline.Known? && !s1.gap && !s1.quiet && SeenKeyed(s1) && s1.nextSeq == 1
    requires |first| == 1 && Matches(first, s1.pending)
    ensures var (s2, second) := Polled(o, s1, [a, b], mid);
            && |second| == 1 && Matches(first + second, s2.pending)
            && Reported(o, s1, [a, b], mid)
            && a.key in Acknowledged(o, s1, [a, b], mid, first + second)
            && Polled(o, Start0(o, Resume.Stored(second[0].cursor), false).value, [b], later).1 == []
  {
    LtAntisymmetric(a.key, b.key);
    CurrentOf(a, b);
    AllUnexpired(s1.pending, mid, o.ackTimeout);
    OnlySecondDue(o.env, Opened(o, s1, mid), Current([a, b]), a, b);
    ReportsAll(o, s1, [a, b], [b.key], mid);
    var (s2, second) := Polled(o, s1, [a, b], mid);
    FirstConfirmed(o, s2, first + second, a, b, now, mid);
    LastOf(o, b, 1);
    SilentRestart(o, 1, b, later);
  }
}
