/** What the events of a listing carry, in what order they come, and which details
    a deletion tells. */
module InventoryDetails {
  import opened Strs
  import opened Framing
  import opened InventorySpec
  import opened InventoryRuns
  import opened InventoryReports

  // ---- A listing by key ----

  ghost predicate Shows(listing: seq<ObjectEntry>, k: Str) {
    exists i :: 0 <= i < |listing| && listing[i].key == k
  }

  /** `e` is the last entry of key `k` in the listing. */
  ghost predicate ListedAs(listing: seq<ObjectEntry>, k: Str, e: ObjectEntry) {
    exists i :: 0 <= i < |listing| && listing[i] == e && e.key == k && forall j | i < j < |listing| :: listing[j].key != k
  }

  lemma ShowsAppend(init: seq<ObjectEntry>, last: ObjectEntry, k: Str)
    ensures Shows(init + [last], k) <==> Shows(init, k) || last.key == k
  {
    var all := init + [last];
    assert all[|init|] == last;
    if i :| 0 <= i < |init| && init[i].key == k {
      assert all[i].key == k;
    }
    if i :| 0 <= i < |all| && all[i].key == k && i < |init| {
      assert init[i].key == k;
    }
  }

  lemma ListedAppend(init: seq<ObjectEntry>, last: ObjectEntry, k: Str, e: ObjectEntry)
    requires if last.key == k then e == last else ListedAs(init, k, e)
    ensures ListedAs(init + [last], k, e)
  {
    var all := init + [last];
    if last.key == k {
      assert all[|init|] == e;
    } else {
      var i :| 0 <= i < |init| && init[i] == e && e.key == k && forall j | i < j < |init| :: init[j].key != k;
      assert all[i] == e && forall j | i < j < |all| :: j < |init| ==> all[j] == init[j];
    }
  }

  /** The last entry of a key wins. */
  lemma {:induction false} CurrentIs(listing: seq<ObjectEntry>, k: Str)
    ensures k in Current(listing) <==> Shows(listing, k)
    ensures k in Current(listing) ==> ListedAs(listing, k, Current(listing)[k])
  {
    if listing != [] {
      var init, last := listing[..|listing| - 1], listing[|listing| - 1];
      CurrentIs(init, k);
      assert listing == init + [last];
      ShowsAppend(init, last, k);
      if k in Current(listing) {
        ListedAppend(init, last, k, Current(listing)[k]);
      }
    }
  }

  // ---- What the events carry ----

  ghost function Bare(k: Str): ObjectEntry {
    ObjectEntry(k, None, None, None, None)
  }

  /** The event at `i` and the entry it carries. */
  lemma EventCarries(o: Options, s: State, listing: seq<ObjectEntry>, now: nat, i: nat)
    requires SeenKeyed(s) && i < |Polled(o, s, listing, now).1| && Polled(o, s, listing, now).1[i].Changed?
    ensures var e := Polled(o, s, listing, now).1[i];
            var k := e.entry.key;
            && !s.baseline.Silent?
            && (e.op.Deleted? <==> !Shows(listing, k))
            && (e.op.Created? <==> Shows(listing, k) && k !in s.confirmed)
            && (!e.op.Deleted? ==> ListedAs(listing, k, e.entry))
            && (e.op.Deleted? ==> e.entry == if k in s.seen then s.seen[k] else Bare(k))
  {
    if !s.baseline.Silent? {
      var n := i - |GapEvents(s)|;
      EventAt(o, s, listing, now, n);
      CurrentIs(listing, Taken(o, s, Current(listing), now)[n].entry.key);
    }
  }

  lemma DueInOrder(env: Env, s: State, current: map<Str, ObjectEntry>, i: nat, j: nat)
    requires i < j < |DueKeys(env, s, current)|
    ensures var k, k' := DueKeys(env, s, current)[i], DueKeys(env, s, current)[j];
            && (k' in current ==> k in current)
            && ((k in current <==> k' in current) ==> Lt(k, k'))
  {
    var alive, gone := SortedKeys(AliveDue(env, s, current)), SortedKeys(GoneDue(env, s, current));
    var keys := DueKeys(env, s, current);
    forall n | n == i || n == j
      ensures if n < |alive| then keys[n] in alive && keys[n] in current else keys[n] in gone && keys[n] !in current
    {
      assert keys[n] == if n < |alive| then alive[n] else gone[n - |alive|];
    }
  }

  lemma BehindGap(o: Options, s: State, listing: seq<ObjectEntry>, now: nat, i: nat) returns (n: nat)
    requires i < |Polled(o, s, listing, now).1| && Polled(o, s, listing, now).1[i].Changed?
    ensures !s.baseline.Silent? && i == |GapEvents(s)| + n && n < |Taken(o, s, Current(listing), now)|
  {
    n := i - |GapEvents(s)|;
  }

  lemma TakenKey(o: Options, s: State, current: map<Str, ObjectEntry>, now: nat, n: nat)
    requires SeenKeyed(s) && (forall k <- current :: current[k].key == k) && n < |Taken(o, s, current, now)|
    ensures var keys := DueKeys(o.env, Opened(o, s, now), current);
            n < |keys| && Taken(o, s, current, now)[n].entry.key == keys[n]
  {
    TakenFacts(o, s, current, now);
  }

  /** The key of the event at `i` is that of its due key. */
  lemma EventKey(o: Options, s: State, listing: seq<ObjectEntry>, now: nat, i: nat) returns (n: nat)
    requires SeenKeyed(s) && i < |Polled(o, s, listing, now).1| && Polled(o, s, listing, now).1[i].Changed?
    ensures i == |GapEvents(s)| + n
    ensures var keys := DueKeys(o.env, Opened(o, s, now), Current(listing));
            n < |keys| && Polled(o, s, listing, now).1[i].entry.key == keys[n]
  {
    n := BehindGap(o, s, listing, now, i);
    TakenKey(o, s, Current(listing), now, n);
    EventAt(o, s, listing, now, n);
  }

  /** A listing's changes come in key order, deletions after the others. */
  lemma EventsInOrder(o: Options, s: State, listing: seq<ObjectEntry>, now: nat, i: nat, j: nat)
    requires SeenKeyed(s) && i < j < |Polled(o, s, listing, now).1|
    requires Polled(o, s, listing, now).1[i].Changed? && Polled(o, s, listing, now).1[j].Changed?
    ensures var events := Polled(o, s, listing, now).1;
            var k, k' := events[i].entry.key, events[j].entry.key;
            && (Shows(listing, k') ==> Shows(listing, k))
            && ((Shows(listing, k) <==> Shows(listing, k')) ==> Lt(k, k'))
  {
    var n := EventKey(o, s, listing, now, i);
    var m := EventKey(o, s, listing, now, j);
    var keys := DueKeys(o.env, Opened(o, s, now), Current(listing));
    DueInOrder(o.env, Opened(o, s, now), Current(listing), n, m);
    CurrentIs(listing, keys[n]);
    CurrentIs(listing, keys[m]);
  }

  // ---- Quiet removals ----

  lemma QuietListing(o: Options, s: State, listing: seq<ObjectEntry>, now: nat)
    requires s.quiet && !s.baseline.Silent? && SeenKeyed(s)
    ensures var (s', events) := Polled(o, s, listing, now);
            && (forall i | 0 <= i < |events| && events[i].Changed? :: Shows(listing, events[i].entry.key) && !events[i].op.Deleted?)
            && (forall p <- s'.pending :: p in s.pending || Shows(listing, p.key))
  {
    var (s', events) := Polled(o, s, listing, now);
    var cs := Taken(o, s, Current(listing), now);
    TakenFacts(o, s, Current(listing), now);
    DueKeysDistinct(o.env, Opened(o, s, now), Current(listing));
    forall n | 0 <= n < |cs|
      ensures Shows(listing, cs[n].entry.key)
    {
      assert cs[n].entry.key in DueKeys(o.env, Opened(o, s, now), Current(listing)) ==> cs[n].entry.key in Current(listing);
      CurrentIs(listing, cs[n].entry.key);
    }
    forall i | 0 <= i < |events| && events[i].Changed?
      ensures Shows(listing, events[i].entry.key) && !events[i].op.Deleted?
    {
      EventCarries(o, s, listing, now, i);
      var n := EventKey(o, s, listing, now, i);
    }
    UnexpiredIn(s.pending, now, o.ackTimeout);
  }

  lemma {:induction false} UnexpiredIn(pending: seq<Pending>, now: nat, timeout: nat)
    ensures forall p <- Unexpired(pending, now, timeout) :: p in pending
  {
    if pending != [] {
      UnexpiredIn(pending[1..], now, timeout);
    }
  }

  /** Where removals are quiet, an object that leaves the listing with no change of
      it in flight is forgotten without an event, and nothing is reported deleted. */
  lemma QuietForgets(o: Options, s: State, listing: seq<ObjectEntry>, now: nat, k: Str)
    requires s.quiet && !s.baseline.Silent? && SeenKeyed(s)
    requires !Shows(listing, k) && forall p <- s.pending :: p.key != k
    ensures var (s', events) := Polled(o, s, listing, now);
            && k !in s'.confirmed && !Reports(events, k) && (forall p <- s'.pending :: p.key != k)
            && forall i | 0 <= i < |events| && events[i].Changed? :: !events[i].op.Deleted?
  {
    QuietListing(o, s, listing, now);
    CurrentIs(listing, k);
    UnexpiredIn(s.pending, now, o.ackTimeout);
    PendingDigestAbsent(Unexpired(s.pending, now, o.ackTimeout), k);
    assert k in s.confirmed ==> k in GoneDue(o.env, Opened(o, s, now), Current(listing));
  }

  /** Once it comes back, with room for all that is listed, it is reported created. */
  lemma QuietComesBack(o: Options, s: State, listing: seq<ObjectEntry>, now: nat, found: seq<ObjectEntry>, later: nat, k: Str)
    requires s.quiet && !s.baseline.Silent? && SeenKeyed(s)
    requires !Shows(listing, k) && Shows(found, k) && forall p <- s.pending :: p.key != k
    requires |Polled(o, s, listing, now).0.pending| + |Current(found)| <= o.maxInFlight
    ensures var events := Polled(o, Polled(o, s, listing, now).0, found, later).1;
            exists i :: 0 <= i < |events| && events[i].Changed? && events[i].entry.key == k && events[i].op.Created?
  {
    var s' := Polled(o, s, listing, now).0;
    QuietForgets(o, s, listing, now, k);
    PolledSeen(o, s, listing, now);
    ReportedCreated(o, s', found, later, k);
  }

  lemma DueAlive(env: Env, s: State, current: map<Str, ObjectEntry>, k: Str)
    requires s.quiet && k in current && k !in s.confirmed && PendingDigest(s.pending, k).None?
    ensures k in DueKeys(env, s, current) && |DueKeys(env, s, current)| <= |current|
  {
    var alive := AliveDue(env, s, current);
    assert k in alive && alive <= current.Keys;
    SubsetSize(alive, current.Keys);
    SortedKeysSize(alive);
    assert DueKeys(env, s, current) == SortedKeys(alive) + [];
  }

  /** With room for every due key, the event of each is there. */
  lemma DueReported(o: Options, s: State, listing: seq<ObjectEntry>, now: nat, n: nat)
    requires !s.baseline.Silent? && !s.gap && SeenKeyed(s)
    requires var s1 := Opened(o, s, now);
             var keys := DueKeys(o.env, s1, Current(listing));
             n < |keys| <= Room(o, s1)
    ensures var events := Polled(o, s, listing, now).1;
            && n < |events| && events[n].Changed?
            && events[n].entry.key == DueKeys(o.env, Opened(o, s, now), Current(listing))[n]
  {
    TakenFacts(o, s, Current(listing), now);
    EventAt(o, s, listing, now, n);
  }

  lemma ReportedCreated(o: Options, s: State, found: seq<ObjectEntry>, later: nat, k: Str)
    requires s.quiet && !s.baseline.Silent? && !s.gap && SeenKeyed(s)
    requires k !in s.confirmed && Shows(found, k) && forall p <- s.pending :: p.key != k
    requires |s.pending| + |Current(found)| <= o.maxInFlight
    ensures var events := Polled(o, s, found, later).1;
            exists i :: 0 <= i < |events| && events[i].Changed? && events[i].entry.key == k && events[i].op.Created?
  {
    var s1, current := Opened(o, s, later), Current(found);
    CurrentIs(found, k);
    UnexpiredIn(s.pending, later, o.ackTimeout);
    PendingDigestAbsent(s1.pending, k);
    DueAlive(o.env, s1, current, k);
    var keys := DueKeys(o.env, s1, current);
    var i :| 0 <= i < |keys| && keys[i] == k;
    assert |keys| <= Room(o, s1);
    DueReported(o, s, found, later, i);
    EventCarries(o, s, found, later, i);
  }

  // ---- Which details a deletion tells ----

  /** Step `n` of the run is the last listing that shows the key. */
  ghost predicate LastShown(steps: seq<Step>, n: nat, k: Str) {
    && n < |steps| && steps[n].Poll? && Shows(steps[n].listing, k)
    && forall m | n < m < |steps| && steps[m].Poll? :: !Shows(steps[m].listing, k)
  }

  /** Step `m` of the run honours a deletion of the key. */
  ghost predicate SettlesDeletion(o: Options, h: History, steps: seq<Step>, m: nat, k: Str)
    requires m < |steps|
  {
    steps[m].Ack?
    && var p := Honoured(Run(o, h, steps[..m]).state, steps[m].position);
       p.Some? && p.value.key == k && p.value.digest.None?
  }

  /** A listing showed the key last at step `n`, and no deletion of it was honoured
      since. */
  ghost predicate Remembers(o: Options, h: History, steps: seq<Step>, n: nat, k: Str) {
    LastShown(steps, n, k) && forall m | n < m < |steps| :: !SettlesDeletion(o, h, steps, m, k)
  }

  /** What a state has of the key is what the run last told of it. */
  ghost predicate SeenSays(o: Options, h: History, steps: seq<Step>, k: Str, seen: map<Str, ObjectEntry>) {
    && (forall n: nat | Remembers(o, h, steps, n, k) :: k in seen && ListedAs(steps[n].listing, k, seen[k]))
    && ((forall n: nat :: !Remembers(o, h, steps, n, k)) ==> k !in seen)
  }

  lemma ShownNow(o: Options, h: History, init: seq<Step>, last: Step, k: Str, seen: map<Str, ObjectEntry>)
    requires last.Poll? && Shows(last.listing, k)
    requires k in seen && ListedAs(last.listing, k, seen[k])
    ensures SeenSays(o, h, init + [last], k, seen)
  {
    var steps := init + [last];
    assert steps[|init|] == last;
    assert Remembers(o, h, steps, |init|, k);
    forall n: nat | Remembers(o, h, steps, n, k)
      ensures n == |init|
    {
      assert !(n < |init|);
    }
  }

  lemma SettlesPrefix(o: Options, h: History, init: seq<Step>, last: Step, m: nat, k: Str)
    requires m < |init|
    ensures SettlesDeletion(o, h, init + [last], m, k) == SettlesDeletion(o, h, init, m, k)
  {
    assert (init + [last])[..m] == init[..m] && (init + [last])[m] == init[m];
  }

  /** A step that neither shows the key nor settles its deletion changes nothing of
      what is remembered; one that settles it leaves nothing. */
  lemma NotShownNow(o: Options, h: History, init: seq<Step>, last: Step, k: Str, n: nat)
    requires last.Poll? ==> !Shows(last.listing, k)
    ensures Remembers(o, h, init + [last], n, k)
       <==> Remembers(o, h, init, n, k) && !SettlesDeletion(o, h, init + [last], |init|, k)
  {
    var steps := init + [last];
    assert steps[|init|] == last;
    assert forall m | 0 <= m < |init| :: steps[m] == init[m];
    forall m | n < m < |init|
      ensures SettlesDeletion(o, h, steps, m, k) == SettlesDeletion(o, h, init, m, k)
    {
      SettlesPrefix(o, h, init, last, m, k);
    }
    assert LastShown(steps, n, k) <==> LastShown(init, n, k);
  }

  lemma NotShownSays(o: Options, h: History, init: seq<Step>, last: Step, k: Str, seen: map<Str, ObjectEntry>, seen': map<Str, ObjectEntry>)
    requires (last.Poll? ==> !Shows(last.listing, k)) && SeenSays(o, h, init, k, seen)
    requires SettlesDeletion(o, h, init + [last], |init|, k) ==> k !in seen'
    requires !SettlesDeletion(o, h, init + [last], |init|, k) ==> (k in seen' <==> k in seen) && (k in seen ==> seen'[k] == seen[k])
    ensures SeenSays(o, h, init + [last], k, seen')
  {
    var steps := init + [last];
    forall n: nat
      ensures Remembers(o, h, steps, n, k) <==> Remembers(o, h, init, n, k) && !SettlesDeletion(o, h, steps, |init|, k)
      ensures n < |init| ==> steps[n] == init[n]
    {
      NotShownNow(o, h, init, last, k, n);
    }
  }

  /** What a listing does to the details kept. */
  lemma PollSeen(o: Options, s: State, listing: seq<ObjectEntry>, now: nat, k: Str)
    requires !s.quiet && (s.baseline.Silent? ==> s.seen == map[])
    ensures var s' := Polled(o, s, listing, now).0;
            && !s'.quiet && !s'.baseline.Silent?
            && (Shows(listing, k) ==> k in s'.seen && ListedAs(listing, k, s'.seen[k]))
            && (!Shows(listing, k) ==> (k in s'.seen <==> k in s.seen) && (k in s.seen ==> s'.seen[k] == s.seen[k]))
  {
    CurrentIs(listing, k);
  }

  lemma AckSeen(s: State, position: Option<nat>, k: Str)
    ensures var s', p := Acked(s, position), Honoured(s, position);
            && s'.quiet == s.quiet && s'.baseline == s.baseline
            && (p.Some? && p.value.key == k && p.value.digest.None? ==> k !in s'.seen)
            && (!(p.Some? && p.value.key == k && p.value.digest.None?) ==>
                  (k in s'.seen <==> k in s.seen) && (k in s.seen ==> s'.seen[k] == s.seen[k]))
            && (s.pending == [] ==> s' == s)
  {
  }

  lemma NextState(o: Options, h: History, step: Step)
    ensures Next(o, h, step).state
         == match step
            case Poll(listing, now) => Polled(o, h.state, listing, now).0
            case Ack(position) => Acked(h.state, position)
  {
  }

  lemma {:induction false} RunSeen(o: Options, h: History, steps: seq<Step>, k: Str)
    requires !h.state.quiet && h.state.seen == map[] && h.state.pending == []
    ensures var s := Run(o, h, steps).state;
            && !s.quiet && (s.baseline.Silent? ==> s.seen == map[] && s.pending == [])
            && SeenSays(o, h, steps, k, s.seen)
  {
    if steps != [] {
      var init, last := steps[..|steps| - 1], steps[|steps| - 1];
      RunSeen(o, h, init, k);
      var h1 := Run(o, h, init);
      NextState(o, h1, last);
      assert init + [last] == steps && steps[..|init|] == init;
      match last {
        case Poll(listing, now) => PollSeen(o, h1.state, listing, now, k);
        case Ack(position) => AckSeen(h1.state, position, k);
      }
      var seen' := Next(o, h1, last).state.seen;
      if last.Poll? && Shows(last.listing, k) {
        ShownNow(o, h, init, last, k, seen');
      } else {
        NotShownSays(o, h, init, last, k, h1.state.seen, seen');
      }
    }
  }

  lemma {:induction false} RunKeyed(o: Options, h: History, steps: seq<Step>)
    requires SeenKeyed(h.state)
    ensures SeenKeyed(Run(o, h, steps).state)
  {
    if steps != [] {
      var h1 := Run(o, h, steps[..|steps| - 1]);
      RunKeyed(o, h, steps[..|steps| - 1]);
      NextState(o, h1, steps[|steps| - 1]);
      if steps[|steps| - 1].Poll? {
        PolledSeen(o, h1.state, steps[|steps| - 1].listing, steps[|steps| - 1].now);
      }
    }
  }

  lemma {:induction false} RunQuiet(o: Options, h: History, steps: seq<Step>)
    ensures Run(o, h, steps).state.quiet == h.state.quiet
  {
    if steps != [] {
      RunQuiet(o, h, steps[..|steps| - 1]);
      NextState(o, Run(o, h, steps[..|steps| - 1]), steps[|steps| - 1]);
    }
  }

  /** The events of a listing after any run. A creation or a modification carries
      the entry listed, a creation where nothing was confirmed. A deletion carries
      the entry of the last listing that showed the object, unless a deletion of it
      was honoured since; then, or when none showed it, as after a resume, it
      carries the key alone. */
  lemma EventTells(o: Options, resume: Resume, quiet: bool, steps: seq<Step>, listing: seq<ObjectEntry>, now: nat, i: nat)
    requires !resume.Malformed?
    requires var s := Run(o, Begin(Start0(o, resume, quiet).value), steps).state;
             i < |Polled(o, s, listing, now).1| && Polled(o, s, listing, now).1[i].Changed?
    ensures var h := Begin(Start0(o, resume, quiet).value);
            var s := Run(o, h, steps).state;
            var e := Polled(o, s, listing, now).1[i];
            var k := e.entry.key;
            && (e.op.Deleted? <==> !Shows(listing, k))
            && (e.op.Created? <==> Shows(listing, k) && k !in s.confirmed)
            && (Shows(listing, k) ==> ListedAs(listing, k, e.entry))
            && (!Shows(listing, k) ==>
                  && !quiet
                  && (forall n: nat | Remembers(o, h, steps, n, k) :: ListedAs(steps[n].listing, k, e.entry))
                  && ((forall n: nat :: !Remembers(o, h, steps, n, k)) ==> e.entry == ObjectEntry(k, None, None, None, None)))
  {
    var h := Begin(Start0(o, resume, quiet).value);
    var s := Run(o, h, steps).state;
    RunKeyed(o, h, steps);
    EventCarries(o, s, listing, now, i);
    if quiet {
      RunQuiet(o, h, steps);
      QuietListing(o, s, listing, now);
    } else {
      RunSeen(o, h, steps, Polled(o, s, listing, now).1[i].entry.key);
    }
  }

  // ---- A run that loses the details ----

  lemma OneTaken(o: Options, s: State, current: map<Str, ObjectEntry>, now: nat, k: Str)
    requires !s.gap && !s.quiet && |s.pending| < o.maxInFlight
    requires forall p <- s.pending :: now - p.at < o.ackTimeout
    requires k in current || k in s.confirmed
    requires forall x | x in current || x in s.confirmed :: Due(o.env, s, current, x) <==> x == k
    ensures Opened(o, s, now) == s.(baseline := Baseline.Known)
    ensures Taken(o, s, current, now) == [ChangeFor(o.env, s, current, k)]
  {
    AllUnexpired(s.pending, now, o.ackTimeout);
    OnlyKeyDue(o.env, Opened(o, s, now), current, k);
    assert [k][..1] == [k];
  }

  lemma PolledOne(o: Options, s: State, listing: seq<ObjectEntry>, now: nat, c: Change)
    requires !s.baseline.Silent? && !s.gap && !s.quiet
    requires Opened(o, s, now) == s.(baseline := Baseline.Known) && Taken(o, s, Current(listing), now) == [c]
    ensures Polled(o, s, listing, now).1 == [EventFor(o, s.confirmed, c, s.nextSeq, true)]
    ensures Polled(o, s, listing, now).0
         == s.(pending := s.pending + [Pending(s.nextSeq, c.entry.key, c.target, now)], seen := s.seen + Current(listing),
               nextSeq := s.nextSeq + 1, baseline := Baseline.Known)
  {
    assert NewEvents(o, s.confirmed, [c], s.nextSeq) == [EventFor(o, s.confirmed, c, s.nextSeq, true)];
    assert NewPending([c], s.nextSeq, now) == [Pending(s.nextSeq, c.entry.key, c.target, now)];
    assert [] + NewEvents(o, s.confirmed, [c], s.nextSeq) == NewEvents(o, s.confirmed, [c], s.nextSeq);
  }

  /** A listing with one key due and room for it. */
  lemma OneDue(o: Options, s: State, listing: seq<ObjectEntry>, now: nat, k: Str)
    requires !s.baseline.Silent? && !s.gap && !s.quiet && |s.pending| < o.maxInFlight
    requires forall p <- s.pending :: now - p.at < o.ackTimeout
    requires k in Current(listing) || k in s.confirmed
    requires forall x | x in Current(listing) || x in s.confirmed :: Due(o.env, s, Current(listing), x) <==> x == k
    ensures var current := Current(listing);
            var c := ChangeFor(o.env, s, current, k);
            && Polled(o, s, listing, now).1 == [EventFor(o, s.confirmed, c, s.nextSeq, true)]
            && Polled(o, s, listing, now).0
               == s.(pending := s.pending + [Pending(s.nextSeq, c.entry.key, c.target, now)], seen := s.seen + current,
                     nextSeq := s.nextSeq + 1, baseline := Baseline.Known)
  {
    OneTaken(o, s, Current(listing), now, k);
    PolledOne(o, s, listing, now, ChangeFor(o.env, s, Current(listing), k));
  }

  lemma OnlyKeyDue(env: Env, s: State, current: map<Str, ObjectEntry>, k: Str)
    requires !s.quiet && (k in current || k in s.confirmed)
    requires forall x | x in current || x in s.confirmed :: Due(env, s, current, x) <==> x == k
    ensures DueKeys(env, s, current) == [k]
  {
    ListsUnique([k], {k});
    ListsUnique([], {});
    if k in current {
      assert AliveDue(env, s, current) == {k} && GoneDue(env, s, current) == {};
    } else {
      assert AliveDue(env, s, current) == {} && GoneDue(env, s, current) == {k};
    }
  }

  ghost predicate StepsTo(o: Options, s: State, step: Step, s': State) {
    match step
    case Poll(listing, now) => Polled(o, s, listing, now).0 == s'
    case Ack(position) => Acked(s, position) == s'
  }

  lemma {:induction false} RunThrough(o: Options, h: History, steps: seq<Step>, states: seq<State>)
    requires |states| == |steps| + 1 && states[0] == h.state
    requires forall i | 0 <= i < |steps| :: StepsTo(o, states[i], steps[i], states[i + 1])
    ensures Run(o, h, steps).state == states[|steps|]
  {
    if steps != [] {
      var init := steps[..|steps| - 1];
      RunThrough(o, h, init, states[..|steps|]);
      NextState(o, Run(o, h, init), steps[|steps| - 1]);
      assert StepsTo(o, states[|init|], steps[|init|], states[|steps|]);
    }
  }

  /** A watch under way. */
  function Known(confirmed: map<Str, Str>, seen: map<Str, ObjectEntry>, pending: seq<Pending>, nextSeq: nat): State {
    State(confirmed, seen, pending, nextSeq, Baseline.Known, false, false)
  }

  lemma CurrentOne(e: ObjectEntry)
    ensures Current([e]) == map[e.key := e] && Current([]) == map[]
  {
    assert [e][..0] == [];
  }

  /** An object listed as `e`, the only one, where it is not so confirmed or in
      flight. */
  lemma ListedOne(o: Options, s: State, e: ObjectEntry)
    requires !s.baseline.Silent? && !s.gap && !s.quiet && |s.pending| < o.maxInFlight && o.ackTimeout > 0
    requires s.confirmed.Keys <= {e.key} && s.seen.Keys <= {e.key} && forall p <- s.pending :: p.at == 0
    requires Held(s.confirmed, e.key) != Some(Digest(o.env, e)) && PendingDigest(s.pending, e.key) != Some(Some(Digest(o.env, e)))
    ensures Polled(o, s, [e], 0).0
         == Known(s.confirmed, map[e.key := e], s.pending + [Pending(s.nextSeq, e.key, Some(Digest(o.env, e)), 0)], s.nextSeq + 1)
  {
    CurrentOne(e);
    OneDue(o, s, [e], 0, e.key);
  }

  /** The only object confirmed, gone. */
  lemma GoneOne(o: Options, s: State, k: Str)
    requires !s.baseline.Silent? && !s.gap && !s.quiet && s.pending == [] && o.maxInFlight > 0 && o.ackTimeout > 0
    requires s.confirmed.Keys == {k} && SeenKeyed(s)
    ensures var (s', events) := Polled(o, s, [], 0);
            && s' == Known(s.confirmed, s.seen, [Pending(s.nextSeq, k, None, 0)], s.nextSeq + 1)
            && |events| == 1 && events[0].Changed? && events[0].op.Deleted?
            && events[0].entry == if k in s.seen then s.seen[k] else Bare(k)
  {
    CurrentOne(Bare(k));
    OneDue(o, s, [], 0, k);
  }

  /** An object is created, deleted, and back as `b` before the deletion is
      acknowledged; then both changes are. */
  function BackBeforeAcked(a: ObjectEntry, b: ObjectEntry): seq<Step> {
    [Poll([a], 0), Ack(Some(0)), Poll([], 0), Poll([b], 0), Ack(Some(1)), Ack(Some(2))]
  }

  /** The states it goes through. */
  function StatesOf(o: Options, a: ObjectEntry, b: ObjectEntry): seq<State> {
    var k, da, db := a.key, Digest(o.env, a), Digest(o.env, b);
    [ Start0(o, Absent, false).value,
      Known(map[], map[k := a], [Pending(0, k, Some(da), 0)], 1),
      Known(map[k := da], map[k := a], [], 1),
      Known(map[k := da], map[k := a], [Pending(1, k, None, 0)], 2),
      Known(map[k := da], map[k := b], [Pending(1, k, None, 0), Pending(2, k, Some(db), 0)], 3),
      Known(map[], map[], [Pending(2, k, Some(db), 0)], 3),
      Known(map[k := db], map[], [], 3) ]
  }

  lemma PollsOf(o: Options, a: ObjectEntry, b: ObjectEntry)
    requires o.start.Existing? && o.maxInFlight >= 2 && o.ackTimeout > 0
    requires a.key == b.key && Digest(o.env, a) != Digest(o.env, b)
    ensures var s := StatesOf(o, a, b);
            StepsTo(o, s[0], Poll([a], 0), s[1]) && StepsTo(o, s[2], Poll([], 0), s[3]) && StepsTo(o, s[3], Poll([b], 0), s[4])
  {
    var s := StatesOf(o, a, b);
    ListedOne(o, s[0], a);
    GoneOne(o, s[2], a.key);
    ListedOne(o, s[3], b);
  }

  lemma AckOldest(s: State, p: Pending, rest: seq<Pending>)
    requires s.pending == [p] + rest && PendingOrdered(s.pending)
    ensures Acked(s, Some(p.seqno))
         == s.(pending := rest, confirmed := Apply(s.confirmed, p.key, p.digest),
               seen := if p.digest.Some? then s.seen else s.seen - {p.key})
  {
    AckedPending(Options(Env(_ => [], (_, _, _) => [], _ => 0), Now, 0, 0, 0), s, Some(p.seqno));
  }

  lemma AcksOf(o: Options, a: ObjectEntry, b: ObjectEntry)
    ensures var s := StatesOf(o, a, b);
            StepsTo(o, s[1], Ack(Some(0)), s[2]) && StepsTo(o, s[4], Ack(Some(1)), s[5]) && StepsTo(o, s[5], Ack(Some(2)), s[6])
  {
    var s := StatesOf(o, a, b);
    AckOldest(s[1], s[1].pending[0], []);
    AckOldest(s[4], s[4].pending[0], s[5].pending);
    AckOldest(s[5], s[5].pending[0], []);
    var none: map<Str, Str> := map[];
    assert s[4].confirmed - {a.key} == none && s[4].seen - {a.key} == map[];
  }

  lemma RunOf(o: Options, a: ObjectEntry, b: ObjectEntry)
    requires o.start.Existing? && o.maxInFlight >= 2 && o.ackTimeout > 0
    requires a.key == b.key && Digest(o.env, a) != Digest(o.env, b)
    ensures Run(o, Begin(Start0(o, Absent, false).value), BackBeforeAcked(a, b)).state == StatesOf(o, a, b)[6]
  {
    var all, s := BackBeforeAcked(a, b), StatesOf(o, a, b);
    PollsOf(o, a, b);
    AcksOf(o, a, b);
    SixSteps(o, Begin(s[0]), all, s);
  }

  lemma SixSteps(o: Options, h: History, steps: seq<Step>, s: seq<State>)
    requires |steps| == 6 && |s| == 7 && h.state == s[0]
    requires StepsTo(o, s[0], steps[0], s[1]) && StepsTo(o, s[1], steps[1], s[2]) && StepsTo(o, s[2], steps[2], s[3])
    requires StepsTo(o, s[3], steps[3], s[4]) && StepsTo(o, s[4], steps[4], s[5]) && StepsTo(o, s[5], steps[5], s[6])
    ensures Run(o, h, steps).state == s[6]
  {
    RunThrough(o, h, steps, s);
  }

  /** The details kept for a deletion are not always the last seen: in this run the
      deletion of `b`, which the last listing but one showed, carries its key
      alone. */
  lemma DetailsLost(o: Options, a: ObjectEntry, b: ObjectEntry)
    requires o.start.Existing? && o.maxInFlight >= 2 && o.ackTimeout > 0
    requires a.key == b.key && Digest(o.env, a) != Digest(o.env, b)
    ensures var steps := BackBeforeAcked(a, b);
            var events := Polled(o, Run(o, Begin(Start0(o, Absent, false).value), steps).state, [], 0).1;
            && LastShown(steps, 3, b.key) && ListedAs(steps[3].listing, b.key, b)
            && |events| == 1 && events[0].Changed? && events[0].op.Deleted?
            && events[0].entry == ObjectEntry(b.key, None, None, None, None)
  {
    RunOf(o, a, b);
    GoneOne(o, StatesOf(o, a, b)[6], b.key);
    assert [b][0] == b;
  }
}
