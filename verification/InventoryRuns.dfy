/** What every run of an inventory keeps: listings and acknowledgements in any
    order, acknowledgements lost, repeated, out of order or of unknown
    positions, changes expiring on the way. */
module InventoryRuns {
  import opened Strs
  import opened Framing
  import opened InventorySpec

  datatype Step =
    | Poll(listing: seq<ObjectEntry>, now: nat)
    | Ack(position: Option<nat>)

  /** A run's state with what happened so far: the baseline, the changes issued
      and the ones the host's acknowledgements settled, the events reported. */
  datatype History = History(
    state: State,
    base: map<Str, Str>,
    issued: seq<Pending>,
    reported: seq<Event>,
    honoured: seq<Pending>,
    clock: nat)

  ghost function Begin(s: State): History {
    History(s, s.confirmed, [], [], [], 0)
  }

  ghost function Next(o: Options, h: History, step: Step): History {
    match step
    case Poll(listing, now) =>
      var (s, events) := Polled(o, h.state, listing, now);
      if h.state.baseline.Silent? then h.(state := s, base := s.confirmed, clock := now)
      else
        h.(state := s,
           issued := h.issued + s.pending[|Unexpired(h.state.pending, now, o.ackTimeout)|..],
           reported := h.reported + events[|GapEvents(h.state)|..],
           clock := now)
    case Ack(position) =>
      h.(state := Acked(h.state, position),
         honoured := h.honoured + (if Honoured(h.state, position).Some?
                                   then [Honoured(h.state, position).value] else []))
  }

  ghost function Run(o: Options, h: History, steps: seq<Step>): History {
    if steps == [] then h else Next(o, Run(o, h, steps[..|steps| - 1]), steps[|steps| - 1])
  }

  /** The clock the listings read never runs backwards. */
  ghost predicate Clocked(steps: seq<Step>, from: nat) {
    steps == []
    || (match steps[0]
        case Poll(_, now) => from <= now && Clocked(steps[1..], now)
        case Ack(_) => Clocked(steps[1..], from))
  }

  ghost function Fold(base: map<Str, Str>, changes: seq<Pending>): map<Str, Str> {
    if changes == [] then base
    else
      var last := changes[|changes| - 1];
      Apply(Fold(base, changes[..|changes| - 1]), last.key, last.digest)
  }

  ghost predicate AgeOrdered(pending: seq<Pending>, clock: nat) {
    && (forall i, j | 0 <= i < j < |pending| :: pending[i].at <= pending[j].at)
    && (forall p <- pending :: p.at <= clock)
  }

  /** `i` is the change in flight of `j`'s key just before `j`. */
  ghost predicate JustBefore(pending: seq<Pending>, i: nat, j: nat)
    requires i < j < |pending|
  {
    && pending[i].key == pending[j].key
    && forall m | i < m < j :: pending[m].key != pending[j].key
  }

  /** No change repeats the one in flight just before it for its key. */
  ghost predicate NoEcho(pending: seq<Pending>) {
    forall i: nat, j: nat | i < j < |pending| && JustBefore(pending, i, j) :: pending[i].digest != pending[j].digest
  }

  /** Each event tells of the change with its number. */
  ghost predicate Tells(o: Options, e: Event, p: Pending) {
    && e.Changed?
    && e.cursor.seqno == p.seqno
    && e.entry.key == p.key
    && (e.op.Deleted? <==> p.digest.None?)
    && (p.digest.Some? ==> p.digest.value == Digest(o.env, e.entry))
    && e.id == EventId(o, p.key, e.op, p.digest)
  }

  /** The window: in sequence order and in age order, within its bound, without
      echoes, its numbers not yet given out again. */
  ghost predicate WindowInv(o: Options, h: History) {
    && Valid(o, h.state)
    && AgeOrdered(h.state.pending, h.clock)
    && NoEcho(h.state.pending)
  }

  /** The log: every number was given to one change, told by one event; what is
      pending or honoured is such a change, honoured ones in sequence order and
      before everything still pending. */
  ghost predicate LogInv(o: Options, h: History) {
    && |h.issued| == |h.reported| == h.state.nextSeq
    && (forall i | 0 <= i < |h.issued| :: h.issued[i].seqno == i && Tells(o, h.reported[i], h.issued[i]))
    && (forall p <- h.state.pending :: p.seqno < |h.issued| && p == h.issued[p.seqno])
    && (forall p <- h.honoured :: p.seqno < |h.issued| && p == h.issued[p.seqno])
    && PendingOrdered(h.honoured)
    && (forall a, p | a in h.honoured && p in h.state.pending :: a.seqno < p.seqno)
    && (h.state.baseline.Silent? ==> h.issued == [] && h.state.pending == [] && h.honoured == [])
  }

  /** The confirmed listing is the baseline with the honoured changes, each
      applied once, in order; quiet removals edit it besides. */
  ghost predicate FoldInv(h: History) {
    !h.state.quiet ==> h.state.confirmed == Fold(h.base, h.honoured)
  }

  ghost predicate Inv(o: Options, h: History) {
    WindowInv(o, h) && LogInv(o, h) && FoldInv(h)
  }

  // ---- Dropping a prefix of the pending changes ----

  lemma {:induction false} UnexpiredIsSuffix(pending: seq<Pending>, now: nat, timeout: nat)
    requires forall i, j | 0 <= i < j < |pending| :: pending[i].at <= pending[j].at
    ensures |Unexpired(pending, now, timeout)| <= |pending|
    ensures Unexpired(pending, now, timeout) == pending[|pending| - |Unexpired(pending, now, timeout)|..]
  {
    if pending != [] {
      UnexpiredIsSuffix(pending[1..], now, timeout);
      if now - pending[0].at < timeout {
        assert forall p <- pending :: now - p.at < timeout;
        AllUnexpired(pending[1..], now, timeout);
      }
    }
  }

  lemma {:induction false} AllUnexpired(pending: seq<Pending>, now: nat, timeout: nat)
    requires forall p <- pending :: now - p.at < timeout
    ensures Unexpired(pending, now, timeout) == pending
  {
    if pending != [] {
      assert pending[0] in pending;
      AllUnexpired(pending[1..], now, timeout);
      assert pending == [pending[0]] + pending[1..];
    }
  }

  lemma {:induction false} AfterIsSuffix(pending: seq<Pending>, i: nat)
    requires PendingOrdered(pending) && i < |pending|
    ensures After(pending, pending[i].seqno) == pending[i + 1..]
  {
    if i > 0 {
      AfterIsSuffix(pending[1..], i - 1);
    } else {
      AfterAll(pending[1..], pending[0].seqno);
    }
  }

  lemma {:induction false} AfterAll(pending: seq<Pending>, seqno: nat)
    requires forall i | 0 <= i < |pending| :: pending[i].seqno > seqno
    ensures After(pending, seqno) == pending
  {
    if pending != [] {
      AfterAll(pending[1..], seqno);
      assert pending == [pending[0]] + pending[1..];
    }
  }

  lemma SuffixKeeps(pending: seq<Pending>, n: nat, clock: nat)
    requires n <= |pending| && PendingOrdered(pending) && NoEcho(pending) && AgeOrdered(pending, clock)
    ensures var r := pending[n..]; PendingOrdered(r) && NoEcho(r) && AgeOrdered(r, clock)
    ensures forall p <- pending[n..] :: p in pending
  {
    var r := pending[n..];
    forall i: nat, j: nat | i < j < |r| && JustBefore(r, i, j)
      ensures r[i].digest != r[j].digest
    {
      forall m | n + i < m < n + j
        ensures pending[m].key != pending[n + j].key
      {
        assert r[m - n].key != r[j].key;
      }
      assert JustBefore(pending, n + i, n + j);
    }
  }

  // ---- Pending digests ----

  lemma {:induction false} PendingDigestConcat(a: seq<Pending>, b: seq<Pending>, key: Str)
    ensures PendingDigest(a + b, key)
         == if PendingDigest(b, key).Some? then PendingDigest(b, key) else PendingDigest(a, key)
  {
    if b == [] {
      assert a + b == a;
    } else {
      assert (a + b)[..|a + b| - 1] == a + b[..|b| - 1];
      PendingDigestConcat(a, b[..|b| - 1], key);
    }
  }

  /** The pending digest is that of the last pending change of the key. */
  lemma {:induction false} PendingDigestIsLast(pending: seq<Pending>, i: nat)
    requires i < |pending|
    requires forall m | i < m < |pending| :: pending[m].key != pending[i].key
    ensures PendingDigest(pending, pending[i].key) == Some(pending[i].digest)
  {
    if i < |pending| - 1 {
      var init := pending[..|pending| - 1];
      assert init[i] == pending[i];
      PendingDigestIsLast(init, i);
    }
  }

  lemma {:induction false} PendingDigestAbsent(pending: seq<Pending>, key: Str)
    requires forall p <- pending :: p.key != key
    ensures PendingDigest(pending, key).None?
  {
    if pending != [] {
      assert pending[|pending| - 1] in pending;
      PendingDigestAbsent(pending[..|pending| - 1], key);
    }
  }

  // ---- The changes of one listing ----

  /** The keys a listing reports are distinct, due, and the change of each says
      what became of it. */
  lemma DueKeysDistinct(env: Env, s: State, current: map<Str, ObjectEntry>)
    ensures var keys := DueKeys(env, s, current);
            && (forall i, j | 0 <= i < |keys| && 0 <= j < |keys| && keys[i] == keys[j] :: i == j)
            && (forall k :: k in keys <==> Due(env, s, current, k) && (k in current || (k in s.confirmed && !s.quiet)))
  {
    var alive, gone := SortedKeys(AliveDue(env, s, current)), SortedKeys(GoneDue(env, s, current));
    SortedDistinct(alive);
    SortedDistinct(gone);
    var keys := DueKeys(env, s, current);
    forall i, j | 0 <= i < |keys| && 0 <= j < |keys| && keys[i] == keys[j]
      ensures i == j
    {
      assert keys[i] in alive <==> keys[i] in current && Due(env, s, current, keys[i]);
      assert if i < |alive| then keys[i] == alive[i] && keys[i] in alive else keys[i] == gone[i - |alive|] && keys[i] in gone;
      assert if j < |alive| then keys[j] == alive[j] && keys[j] in alive else keys[j] == gone[j - |alive|] && keys[j] in gone;
    }
  }

  /** Entries carry their own key. */
  lemma ChangeForKey(env: Env, s: State, current: map<Str, ObjectEntry>, key: Str)
    requires SeenKeyed(s) && forall k <- current :: current[k].key == k
    requires key in current || key in s.confirmed
    ensures var c := ChangeFor(env, s, current, key);
            && c.entry.key == key
            && (c.op.Deleted? <==> c.target.None?)
            && (c.target.Some? ==> c.target.value == Digest(env, c.entry))
  {
  }

  /** The changes taken from a listing, one per key, in key order of `keys`. */
  lemma TakenFacts(o: Options, s: State, current: map<Str, ObjectEntry>, now: nat)
    requires SeenKeyed(s) && forall k <- current :: current[k].key == k
    ensures var s1 := Opened(o, s, now);
            var keys := DueKeys(o.env, s1, current);
            var cs := Taken(o, s, current, now);
            && |cs| == Min(|keys|, Room(o, s1))
            && (forall i | 0 <= i < |cs| :: cs[i] == ChangeFor(o.env, s1, current, keys[i]) && cs[i].entry.key == keys[i]
                                            && (cs[i].op.Deleted? <==> cs[i].target.None?)
                                            && (cs[i].target.Some? ==> cs[i].target.value == Digest(o.env, cs[i].entry)))
            && (forall i, j | 0 <= i < j < |cs| :: cs[i].entry.key != cs[j].entry.key)
            && (forall i | 0 <= i < |cs| :: Due(o.env, s1, current, cs[i].entry.key))
  {
    var s1 := Opened(o, s, now);
    var keys := DueKeys(o.env, s1, current);
    var cs := Taken(o, s, current, now);
    DueKeysDistinct(o.env, s1, current);
    forall i | 0 <= i < |cs|
      ensures cs[i] == ChangeFor(o.env, s1, current, keys[i]) && cs[i].entry.key == keys[i]
      ensures cs[i].op.Deleted? <==> cs[i].target.None?
      ensures cs[i].target.Some? ==> cs[i].target.value == Digest(o.env, cs[i].entry)
      ensures Due(o.env, s1, current, cs[i].entry.key)
    {
      assert keys[i] in keys;
      ChangeForKey(o.env, s1, current, keys[i]);
    }
  }

  /** Appending changes of other keys, or to other digests than those in
      flight, makes no echo. */
  lemma AppendNoEcho(pending: seq<Pending>, added: seq<Pending>)
    requires NoEcho(pending)
    requires forall i, j | 0 <= i < j < |added| :: added[i].key != added[j].key
    requires forall j | 0 <= j < |added| :: PendingDigest(pending, added[j].key) != Some(added[j].digest)
    ensures NoEcho(pending + added)
  {
    var r := pending + added;
    forall i: nat, j: nat | i < j < |r| && JustBefore(r, i, j)
      ensures r[i].digest != r[j].digest
    {
      if j < |pending| {
        OldPairDiffers(pending, added, i, j);
      } else if i < |pending| {
        NewPairDiffers(pending, added, i, j - |pending|);
      }
    }
  }

  lemma OldPairDiffers(pending: seq<Pending>, added: seq<Pending>, i: nat, j: nat)
    requires NoEcho(pending) && i < j < |pending| && JustBefore(pending + added, i, j)
    ensures pending[i].digest != pending[j].digest
  {
    forall m | i < m < j
      ensures pending[m].key != pending[j].key
    {
      assert (pending + added)[m].key != (pending + added)[j].key;
    }
    assert JustBefore(pending, i, j);
  }

  lemma NewPairDiffers(pending: seq<Pending>, added: seq<Pending>, i: nat, j: nat)
    requires i < |pending| && j < |added| && JustBefore(pending + added, i, |pending| + j)
    requires PendingDigest(pending, added[j].key) != Some(added[j].digest)
    ensures pending[i].digest != added[j].digest
  {
    forall m | i < m < |pending|
      ensures pending[m].key != pending[i].key
    {
      assert (pending + added)[m].key != (pending + added)[|pending| + j].key;
    }
    PendingDigestIsLast(pending, i);
  }

  lemma AppendOrdered(pending: seq<Pending>, added: seq<Pending>, seqno: nat, now: nat)
    requires PendingOrdered(pending) && AgeOrdered(pending, now)
    requires forall p <- pending :: p.seqno < seqno
    requires forall i | 0 <= i < |added| :: added[i].seqno == seqno + i && added[i].at == now
    ensures var r := pending + added;
            PendingOrdered(r) && AgeOrdered(r, now) && forall p <- r :: p.seqno < seqno + |added|
  {
  }

  /** Appending a listing's changes keeps the window in order and echo-free. */
  lemma AppendKeeps(pending: seq<Pending>, cs: seq<Change>, seqno: nat, now: nat)
    requires PendingOrdered(pending) && NoEcho(pending) && AgeOrdered(pending, now)
    requires forall p <- pending :: p.seqno < seqno
    requires forall i, j | 0 <= i < j < |cs| :: cs[i].entry.key != cs[j].entry.key
    requires forall i | 0 <= i < |cs| :: PendingDigest(pending, cs[i].entry.key) != Some(cs[i].target)
    ensures var r := pending + NewPending(cs, seqno, now);
            PendingOrdered(r) && NoEcho(r) && AgeOrdered(r, now)
            && forall p <- r :: p.seqno < seqno + |cs|
  {
    var added := NewPending(cs, seqno, now);
    AppendOrdered(pending, added, seqno, now);
    AppendNoEcho(pending, added);
  }

  // ---- The invariant ----

  lemma StartInv(o: Options, resume: Resume, quiet: bool)
    requires !resume.Malformed?
    ensures Inv(o, Begin(Start0(o, resume, quiet).value))
  {
  }

  /** What a listing adds to a history. */
  lemma PollAdds(o: Options, h: History, listing: seq<ObjectEntry>, now: nat)
    requires !h.state.baseline.Silent?
    ensures var s := h.state;
            var cs := Taken(o, s, Current(listing), now);
            var s2 := Forget(o.env, Opened(o, s, now), Current(listing));
            Next(o, h, Poll(listing, now))
            == h.(state := Polled(o, s, listing, now).0,
                  issued := h.issued + NewPending(cs, s.nextSeq, now),
                  reported := h.reported + NewEvents(o, s2.confirmed, cs, s.nextSeq),
                  clock := now)
  {
  }

  lemma AddedTells(o: Options, s: State, current: map<Str, ObjectEntry>, now: nat, confirmed: map<Str, Str>)
    requires SeenKeyed(s) && forall k <- current :: current[k].key == k
    ensures var cs := Taken(o, s, current, now);
            var added := NewPending(cs, s.nextSeq, now);
            var evs := NewEvents(o, confirmed, cs, s.nextSeq);
            forall i | 0 <= i < |cs| :: added[i].seqno == s.nextSeq + i && Tells(o, evs[i], added[i])
  {
  }

  /** What expiry leaves is still in order. */
  lemma ExpiryKeeps(pending: seq<Pending>, clock: nat, now: nat, timeout: nat)
    requires PendingOrdered(pending) && NoEcho(pending) && AgeOrdered(pending, clock)
    ensures var r := Unexpired(pending, now, timeout);
            PendingOrdered(r) && NoEcho(r) && AgeOrdered(r, clock) && forall p <- r :: p in pending
  {
    UnexpiredIsSuffix(pending, now, timeout);
    SuffixKeeps(pending, |pending| - |Unexpired(pending, now, timeout)|, clock);
  }

  /** The pending changes after a listing. */
  lemma PolledPending(o: Options, s: State, listing: seq<ObjectEntry>, now: nat, clock: nat)
    requires Valid(o, s) && NoEcho(s.pending) && AgeOrdered(s.pending, clock) && clock <= now
    ensures var r := Polled(o, s, listing, now).0;
            PendingOrdered(r.pending) && NoEcho(r.pending) && AgeOrdered(r.pending, now)
            && (forall p <- r.pending :: p.seqno < r.nextSeq)
  {
    ExpiryKeeps(s.pending, clock, now, o.ackTimeout);
    if !s.baseline.Silent? {
      var kept := Unexpired(s.pending, now, o.ackTimeout);
      var cs := Taken(o, s, Current(listing), now);
      TakenFacts(o, s, Current(listing), now);
      AppendKeeps(kept, cs, s.nextSeq, now);
    }
  }

  lemma PolledSeen(o: Options, s: State, listing: seq<ObjectEntry>, now: nat)
    requires SeenKeyed(s)
    ensures SeenKeyed(Polled(o, s, listing, now).0)
  {
  }

  lemma PollKeepsWindow(o: Options, h: History, listing: seq<ObjectEntry>, now: nat)
    requires WindowInv(o, h) && h.clock <= now
    ensures WindowInv(o, Next(o, h, Poll(listing, now)))
  {
    PolledPending(o, h.state, listing, now, h.clock);
    PolledSeen(o, h.state, listing, now);
    var s' := Polled(o, h.state, listing, now).0;
    assert |s'.pending| <= o.maxInFlight;
    assert Next(o, h, Poll(listing, now)).state == s';
  }

  lemma PollKeepsLog(o: Options, h: History, listing: seq<ObjectEntry>, now: nat)
    requires Inv(o, h) && h.clock <= now && !h.state.baseline.Silent?
    ensures LogInv(o, Next(o, h, Poll(listing, now)))
  {
    var s := h.state;
    var current := Current(listing);
    var kept := Unexpired(s.pending, now, o.ackTimeout);
    ExpiryKeeps(s.pending, h.clock, now, o.ackTimeout);
    var cs := Taken(o, s, current, now);
    var s2 := Forget(o.env, Opened(o, s, now), current);
    AddedTells(o, s, current, now, s2.confirmed);
    PollAdds(o, h, listing, now);
    var added, evs := NewPending(cs, s.nextSeq, now), NewEvents(o, s2.confirmed, cs, s.nextSeq);
    LogAppend(o, h, Next(o, h, Poll(listing, now)), kept, added, evs);
  }

  lemma LogAppend(o: Options, h: History, h': History, kept: seq<Pending>, added: seq<Pending>, evs: seq<Event>)
    requires LogInv(o, h) && |added| == |evs|
    requires forall i | 0 <= i < |added| :: added[i].seqno == h.state.nextSeq + i && Tells(o, evs[i], added[i])
    requires forall p <- kept :: p in h.state.pending
    requires h'.issued == h.issued + added && h'.reported == h.reported + evs && h'.honoured == h.honoured
    requires h'.state.pending == kept + added && h'.state.nextSeq == h.state.nextSeq + |added|
    requires !h'.state.baseline.Silent?
    ensures LogInv(o, h')
  {
  }

  lemma PollKeepsFold(o: Options, h: History, listing: seq<ObjectEntry>, now: nat)
    requires LogInv(o, h) && FoldInv(h)
    ensures FoldInv(Next(o, h, Poll(listing, now)))
  {
  }

  lemma PollKeeps(o: Options, h: History, listing: seq<ObjectEntry>, now: nat)
    requires Inv(o, h) && h.clock <= now
    ensures Inv(o, Next(o, h, Poll(listing, now)))
  {
    PollKeepsWindow(o, h, listing, now);
    PollKeepsFold(o, h, listing, now);
    if h.state.baseline.Silent? {
      assert LogInv(o, Next(o, h, Poll(listing, now)));
    } else {
      PollKeepsLog(o, h, listing, now);
    }
  }

  lemma FoldAppend(base: map<Str, Str>, changes: seq<Pending>, p: Pending)
    ensures Fold(base, changes + [p]) == Apply(Fold(base, changes), p.key, p.digest)
  {
  }

  /** An honoured acknowledgement drops its change and all before it. */
  lemma AckedPending(o: Options, s: State, position: Option<nat>)
    requires PendingOrdered(s.pending) && Honoured(s, position).Some?
    ensures var i := PositionOf(s.pending, position.value).value;
            && Honoured(s, position).value == s.pending[i]
            && Acked(s, position).pending == s.pending[i + 1..]
  {
    AfterIsSuffix(s.pending, PositionOf(s.pending, position.value).value);
  }

  lemma AckKeepsWindow(o: Options, h: History, position: Option<nat>)
    requires WindowInv(o, h)
    ensures WindowInv(o, Next(o, h, Ack(position)))
  {
    if Honoured(h.state, position).Some? {
      AckedPending(o, h.state, position);
      SuffixKeeps(h.state.pending, PositionOf(h.state.pending, position.value).value + 1, h.clock);
    }
  }

  lemma LogSettle(o: Options, h: History, h': History, i: nat)
    requires WindowInv(o, h) && LogInv(o, h) && i < |h.state.pending|
    requires h'.issued == h.issued && h'.reported == h.reported
    requires h'.honoured == h.honoured + [h.state.pending[i]]
    requires h'.state.pending == h.state.pending[i + 1..]
    requires h'.state.nextSeq == h.state.nextSeq && h'.state.baseline == h.state.baseline
    ensures LogInv(o, h')
  {
    var p := h.state.pending[i];
    assert p in h.state.pending;
    forall q <- h'.state.pending
      ensures q in h.state.pending && p.seqno < q.seqno
    {
    }
  }

  lemma AckKeepsLog(o: Options, h: History, position: Option<nat>)
    requires WindowInv(o, h) && LogInv(o, h)
    ensures LogInv(o, Next(o, h, Ack(position)))
  {
    var h' := Next(o, h, Ack(position));
    if Honoured(h.state, position).Some? {
      AckedPending(o, h.state, position);
      LogSettle(o, h, h', PositionOf(h.state.pending, position.value).value);
    } else {
      assert h'.honoured == h.honoured;
    }
  }

  lemma AckKeeps(o: Options, h: History, position: Option<nat>)
    requires Inv(o, h)
    ensures Inv(o, Next(o, h, Ack(position)))
  {
    AckKeepsWindow(o, h, position);
    AckKeepsLog(o, h, position);
    if Honoured(h.state, position).Some? {
      FoldAppend(h.base, h.honoured, Honoured(h.state, position).value);
    } else {
      assert h.honoured + [] == h.honoured;
    }
  }

  lemma {:induction false} ClockedPrefix(steps: seq<Step>, from: nat)
    requires steps != [] && Clocked(steps, from)
    ensures Clocked(steps[..|steps| - 1], from)
  {
    if |steps| > 1 {
      var from' := if steps[0].Poll? then steps[0].now else from;
      ClockedPrefix(steps[1..], from');
      assert steps[1..][..|steps| - 2] == steps[..|steps| - 1][1..];
    }
  }

  lemma {:induction false} ClockedReaches(o: Options, h: History, init: seq<Step>, last: Step, from: nat)
    requires from == h.clock && Clocked(init + [last], from)
    ensures last.Poll? ==> Run(o, h, init).clock <= last.now
    decreases |init|
  {
    if init == [] {
      assert ([] + [last])[0] == last;
    } else {
      assert (init + [last])[0] == init[0] && (init + [last])[1..] == init[1..] + [last];
      var h1 := Next(o, h, init[0]);
      ClockedReaches(o, h1, init[1..], last, h1.clock);
      RunSplit(o, h, init);
    }
  }

  lemma {:induction false} RunSplit(o: Options, h: History, steps: seq<Step>)
    requires steps != []
    ensures Run(o, h, steps) == Run(o, Next(o, h, steps[0]), steps[1..])
  {
    if |steps| == 1 {
      assert steps[..0] == [] && steps[1..] == [];
    } else {
      var init := steps[..|steps| - 1];
      RunSplit(o, h, init);
      assert init[1..] == steps[1..][..|steps| - 2];
    }
  }

  /** Every run keeps the invariant, whatever is listed or acknowledged. */
  lemma {:induction false} RunKeeps(o: Options, h: History, steps: seq<Step>)
    requires Inv(o, h) && Clocked(steps, h.clock)
    ensures Inv(o, Run(o, h, steps))
  {
    if steps != [] {
      var init, last := steps[..|steps| - 1], steps[|steps| - 1];
      ClockedPrefix(steps, h.clock);
      RunKeeps(o, h, init);
      assert init + [last] == steps;
      ClockedReaches(o, h, init, last, h.clock);
      match last {
        case Poll(listing, now) => PollKeeps(o, Run(o, h, init), listing, now);
        case Ack(position) => AckKeeps(o, Run(o, h, init), position);
      }
    }
  }

  /** From any start, after any run: the window is ordered and bounded, no
      number is reused, and what is confirmed is the baseline folded with the
      honoured changes, each once and in sequence order. */
  lemma EveryRun(o: Options, resume: Resume, quiet: bool, steps: seq<Step>)
    requires !resume.Malformed? && Clocked(steps, 0)
    ensures Inv(o, Run(o, Begin(Start0(o, resume, quiet).value), steps))
  {
    StartInv(o, resume, quiet);
    RunKeeps(o, Begin(Start0(o, resume, quiet).value), steps);
  }
}
