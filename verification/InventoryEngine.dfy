/** The diff engine of one inventory watch, updated in place by listings and
    acknowledgements. */
module InventoryEngine {
  import opened Strs
  import opened Framing
  import opened InventorySpec

  class Inventory {
    const options: Options
    const quietRemovals: bool
    var confirmed: map<Str, Str>
    var seen: map<Str, ObjectEntry>
    var pending: seq<Pending>
    var nextSeq: nat
    var baseline: Baseline
    var gap: bool

    function View(): State
      reads this
    {
      State(confirmed, seen, pending, nextSeq, baseline, gap, quietRemovals)
    }

    constructor (options: Options, start: State)
      ensures this.options == options && View() == start
    {
      this.options := options;
      this.quietRemovals := start.quiet;
      this.confirmed := start.confirmed;
      this.seen := start.seen;
      this.pending := start.pending;
      this.nextSeq := start.nextSeq;
      this.baseline := start.baseline;
      this.gap := start.gap;
    }

    /** A fresh start, a snapshot, a cursor without one, or an error. */
    static method New(options: Options, resume: Resume, quiet: bool) returns (r: Result<Inventory, ()>)
      ensures r.Err? <==> resume.Malformed?
      ensures r.Ok? ==> fresh(r.value) && r.value.options == options
                        && Start0(options, resume, quiet) == Ok(r.value.View())
    {
      if resume.Malformed? {
        return Err(());
      }
      var confirmed: map<Str, Str>, baseline, gap := map[], Silent, false;
      match resume {
        case Absent =>
          baseline := if options.start.Now? then Silent else Report;
        case Stored(cursor) =>
          if cursor.snap.Some? {
            confirmed, baseline := cursor.snap.value, Baseline.Known;
          } else {
            gap := true;
          }
      }
      var inventory := new Inventory(options, State(confirmed, map[], [], 0, baseline, gap, quiet));
      return Ok(inventory);
    }

    /** Expiry, the gap, the baseline, then what differs, as the window has room. */
    method Poll(listing: seq<ObjectEntry>, now: nat) returns (events: seq<Event>)
      modifies this
      ensures (View(), events) == Polled(options, old(View()), listing, now)
    {
      pending := Unexpired(pending, now, options.ackTimeout);
      events := [];
      if gap {
        gap := false;
        events := [Gap];
      }
      var current := Current(listing);
      if baseline.Silent? {
        confirmed := Digests(options.env, current);
        seen := current;
        baseline := Baseline.Known;
        return;
      }
      baseline := Baseline.Known;
      var changes := Compare(current);
      var take := Min(|changes|, Room(options, View()));
      assert changes[..take] == Taken(options, old(View()), current, now);
      var emitted := Emit(changes[..take], now);
      events := events + emitted;
    }

    /** What the listing changes, in the order it is reported; what it shows is
        remembered, and with quiet removals what left it is forgotten. */
    method Compare(current: map<Str, ObjectEntry>) returns (changes: seq<Change>)
      modifies this`confirmed, this`seen
      ensures changes == ChangesFor(options.env, old(View()), current, DueKeys(options.env, old(View()), current))
      ensures var s2 := Forget(options.env, old(View()), current); View() == s2.(seen := s2.seen + current)
    {
      ghost var s := View();
      var alive := KeysOf(current.Keys);
      changes := AliveChanges(current, alive);
      AliveSorted(options.env, s, current, current.Keys);
      var left := KeysOf(confirmed.Keys - current.Keys);
      var gone := GoneKeys(current, left);
      GoneSorted(options.env, s, current, confirmed.Keys - current.Keys);
      if quietRemovals {
        ForgetAll(gone);
        ElementsSorted(GoneDue(options.env, s, current));
      } else {
        var deletions := GoneChanges(gone, current);
        ChangesForConcat(options.env, s, current, SortedKeys(AliveDue(options.env, s, current)), gone);
        changes := changes + deletions;
      }
      seen := SeenWith(current, alive);
    }

    /** The first loop of a listing: what it shows that differs. */
    method AliveChanges(current: map<Str, ObjectEntry>, keys: seq<Str>) returns (changes: seq<Change>)
      requires forall k <- keys :: k in current
      ensures changes == ChangesFor(options.env, View(), current, FilterDue(options.env, View(), current, keys))
    {
      ghost var s := View();
      ghost var due := [];
      changes := [];
      for i := 0 to |keys|
        invariant due == FilterDue(options.env, s, current, keys[..i])
        invariant changes == ChangesFor(options.env, s, current, due)
      {
        var key := keys[i];
        FilterDueAppend(options.env, s, current, keys, i);
        var entry := current[key];
        var digest := Digest(options.env, entry);
        if PendingDigest(pending, key) == Some(Some(digest)) {
          continue;
        }
        if key in confirmed {
          if confirmed[key] != digest {
            changes := changes + [Change(Modified, entry, Some(digest))];
            ChangesForConcat(options.env, s, current, due, [key]);
            due := due + [key];
          }
        } else {
          changes := changes + [Change(Created, entry, Some(digest))];
          ChangesForConcat(options.env, s, current, due, [key]);
          due := due + [key];
        }
      }
      assert keys[..|keys|] == keys;
    }

    /** The keys that left the listing with no deletion in flight. */
    method GoneKeys(current: map<Str, ObjectEntry>, keys: seq<Str>) returns (gone: seq<Str>)
      requires forall k <- keys :: k in confirmed && k !in current
      ensures gone == FilterDue(options.env, View(), current, keys)
    {
      ghost var s := View();
      gone := [];
      for i := 0 to |keys|
        invariant gone == FilterDue(options.env, s, current, keys[..i])
      {
        FilterDueAppend(options.env, s, current, keys, i);
        assert keys[i] in keys;
        if PendingDigest(pending, keys[i]) != Some(None) {
          gone := gone + [keys[i]];
        }
      }
      assert keys[..|keys|] == keys;
    }

    /** A deletion for each key, with the last details seen of it. */
    method GoneChanges(gone: seq<Str>, current: map<Str, ObjectEntry>) returns (changes: seq<Change>)
      requires forall k <- gone :: k !in current
      ensures changes == ChangesFor(options.env, View(), current, gone)
    {
      changes := [];
      for i := 0 to |gone|
        invariant changes == ChangesFor(options.env, View(), current, gone[..i])
      {
        var key := gone[i];
        assert key in gone;
        var last := if key in seen then seen[key] else ObjectEntry(key, None, None, None, None);
        changes := changes + [Change(Deleted, last, None)];
      }
      assert gone[..|gone|] == gone;
    }

    method ForgetAll(gone: seq<Str>)
      modifies this`confirmed, this`seen
      ensures confirmed == old(confirmed) - Elements(gone)
      ensures seen == old(seen) - Elements(gone)
    {
      for i := 0 to |gone|
        invariant confirmed == old(confirmed) - Elements(gone[..i])
        invariant seen == old(seen) - Elements(gone[..i])
      {
        ElementsAppend(gone, i);
        confirmed := confirmed - {gone[i]};
        seen := seen - {gone[i]};
      }
      assert gone[..|gone|] == gone;
    }

    /** The details of everything listed, over those seen before. */
    method SeenWith(current: map<Str, ObjectEntry>, keys: seq<Str>) returns (r: map<Str, ObjectEntry>)
      requires forall k :: k in keys <==> k in current
      ensures r == seen + current
    {
      r := seen;
      for i := 0 to |keys|
        invariant forall k :: k in r <==> k in seen || k in keys[..i]
        invariant forall k <- r :: r[k] == if k in keys[..i] then current[k] else seen[k]
      {
        assert keys[i] in keys;
        assert keys[..i + 1] == keys[..i] + [keys[i]];
        r := r[keys[i] := current[keys[i]]];
      }
      assert keys[..|keys|] == keys;
    }

    /** Numbers each change, holds it in the window and makes its event. */
    method Emit(changes: seq<Change>, now: nat) returns (events: seq<Event>)
      modifies this`pending, this`nextSeq
      ensures pending == old(pending) + NewPending(changes, old(nextSeq), now)
      ensures nextSeq == old(nextSeq) + |changes|
      ensures events == NewEvents(options, confirmed, changes, old(nextSeq))
    {
      events := [];
      for i := 0 to |changes|
        invariant nextSeq == old(nextSeq) + i
        invariant |events| == i && |pending| == |old(pending)| + i
        invariant pending[..|old(pending)|] == old(pending)
        invariant forall j | 0 <= j < i ::
            pending[|old(pending)| + j] == Pending(old(nextSeq) + j, changes[j].entry.key, changes[j].target, now)
        invariant forall j | 0 <= j < i ::
            events[j] == EventFor(options, confirmed, changes[j], old(nextSeq) + j, j + 1 == |changes|)
      {
        var c := changes[i];
        var seqno := nextSeq;
        nextSeq := nextSeq + 1;
        pending := pending + [Pending(seqno, c.entry.key, c.target, now)];
        var snap := if i + 1 == |changes| then Snapshot(options, confirmed, c.entry.key, c.target) else None;
        events := events + [Changed(EventId(options, c.entry.key, c.op, c.target), c.op, c.entry, Cursor(seqno, snap))];
      }
    }

    /** The host is done with the change at `position`; a position without a
        number, or of no pending change, does nothing. */
    method Acknowledged(position: Option<nat>)
      modifies this
      ensures View() == Acked(old(View()), position)
    {
      if position.None? {
        return;
      }
      var seqno := position.value;
      var index := PositionOf(pending, seqno);
      if index.None? {
        return;
      }
      var settled := pending[index.value];
      pending := After(pending[..index.value] + pending[index.value + 1..], seqno);
      AfterSkips(old(pending), index.value, seqno);
      if settled.digest.Some? {
        confirmed := confirmed[settled.key := settled.digest.value];
      } else {
        confirmed := confirmed - {settled.key};
        seen := seen - {settled.key};
      }
    }

    /** The gate of the watch thread. */
    method HasRoom() returns (room: bool)
      ensures room <==> Room(options, View()) > 0
    {
      room := |pending| < options.maxInFlight;
    }
  }

  // ---- The loops against the sorted sets of the specification ----

  ghost function FilterDue(env: Env, s: State, current: map<Str, ObjectEntry>, keys: seq<Str>): seq<Str> {
    if keys == [] then []
    else
      var last := keys[|keys| - 1];
      FilterDue(env, s, current, keys[..|keys| - 1])
      + (if Due(env, s, current, last) then [last] else [])
  }

  lemma FilterDueAppend(env: Env, s: State, current: map<Str, ObjectEntry>, keys: seq<Str>, i: nat)
    requires i < |keys|
    ensures FilterDue(env, s, current, keys[..i + 1])
         == FilterDue(env, s, current, keys[..i]) + (if Due(env, s, current, keys[i]) then [keys[i]] else [])
  {
    assert keys[..i + 1][..i] == keys[..i];
  }

  lemma ChangesForConcat(env: Env, s: State, current: map<Str, ObjectEntry>, a: seq<Str>, b: seq<Str>)
    ensures ChangesFor(env, s, current, a + b) == ChangesFor(env, s, current, a) + ChangesFor(env, s, current, b)
  {
  }

  lemma ElementsAppend(keys: seq<Str>, i: nat)
    requires i < |keys|
    ensures Elements(keys[..i + 1]) == Elements(keys[..i]) + {keys[i]}
  {
  }

  lemma ElementsSorted(s: set<Str>)
    ensures Elements(SortedKeys(s)) == s
  {
  }

  lemma {:induction false} FilterDueKeeps(env: Env, s: State, current: map<Str, ObjectEntry>, keys: seq<Str>)
    requires Sorted(keys)
    ensures Sorted(FilterDue(env, s, current, keys))
    ensures forall k :: k in FilterDue(env, s, current, keys) <==> k in keys && Due(env, s, current, k)
  {
    if keys != [] {
      var init, last := keys[..|keys| - 1], keys[|keys| - 1];
      FilterDueKeeps(env, s, current, init);
      var r := FilterDue(env, s, current, init);
      assert keys == init + [last];
      forall k <- r
        ensures Lt(k, last)
      {
        var j :| 0 <= j < |init| && init[j] == k;
        assert keys[j] == k;
      }
    }
  }

  /** Filtering a sorted listing gives the sorted due keys. */
  lemma FilterDueSorted(env: Env, s: State, current: map<Str, ObjectEntry>, from: set<Str>)
    ensures FilterDue(env, s, current, SortedKeys(from)) == SortedKeys(set k | k in from && Due(env, s, current, k))
  {
    var due := set k | k in from && Due(env, s, current, k);
    FilterDueKeeps(env, s, current, SortedKeys(from));
    SortedUnique(FilterDue(env, s, current, SortedKeys(from)), SortedKeys(due));
  }

  lemma AliveSorted(env: Env, s: State, current: map<Str, ObjectEntry>, from: set<Str>)
    requires from == current.Keys
    ensures FilterDue(env, s, current, SortedKeys(from)) == SortedKeys(AliveDue(env, s, current))
  {
    FilterDueSorted(env, s, current, from);
    assert AliveDue(env, s, current) == set k | k in from && Due(env, s, current, k);
  }

  lemma GoneSorted(env: Env, s: State, current: map<Str, ObjectEntry>, from: set<Str>)
    requires from == s.confirmed.Keys - current.Keys
    ensures FilterDue(env, s, current, SortedKeys(from)) == SortedKeys(GoneDue(env, s, current))
  {
    FilterDueSorted(env, s, current, from);
    assert GoneDue(env, s, current) == set k | k in from && Due(env, s, current, k);
  }

  lemma {:induction false} AfterSkips(pending: seq<Pending>, index: nat, seqno: nat)
    requires index < |pending| && pending[index].seqno == seqno
    ensures After(pending[..index] + pending[index + 1..], seqno) == After(pending, seqno)
  {
    if index == 0 {
      assert pending[..0] + pending[1..] == pending[1..];
    } else {
      var rest := pending[..index] + pending[index + 1..];
      assert rest[1..] == pending[1..][..index - 1] + pending[1..][index..];
      AfterSkips(pending[1..], index - 1, seqno);
    }
  }
}
