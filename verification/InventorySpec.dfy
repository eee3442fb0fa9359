/** What each update of an inventory computes, as functions on the values of
    its fields. */
module InventorySpec {
  import opened Strs
  import opened Framing

  /** What the engine asks of hashing and JSON: an entry's digest, a change's
      event id, a snapshot's serialized size. */
  datatype Env = Env(
    digest: ObjectEntry -> Str,
    eventId: (Str, ObjectOp, Option<Str>) -> Str,
    jsonSize: map<Str, Str> -> nat)

  /** The environment of a store: digests and ids are hashes of the framed bytes. */
  function StoreEnv(hash12: Str -> Str, hash32: Str -> Str, store: Str, location: Str,
                    jsonSize: map<Str, Str> -> nat): Env
  {
    Env((e: ObjectEntry) => hash12(DigestBytes(e)),
        (key: Str, op: ObjectOp, digest: Option<Str>) => hash32(EventIdBytes(store, location, key, op, digest)),
        jsonSize)
  }

  datatype Start = Now | Existing

  datatype Options = Options(
    env: Env,
    start: Start,
    snapshotBytes: nat,
    maxInFlight: nat,
    ackTimeout: nat)

  datatype Cursor = Cursor(seqno: nat, snap: Option<map<Str, Str>>)

  /** The stored position a watch starts from. */
  datatype Resume = Absent | Malformed | Stored(cursor: Cursor)

  /** The digest is `None` for a deletion. */
  datatype Pending = Pending(seqno: nat, key: Str, digest: Option<Str>, at: nat)

  datatype Baseline = Silent | Report | Known

  datatype Event =
    | Gap
    | Changed(id: Str, op: ObjectOp, entry: ObjectEntry, cursor: Cursor)

  /** A change found by a listing, before it is given a number. */
  datatype Change = Change(op: ObjectOp, entry: ObjectEntry, target: Option<Str>)

  /** The fields of an `Inventory`, as a value. */
  datatype State = State(
    confirmed: map<Str, Str>,
    seen: map<Str, ObjectEntry>,
    pending: seq<Pending>,
    nextSeq: nat,
    baseline: Baseline,
    gap: bool,
    quiet: bool)

  function Digest(env: Env, e: ObjectEntry): Str {
    (env.digest)(e)
  }

  function Digests(env: Env, current: map<Str, ObjectEntry>): map<Str, Str> {
    map k | k in current :: Digest(env, current[k])
  }

  // ---- Starting ----

  function Start0(o: Options, resume: Resume, quiet: bool): Result<State, ()> {
    match resume
    case Malformed => Err(())
    case Absent =>
      Ok(State(map[], map[], [], 0, if o.start.Now? then Silent else Report, false, quiet))
    case Stored(c) =>
      if c.snap.Some?
      then Ok(State(c.snap.value, map[], [], 0, Baseline.Known, false, quiet))
      else Ok(State(map[], map[], [], 0, Silent, true, quiet))
  }

  // ---- What a listing makes of the state ----

  /** The listing by key; the last entry of a key wins. */
  function Current(listing: seq<ObjectEntry>): (m: map<Str, ObjectEntry>)
    ensures forall k <- m :: m[k].key == k
  {
    if listing == [] then map[]
    else
      var last := listing[|listing| - 1];
      Current(listing[..|listing| - 1])[last.key := last]
  }

  /** The pending changes still within the timeout. */
  function Unexpired(pending: seq<Pending>, now: nat, timeout: nat): (r: seq<Pending>)
    ensures |r| <= |pending|
  {
    if pending == [] then []
    else
      (if now - pending[0].at < timeout then [pending[0]] else [])
      + Unexpired(pending[1..], now, timeout)
  }

  /** Where the last of the changes of `key` leads it, `Some(None)` being gone; the
      outer `None` says no change is of that key. */
  function PendingDigest(pending: seq<Pending>, key: Str): Option<Option<Str>> {
    if pending == [] then None
    else
      var last := pending[|pending| - 1];
      if last.key == key then Some(last.digest)
      else PendingDigest(pending[..|pending| - 1], key)
  }

  function Held(confirmed: map<Str, Str>, key: Str): Option<Str> {
    if key in confirmed then Some(confirmed[key]) else None
  }

  function Target(env: Env, current: map<Str, ObjectEntry>, key: Str): Option<Str> {
    if key in current then Some(Digest(env, current[key])) else None
  }

  /** The listing differs from what is confirmed at `key`, and no change to
      what it shows is already in flight. */
  predicate Due(env: Env, s: State, current: map<Str, ObjectEntry>, key: Str) {
    Target(env, current, key) != Held(s.confirmed, key)
    && PendingDigest(s.pending, key) != Some(Target(env, current, key))
  }

  function OpFor(held: Option<Str>, target: Option<Str>): ObjectOp {
    if target.None? then Deleted else if held.Some? then Modified else Created
  }

  function EntryFor(s: State, current: map<Str, ObjectEntry>, key: Str): (e: ObjectEntry) {
    if key in current then current[key]
    else if key in s.seen then s.seen[key]
    else ObjectEntry(key, None, None, None, None)
  }

  function ChangeFor(env: Env, s: State, current: map<Str, ObjectEntry>, key: Str): Change {
    var target := Target(env, current, key);
    Change(OpFor(Held(s.confirmed, key), target), EntryFor(s, current, key), target)
  }

  function ChangesFor(env: Env, s: State, current: map<Str, ObjectEntry>, keys: seq<Str>): (r: seq<Change>)
    ensures |r| == |keys|
  {
    seq(|keys|, i requires 0 <= i < |keys| => ChangeFor(env, s, current, keys[i]))
  }

  function AliveDue(env: Env, s: State, current: map<Str, ObjectEntry>): set<Str> {
    set k | k in current && Due(env, s, current, k)
  }

  function GoneDue(env: Env, s: State, current: map<Str, ObjectEntry>): set<Str> {
    set k | k in s.confirmed && k !in current && Due(env, s, current, k)
  }

  /** The keys a listing reports: what it shows, in key order, then what left it. */
  ghost function DueKeys(env: Env, s: State, current: map<Str, ObjectEntry>): seq<Str> {
    SortedKeys(AliveDue(env, s, current))
    + (if s.quiet then [] else SortedKeys(GoneDue(env, s, current)))
  }

  /** With quiet removals, what left the listing is forgotten at once. */
  function Forget(env: Env, s: State, current: map<Str, ObjectEntry>): State {
    if s.quiet
    then s.(confirmed := s.confirmed - GoneDue(env, s, current), seen := s.seen - GoneDue(env, s, current))
    else s
  }

  function Apply(confirmed: map<Str, Str>, key: Str, digest: Option<Str>): map<Str, Str> {
    if digest.Some? then confirmed[key := digest.value] else confirmed - {key}
  }

  function Snapshot(o: Options, confirmed: map<Str, Str>, key: Str, digest: Option<Str>): Option<map<Str, Str>> {
    var snap := Apply(confirmed, key, digest);
    if (o.env.jsonSize)(snap) <= o.snapshotBytes then Some(snap) else None
  }

  function EventId(o: Options, key: Str, op: ObjectOp, digest: Option<Str>): Str {
    (o.env.eventId)(key, op, digest)
  }

  /** The event of change `c`, numbered `seqno`; only the last of a listing
      carries a snapshot. */
  function EventFor(o: Options, confirmed: map<Str, Str>, c: Change, seqno: nat, last: bool): Event {
    Changed(
      EventId(o, c.entry.key, c.op, c.target), c.op, c.entry,
      Cursor(seqno, if last then Snapshot(o, confirmed, c.entry.key, c.target) else None))
  }

  function NewPending(cs: seq<Change>, seqno: nat, now: nat): (r: seq<Pending>)
    ensures |r| == |cs|
  {
    seq(|cs|, i requires 0 <= i < |cs| => Pending(seqno + i, cs[i].entry.key, cs[i].target, now))
  }

  function NewEvents(o: Options, confirmed: map<Str, Str>, cs: seq<Change>, seqno: nat): (r: seq<Event>)
    ensures |r| == |cs|
  {
    seq(|cs|, i requires 0 <= i < |cs| => EventFor(o, confirmed, cs[i], seqno + i, i + 1 == |cs|))
  }

  function Min(a: nat, b: nat): nat {
    if a <= b then a else b
  }

  function Room(o: Options, s: State): nat {
    if |s.pending| <= o.maxInFlight then o.maxInFlight - |s.pending| else 0
  }

  /** The state in which a listing is compared. */
  function Opened(o: Options, s: State, now: nat): State {
    s.(pending := Unexpired(s.pending, now, o.ackTimeout), gap := false, baseline := Baseline.Known)
  }

  /** The changes one listing emits: as many as the window has room for. */
  ghost function Taken(o: Options, s: State, current: map<Str, ObjectEntry>, now: nat): seq<Change> {
    var s1 := Opened(o, s, now);
    var keys := DueKeys(o.env, s1, current);
    ChangesFor(o.env, s1, current, keys[..Min(|keys|, Room(o, s1))])
  }

  function GapEvents(s: State): seq<Event> {
    if s.gap then [Gap] else []
  }

  ghost function Polled(o: Options, s: State, listing: seq<ObjectEntry>, now: nat): (State, seq<Event>) {
    var current := Current(listing);
    var s1 := Opened(o, s, now);
    if s.baseline.Silent? then
      (s1.(confirmed := Digests(o.env, current), seen := current), GapEvents(s))
    else
      var s2 := Forget(o.env, s1, current);
      var cs := Taken(o, s, current, now);
      (s2.(seen := s2.seen + current,
           pending := s2.pending + NewPending(cs, s2.nextSeq, now),
           nextSeq := s2.nextSeq + |cs|),
       GapEvents(s) + NewEvents(o, s2.confirmed, cs, s2.nextSeq))
  }

  // ---- What an acknowledgement makes of the state ----

  function PositionOf(pending: seq<Pending>, seqno: nat): (r: Option<nat>)
    ensures r.Some? ==> r.value < |pending| && pending[r.value].seqno == seqno
                        && forall j | 0 <= j < r.value :: pending[j].seqno != seqno
    ensures r.None? ==> forall j | 0 <= j < |pending| :: pending[j].seqno != seqno
  {
    if pending == [] then None
    else if pending[0].seqno == seqno then Some(0)
    else
      match PositionOf(pending[1..], seqno)
      case Some(i) => Some(i + 1)
      case None => None
  }

  function After(pending: seq<Pending>, seqno: nat): (r: seq<Pending>)
    ensures |r| <= |pending|
  {
    if pending == [] then []
    else (if pending[0].seqno > seqno then [pending[0]] else []) + After(pending[1..], seqno)
  }

  /** The pending change an acknowledgement settles, if it names one. */
  function Honoured(s: State, position: Option<nat>): Option<Pending> {
    if position.None? then None
    else
      match PositionOf(s.pending, position.value)
      case None => None
      case Some(i) => Some(s.pending[i])
  }

  function Acked(s: State, position: Option<nat>): State {
    match Honoured(s, position)
    case None => s
    case Some(p) =>
      s.(pending := After(s.pending, p.seqno),
         confirmed := Apply(s.confirmed, p.key, p.digest),
         seen := if p.digest.Some? then s.seen else s.seen - {p.key})
  }

  // ---- The invariant of the fields ----

  ghost predicate PendingOrdered(pending: seq<Pending>) {
    forall i, j | 0 <= i < j < |pending| :: pending[i].seqno < pending[j].seqno
  }

  ghost predicate SeenKeyed(s: State) {
    forall k <- s.seen :: s.seen[k].key == k
  }

  ghost predicate Valid(o: Options, s: State) {
    && PendingOrdered(s.pending)
    && (forall p <- s.pending :: p.seqno < s.nextSeq)
    && |s.pending| <= o.maxInFlight
    && SeenKeyed(s)
    && (s.gap ==> s.baseline.Silent?)
  }
}
