/** The bytes fed to the hash for an entry's digest and for an event id: every
    part is preceded by its length as eight big-endian bytes. */
module Framing {
  import opened Strs

  const U64_LIMIT: nat := 0x1_0000_0000_0000_0000

  type u64 = n: int | 0 <= n < U64_LIMIT

  type i64 = n: int | -0x8000_0000_0000_0000 <= n < 0x8000_0000_0000_0000

  /** A key with whatever else the store tells of it. */
  datatype ObjectEntry = ObjectEntry(
    key: Str,
    size: Option<u64>,
    modifiedAtMs: Option<i64>,
    etag: Option<Str>,
    version: Option<Str>)

  datatype ObjectOp = Created | Modified | Deleted

  // ---- Big-endian lengths ----

  function BigEndian(n: nat, width: nat): (r: seq<byte>)
    ensures |r| == width
  {
    if width == 0 then [] else BigEndian(n / 256, width - 1) + [n % 256]
  }

  function FromBigEndian(s: seq<byte>): nat {
    if s == [] then 0 else FromBigEndian(s[..|s| - 1]) * 256 + s[|s| - 1]
  }

  ghost function Pow256(width: nat): nat {
    if width == 0 then 1 else 256 * Pow256(width - 1)
  }

  lemma {:induction false} BigEndianRoundTrip(n: nat, width: nat)
    requires n < Pow256(width)
    ensures FromBigEndian(BigEndian(n, width)) == n
  {
    if width > 0 {
      var s := BigEndian(n, width);
      assert s[..|s| - 1] == BigEndian(n / 256, width - 1);
      BigEndianRoundTrip(n / 256, width - 1);
    }
  }

  lemma LengthRoundTrip(n: nat)
    requires n < U64_LIMIT
    ensures FromBigEndian(BigEndian(n, 8)) == n
  {
    calc {
      Pow256(8);
      256 * Pow256(7);
      256 * 256 * Pow256(6);
      256 * 256 * 256 * Pow256(5);
      256 * 256 * 256 * 256 * Pow256(4);
      U64_LIMIT;
    }
    BigEndianRoundTrip(n, 8);
  }

  // ---- The framing and its decoder ----

  function Frame(parts: seq<Str>): Str {
    if parts == [] then [] else BigEndian(|parts[0]|, 8) + parts[0] + Frame(parts[1..])
  }

  /** Reads frames until the input is used up; `None` on a cut frame. */
  function Unframe(s: Str): Option<seq<Str>>
    decreases |s|
  {
    if s == [] then Some([])
    else if |s| < 8 then None
    else
      var n := FromBigEndian(s[..8]);
      if |s| < 8 + n then None
      else
        match Unframe(s[8 + n..])
        case None => None
        case Some(rest) => Some([s[8..8 + n]] + rest)
  }

  /** Rust's string lengths fit a `usize`. */
  ghost predicate Lengths(parts: seq<Str>) {
    forall i | 0 <= i < |parts| :: |parts[i]| < U64_LIMIT
  }

  lemma {:induction false} UnframeFrame(parts: seq<Str>)
    requires Lengths(parts)
    ensures Unframe(Frame(parts)) == Some(parts)
  {
    if parts != [] {
      var head, n, rest := BigEndian(|parts[0]|, 8), |parts[0]|, Frame(parts[1..]);
      var s := head + parts[0] + rest;
      LengthRoundTrip(n);
      assert s[..8] == head;
      assert s[8..8 + n] == parts[0];
      assert s[8 + n..] == rest;
      UnframeFrame(parts[1..]);
      assert parts == [parts[0]] + parts[1..];
    }
  }

  /** The framing is uniquely decodable. */
  lemma FrameInjective(a: seq<Str>, b: seq<Str>)
    requires Lengths(a) && Lengths(b) && Frame(a) == Frame(b)
    ensures a == b
  {
    UnframeFrame(a);
    UnframeFrame(b);
  }

  lemma {:induction false} FrameAppend(parts: seq<Str>, part: Str)
    ensures Frame(parts + [part]) == Frame(parts) + BigEndian(|part|, 8) + part
  {
    if parts == [] {
      assert [] + [part] == [part];
      assert Frame([part]) == BigEndian(|part|, 8) + part + [];
    } else {
      assert (parts + [part])[1..] == parts[1..] + [part];
      FrameAppend(parts[1..], part);
    }
  }

  /** The loops that feed a hasher part by part. */
  method Feed(parts: seq<Str>) returns (fed: Str)
    ensures fed == Frame(parts)
    ensures Lengths(parts) ==> Unframe(fed) == Some(parts)
  {
    fed := [];
    for i := 0 to |parts|
      invariant fed == Frame(parts[..i])
    {
      assert parts[..i + 1] == parts[..i] + [parts[i]];
      FrameAppend(parts[..i], parts[i]);
      fed := fed + BigEndian(|parts[i]|, 8);
      fed := fed + parts[i];
    }
    assert parts[..|parts|] == parts;
    if Lengths(parts) {
      UnframeFrame(parts);
    }
  }

  // ---- Decimal numbers ----

  function Decimal(n: nat): (r: Str)
    ensures 1 <= |r| <= 1 + n / 10
    ensures forall i | 0 <= i < |r| :: 48 <= r[i] < 58
  {
    if n < 10 then [48 + n] else Decimal(n / 10) + [48 + n % 10]
  }

  function FromDecimal(s: Str): int {
    if s == [] then 0 else FromDecimal(s[..|s| - 1]) * 10 + (s[|s| - 1] as int - 48)
  }

  lemma {:induction false} DecimalRoundTrip(n: nat)
    ensures FromDecimal(Decimal(n)) == n
  {
    var s := Decimal(n);
    if n >= 10 {
      assert s[..|s| - 1] == Decimal(n / 10);
      DecimalRoundTrip(n / 10);
    } else {
      assert s[..0] == [];
    }
  }

  function SignedDecimal(n: int): Str {
    if n < 0 then [45] + Decimal(-n) else Decimal(n)
  }

  lemma SignedDecimalInjective(a: int, b: int)
    requires SignedDecimal(a) == SignedDecimal(b)
    ensures a == b
  {
    DecimalRoundTrip(if a < 0 then -a else a);
    DecimalRoundTrip(if b < 0 then -b else b);
    if a < 0 {
      assert SignedDecimal(a)[0] == 45;
      assert SignedDecimal(a)[1..] == Decimal(-a);
    }
    if b < 0 {
      assert SignedDecimal(b)[0] == 45;
      assert SignedDecimal(b)[1..] == Decimal(-b);
    }
  }

  // ---- Digests and event ids ----

  function OrEmpty(s: Option<Str>): Str {
    if s.Some? then s.value else []
  }

  function DigestParts(e: ObjectEntry): seq<Str> {
    [ if e.size.Some? then Decimal(e.size.value) else [],
      if e.modifiedAtMs.Some? then SignedDecimal(e.modifiedAtMs.value) else [],
      OrEmpty(e.etag),
      OrEmpty(e.version) ]
  }

  /** What `ObjectEntry::digest` hashes. */
  function DigestBytes(e: ObjectEntry): Str {
    Frame(DigestParts(e))
  }

  /** What is hashed for a digest decodes to the four details, in order. */
  lemma DigestBytesDecode(e: ObjectEntry)
    requires EntryFits(e)
    ensures Unframe(DigestBytes(e))
         == Some([ if e.size.Some? then Decimal(e.size.value) else [],
                   if e.modifiedAtMs.Some? then SignedDecimal(e.modifiedAtMs.value) else [],
                   if e.etag.Some? then e.etag.value else [],
                   if e.version.Some? then e.version.value else [] ])
  {
    UnframeFrame(DigestParts(e));
  }

  ghost predicate EntryFits(e: ObjectEntry) {
    |e.key| < U64_LIMIT && |OrEmpty(e.etag)| < U64_LIMIT && |OrEmpty(e.version)| < U64_LIMIT
  }

  /** Two entries feed the hash the same bytes exactly when size and time
      agree, absence included, and etag and version agree up to absent = empty. */
  lemma DigestBytesDetermine(a: ObjectEntry, b: ObjectEntry)
    requires EntryFits(a) && EntryFits(b)
    ensures DigestBytes(a) == DigestBytes(b) <==>
            && a.size == b.size
            && a.modifiedAtMs == b.modifiedAtMs
            && OrEmpty(a.etag) == OrEmpty(b.etag)
            && OrEmpty(a.version) == OrEmpty(b.version)
  {
    if DigestBytes(a) == DigestBytes(b) {
      var p, q := DigestParts(a), DigestParts(b);
      FrameInjective(p, q);
      assert p[0] == q[0] && p[1] == q[1] && p[2] == q[2] && p[3] == q[3];
      if a.size.Some? && b.size.Some? {
        DecimalRoundTrip(a.size.value);
        DecimalRoundTrip(b.size.value);
      }
      if a.modifiedAtMs.Some? && b.modifiedAtMs.Some? {
        SignedDecimalInjective(a.modifiedAtMs.value, b.modifiedAtMs.value);
      }
    }
  }

  /** The JSON text of an op, quotes included. */
  function OpName(op: ObjectOp): Str {
    match op
    case Created => Ascii("\"created\"")
    case Modified => Ascii("\"modified\"")
    case Deleted => Ascii("\"deleted\"")
  }

  lemma OpNameInjective(a: ObjectOp, b: ObjectOp)
    requires OpName(a) == OpName(b)
    ensures a == b
  {
    assert OpName(Created)[1] == 'c' as int;
    assert OpName(Deleted)[1] == 'd' as int;
    assert OpName(Modified)[1] == 'm' as int;
  }

  /** What `Inventory::event` hashes; a deletion has no digest. */
  function EventIdBytes(store: Str, location: Str, key: Str, op: ObjectOp, digest: Option<Str>): Str {
    Frame([store, location, key, OpName(op), OrEmpty(digest)])
  }

  /** What is hashed for an event's id decodes to the store, the location, the key,
      the operation and the digest, in order. */
  lemma EventIdBytesDecode(store: Str, location: Str, key: Str, op: ObjectOp, digest: Option<Str>)
    requires |store| < U64_LIMIT && |location| < U64_LIMIT && |key| < U64_LIMIT && |OrEmpty(digest)| < U64_LIMIT
    ensures Unframe(EventIdBytes(store, location, key, op, digest))
         == Some([ store, location, key, OpName(op), if digest.Some? then digest.value else [] ])
  {
    OpNameLength(op);
    UnframeFive(store, location, key, OpName(op), OrEmpty(digest), EventIdBytes(store, location, key, op, digest));
  }

  lemma UnframeFive(a: Str, b: Str, c: Str, d: Str, e: Str, bytes: Str)
    requires |a| < U64_LIMIT && |b| < U64_LIMIT && |c| < U64_LIMIT && |d| < U64_LIMIT && |e| < U64_LIMIT
    requires bytes == Frame([a, b, c, d, e])
    ensures Unframe(bytes) == Some([a, b, c, d, e])
  {
    var parts := [a, b, c, d, e];
    UnframeFrame(parts);
  }

  /** Equal id bytes mean the same change of the same object. */
  lemma EventIdBytesInjective(
    store: Str, location: Str, key: Str, op: ObjectOp, digest: Option<Str>,
    store': Str, location': Str, key': Str, op': ObjectOp, digest': Option<Str>)
    requires |store| < U64_LIMIT && |location| < U64_LIMIT && |key| < U64_LIMIT && |OrEmpty(digest)| < U64_LIMIT
    requires |store'| < U64_LIMIT && |location'| < U64_LIMIT && |key'| < U64_LIMIT && |OrEmpty(digest')| < U64_LIMIT
    requires op.Deleted? <==> digest.None?
    requires op'.Deleted? <==> digest'.None?
    requires EventIdBytes(store, location, key, op, digest) == EventIdBytes(store', location', key', op', digest')
    ensures store == store' && location == location' && key == key' && op == op' && digest == digest'
  {
    OpNameLength(op);
    OpNameLength(op');
    FrameFive(store, location, key, OpName(op), OrEmpty(digest), store', location', key', OpName(op'), OrEmpty(digest'));
    OpNameInjective(op, op');
  }

  lemma OpNameLength(op: ObjectOp)
    ensures |OpName(op)| < 11
  {
  }

  lemma FrameFive(a: Str, b: Str, c: Str, d: Str, e: Str, a': Str, b': Str, c': Str, d': Str, e': Str)
    requires |a| < U64_LIMIT && |b| < U64_LIMIT && |c| < U64_LIMIT && |d| < U64_LIMIT && |e| < U64_LIMIT
    requires |a'| < U64_LIMIT && |b'| < U64_LIMIT && |c'| < U64_LIMIT && |d'| < U64_LIMIT && |e'| < U64_LIMIT
    requires Frame([a, b, c, d, e]) == Frame([a', b', c', d', e'])
    ensures a == a' && b == b' && c == c' && d == d' && e == e'
  {
    var p, q := [a, b, c, d, e], [a', b', c', d', e'];
    FrameInjective(p, q);
    assert p[0] == q[0] && p[1] == q[1] && p[2] == q[2] && p[3] == q[3] && p[4] == q[4];
  }
}
