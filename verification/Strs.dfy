/** Byte strings with the byte-wise order of Rust's `String`, and the sorted
    key sequences that iterating a `BTreeMap` visits. */
module Strs {

  type byte = b: int | 0 <= b < 256

  /** A UTF-8 string as its bytes: comparison and length are byte-wise. */
  type Str = seq<byte>

  datatype Option<+T> = None | Some(value: T)

  datatype Result<+T, +E> = Ok(value: T) | Err(error: E)

  /** The bytes of an ASCII literal. */
  function Ascii(s: string): (r: Str)
    requires forall i | 0 <= i < |s| :: s[i] as int < 128
    ensures |r| == |s|
    ensures forall i | 0 <= i < |s| :: r[i] == s[i] as int
  {
    if s == "" then [] else [s[0] as int] + Ascii(s[1..])
  }

  predicate Lt(a: Str, b: Str) {
    b != [] && (a == [] || a[0] < b[0] || (a[0] == b[0] && Lt(a[1..], b[1..])))
  }

  /** The byte-wise order: at the first byte that differs, or the shorter first. */
  lemma {:induction false} LtIs(a: Str, b: Str)
    ensures Lt(a, b) <==> exists i: nat :: i <= |a| && i < |b| && a[..i] == b[..i] && (i == |a| || a[i] < b[i])
  {
    if a == [] || b == [] {
      assert b != [] ==> a[..0] == b[..0];
    } else {
      LtIs(a[1..], b[1..]);
      if i: nat :| i <= |a| && i < |b| && a[..i] == b[..i] && (i == |a| || a[i] < b[i]) {
        if i > 0 {
          assert a[..i][0] == b[..i][0] && a[1..][..i - 1] == a[..i][1..] && b[1..][..i - 1] == b[..i][1..];
        }
      }
      if a[0] < b[0] {
        assert a[..0] == b[..0];
      } else if a[0] == b[0] && Lt(a[1..], b[1..]) {
        var j: nat :| j <= |a[1..]| && j < |b[1..]| && a[1..][..j] == b[1..][..j] && (j == |a[1..]| || a[1..][j] < b[1..][j]);
        assert a[..j + 1] == [a[0]] + a[1..][..j] && b[..j + 1] == [b[0]] + b[1..][..j];
      }
    }
  }

  lemma {:induction false} LtIrreflexive(a: Str)
    ensures !Lt(a, a)
  {
    if a != [] {
      LtIrreflexive(a[1..]);
    }
  }

  lemma {:induction false} LtTransitive(a: Str, b: Str, c: Str)
    requires Lt(a, b) && Lt(b, c)
    ensures Lt(a, c)
  {
    if a != [] && a[0] == b[0] && b[0] == c[0] {
      LtTransitive(a[1..], b[1..], c[1..]);
    }
  }

  lemma {:induction false} LtTotal(a: Str, b: Str)
    ensures a == b || Lt(a, b) || Lt(b, a)
  {
    if a != [] && b != [] && a[0] == b[0] {
      LtTotal(a[1..], b[1..]);
      assert a == [a[0]] + a[1..] && b == [b[0]] + b[1..];
    }
  }

  lemma LtAntisymmetric(a: Str, b: Str)
    requires Lt(a, b)
    ensures !Lt(b, a) && a != b
  {
  }

  /** Strictly increasing, so without duplicates. */
  ghost predicate Sorted(s: seq<Str>) {
    forall i, j :: 0 <= i < j < |s| ==> Lt(s[i], s[j])
  }

  lemma SortedDistinct(s: seq<Str>)
    requires Sorted(s)
    ensures forall i, j :: 0 <= i < |s| && 0 <= j < |s| && s[i] == s[j] ==> i == j
  {
    forall i, j | 0 <= i < j < |s|
      ensures s[i] != s[j]
    {
      LtAntisymmetric(s[i], s[j]);
    }
  }

  /** A strictly increasing sequence is determined by its elements. */
  lemma {:induction false} SortedUnique(a: seq<Str>, b: seq<Str>)
    requires Sorted(a) && Sorted(b)
    requires forall k :: k in a <==> k in b
    ensures a == b
  {
    if a == [] {
      assert b == [] by {
        assert forall j | 0 <= j < |b| :: b[j] in a;
      }
    } else {
      assert a[0] in b;
      assert b != [] && b[0] in a;
      SortedDistinct(a);
      SortedDistinct(b);
      assert a[0] == b[0] by {
        if a[0] != b[0] {
          assert Lt(b[0], a[0]);
          assert Lt(a[0], b[0]);
          LtAntisymmetric(a[0], b[0]);
        }
      }
      forall k
        ensures k in a[1..] <==> k in b[1..]
      {
        assert k in a[1..] <==> k in a && k != a[0];
        assert k in b[1..] <==> k in b && k != b[0];
      }
      SortedUnique(a[1..], b[1..]);
      assert a == [a[0]] + a[1..] && b == [b[0]] + b[1..];
    }
  }

  /** `keys` lists `s` in order. */
  ghost predicate Lists(keys: seq<Str>, s: set<Str>) {
    Sorted(keys) && forall k :: k in keys <==> k in s
  }

  predicate IsLeast(m: Str, s: set<Str>) {
    forall x <- s :: x == m || Lt(m, x)
  }

  lemma {:induction false} HasLeast(s: set<Str>)
    requires s != {}
    ensures exists m :: m in s && IsLeast(m, s)
  {
    var y :| y in s;
    if s == {y} {
      assert IsLeast(y, s);
    } else {
      HasLeast(s - {y});
      var m :| m in s - {y} && IsLeast(m, s - {y});
      LtTotal(m, y);
      if Lt(y, m) {
        forall x | x in s
          ensures x == y || Lt(y, x)
        {
          if x != y && x != m { LtTransitive(y, m, x); }
        }
        assert IsLeast(y, s);
      } else {
        assert IsLeast(m, s);
      }
    }
  }

  lemma ListsCons(m: Str, rest: seq<Str>, s: set<Str>)
    requires m in s && IsLeast(m, s) && Lists(rest, s - {m})
    ensures Lists([m] + rest, s)
  {
    var keys := [m] + rest;
    forall i, j | 0 <= i < j < |keys|
      ensures Lt(keys[i], keys[j])
    {
      assert keys[j] == rest[j - 1] && rest[j - 1] in rest;
      if i > 0 {
        assert keys[i] == rest[i - 1];
      }
    }
  }

  lemma {:induction false} HasListing(s: set<Str>)
    ensures exists keys :: Lists(keys, s)
  {
    if s == {} {
      assert Lists([], s);
    } else {
      HasLeast(s);
      var m :| m in s && IsLeast(m, s);
      HasListing(s - {m});
      var rest :| Lists(rest, s - {m});
      ListsCons(m, rest, s);
    }
  }

  /** The keys of a `BTreeMap` in iteration order. */
  ghost function SortedKeys(s: set<Str>): (keys: seq<Str>)
    ensures Lists(keys, s)
  {
    HasListing(s);
    var keys :| Lists(keys, s);
    keys
  }

  lemma ListsUnique(keys: seq<Str>, s: set<Str>)
    requires Lists(keys, s)
    ensures keys == SortedKeys(s)
  {
    SortedUnique(keys, SortedKeys(s));
  }

  /** Iterating a `BTreeMap`: the least remaining key each time. */
  method KeysOf(s: set<Str>) returns (keys: seq<Str>)
    ensures keys == SortedKeys(s)
  {
    keys := [];
    var rest := s;
    while rest != {}
      invariant rest <= s && Lists(keys, s - rest)
      invariant forall a, b | a in keys && b in rest :: Lt(a, b)
      decreases rest
    {
      HasLeast(rest);
      var m :| m in rest && IsLeast(m, rest);
      keys := keys + [m];
      rest := rest - {m};
      assert forall k :: k in keys <==> k in s - rest;
    }
    assert s - rest == s;
    ListsUnique(keys, s);
  }

  ghost function Elements(s: seq<Str>): set<Str> {
    set k | k in s
  }

  /** Dropping a prefix of the sorted keys leaves the sorted rest. */
  lemma SortedKeysDrop(s: set<Str>, all: seq<Str>, n: nat)
    requires all == SortedKeys(s) && n <= |all|
    ensures SortedKeys(s - Elements(all[..n])) == all[n..]
  {
    SortedDistinct(all);
    assert all == all[..n] + all[n..];
    forall k
      ensures k in all[n..] <==> k in s - Elements(all[..n])
    {
    }
    ListsUnique(all[n..], s - Elements(all[..n]));
  }

  lemma {:induction false} SortedKeysSize(s: set<Str>)
    ensures |SortedKeys(s)| == |s|
  {
    var all := SortedKeys(s);
    if s == {} {
      ListsUnique([], s);
    } else {
      var n := |all|;
      assert n > 0 by {
        var k :| k in s;
        assert k in all;
      }
      SortedKeysDrop(s, all, 1);
      assert all[..1] == [all[0]] && all[0] in all;
      assert Elements(all[..1]) == {all[0]};
      SortedKeysSize(s - {all[0]});
    }
  }

  lemma SubsetSize<T>(a: set<T>, b: set<T>)
    requires a <= b
    ensures |a| <= |b|
  {
    assert b == a + (b - a);
  }
}
