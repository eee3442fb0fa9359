/** Stable sorting by a string key, and removing all but the first of each key. */
module Sorting {
  import opened Strs

  /** Keys never decrease. */
  ghost predicate Ascending<T>(key: T -> Str, s: seq<T>) {
    forall i, j | 0 <= i < j < |s| :: !Lt(key(s[j]), key(s[i]))
  }

  ghost predicate DistinctBy<T>(key: T -> Str, s: seq<T>) {
    forall i, j | 0 <= i < j < |s| :: key(s[i]) != key(s[j])
  }

  ghost predicate StrictlyAscending<T>(key: T -> Str, s: seq<T>) {
    forall i, j | 0 <= i < j < |s| :: Lt(key(s[i]), key(s[j]))
  }

  /** `x` before everything whose key is not smaller. */
  function Insert<T>(key: T -> Str, x: T, s: seq<T>): seq<T> {
    if s == [] then [x]
    else if Lt(key(s[0]), key(x)) then [s[0]] + Insert(key, x, s[1..])
    else [x] + s
  }

  function StableSort<T>(key: T -> Str, s: seq<T>): seq<T> {
    if s == [] then [] else Insert(key, s[0], StableSort(key, s[1..]))
  }

  /** Keeps the first of each run of equal keys. */
  function Dedup<T>(key: T -> Str, s: seq<T>): (r: seq<T>)
    ensures |r| <= |s|
    decreases |s|
  {
    if |s| < 2 then s
    else if key(s[0]) == key(s[1]) then Dedup(key, [s[0]] + s[2..])
    else [s[0]] + Dedup(key, s[1..])
  }

  /** The first element with key `k`. */
  function FirstWith<T>(key: T -> Str, s: seq<T>, k: Str): Option<T> {
    if s == [] then None else if key(s[0]) == k then Some(s[0]) else FirstWith(key, s[1..], k)
  }

  // ---- Sorting ----

  lemma {:induction false} InsertMultiset<T(!new)>(key: T -> Str, x: T, s: seq<T>)
    ensures multiset(Insert(key, x, s)) == multiset(s) + multiset{x}
  {
    if s != [] && Lt(key(s[0]), key(x)) {
      InsertMultiset(key, x, s[1..]);
      assert s == [s[0]] + s[1..];
    }
  }

  lemma InsertMembers<T(!new)>(key: T -> Str, x: T, s: seq<T>)
    ensures forall y :: y in Insert(key, x, s) <==> y == x || y in s
  {
  }

  lemma {:induction false} InsertAscending<T(!new)>(key: T -> Str, x: T, s: seq<T>)
    requires Ascending(key, s)
    ensures Ascending(key, Insert(key, x, s))
  {
    if s == [] {
    } else if Lt(key(s[0]), key(x)) {
      InsertAscending(key, x, s[1..]);
      InsertMembers(key, x, s[1..]);
      LtAntisymmetric(key(s[0]), key(x));
      HeadLeast(key, s);
      forall y <- Insert(key, x, s[1..])
        ensures !Lt(key(y), key(s[0]))
      {
      }
      AscendingCons(key, s[0], Insert(key, x, s[1..]));
    } else {
      HeadLeast(key, s);
      forall y <- s
        ensures !Lt(key(y), key(x))
      {
        NotLessTransitive(key(y), key(s[0]), key(x));
      }
      AscendingCons(key, x, s);
    }
  }

  lemma HeadLeast<T(!new)>(key: T -> Str, s: seq<T>)
    requires s != [] && Ascending(key, s)
    ensures forall y <- s :: !Lt(key(y), key(s[0]))
  {
    LtIrreflexive(key(s[0]));
  }

  lemma AscendingCons<T(!new)>(key: T -> Str, x: T, s: seq<T>)
    requires Ascending(key, s) && forall y <- s :: !Lt(key(y), key(x))
    ensures Ascending(key, [x] + s)
  {
  }

  lemma NotLessTransitive(a: Str, b: Str, c: Str)
    requires !Lt(a, b) && !Lt(b, c)
    ensures !Lt(a, c)
  {
  }

  lemma {:induction false} SortAscends<T(!new)>(key: T -> Str, s: seq<T>)
    ensures Ascending(key, StableSort(key, s))
    ensures multiset(StableSort(key, s)) == multiset(s)
  {
    if s != [] {
      SortAscends(key, s[1..]);
      InsertAscending(key, s[0], StableSort(key, s[1..]));
      InsertMultiset(key, s[0], StableSort(key, s[1..]));
      assert s == [s[0]] + s[1..];
    }
  }

  lemma SortMembers<T(!new)>(key: T -> Str, s: seq<T>)
    ensures forall y :: y in StableSort(key, s) <==> y in s
  {
    SortAscends(key, s);
    forall y
      ensures y in StableSort(key, s) <==> y in s
    {
      assert y in multiset(StableSort(key, s)) <==> y in multiset(s);
    }
  }

  // ---- Stability ----

  lemma {:induction false} InsertFirst<T(!new)>(key: T -> Str, x: T, s: seq<T>, k: Str)
    requires Ascending(key, s)
    ensures FirstWith(key, Insert(key, x, s), k) == if key(x) == k then Some(x) else FirstWith(key, s, k)
  {
    if s != [] && Lt(key(s[0]), key(x)) {
      InsertFirst(key, x, s[1..], k);
      LtAntisymmetric(key(s[0]), key(x));
    }
  }

  /** Sorting keeps the first of each key first. */
  lemma {:induction false} SortFirst<T(!new)>(key: T -> Str, s: seq<T>, k: Str)
    ensures FirstWith(key, StableSort(key, s), k) == FirstWith(key, s, k)
  {
    if s != [] {
      SortFirst(key, s[1..], k);
      SortAscends(key, s[1..]);
      InsertFirst(key, s[0], StableSort(key, s[1..]), k);
    }
  }

  // ---- Removing duplicates ----

  lemma {:induction false} DedupMembers<T(!new)>(key: T -> Str, s: seq<T>)
    ensures forall y :: y in Dedup(key, s) ==> y in s
    decreases |s|
  {
    if |s| >= 2 {
      if key(s[0]) == key(s[1]) {
        DedupMembers(key, [s[0]] + s[2..]);
      } else {
        DedupMembers(key, s[1..]);
      }
    }
  }

  lemma {:induction false} DedupFirst<T(!new)>(key: T -> Str, s: seq<T>, k: Str)
    ensures FirstWith(key, Dedup(key, s), k) == FirstWith(key, s, k)
    decreases |s|
  {
    if |s| >= 2 {
      if key(s[0]) == key(s[1]) {
        var t := [s[0]] + s[2..];
        DedupFirst(key, t, k);
        assert t[1..] == s[2..] && s[1..][1..] == s[2..];
      } else {
        DedupFirst(key, s[1..], k);
      }
    }
  }

  lemma {:induction false} DedupStrict<T(!new)>(key: T -> Str, s: seq<T>)
    requires Ascending(key, s)
    ensures StrictlyAscending(key, Dedup(key, s))
    ensures s != [] ==> Dedup(key, s) != [] && Dedup(key, s)[0] == s[0]
    decreases |s|
  {
    if |s| >= 2 {
      if key(s[0]) == key(s[1]) {
        DedupStrict(key, [s[0]] + s[2..]);
      } else {
        DedupStrict(key, s[1..]);
        DedupMembers(key, s[1..]);
        var rest := Dedup(key, s[1..]);
        forall y <- rest
          ensures Lt(key(s[0]), key(y))
        {
          LtTotal(key(s[0]), key(s[1]));
          var j :| 1 <= j < |s| && s[j] == y;
          LtTotal(key(s[1]), key(y));
          if key(s[1]) != key(y) && j > 1 { LtTransitive(key(s[0]), key(s[1]), key(y)); }
        }
      }
    }
  }

  // ---- The canonical form ----

  ghost function KeysIn<T>(key: T -> Str, s: seq<T>): set<Str> {
    set i | 0 <= i < |s| :: key(s[i])
  }

  lemma {:induction false} FirstWithSome<T(!new)>(key: T -> Str, s: seq<T>, k: Str)
    ensures FirstWith(key, s, k).Some? <==> k in KeysIn(key, s)
    ensures FirstWith(key, s, k).Some? ==> FirstWith(key, s, k).value in s && key(FirstWith(key, s, k).value) == k
  {
    if s != [] {
      FirstWithSome(key, s[1..], k);
      assert s == [s[0]] + s[1..];
      assert KeysIn(key, s) == {key(s[0])} + KeysIn(key, s[1..]) by {
        forall x
          ensures x in KeysIn(key, s) <==> x == key(s[0]) || x in KeysIn(key, s[1..])
        {
          if x in KeysIn(key, s) {
            var i :| 0 <= i < |s| && key(s[i]) == x;
            if i > 0 { assert s[1..][i - 1] == s[i]; }
          }
          if x in KeysIn(key, s[1..]) {
            var i :| 0 <= i < |s| - 1 && key(s[1..][i]) == x;
            assert s[i + 1] == s[1..][i];
          }
        }
      }
    }
  }

  /** Strictly ascending, the first found of every key and nothing else. */
  ghost predicate Canonical<T>(key: T -> Str, found: seq<T>, r: seq<T>) {
    && StrictlyAscending(key, r)
    && KeysIn(key, r) == KeysIn(key, found)
    && forall i | 0 <= i < |r| :: FirstWith(key, found, key(r[i])) == Some(r[i])
  }

  lemma {:induction false} FirstInStrict<T(!new)>(key: T -> Str, s: seq<T>, i: nat)
    requires StrictlyAscending(key, s) && i < |s|
    ensures FirstWith(key, s, key(s[i])) == Some(s[i])
  {
    if i > 0 {
      LtAntisymmetric(key(s[0]), key(s[i]));
      FirstInStrict(key, s[1..], i - 1);
    }
  }

  lemma SortDedupCanonical<T(!new)>(key: T -> Str, found: seq<T>)
    ensures Canonical(key, found, Dedup(key, StableSort(key, found)))
  {
    var sorted := StableSort(key, found);
    var r := Dedup(key, sorted);
    SortAscends(key, found);
    DedupStrict(key, sorted);
    forall k
      ensures k in KeysIn(key, r) <==> k in KeysIn(key, found)
    {
      SortFirst(key, found, k);
      DedupFirst(key, sorted, k);
      FirstWithSome(key, r, k);
      FirstWithSome(key, found, k);
    }
    forall i | 0 <= i < |r|
      ensures FirstWith(key, found, key(r[i])) == Some(r[i])
    {
      FirstInStrict(key, r, i);
      SortFirst(key, found, key(r[i]));
      DedupFirst(key, sorted, key(r[i]));
    }
  }

  /** The canonical form is unique. */
  lemma CanonicalUnique<T(!new)>(key: T -> Str, found: seq<T>, a: seq<T>, b: seq<T>)
    requires Canonical(key, found, a) && Canonical(key, found, b)
    ensures a == b
  {
    var ka, kb := seq(|a|, i requires 0 <= i < |a| => key(a[i])), seq(|b|, i requires 0 <= i < |b| => key(b[i]));
    forall k
      ensures k in ka <==> k in kb
    {
      assert k in ka <==> k in KeysIn(key, a) by {
        if k in KeysIn(key, a) {
          var i :| 0 <= i < |a| && key(a[i]) == k;
          assert ka[i] == k;
        }
      }
      assert k in kb <==> k in KeysIn(key, b) by {
        if k in KeysIn(key, b) {
          var i :| 0 <= i < |b| && key(b[i]) == k;
          assert kb[i] == k;
        }
      }
    }
    SortedUnique(ka, kb);
    forall i | 0 <= i < |a|
      ensures a[i] == b[i]
    {
      assert ka[i] == kb[i];
    }
  }

  // ---- Order independence ----

  lemma PickMember<T(!new)>(a: seq<T>, b: seq<T>)
    requires multiset(a) == multiset(b)
    ensures forall x :: x in a <==> x in b
    ensures |a| == |b|
  {
    forall x
      ensures x in a <==> x in b
    {
      assert x in multiset(a) <==> x in multiset(b);
    }
    assert |multiset(a)| == |multiset(b)|;
  }

  /** Two ascending lists of the same elements with distinct keys are equal. */
  lemma {:induction false} AscendingUnique<T(!new)>(key: T -> Str, a: seq<T>, b: seq<T>)
    requires Ascending(key, a) && Ascending(key, b) && multiset(a) == multiset(b)
    requires DistinctBy(key, a) && DistinctBy(key, b)
    ensures a == b
  {
    PickMember(a, b);
    if a != [] {
      HeadsEqual(key, a, b);
      TailsAgree(a, b);
      TailKeeps(key, a);
      TailKeeps(key, b);
      AscendingUnique(key, a[1..], b[1..]);
    }
  }

  lemma TailsAgree<T>(a: seq<T>, b: seq<T>)
    requires a != [] && b != [] && a[0] == b[0] && multiset(a) == multiset(b)
    ensures multiset(a[1..]) == multiset(b[1..])
    ensures a[1..] == b[1..] ==> a == b
  {
    assert a == [a[0]] + a[1..] && b == [b[0]] + b[1..];
    assert multiset(a[1..]) == multiset(a) - multiset{a[0]};
    assert multiset(b[1..]) == multiset(b) - multiset{b[0]};
  }

  lemma TailKeeps<T(!new)>(key: T -> Str, s: seq<T>)
    requires s != [] && Ascending(key, s) && DistinctBy(key, s)
    ensures Ascending(key, s[1..]) && DistinctBy(key, s[1..])
  {
  }

  lemma HeadsEqual<T(!new)>(key: T -> Str, a: seq<T>, b: seq<T>)
    requires a != [] && b != [] && Ascending(key, a) && Ascending(key, b)
    requires DistinctBy(key, a) && DistinctBy(key, b)
    requires a[0] in b && b[0] in a
    ensures a[0] == b[0]
  {
    var i :| 0 <= i < |b| && b[i] == a[0];
    var j :| 0 <= j < |a| && a[j] == b[0];
    LtTotal(key(a[0]), key(b[0]));
  }

  lemma {:induction false} DistinctPermutation<T(!new)>(key: T -> Str, a: seq<T>, b: seq<T>)
    requires multiset(a) == multiset(b) && DistinctBy(key, a)
    ensures DistinctBy(key, b)
  {
    forall i, j | 0 <= i < j < |b|
      ensures key(b[i]) != key(b[j])
    {
      if key(b[i]) == key(b[j]) {
        assert b[i] in multiset(b) && b[j] in multiset(b);
        assert b[i] in a && b[j] in a;
        var p :| 0 <= p < |a| && a[p] == b[i];
        var q :| 0 <= q < |a| && a[q] == b[j];
        assert p == q;
        assert b[i] == b[j];
        TwiceIn(b, i, j);
        AtMostOnce(key, a, b[i]);
      }
    }
  }

  lemma TwiceIn<T(!new)>(s: seq<T>, i: nat, j: nat)
    requires i < j < |s| && s[i] == s[j]
    ensures multiset(s)[s[i]] >= 2
  {
    assert s == s[..i] + [s[i]] + s[i + 1..j] + [s[j]] + s[j + 1..];
  }

  lemma {:induction false} AtMostOnce<T(!new)>(key: T -> Str, s: seq<T>, x: T)
    requires DistinctBy(key, s)
    ensures multiset(s)[x] <= 1
  {
    if s != [] {
      AtMostOnce(key, s[1..], x);
      assert s == [s[0]] + s[1..];
      if x == s[0] {
        assert x !in s[1..];
      }
    }
  }

  /** Sorting a permutation with distinct keys gives the same list. */
  lemma SortPermutation<T(!new)>(key: T -> Str, a: seq<T>, b: seq<T>)
    requires multiset(a) == multiset(b) && DistinctBy(key, a)
    ensures StableSort(key, a) == StableSort(key, b)
  {
    SortAscends(key, a);
    SortAscends(key, b);
    DistinctPermutation(key, a, StableSort(key, a));
    DistinctPermutation(key, a, StableSort(key, b));
    AscendingUnique(key, StableSort(key, a), StableSort(key, b));
  }
}
