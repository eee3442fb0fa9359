/** Exactly when collecting pages never ends, for a backend whose answer depends on
    the cursor alone. */
module PagesEnd {
  import opened Strs
  import opened Pages

  /** A backend's answer to a cursor. */
  type Answers<!T> = Option<Str> -> Result<Page<T>, Str>

  /** The cursor after `n` answers that all advanced. */
  function Followed<T>(answer: Answers<T>, n: nat): Option<Option<Str>> {
    if n == 0 then Some(None)
    else
      match Followed(answer, n - 1)
      case None => None
      case Some(cursor) =>
        if answer(cursor).Ok? && Advances(cursor, answer(cursor).value) then Some(answer(cursor).value.next) else None
  }

  function CursorAt<T>(answer: Answers<T>, n: nat): Option<Str> {
    match Followed(answer, n)
    case Some(cursor) => cursor
    case None => None
  }

  /** What those answers held. */
  function Entries<T>(answer: Answers<T>, n: nat): seq<T> {
    if n == 0 || Followed(answer, n).None? then []
    else Entries(answer, n - 1) + answer(Followed(answer, n - 1).value).value.entries
  }

  /** The answer to the `n`th cursor brings nothing. */
  ghost predicate BringsNothing<T>(answer: Answers<T>, n: nat) {
    && Followed(answer, n).Some? && answer(Followed(answer, n).value).Ok?
    && answer(Followed(answer, n).value).value.entries == []
  }

  /** All of the first `n` answers advanced, and there is room left. */
  ghost predicate Alive<T>(answer: Answers<T>, limit: nat, n: nat) {
    Followed(answer, n).Some? && |Entries(answer, n)| < limit
  }

  /** The loop, watched for so many calls, has not ended. */
  ghost predicate StillRuns<T>(answer: Answers<T>, limit: nat, pageSize: nat, calls: nat) {
    Loop((n, c, want) => answer(c), limit, pageSize, 0, [], None, calls).0.StillRunning?
  }

  /** The cursors return to an earlier one, nothing is on the way round, and there
      was still room when it was first reached. */
  ghost predicate Circles<T>(answer: Answers<T>, limit: nat, i: nat, j: nat) {
    && i + 2 <= j && Followed(answer, i).Some? && Followed(answer, j) == Followed(answer, i)
    && (forall m: nat | i <= m < j :: BringsNothing(answer, m))
    && |Entries(answer, i)| < limit
  }

  /** There are no cursors but these. */
  ghost predicate Only<T>(answer: Answers<T>, cursors: set<Option<Str>>) {
    None in cursors && forall c <- cursors :: answer(c).Ok? ==> answer(c).value.next in cursors
  }

  // ---- The loop follows the cursors ----

  lemma {:induction false} FollowedBefore<T>(answer: Answers<T>, n: nat, m: nat)
    requires n <= m && Followed(answer, m).Some?
    ensures Followed(answer, n).Some? && |Entries(answer, n)| <= |Entries(answer, m)|
  {
    if n < m {
      FollowedBefore(answer, n, m - 1);
    }
  }

  /** The loop still runs after so many more calls if and only if all answers
      advanced and there is room left. */
  lemma {:induction false} RunsIff<T>(answer: Answers<T>, limit: nat, pageSize: nat, n: nat, calls: nat)
    requires Followed(answer, n).Some? && |Entries(answer, n)| < limit
    ensures Loop((k, c, want) => answer(c), limit, pageSize, n, Entries(answer, n), Followed(answer, n).value, calls).0.StillRunning?
       <==> Followed(answer, n + calls).Some? && |Entries(answer, n + calls)| < limit
    decreases calls
  {
    if calls > 0 {
      var cursor, out := Followed(answer, n).value, Entries(answer, n);
      if Followed(answer, n + calls).Some? {
        FollowedBefore(answer, n + 1, n + calls);
      }
      if Followed(answer, n + 1).Some? {
        var page := answer(cursor).value;
        var more := out + Take(page.entries, limit - |out|);
        if |Entries(answer, n + 1)| < limit {
          assert more == Entries(answer, n + 1);
          RunsIff(answer, limit, pageSize, n + 1, calls - 1);
        } else {
          assert |more| == limit;
        }
      }
    }
  }

  // ---- Around the circle ----

  lemma {:induction false} Around<T>(answer: Answers<T>, limit: nat, i: nat, j: nat, n: nat)
    requires Circles(answer, limit, i, j) && n >= j
    ensures Followed(answer, n).Some? && Followed(answer, n) == Followed(answer, n - (j - i))
  {
    if n > j {
      Around(answer, limit, i, j, n - 1);
      if n - (j - i) <= j {
        FollowedBefore(answer, n - (j - i), j);
      } else {
        Around(answer, limit, i, j, n - (j - i));
      }
    }
  }

  lemma {:induction false} NothingFrom<T>(answer: Answers<T>, limit: nat, i: nat, j: nat, n: nat)
    requires Circles(answer, limit, i, j) && n >= i
    ensures BringsNothing(answer, n)
  {
    if n >= j {
      Around(answer, limit, i, j, n);
      NothingFrom(answer, limit, i, j, n - (j - i));
    }
  }

  lemma {:induction false} AllAround<T>(answer: Answers<T>, limit: nat, i: nat, j: nat, n: nat)
    requires Circles(answer, limit, i, j)
    ensures Alive(answer, limit, n)
    ensures n >= i ==> Entries(answer, n) == Entries(answer, i)
  {
    if n <= i {
      FollowedBefore(answer, n, i);
    } else {
      AllAround(answer, limit, i, j, n - 1);
      NothingFrom(answer, limit, i, j, n - 1);
      NothingFrom(answer, limit, i, j, n);
    }
  }

  // ---- Finding the circle ----

  lemma {:induction false} Pigeons(xs: seq<Option<Str>>, holes: set<Option<Str>>) returns (i: nat, j: nat)
    requires (forall x <- xs :: x in holes) && |xs| > |holes|
    ensures i < j < |xs| && xs[i] == xs[j]
  {
    var first, rest := xs[0], xs[1..];
    if first in rest {
      i := 0;
      j :| 0 < j < |xs| && xs[j] == first;
    } else {
      assert forall x <- rest :: x in xs && x in holes - {first};
      i, j := Pigeons(rest, holes - {first});
      i, j := i + 1, j + 1;
    }
  }

  lemma {:induction false} StaysIn<T>(answer: Answers<T>, cursors: set<Option<Str>>, n: nat)
    requires Only(answer, cursors) && Followed(answer, n).Some?
    ensures Followed(answer, n).value in cursors
  {
    if n > 0 {
      StaysIn(answer, cursors, n - 1);
    }
  }

  /** `width` answers in a row that bring nothing. */
  lemma {:induction false} QuietStretch<T>(answer: Answers<T>, limit: nat, from: nat, width: nat) returns (start: nat)
    requires forall n: nat :: Alive(answer, limit, n)
    ensures |Entries(answer, start + width)| == |Entries(answer, start)|
    decreases limit - |Entries(answer, from)|
  {
    assert Alive(answer, limit, from) && Alive(answer, limit, from + width);
    FollowedBefore(answer, from, from + width);
    if |Entries(answer, from + width)| == |Entries(answer, from)| {
      start := from;
    } else {
      start := QuietStretch(answer, limit, from + width, width);
    }
  }

  lemma InStretch<T>(answer: Answers<T>, from: nat, to: nat, m: nat)
    requires from <= m < to && Followed(answer, to).Some? && |Entries(answer, to)| == |Entries(answer, from)|
    ensures BringsNothing(answer, m)
  {
    FollowedBefore(answer, m + 1, to);
    FollowedBefore(answer, m, m + 1);
    FollowedBefore(answer, from, m);
  }

  lemma NotNext<T>(answer: Answers<T>, n: nat)
    requires Followed(answer, n + 1).Some?
    ensures Followed(answer, n).Some? && CursorAt(answer, n + 1) != CursorAt(answer, n)
  {
  }

  /** Among so many answers some cursor comes back. */
  lemma Returns<T>(answer: Answers<T>, limit: nat, cursors: set<Option<Str>>, start: nat) returns (i: nat, j: nat)
    requires Only(answer, cursors) && forall n: nat :: Alive(answer, limit, n)
    ensures start <= i < j <= start + |cursors| && CursorAt(answer, i) == CursorAt(answer, j)
  {
    var xs := seq(|cursors| + 1, k requires 0 <= k < |cursors| + 1 => CursorAt(answer, start + k));
    forall k | 0 <= k < |xs|
      ensures xs[k] in cursors
    {
      assert Alive(answer, limit, start + k);
      StaysIn(answer, cursors, start + k);
      assert xs[k] == CursorAt(answer, start + k);
    }
    i, j := Pigeons(xs, cursors);
    assert CursorAt(answer, start + i) == xs[i] == xs[j] == CursorAt(answer, start + j);
    i, j := start + i, start + j;
  }

  lemma FindsCircle<T>(answer: Answers<T>, limit: nat, cursors: set<Option<Str>>) returns (i: nat, j: nat)
    requires Only(answer, cursors)
    requires forall n: nat :: Alive(answer, limit, n)
    ensures Circles(answer, limit, i, j)
  {
    var width := |cursors| + 1;
    var start := QuietStretch(answer, limit, 0, width);
    assert Alive(answer, limit, start + width);
    i, j := Returns(answer, limit, cursors, start);
    forall m: nat | i <= m < j
      ensures BringsNothing(answer, m)
    {
      InStretch(answer, start, start + width, m);
    }
    assert Alive(answer, limit, i) && Alive(answer, limit, j) && Alive(answer, limit, i + 1);
    NotNext(answer, i);
  }

  /** Over finitely many cursors the loop runs on, whatever number of calls it is
      watched for, if and only if the cursors followed from the first call come
      back to an earlier one with nothing on the way round and room left. */
  lemma RunsForeverIff<T>(answer: Answers<T>, limit: nat, pageSize: nat, cursors: set<Option<Str>>)
    requires Only(answer, cursors)
    ensures (forall calls: nat :: StillRuns(answer, limit, pageSize, calls))
       <==> exists i: nat, j: nat :: Circles(answer, limit, i, j)
  {
    forall calls: nat
      ensures StillRuns(answer, limit, pageSize, calls) <==> Alive(answer, limit, calls)
    {
      if limit > 0 {
        RunsIff(answer, limit, pageSize, 0, calls);
      }
    }
    if forall n: nat :: Alive(answer, limit, n) {
      var i, j := FindsCircle(answer, limit, cursors);
    }
    if i: nat, j: nat :| Circles(answer, limit, i, j) {
      forall n: nat
        ensures Alive(answer, limit, n)
      {
        AllAround(answer, limit, i, j, n);
      }
    }
  }
}
