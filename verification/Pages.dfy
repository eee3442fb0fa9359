/** Collecting up to a limit of entries from the pages a backend returns. */
module Pages {
  import opened Strs

  datatype Page<T> = Page(entries: seq<T>, next: Option<Str>)

  /** `StillRunning`: the loop made all the calls it was watched for. */
  datatype Outcome<T> = Collected(out: seq<T>) | Failed(error: Str) | StillRunning(out: seq<T>)

  function Least(a: nat, b: nat): nat { if a <= b then a else b }

  function Take<T>(s: seq<T>, n: nat): seq<T> { s[..Least(n, |s|)] }

  function Flatten<T>(pages: seq<Page<T>>): seq<T> {
    if pages == [] then [] else pages[0].entries + Flatten(pages[1..])
  }

  /** There is a next page, and its cursor is not the one just used. */
  predicate Advances<T>(cursor: Option<Str>, page: Page<T>) {
    page.next.Some? && cursor != page.next
  }

  /** The loop from its `n`th call on, watched for `calls` calls. `next` is what
      the backend answers to its `n`th call, from a cursor, asked for so many: it
      need not answer alike twice. */
  function Loop<T>(next: (nat, Option<Str>, nat) -> Result<Page<T>, Str>, limit: nat, pageSize: nat,
                   n: nat, out: seq<T>, cursor: Option<Str>, calls: nat): (r: (Outcome<T>, seq<Page<T>>))
    requires |out| <= limit
    decreases calls
  {
    if |out| == limit then (Collected(out), [])
    else if calls == 0 then (StillRunning(out), [])
    else
      match next(n, cursor, Least(limit - |out|, pageSize))
      case Err(error) => (Failed(error), [])
      case Ok(page) =>
        var more := out + Take(page.entries, limit - |out|);
        if Advances(cursor, page) then
          var rest := Loop(next, limit, pageSize, n + 1, more, page.next, calls - 1);
          (rest.0, [page] + rest.1)
        else (Collected(more), [page])
  }

  /** The pages the loop is given. */
  ghost function PagesOf<T>(next: (nat, Option<Str>, nat) -> Result<Page<T>, Str>, limit: nat, pageSize: nat, calls: nat): seq<Page<T>> {
    Loop(next, limit, pageSize, 0, [], None, calls).1
  }

  /** Any pager at all: what is collected is the front of the pages it returned,
      cut at the limit. */
  method CollectPages<T>(next: (nat, Option<Str>, nat) -> Result<Page<T>, Str>, limit: nat, pageSize: nat, calls: nat)
    returns (r: Outcome<T>)
    ensures r == Loop(next, limit, pageSize, 0, [], None, calls).0
    ensures !r.Failed? ==> |r.out| <= limit && r.out == Take(Flatten(PagesOf(next, limit, pageSize, calls)), limit)
  {
    var out: seq<T> := [];
    var cursor: Option<Str> := None;
    var n := 0;
    ghost var all := Loop(next, limit, pageSize, 0, [], None, calls);
    LoopFront(next, limit, pageSize, 0, [], None, calls);
    assert [] + Flatten(all.1) == Flatten(all.1);
    while |out| < limit && n < calls
      invariant |out| <= limit && n <= calls
      invariant all.0 == Loop(next, limit, pageSize, n, out, cursor, calls - n).0
      decreases calls - n
    {
      var want := Least(limit - |out|, pageSize);
      var answer := next(n, cursor, want);
      if answer.Err? {
        r := Failed(answer.error);
        return;
      }
      var page := answer.value;
      var room := limit - |out|;
      out := out + Take(page.entries, room);
      if page.next.None? || cursor == page.next {
        r := Collected(out);
        return;
      }
      cursor := page.next;
      n := n + 1;
    }
    r := if |out| == limit then Collected(out) else StillRunning(out);
  }

  lemma TakeConcat<T>(out: seq<T>, page: seq<T>, rest: seq<T>, limit: nat)
    requires |out| <= limit
    ensures Take(out + (page + rest), limit) == Take(out + Take(page, limit - |out|) + rest, limit)
    ensures |page| >= limit - |out| ==> Take(out + (page + rest), limit) == out + Take(page, limit - |out|)
  {
  }

  lemma {:induction false} LoopFront<T>(next: (nat, Option<Str>, nat) -> Result<Page<T>, Str>, limit: nat,
      pageSize: nat, n: nat, out: seq<T>, cursor: Option<Str>, calls: nat)
    requires |out| <= limit
    ensures var (r, pages) := Loop(next, limit, pageSize, n, out, cursor, calls);
            !r.Failed? ==> r.out == Take(out + Flatten(pages), limit)
    decreases calls
  {
    if |out| < limit && calls > 0 {
      var answer := next(n, cursor, Least(limit - |out|, pageSize));
      if answer.Ok? {
        var page := answer.value;
        var more := out + Take(page.entries, limit - |out|);
        if Advances(cursor, page) {
          LoopFront(next, limit, pageSize, n + 1, more, page.next, calls - 1);
          var rest := Loop(next, limit, pageSize, n + 1, more, page.next, calls - 1);
          assert ([page] + rest.1)[1..] == rest.1;
          TakeConcat(out, page.entries, Flatten(rest.1), limit);
        } else {
          assert [page][1..] == [];
          assert Flatten([page]) == page.entries + [] == page.entries;
        }
      }
    }
  }

  /** Each page is what the backend answered to the cursor of the page before, asked
      for what is `left`, if anything is, but no more than a page, and every page but the last
      advances; so does the last unless the pages `ended`. */
  ghost predicate InTurn<T>(next: (nat, Option<Str>, nat) -> Result<Page<T>, Str>, pageSize: nat, left: nat, n: nat,
                            cursor: Option<Str>, pages: seq<Page<T>>, ended: bool)
    decreases |pages|
  {
    if pages == [] then !ended
    else
      left > 0 && next(n, cursor, if left <= pageSize then left else pageSize) == Ok(pages[0])
      && (Advances(cursor, pages[0]) || |pages| == 1)
      && (ended && |pages| == 1 ==> !Advances(cursor, pages[0]))
      && InTurn(next, pageSize, if |pages[0].entries| <= left then left - |pages[0].entries| else 0, n + 1,
                pages[0].next, pages[1..], ended && |pages| > 1)
  }

  /** The pages come in turn, and short of its limit a loop ends only at a page
      that does not advance. */
  lemma {:induction false} PagesInTurn<T>(next: (nat, Option<Str>, nat) -> Result<Page<T>, Str>, limit: nat,
      pageSize: nat, n: nat, out: seq<T>, cursor: Option<Str>, calls: nat)
    requires |out| <= limit
    ensures var (r, pages) := Loop(next, limit, pageSize, n, out, cursor, calls);
            InTurn(next, pageSize, limit - |out|, n, cursor, pages, r.Collected? && |r.out| < limit)
    decreases calls
  {
    if |out| < limit && calls > 0 {
      var answer := next(n, cursor, Least(limit - |out|, pageSize));
      if answer.Ok? {
        var page := answer.value;
        var more := out + Take(page.entries, limit - |out|);
        if Advances(cursor, page) {
          PagesInTurn(next, limit, pageSize, n + 1, more, page.next, calls - 1);
          var rest := Loop(next, limit, pageSize, n + 1, more, page.next, calls - 1).1;
          assert ([page] + rest)[1..] == rest;
        } else {
          assert [page][1..] == [];
        }
      }
    }
  }

  /** A failure is the backend's own, to the call after the pages it returned. */
  lemma {:induction false} FailsAsAnswered<T>(next: (nat, Option<Str>, nat) -> Result<Page<T>, Str>, limit: nat,
      pageSize: nat, n: nat, out: seq<T>, cursor: Option<Str>, calls: nat) returns (last: Option<Str>, want: nat)
    requires |out| <= limit
    ensures var (r, pages) := Loop(next, limit, pageSize, n, out, cursor, calls);
            && last == (if pages == [] then cursor else pages[|pages| - 1].next)
            && (r.Failed? ==> 0 < want <= limit && next(n + |pages|, last, Least(want, pageSize)) == Err(r.error))
    decreases calls
  {
    last, want := cursor, limit - |out|;
    if |out| < limit && calls > 0 {
      var answer := next(n, cursor, Least(want, pageSize));
      if answer.Ok? {
        last := answer.value.next;
        if Advances(cursor, answer.value) {
          var more := out + Take(answer.value.entries, limit - |out|);
          last, want := FailsAsAnswered(next, limit, pageSize, n + 1, more, answer.value.next, calls - 1);
        }
      }
    }
  }

  // ---- A pager over a list ----

  function Shown<T>(slot: Option<T>): seq<T> {
    if slot.Some? then [slot.value] else []
  }

  /** A list as its backend stores it: a hidden slot is on no page. */
  function Visible<T>(slots: seq<Option<T>>): seq<T> {
    if slots == [] then []
    else Shown(slots[0]) + Visible(slots[1..])
  }

  /** The slot a cursor stands for: the first without one. */
  function PositionOf(position: Str -> nat, cursor: Option<Str>): nat {
    if cursor.None? then 0 else position(cursor.value)
  }

  /** A page from slot `from` on: short or empty as it may be, its cursor is
      further on, and it has none only at the end. */
  ghost predicate PageFrom<T>(slots: seq<Option<T>>, position: Str -> nat, from: nat, answer: Result<Page<T>, Str>) {
    answer.Ok?
    && (match answer.value.next
        case Some(c) => from < position(c) <= |slots| && answer.value.entries == Visible(slots[from..position(c)])
        case None => from <= |slots| && answer.value.entries == Visible(slots[from..]))
  }

  /** What the loop asks is for at least one entry and at most a page. */
  ghost predicate WalksList<T>(next: (nat, Option<Str>, nat) -> Result<Page<T>, Str>, slots: seq<Option<T>>,
                               position: Str -> nat, pageSize: nat) {
    forall n: nat, cursor, want: nat
      {:trigger PageFrom(slots, position, PositionOf(position, cursor), next(n, cursor, want))} ::
      0 < want <= pageSize && PositionOf(position, cursor) <= |slots| ==>
        PageFrom(slots, position, PositionOf(position, cursor), next(n, cursor, want))
  }

  lemma {:induction false} VisibleConcat<T>(a: seq<Option<T>>, b: seq<Option<T>>)
    ensures Visible(a + b) == Visible(a) + Visible(b)
  {
    if a == [] {
      assert a + b == b;
    } else {
      assert (a + b)[1..] == a[1..] + b;
      VisibleConcat(a[1..], b);
      assert Shown(a[0]) + (Visible(a[1..]) + Visible(b)) == Shown(a[0]) + Visible(a[1..]) + Visible(b);
    }
  }

  lemma PageJoins<T>(slots: seq<Option<T>>, from: nat, to: nat, out: seq<T>, limit: nat)
    requires from <= to <= |slots| && |out| <= limit
    ensures Take(out + Visible(slots[from..]), limit)
         == Take(out + Take(Visible(slots[from..to]), limit - |out|) + Visible(slots[to..]), limit)
  {
    assert slots[from..] == slots[from..to] + slots[to..];
    VisibleConcat(slots[from..to], slots[to..]);
    TakeConcat(out, Visible(slots[from..to]), Visible(slots[to..]), limit);
  }

  lemma {:induction false} ListLoop<T>(next: (nat, Option<Str>, nat) -> Result<Page<T>, Str>,
      slots: seq<Option<T>>, position: Str -> nat, limit: nat, pageSize: nat,
      n: nat, out: seq<T>, cursor: Option<Str>, calls: nat)
    requires WalksList(next, slots, position, pageSize) && pageSize > 0
    requires |out| <= limit
    requires PositionOf(position, cursor) <= |slots| && calls > |slots| - PositionOf(position, cursor)
    ensures Loop(next, limit, pageSize, n, out, cursor, calls).0
         == Collected(Take(out + Visible(slots[PositionOf(position, cursor)..]), limit))
    decreases calls
  {
    var from := PositionOf(position, cursor);
    if |out| < limit {
      var answer := next(n, cursor, Least(limit - |out|, pageSize));
      assert PageFrom(slots, position, from, answer);
      var page := answer.value;
      var more := out + Take(page.entries, limit - |out|);
      if page.next.Some? {
        var to := position(page.next.value);
        PageJoins(slots, from, to, out, limit);
        ListLoop(next, slots, position, limit, pageSize, n + 1, more, page.next, calls - 1);
      }
    }
  }

  /** For a pager that walks a list with cursors that advance, short and empty
      pages and all, the loop ends and returns the first `limit` entries: none
      skipped, none twice. */
  lemma CollectsTheFirst<T>(next: (nat, Option<Str>, nat) -> Result<Page<T>, Str>, slots: seq<Option<T>>,
      position: Str -> nat, limit: nat, pageSize: nat, calls: nat)
    requires WalksList(next, slots, position, pageSize) && pageSize > 0 && calls > |slots|
    ensures Loop(next, limit, pageSize, 0, [], None, calls).0 == Collected(Take(Visible(slots), limit))
  {
    ListLoop(next, slots, position, limit, pageSize, 0, [], None, calls);
    assert slots[0..] == slots;
    assert [] + Visible(slots) == Visible(slots);
  }

  /** A backend that never returns more than it is asked for: the next slots, and a
      cursor as long as their position while there are more. */
  function NextSlots<T>(slots: seq<Option<T>>, cursor: Option<Str>, want: nat): Result<Page<T>, Str> {
    var from := PositionOf((c: Str) => |c|, cursor);
    if from > |slots| then Ok(Page([], None))
    else
      var to := Least(from + want, |slots|);
      Ok(Page(Visible(slots[from..to]), if to < |slots| then Some(seq(to, i => 0)) else None))
  }

  lemma {:induction false} VisibleFits<T>(slots: seq<Option<T>>)
    ensures |Visible(slots)| <= |slots|
  {
    if slots != [] {
      VisibleFits(slots[1..]);
    }
  }

  /** It walks its list, so `CollectsTheFirst` is about it. */
  lemma NextSlotsWalks<T>(slots: seq<Option<T>>, pageSize: nat)
    ensures WalksList((n, cursor, want) => NextSlots(slots, cursor, want), slots, (c: Str) => |c|, pageSize)
    ensures forall cursor, want: nat :: |NextSlots(slots, cursor, want).value.entries| <= want
  {
    forall cursor, want: nat
      ensures |NextSlots(slots, cursor, want).value.entries| <= want
      ensures 0 < want && PositionOf((c: Str) => |c|, cursor) <= |slots| ==>
                PageFrom(slots, (c: Str) => |c|, PositionOf((c: Str) => |c|, cursor), NextSlots(slots, cursor, want))
    {
      var from := PositionOf((c: Str) => |c|, cursor);
      if from <= |slots| {
        VisibleFits(slots[from..Least(from + want, |slots|)]);
        assert slots[from..|slots|] == slots[from..];
      }
    }
  }

  // ---- A pager that never ends ----

  /** Empty pages, whose cursors alternate. */
  function Alternating(cursor: Option<Str>): Result<Page<Str>, Str> {
    Ok(Page([], Some(if cursor == Some([0]) then [1] else [0])))
  }

  lemma {:induction false} AlternatesFrom(limit: nat, pageSize: nat, n: nat, cursor: Option<Str>, calls: nat)
    requires limit > 0 && (cursor == None || cursor == Some([0]) || cursor == Some([1]))
    ensures Loop((n, c, want) => Alternating(c), limit, pageSize, n, [], cursor, calls).0 == StillRunning([])
    decreases calls
  {
    if calls > 0 {
      var page := Alternating(cursor).value;
      assert [] + Take(page.entries, limit) == [];
      AlternatesFrom(limit, pageSize, n + 1, page.next, calls - 1);
    }
  }

  /** The one check against a cursor that comes back does not make every pager end:
      with two empty pages that name each other the loop runs on, whatever number
      of calls it is watched for. */
  lemma MayRunForever(limit: nat, pageSize: nat, calls: nat)
    requires limit > 0
    ensures Loop((n, c, want) => Alternating(c), limit, pageSize, 0, [], None, calls).0 == StillRunning([])
  {
    AlternatesFrom(limit, pageSize, 0, None, calls);
  }
}
