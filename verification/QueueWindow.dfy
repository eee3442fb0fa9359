/** The window of a queue watch: what each hold of its mutex does. */
module QueueWindow {
  import opened Strs

  /** What settles a delivery with the broker, by which it is known. */
  type Receipt = nat

  /** A delivery emitted and not yet settled. The window's map is kept as its
      entries in key order, which is insertion order. */
  datatype Held = Held(seqno: nat, receipt: Receipt, at: nat)

  datatype Window = Window(pending: seq<Held>, nextSeq: nat)

  /** Longest wait of the settler, in milliseconds. */
  const ONE_SECOND: nat := 1000

  ghost predicate Ordered(w: Window) {
    && (forall i, j | 0 <= i < j < |w.pending| :: w.pending[i].seqno < w.pending[j].seqno)
    && (forall i | 0 <= i < |w.pending| :: w.pending[i].seqno < w.nextSeq)
  }

  function Inserted(w: Window, receipt: Receipt, now: nat): Window {
    Window(w.pending + [Held(w.nextSeq, receipt, now)], w.nextSeq + 1)
  }

  function Find(pending: seq<Held>, seqno: nat): (r: Option<nat>)
    ensures r.Some? ==> r.value < |pending| && pending[r.value].seqno == seqno
    ensures r.None? ==> forall i | 0 <= i < |pending| :: pending[i].seqno != seqno
  {
    if pending == [] then None
    else if pending[0].seqno == seqno then Some(0)
    else
      match Find(pending[1..], seqno)
      case Some(i) => Some(i + 1)
      case None => None
  }

  /** The window without the delivery numbered `seqno`, and that delivery. */
  function Taken(w: Window, seqno: nat): (Window, Option<Held>) {
    match Find(w.pending, seqno)
    case None => (w, None)
    case Some(i) => (w.(pending := w.pending[..i] + w.pending[i + 1..]), Some(w.pending[i]))
  }

  predicate Late(h: Held, now: nat, timeout: nat) {
    now - h.at >= timeout
  }

  /** The overdue deliveries, or the others. */
  function Overdue(pending: seq<Held>, now: nat, timeout: nat, late: bool): (r: seq<Held>)
    ensures forall h <- r :: Late(h, now, timeout) == late
  {
    if pending == [] then []
    else
      (if Late(pending[0], now, timeout) == late then [pending[0]] else [])
      + Overdue(pending[1..], now, timeout, late)
  }

  /** When the first delivery times out. */
  function NextExpiry(pending: seq<Held>, timeout: nat): (r: Option<nat>)
    ensures pending == [] <==> r.None?
    ensures r.Some? ==> (forall h <- pending :: r.value <= h.at + timeout)
                        && exists h :: h in pending && r.value == h.at + timeout
  {
    if pending == [] then None
    else
      var first := pending[0].at + timeout;
      match NextExpiry(pending[1..], timeout)
      case None => Some(first)
      case Some(rest) => Some(if first <= rest then first else rest)
  }

  /** One look for room: nothing when the window is full, `Some(None)` once stopped,
      else the room there is. */
  function Looked(stop: bool, held: nat, max: nat): Option<Option<nat>> {
    if stop then Some(None) else if held < max then Some(Some(max - held)) else None
  }

  /** How long the settler waits: to the next expiry, at most a second. */
  function SettleWait(next: Option<nat>, now: nat): nat {
    if next.None? then ONE_SECOND
    else if next.value <= now then 0
    else if next.value - now <= ONE_SECOND then next.value - now
    else ONE_SECOND
  }

  // ---- Taking out of an ordered window ----

  lemma TakenMultiset(w: Window, seqno: nat)
    ensures var (w', h) := Taken(w, seqno);
            && (h.None? ==> w' == w)
            && (h.Some? ==> h.value.seqno == seqno && multiset(w.pending) == multiset(w'.pending) + multiset{h.value})
  {
    var (w', h) := Taken(w, seqno);
    if h.Some? {
      var i := Find(w.pending, seqno).value;
      assert w.pending == w.pending[..i] + [w.pending[i]] + w.pending[i + 1..];
    }
  }

  lemma TakenOrdered(w: Window, seqno: nat)
    requires Ordered(w)
    ensures Ordered(Taken(w, seqno).0)
  {
  }

  lemma {:induction false} OverdueSplits(pending: seq<Held>, now: nat, timeout: nat)
    ensures multiset(pending)
         == multiset(Overdue(pending, now, timeout, true)) + multiset(Overdue(pending, now, timeout, false))
  {
    if pending != [] {
      OverdueSplits(pending[1..], now, timeout);
      assert pending == [pending[0]] + pending[1..];
    }
  }

  lemma {:induction false} OverdueOrdered(pending: seq<Held>, now: nat, timeout: nat, late: bool)
    requires forall i, j | 0 <= i < j < |pending| :: pending[i].seqno < pending[j].seqno
    ensures var r := Overdue(pending, now, timeout, late);
            && (forall i, j | 0 <= i < j < |r| :: r[i].seqno < r[j].seqno)
            && (forall h <- r :: h in pending)
  {
    if pending != [] {
      OverdueOrdered(pending[1..], now, timeout, late);
      assert forall h <- pending[1..] :: h in pending && pending[0].seqno < h.seqno;
    }
  }

  lemma NextExpiryStep(pending: seq<Held>, timeout: nat)
    requires pending != []
    ensures var first, rest := pending[0].at + timeout, NextExpiry(pending[1..], timeout);
            NextExpiry(pending, timeout) == Some(if rest.None? || first <= rest.value then first else rest.value)
  {
  }

  lemma OverdueStep(all: seq<Held>, i: nat, now: nat, timeout: nat, front: seq<Held>, late: bool)
    requires i < |all|
    ensures front + Overdue(all[i..], now, timeout, late)
         == (if Late(all[i], now, timeout) == late then front + [all[i]] else front) + Overdue(all[i + 1..], now, timeout, late)
  {
    assert all[i..][0] == all[i] && all[i..][1..] == all[i + 1..];
    var rest := Overdue(all[i + 1..], now, timeout, late);
    assert front + ([all[i]] + rest) == front + [all[i]] + rest;
    assert [] + rest == rest;
  }

  lemma OverdueEnd(all: seq<Held>, now: nat, timeout: nat, front: seq<Held>, late: bool)
    ensures front + Overdue(all[|all|..], now, timeout, late) == front
  {
  }

  /** What is not overdue stays in order. */
  lemma RestOrdered(w: Window, now: nat, timeout: nat)
    requires Ordered(w)
    ensures Ordered(w.(pending := Overdue(w.pending, now, timeout, false)))
    ensures forall h <- Overdue(w.pending, now, timeout, false) :: h in w.pending
    ensures forall h <- Overdue(w.pending, now, timeout, true) :: h in w.pending
  {
    OverdueOrdered(w.pending, now, timeout, false);
    OverdueOrdered(w.pending, now, timeout, true);
    var r := Overdue(w.pending, now, timeout, false);
    forall i | 0 <= i < |r|
      ensures r[i].seqno < w.nextSeq
    {
      assert r[i] in w.pending;
    }
  }

  /** The mutex-guarded state and what each hold of the mutex does to it. */
  class Shared {
    const maxInFlight: nat
    const ackTimeout: nat
    var pending: seq<Held>
    var nextSeq: nat
    var stop: bool

    function View(): Window
      reads this
    {
      Window(pending, nextSeq)
    }

    constructor (maxInFlight: nat, ackTimeout: nat)
      ensures View() == Window([], 0) && !stop
      ensures this.maxInFlight == maxInFlight && this.ackTimeout == ackTimeout
    {
      this.maxInFlight := maxInFlight;
      this.ackTimeout := ackTimeout;
      this.pending := [];
      this.nextSeq := 0;
      this.stop := false;
    }

    method LookForRoom() returns (r: Option<Option<nat>>)
      ensures r == Looked(stop, |pending|, maxInFlight)
      ensures stop ==> r == Some(None)
      ensures !stop && |pending| >= maxInFlight ==> r == None
      ensures !stop && |pending| < maxInFlight ==>
                r.Some? && r.value.Some? && r.value.value > 0 && |pending| + r.value.value == maxInFlight
    {
      if stop {
        return Some(None);
      }
      var held := |pending|;
      if held < maxInFlight {
        return Some(Some(maxInFlight - held));
      }
      return None;
    }

    /** Numbers a delivery and holds it. */
    method Hold(receipt: Receipt, now: nat) returns (seqno: nat)
      requires Ordered(View())
      modifies this`pending, this`nextSeq
      ensures View() == Inserted(old(View()), receipt, now) && seqno == old(nextSeq)
      ensures Ordered(View())
    {
      seqno := nextSeq;
      nextSeq := nextSeq + 1;
      pending := pending + [Held(seqno, receipt, now)];
    }

    method Take(seqno: nat) returns (r: Option<Receipt>)
      requires Ordered(View())
      modifies this`pending
      ensures View() == Taken(old(View()), seqno).0 && Ordered(View())
      ensures r == match Taken(old(View()), seqno).1
                   case None => None
                   case Some(h) => Some(h.receipt)
    {
      TakenOrdered(View(), seqno);
      match Find(pending, seqno) {
        case None => r := None;
        case Some(i) =>
          r := Some(pending[i].receipt);
          pending := pending[..i] + pending[i + 1..];
      }
    }

    /** Splits off what is overdue. */
    method Expired(now: nat) returns (late: seq<Held>)
      requires Ordered(View())
      modifies this`pending
      ensures late == Overdue(old(pending), now, ackTimeout, true)
      ensures pending == Overdue(old(pending), now, ackTimeout, false)
      ensures nextSeq == old(nextSeq) && Ordered(View())
    {
      late := [];
      ghost var all := pending;
      var kept := [];
      for i := 0 to |pending|
        invariant pending == all
        invariant late + Overdue(all[i..], now, ackTimeout, true) == Overdue(all, now, ackTimeout, true)
        invariant kept + Overdue(all[i..], now, ackTimeout, false) == Overdue(all, now, ackTimeout, false)
      {
        OverdueStep(all, i, now, ackTimeout, late, true);
        OverdueStep(all, i, now, ackTimeout, kept, false);
        if Late(pending[i], now, ackTimeout) {
          late := late + [pending[i]];
        } else {
          kept := kept + [pending[i]];
        }
      }
      OverdueEnd(all, now, ackTimeout, late, true);
      OverdueEnd(all, now, ackTimeout, kept, false);
      RestOrdered(View(), now, ackTimeout);
      pending := kept;
    }

    method Next() returns (r: Option<nat>)
      ensures r == NextExpiry(pending, ackTimeout)
    {
      r := None;
      for i := |pending| downto 0
        invariant r == NextExpiry(pending[i..], ackTimeout)
      {
        NextExpiryStep(pending[i..], ackTimeout);
        assert pending[i..][0] == pending[i] && pending[i..][1..] == pending[i + 1..];
        var at := pending[i].at + ackTimeout;
        if r.None? || at <= r.value {
          r := Some(at);
        }
      }
      assert pending[0..] == pending;
    }

    /** Everything still held, at the end. */
    method DrainAll() returns (held: seq<Held>)
      modifies this`pending
      ensures held == old(pending) && pending == []
    {
      held := pending;
      pending := [];
    }
  }
}
