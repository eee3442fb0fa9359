/** Cancelling a task that forwards a stream to the host's callback: the HTTP drain
    and the cluster forwarder, as a step system of the task, its runtime, the
    cancelling call and the clock. */
module StreamCancel {

  type Item = nat

  /** The drain hands on every chunk and then an end; the forwarder hands on the
      items that serialize, and nothing at the end. */
  datatype Kind = HttpDrain | Forwarder(serializes: Item -> bool)

  /** `items` is what the stream has to give; it may end after them, or not. */
  datatype Config = Config(kind: Kind, items: seq<Item>)

  datatype Callback = Chunk(item: Item) | End

  /** The future: not being polled, in a poll, in a callback within a poll, or
      dropped. */
  datatype Task = Suspended | Polling | InCallback(what: Callback) | Gone

  datatype How = Signalled | Disconnected | TimedOut

  datatype Cancel = NotCalled | Waiting(until: nat) | Returned(how: How)

  /** `started`: the body ran as far as its done guard, which signals when it is
      dropped. A future dropped before that closes the channel without a signal. */
  datatype State = State(
    task: Task,
    started: bool,
    taken: nat,
    log: seq<Callback>,
    abort: bool,
    signal: bool,
    cancel: Cancel,
    now: nat)

  /** Longest a cancel waits, in milliseconds. */
  const PATIENCE: nat := 5000

  datatype Step =
    | PollStarts
    | Yields
    | Ready
    | Ends
    | CallbackReturns
    | Dropped
    | CallCancel
    | Hears
    | SeesClosed
    | TimesOut
    | Tick(ms: nat)

  predicate Enabled(c: Config, s: State, step: Step) {
    match step
    // The runtime does not poll an aborted task again: it drops it.
    case PollStarts => s.task.Suspended? && !s.abort
    case Yields => s.task.Polling?
    case Ready => s.task.Polling? && s.taken < |c.items|
    case Ends => s.task.Polling? && s.taken == |c.items|
    case CallbackReturns => s.task.InCallback?
    case Dropped => s.task.Suspended? && s.abort
    case CallCancel => s.cancel.NotCalled?
    case Hears => s.cancel.Waiting? && s.signal
    case SeesClosed => s.cancel.Waiting? && s.task.Gone? && !s.signal
    case TimesOut => s.cancel.Waiting? && !s.task.Gone? && s.cancel.until <= s.now
    case Tick(_) => true
  }

  predicate Hands(c: Config, item: Item) {
    c.kind.HttpDrain? || c.kind.serializes(item)
  }

  function Calling(s: State, what: Callback): State {
    s.(task := InCallback(what), log := s.log + [what])
  }

  /** The future is dropped: its guard signals if it was made. */
  function Finished(s: State): State {
    s.(task := Gone, signal := s.started)
  }

  function After(c: Config, s: State, step: Step): State
    requires Enabled(c, s, step)
  {
    match step
    case PollStarts => s.(task := Polling, started := true)
    case Yields => s.(task := Suspended)
    case Ready =>
      var s' := s.(taken := s.taken + 1);
      if Hands(c, c.items[s.taken]) then Calling(s', Chunk(c.items[s.taken])) else s'
    case Ends => if c.kind.HttpDrain? then Calling(s, End) else Finished(s)
    case CallbackReturns => if s.task.what.End? then Finished(s) else s.(task := Polling)
    case Dropped => Finished(s)
    case CallCancel => s.(abort := true, cancel := Waiting(s.now + PATIENCE))
    case Hears => s.(cancel := Returned(Signalled))
    case SeesClosed => s.(cancel := Returned(Disconnected))
    case TimesOut => s.(cancel := Returned(TimedOut))
    case Tick(ms) => s.(now := s.now + ms)
  }

  function Start(): State { State(Suspended, false, 0, [], false, false, NotCalled, 0) }

  ghost predicate Runs(c: Config, s: State, steps: seq<Step>)
    decreases |steps|
  {
    steps == [] || (Enabled(c, s, steps[0]) && Runs(c, After(c, s, steps[0]), steps[1..]))
  }

  ghost function Final(c: Config, s: State, steps: seq<Step>): State
    requires Runs(c, s, steps)
    decreases |steps|
  {
    if steps == [] then s else Final(c, After(c, s, steps[0]), steps[1..])
  }

  // ---- What every run keeps ----

  /** The callbacks the first items of a stream make. */
  function Handed(c: Config, items: seq<Item>): seq<Callback> {
    if items == [] then []
    else
      var last := items[|items| - 1];
      Handed(c, items[..|items| - 1]) + (if Hands(c, last) then [Chunk(last)] else [])
  }

  ghost predicate Logged(c: Config, s: State) {
    && s.taken <= |c.items|
    && if End in s.log
       then c.kind.HttpDrain? && s.taken == |c.items| && s.log == Handed(c, c.items) + [End]
            && (s.task == InCallback(End) || s.task.Gone?)
       else s.log == Handed(c, c.items[..s.taken]) && s.task != InCallback(End)
  }

  ghost predicate Inv(c: Config, s: State) {
    && Logged(c, s)
    && (s.signal ==> s.task.Gone?)
    && (s.cancel != NotCalled ==> s.abort)
    && (s.cancel.Returned? && !s.cancel.how.TimedOut? ==> s.task.Gone?)
  }

  lemma {:induction false} HandedChunks(c: Config, items: seq<Item>)
    ensures End !in Handed(c, items)
  {
    if items != [] {
      HandedChunks(c, items[..|items| - 1]);
    }
  }

  /** The drain hands on every chunk, unchanged and in order. */
  lemma {:induction false} DrainHandsAll(c: Config, items: seq<Item>)
    requires c.kind.HttpDrain?
    ensures |Handed(c, items)| == |items| && forall i | 0 <= i < |items| :: Handed(c, items)[i] == Chunk(items[i])
  {
    if items != [] {
      DrainHandsAll(c, items[..|items| - 1]);
    }
  }

  lemma ReadyLogs(c: Config, s: State)
    requires Logged(c, s) && Enabled(c, s, Ready)
    ensures Logged(c, After(c, s, Ready))
  {
    var items := c.items[..s.taken + 1];
    assert items[..|items| - 1] == c.items[..s.taken];
    HandedChunks(c, items);
  }

  lemma StepKeeps(c: Config, s: State, step: Step)
    requires Inv(c, s) && Enabled(c, s, step)
    ensures Inv(c, After(c, s, step))
  {
    match step {
      case Ready => ReadyLogs(c, s);
      case Ends =>
        assert c.items[..s.taken] == c.items;
        HandedChunks(c, c.items);
      case _ =>
    }
  }

  lemma {:induction false} RunKeeps(c: Config, s: State, steps: seq<Step>)
    requires Inv(c, s) && Runs(c, s, steps)
    ensures Inv(c, Final(c, s, steps))
    decreases |steps|
  {
    if steps != [] {
      StepKeeps(c, s, steps[0]);
      RunKeeps(c, After(c, s, steps[0]), steps[1..]);
    }
  }

  /** In every run the drain's callbacks are the first of its chunks, in order,
      then at most one end, after all of them; the forwarder's are the items that
      serialize among the first of its stream, and never an end. */
  lemma CallbacksAreTheStream(c: Config, steps: seq<Step>)
    requires Runs(c, Start(), steps)
    ensures var s := Final(c, Start(), steps);
            && s.taken <= |c.items|
            && (s.log == Handed(c, c.items[..s.taken])
                || (c.kind.HttpDrain? && s.taken == |c.items| && s.log == Handed(c, c.items) + [End]))
  {
    RunKeeps(c, Start(), steps);
  }

  /** A task that ends before it is aborted has handed on all of its stream, and a
      drain its end. */
  ghost predicate EndsWhole(c: Config, s: State) {
    s.task.Gone? && !s.abort ==>
      s.taken == |c.items| && s.log == Handed(c, c.items) + if c.kind.HttpDrain? then [End] else []
  }

  lemma {:induction false} RunEnds(c: Config, s: State, steps: seq<Step>)
    requires Inv(c, s) && EndsWhole(c, s) && Runs(c, s, steps)
    ensures EndsWhole(c, Final(c, s, steps))
    decreases |steps|
  {
    if steps != [] {
      StepKeeps(c, s, steps[0]);
      if steps[0].Ends? {
        assert c.items[..s.taken] == c.items && Handed(c, c.items) + [] == Handed(c, c.items);
      }
      RunEnds(c, After(c, s, steps[0]), steps[1..]);
    }
  }

  lemma WholeUnlessAborted(c: Config, steps: seq<Step>)
    requires Runs(c, Start(), steps)
    ensures var s := Final(c, Start(), steps);
            s.task.Gone? && !s.abort ==>
              s.taken == |c.items| && s.log == Handed(c, c.items) + if c.kind.HttpDrain? then [End] else []
  {
    RunEnds(c, Start(), steps);
  }

  /** The forwarder hands on the items that serialize, in order, and no others. */
  lemma {:induction false} ForwarderHands(c: Config, a: seq<Item>, item: Item, b: seq<Item>)
    requires c.kind.Forwarder?
    ensures Handed(c, a + [item] + b)
         == Handed(c, a) + (if c.kind.serializes(item) then [Chunk(item)] else []) + Handed(c, b)
  {
    if b == [] {
      assert a + [item] + b == a + [item] && (a + [item])[..|a|] == a;
    } else {
      var init, last := b[..|b| - 1], b[|b| - 1];
      assert (a + [item] + b)[..|a| + |b|] == a + [item] + init;
      ForwarderHands(c, a, item, init);
    }
  }

  // ---- Quiet after cancel ----

  /** No callback is running, and no run from here starts one. */
  ghost predicate QuietForever(c: Config, s: State) {
    !s.task.InCallback? && forall steps :: Runs(c, s, steps) ==> Final(c, s, steps).log == s.log
  }

  lemma {:induction false} OffStaysQuiet(c: Config, s: State, steps: seq<Step>)
    requires s.task.Gone? || (s.task.Suspended? && s.abort)
    requires Runs(c, s, steps)
    ensures Final(c, s, steps).log == s.log
    decreases |steps|
  {
    if steps != [] {
      OffStaysQuiet(c, After(c, s, steps[0]), steps[1..]);
    }
  }

  /** Whenever a cancel returned without its wait timing out, no callback is
      running and none ever starts again, whatever the interleaving. */
  lemma CancelQuiets(c: Config, steps: seq<Step>)
    requires Runs(c, Start(), steps)
    ensures var s := Final(c, Start(), steps);
            s.cancel == Returned(Signalled) || s.cancel == Returned(Disconnected) ==> QuietForever(c, s)
  {
    RunKeeps(c, Start(), steps);
    var s := Final(c, Start(), steps);
    if s.cancel == Returned(Signalled) || s.cancel == Returned(Disconnected) {
      forall more | Runs(c, s, more)
        ensures Final(c, s, more).log == s.log
      {
        OffStaysQuiet(c, s, more);
      }
    }
  }

  /** The rest of the stream has a callback in it. */
  ghost predicate MayCall(c: Config, s: State) {
    c.kind.HttpDrain? || exists k :: s.taken <= k < |c.items| && Hands(c, c.items[k])
  }

  /** In a poll, the stream may go on as far as its next callback. */
  lemma {:induction false} PollMayCall(c: Config, s: State) returns (steps: seq<Step>)
    requires s.task.Polling? && s.taken <= |c.items| && MayCall(c, s)
    ensures Runs(c, s, steps) && |Final(c, s, steps).log| > |s.log|
    decreases |c.items| - s.taken
  {
    var step := if s.taken < |c.items| then Ready else Ends;
    var s' := After(c, s, step);
    if s'.task.InCallback? {
      steps := [step];
      assert steps[1..] == [];
    } else {
      var rest := PollMayCall(c, s');
      steps := [step] + rest;
      assert steps[1..] == rest;
    }
  }

  lemma {:induction false} SilentPoll(c: Config, s: State, steps: seq<Step>)
    requires s.abort && !s.task.InCallback? && s.taken <= |c.items| && !MayCall(c, s) && Runs(c, s, steps)
    ensures Final(c, s, steps).log == s.log
    decreases |steps|
  {
    if steps != [] {
      if steps[0].Ready? {
        assert !Hands(c, c.items[s.taken]);
      }
      SilentPoll(c, After(c, s, steps[0]), steps[1..]);
    }
  }

  /** Exactly when a cancel that gave up waiting left the task quiet for good: when
      no callback was running, and a poll under way, if any, had none left to
      make. */
  lemma QuietAfterTimeoutIff(c: Config, steps: seq<Step>)
    requires Runs(c, Start(), steps) && Final(c, Start(), steps).cancel == Returned(TimedOut)
    ensures var s := Final(c, Start(), steps);
            QuietForever(c, s) <==> !s.task.InCallback? && (s.task.Polling? ==> !MayCall(c, s))
  {
    RunKeeps(c, Start(), steps);
    var s := Final(c, Start(), steps);
    if s.task.Polling? && MayCall(c, s) {
      var more := PollMayCall(c, s);
    } else if !s.task.InCallback? {
      forall more | Runs(c, s, more)
        ensures Final(c, s, more).log == s.log
      {
        if s.task.Polling? {
          SilentPoll(c, s, more);
        } else {
          OffStaysQuiet(c, s, more);
        }
      }
    }
  }

  /** Signals say the body ran; the channel closed without one says it never did. */
  ghost predicate Signals(s: State) {
    && (s.signal <==> s.task.Gone? && s.started)
    && (s.task.Polling? || s.task.InCallback? ==> s.started)
    && (s.cancel == Returned(Signalled) ==> s.started)
    && (s.cancel == Returned(Disconnected) ==> s.task.Gone? && !s.started)
  }

  lemma {:induction false} RunSignals(c: Config, s: State, steps: seq<Step>)
    requires Signals(s) && Runs(c, s, steps)
    ensures Signals(Final(c, s, steps))
    decreases |steps|
  {
    if steps != [] {
      RunSignals(c, After(c, s, steps[0]), steps[1..]);
    }
  }

  /** A cancel that did not give up heard the signal of a body that ran, or found the
      channel closed of one that never did. */
  lemma HeardIffStarted(c: Config, steps: seq<Step>)
    requires Runs(c, Start(), steps)
    ensures var s := Final(c, Start(), steps);
            s.cancel.Returned? && !s.cancel.how.TimedOut? ==> (s.cancel.how.Signalled? <==> s.started)
  {
    RunSignals(c, Start(), steps);
  }

  lemma {:induction false} WaitsUntil(c: Config, s: State, steps: seq<Step>)
    requires s.cancel.Waiting? && Runs(c, s, steps)
    ensures Final(c, s, steps).cancel == Returned(TimedOut) ==> Final(c, s, steps).now >= s.cancel.until
    decreases |steps|
  {
    if steps != [] {
      var s' := After(c, s, steps[0]);
      if s'.cancel.Waiting? {
        WaitsUntil(c, s', steps[1..]);
      } else {
        ReturnedStays(c, s', steps[1..]);
      }
    }
  }

  lemma {:induction false} ReturnedStays(c: Config, s: State, steps: seq<Step>)
    requires s.cancel.Returned? && Runs(c, s, steps)
    ensures Final(c, s, steps).cancel == s.cancel && Final(c, s, steps).now >= s.now
    decreases |steps|
  {
    if steps != [] {
      ReturnedStays(c, After(c, s, steps[0]), steps[1..]);
    }
  }

  /** A cancel gives up no sooner than five seconds after it was called. */
  lemma GivesUpLate(c: Config, s: State, steps: seq<Step>)
    requires s.cancel.NotCalled? && Runs(c, s, [CallCancel] + steps)
    requires Final(c, s, [CallCancel] + steps).cancel == Returned(TimedOut)
    ensures Final(c, s, [CallCancel] + steps).now >= s.now + 5000
  {
    assert ([CallCancel] + steps)[1..] == steps;
    WaitsUntil(c, After(c, s, CallCancel), steps);
  }

  lemma Cons(c: Config, s: State, step: Step, rest: seq<Step>) returns (steps: seq<Step>)
    requires Enabled(c, s, step) && Runs(c, After(c, s, step), rest)
    ensures Runs(c, s, steps) && Final(c, s, steps) == Final(c, After(c, s, step), rest)
  {
    steps := [step] + rest;
    assert steps[1..] == rest;
  }

  /** Such a cancel may leave it not quiet: a drain whose poll outlasts the wait
      calls back after cancel returned. */
  lemma TimedOutWait(c: Config) returns (steps: seq<Step>)
    requires c.kind.HttpDrain?
    ensures Runs(c, Start(), steps) && Final(c, Start(), steps).cancel == Returned(TimedOut)
    ensures !QuietForever(c, Final(c, Start(), steps))
  {
    var s1 := After(c, Start(), PollStarts);
    var s2 := After(c, s1, CallCancel);
    var s3 := After(c, s2, Tick(PATIENCE));
    steps := Cons(c, s3, TimesOut, []);
    steps := Cons(c, s2, Tick(PATIENCE), steps);
    steps := Cons(c, s1, CallCancel, steps);
    steps := Cons(c, Start(), PollStarts, steps);
    QuietAfterTimeoutIff(c, steps);
  }
}
