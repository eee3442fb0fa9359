/** A queue watch as a step system: the receiving and the settling thread, the
    host, the cancelling call, the broker and the clock, each step what happens
    between two points where another of them may act. */
module QueueSteps {
  import opened Strs
  import opened QueueWindow

  type Msg = nat

  /** `eventSource`: the URI is an MCP Events source. `sendable`: the event a
      message makes under a sequence number serializes and fits the host.
      `respectsMax`: the source never delivers more than it was asked for. */
  datatype Config = Config(
    maxInFlight: nat,
    ackTimeout: nat,
    eventSource: bool,
    sendable: (Msg, nat) -> bool,
    respectsMax: bool)

  datatype Settle = AckOf(position: Option<nat>) | StopSettling

  datatype Receiver =
    | Top
    | Connecting
    | LookingForRoom
    | Receiving(room: nat)
    | Got(hand: seq<Receipt>)
    | ReleasingHand(hand: seq<Receipt>)
    | AckingHand(hand: seq<Receipt>)
    | Offering(hand: seq<Receipt>)
    | Offered(id: Receipt, seqno: nat, hand: seq<Receipt>)
    | Removing(id: Receipt, wasHeld: bool, hand: seq<Receipt>)
    | Pausing
    | Returned

  datatype Settler =
    | Expiring
    | ReleasingLate(late: seq<Held>, read: nat)
    | Measuring
    | Waiting(until: nat)
    | Taking(seqno: nat)
    | Acking(held: Held)
    | Draining
    | ReleasingAll(left: seq<Held>)
    | Finished

  datatype Cancel = NotCalled | JoiningReceiver | JoiningSettler | Done

  datatype Why = HostAcked(seqno: nat) | TimedOut(age: nat) | AtTheEnd | Stopping | Notified | Unsendable

  /** A call of the broker's `ack` or `release`. An `extra` one comes after the
      delivery was already settled elsewhere. */
  datatype Call = Call(id: Receipt, ack: bool, why: Why, extra: bool)

  /** The broker's side: what it can deliver, what it delivered and holds locked,
      what was removed. */
  datatype Broker = Broker(published: set<Msg>, available: set<Msg>, locked: set<Receipt>, removed: set<Msg>)

  datatype State = State(
    window: Window,
    stop: bool,
    connected: bool,
    channel: seq<Settle>,
    receiver: Receiver,
    settler: Settler,
    cancel: Cancel,
    now: nat,
    msgOf: seq<Msg>,
    seqOf: map<Receipt, nat>,
    emitted: set<Receipt>,
    bare: nat,
    hostAcked: set<nat>,
    calls: seq<Call>,
    broker: Broker)

  datatype ReceiverStep =
    | LoopTop
    | Connect(up: bool)
    | PauseOver
    | LookForRoom
    | Receive(msgs: seq<Msg>)
    | ReceiveFails
    | Dispatch
    | ReleaseNext(heard: bool)
    | AckNext(heard: bool)
    | HoldNext
    | Send
    | AckUnsendable(heard: bool)

  datatype SettlerStep =
    | Expire
    | ReleaseLate(heard: bool)
    | Measure
    | Hear
    | WaitOver
    | TakeOut
    | AckTaken(heard: bool)
    | Drain
    | ReleaseLeft(heard: bool)

  datatype OtherStep =
    | HostAcks(position: Option<nat>)
    | CallCancel
    | JoinReceiver
    | JoinSettler
    | Publish(msg: Msg)
    | LockLapses(id: Receipt)
    | Tick(ms: nat)

  datatype Step = ByReceiver(r: ReceiverStep) | BySettler(x: SettlerStep) | ByOther(o: OtherStep)

  // ---- The broker ----

  /** The message a delivery carries. */
  function MsgAt(msgOf: seq<Msg>, id: Receipt): Msg {
    if id < |msgOf| then msgOf[id] else 0
  }

  /** The broker ignores a call about a delivery it no longer holds locked, and
      one it did not hear changes nothing. */
  function Heard(b: Broker, msg: Msg, id: Receipt, ack: bool, heard: bool): Broker {
    if !heard || id !in b.locked then b
    else if ack then b.(locked := b.locked - {id}, removed := b.removed + {msg})
    else b.(locked := b.locked - {id}, available := b.available + {msg})
  }

  function Called(s: State, call: Call, heard: bool): State {
    s.(calls := s.calls + [call], broker := Heard(s.broker, MsgAt(s.msgOf, call.id), call.id, call.ack, heard))
  }

  /** `n` deliveries, numbered from `first`. */
  function Deliveries(first: nat, n: nat): (r: seq<Receipt>)
    ensures |r| == n
    ensures forall i | 0 <= i < n :: r[i] == first + i
  {
    seq(n, i => first + i)
  }

  function Locks(first: nat, n: nat): set<Receipt> {
    set id | id in Deliveries(first, n)
  }

  predicate NoDuplicates(msgs: seq<nat>) {
    forall i, j | 0 <= i < j < |msgs| :: msgs[i] != msgs[j]
  }

  // ---- The steps ----

  predicate ReceiverCan(c: Config, s: State, step: ReceiverStep) {
    match step
    case LoopTop => s.receiver.Top?
    case Connect(_) => s.receiver.Connecting?
    case PauseOver => s.receiver.Pausing?
    case LookForRoom => s.receiver.LookingForRoom?
    case Receive(msgs) =>
      && s.receiver.Receiving? && NoDuplicates(msgs)
      && (forall m <- msgs :: m in s.broker.available)
      && (c.respectsMax ==> |msgs| <= s.receiver.room)
    case ReceiveFails => s.receiver.Receiving?
    case Dispatch => s.receiver.Got?
    case ReleaseNext(_) => s.receiver.ReleasingHand?
    case AckNext(_) => s.receiver.AckingHand?
    case HoldNext => s.receiver.Offering?
    case Send => s.receiver.Offered?
    case AckUnsendable(_) => s.receiver.Removing?
  }

  predicate SettlerCan(s: State, step: SettlerStep) {
    match step
    case Expire => s.settler.Expiring?
    case ReleaseLate(_) => s.settler.ReleasingLate?
    case Measure => s.settler.Measuring?
    case Hear => s.settler.Waiting? && s.channel != []
    // A wait ends by its deadline only with nothing queued.
    case WaitOver => s.settler.Waiting? && s.channel == [] && s.settler.until <= s.now
    case TakeOut => s.settler.Taking?
    case AckTaken(_) => s.settler.Acking?
    case Drain => s.settler.Draining?
    case ReleaseLeft(_) => s.settler.ReleasingAll?
  }

  predicate OtherCan(s: State, step: OtherStep) {
    match step
    case HostAcks(_) => true
    case CallCancel => s.cancel.NotCalled?
    case JoinReceiver => s.cancel.JoiningReceiver? && s.receiver.Returned?
    case JoinSettler => s.cancel.JoiningSettler? && s.settler.Finished?
    case Publish(msg) => msg !in s.broker.published
    case LockLapses(id) => id in s.broker.locked
    case Tick(_) => true
  }

  predicate Enabled(c: Config, s: State, step: Step) {
    match step
    case ByReceiver(r) => ReceiverCan(c, s, r)
    case BySettler(x) => SettlerCan(s, x)
    case ByOther(o) => OtherCan(s, o)
  }

  // The receiving thread.

  function ReceiverTop(s: State): State {
    s.(receiver := if s.stop then Returned else if s.connected then LookingForRoom else Connecting)
  }

  function RoomFound(c: Config, s: State): State {
    match Looked(s.stop, |s.window.pending|, c.maxInFlight)
    case None => s
    case Some(None) => s.(receiver := Returned)
    case Some(Some(room)) => s.(receiver := Receiving(room))
  }

  function Received(s: State, msgs: seq<Msg>): State {
    if msgs == [] then s.(receiver := Top)
    else
      var first := |s.msgOf|;
      s.(receiver := Got(Deliveries(first, |msgs|)),
         msgOf := s.msgOf + msgs,
         broker := s.broker.(available := s.broker.available - (set m | m in msgs),
                             locked := s.broker.locked + Locks(first, |msgs|)))
  }

  function Dispatched(c: Config, s: State): State
    requires s.receiver.Got?
  {
    var hand := s.receiver.hand;
    s.(receiver := if s.stop then ReleasingHand(hand) else if c.eventSource then Offering(hand) else AckingHand(hand))
  }

  function HandReleased(s: State, heard: bool): State
    requires s.receiver.ReleasingHand?
  {
    var hand := s.receiver.hand;
    if hand == [] then s.(receiver := Returned)
    else Called(s.(receiver := ReleasingHand(hand[1..])), Call(hand[0], false, Stopping, false), heard)
  }

  function HandAcked(s: State, heard: bool): State
    requires s.receiver.AckingHand?
  {
    var hand := s.receiver.hand;
    if hand == [] then s.(receiver := Top, bare := s.bare + 1)
    else Called(s.(receiver := AckingHand(hand[1..])), Call(hand[0], true, Notified, false), heard)
  }

  /** One hold of the mutex: the delivery is numbered and put in the window. */
  function HeldNext(s: State): State
    requires s.receiver.Offering?
  {
    var hand := s.receiver.hand;
    if hand == [] then s.(receiver := Top)
    else
      var seqno := s.window.nextSeq;
      s.(receiver := Offered(hand[0], seqno, hand[1..]),
         window := Inserted(s.window, hand[0], s.now),
         seqOf := s.seqOf[hand[0] := seqno])
  }

  /** The event is emitted; one that cannot be sent is taken back out. */
  function Sent(c: Config, s: State): State
    requires s.receiver.Offered?
  {
    var Offered(id, seqno, hand) := s.receiver;
    if c.sendable(MsgAt(s.msgOf, id), seqno)
    then s.(receiver := Offering(hand), emitted := s.emitted + {id})
    else
      var (w, held) := Taken(s.window, seqno);
      s.(receiver := Removing(id, held.Some?, hand), window := w)
  }

  /** It is acked whatever was taken out. */
  function UnsendableAcked(s: State, heard: bool): State
    requires s.receiver.Removing?
  {
    var Removing(id, wasHeld, hand) := s.receiver;
    Called(s.(receiver := Offering(hand)), Call(id, true, Unsendable, !wasHeld), heard)
  }

  // The settling thread.

  function LateOut(c: Config, s: State): State {
    s.(settler := ReleasingLate(Overdue(s.window.pending, s.now, c.ackTimeout, true), s.now),
       window := s.window.(pending := Overdue(s.window.pending, s.now, c.ackTimeout, false)))
  }

  function LateReleased(s: State, heard: bool): State
    requires s.settler.ReleasingLate?
  {
    var ReleasingLate(late, read) := s.settler;
    if late == [] then s.(settler := Measuring)
    else
      Called(s.(settler := ReleasingLate(late[1..], read)),
             Call(late[0].receipt, false, TimedOut(if read >= late[0].at then read - late[0].at else 0), false), heard)
  }

  function Measured(c: Config, s: State): State {
    s.(settler := Waiting(s.now + SettleWait(NextExpiry(s.window.pending, c.ackTimeout), s.now)))
  }

  function HeardSettle(s: State): State
    requires s.channel != []
  {
    var s' := s.(channel := s.channel[1..]);
    match s.channel[0]
    case AckOf(position) => s'.(settler := if position.Some? then Taking(position.value) else Expiring)
    case StopSettling => s'.(settler := Draining)
  }

  function TakenOut(s: State): State
    requires s.settler.Taking?
  {
    var (w, held) := Taken(s.window, s.settler.seqno);
    s.(window := w, settler := if held.Some? then Acking(held.value) else Expiring)
  }

  function TakenAcked(s: State, heard: bool): State
    requires s.settler.Acking?
  {
    var held := s.settler.held;
    Called(s.(settler := Expiring), Call(held.receipt, true, HostAcked(held.seqno), false), heard)
  }

  function Drained(s: State): State {
    s.(settler := ReleasingAll(s.window.pending), window := s.window.(pending := []))
  }

  function LeftReleased(s: State, heard: bool): State
    requires s.settler.ReleasingAll?
  {
    var left := s.settler.left;
    if left == [] then s.(settler := Finished)
    else Called(s.(settler := ReleasingAll(left[1..])), Call(left[0].receipt, false, AtTheEnd, false), heard)
  }

  // The host.

  function HostAcknowledged(s: State, position: Option<nat>): State {
    s.(channel := s.channel + [AckOf(position)],
       hostAcked := if position.Some? then s.hostAcked + {position.value} else s.hostAcked)
  }

  function AfterReceiver(c: Config, s: State, step: ReceiverStep): State
    requires ReceiverCan(c, s, step)
  {
    match step
    case LoopTop => ReceiverTop(s)
    case Connect(up) => s.(connected := up, receiver := if up then LookingForRoom else Pausing)
    case PauseOver => s.(receiver := Top)
    case LookForRoom => RoomFound(c, s)
    case Receive(msgs) => Received(s, msgs)
    case ReceiveFails => s.(receiver := Pausing, connected := false)
    case Dispatch => Dispatched(c, s)
    case ReleaseNext(heard) => HandReleased(s, heard)
    case AckNext(heard) => HandAcked(s, heard)
    case HoldNext => HeldNext(s)
    case Send => Sent(c, s)
    case AckUnsendable(heard) => UnsendableAcked(s, heard)
  }

  function AfterSettler(c: Config, s: State, step: SettlerStep): State
    requires SettlerCan(s, step)
  {
    match step
    case Expire => LateOut(c, s)
    case ReleaseLate(heard) => LateReleased(s, heard)
    case Measure => Measured(c, s)
    case Hear => HeardSettle(s)
    case WaitOver => s.(settler := Expiring)
    case TakeOut => TakenOut(s)
    case AckTaken(heard) => TakenAcked(s, heard)
    case Drain => Drained(s)
    case ReleaseLeft(heard) => LeftReleased(s, heard)
  }

  function AfterOther(s: State, step: OtherStep): State
    requires OtherCan(s, step)
  {
    match step
    case HostAcks(position) => HostAcknowledged(s, position)
    case CallCancel => s.(stop := true, cancel := JoiningReceiver)
    case JoinReceiver => s.(cancel := JoiningSettler, channel := s.channel + [StopSettling])
    case JoinSettler => s.(cancel := Cancel.Done)
    case Publish(msg) => s.(broker := s.broker.(published := s.broker.published + {msg}, available := s.broker.available + {msg}))
    case LockLapses(id) => s.(broker := Heard(s.broker, MsgAt(s.msgOf, id), id, false, true))
    case Tick(ms) => s.(now := s.now + ms)
  }

  function After(c: Config, s: State, step: Step): State
    requires Enabled(c, s, step)
  {
    match step
    case ByReceiver(r) => AfterReceiver(c, s, r)
    case BySettler(x) => AfterSettler(c, s, x)
    case ByOther(o) => AfterOther(s, o)
  }

  function Start(available: set<Msg>, now: nat): State {
    State(Window([], 0), false, false, [], Top, Expiring, NotCalled, now, [], map[], {}, 0, {}, [],
          Broker(available, available, {}, {}))
  }

  ghost predicate Runs(c: Config, s: State, steps: seq<Step>)
    decreases |steps|
  {
    steps == [] || (Enabled(c, s, steps[0]) && Runs(c, After(c, s, steps[0]), steps[1..]))
  }

  ghost function Final(c: Config, s: State, steps: seq<Step>): State
    requires Runs(c, s, steps)
    decreases |steps|
  {
    if steps == [] then s else Final(c, After(c, s, steps[0]), steps[1..])
  }

  // ---- What each thread leaves alone ----

  lemma ReceiverLeaves(c: Config, s: State, step: ReceiverStep)
    requires ReceiverCan(c, s, step)
    ensures var s' := AfterReceiver(c, s, step);
            && s'.settler == s.settler && s'.channel == s.channel && s'.cancel == s.cancel && s'.stop == s.stop
            && s'.now == s.now && s'.hostAcked == s.hostAcked
  {
  }

  lemma SettlerLeaves(c: Config, s: State, step: SettlerStep)
    requires SettlerCan(s, step)
    ensures var s' := AfterSettler(c, s, step);
            && s'.receiver == s.receiver && s'.cancel == s.cancel && s'.stop == s.stop && s'.now == s.now
            && s'.hostAcked == s.hostAcked && s'.msgOf == s.msgOf && s'.seqOf == s.seqOf && s'.emitted == s.emitted
            && s'.window.nextSeq == s.window.nextSeq
  {
  }

  lemma OthersLeave(s: State, step: OtherStep)
    requires OtherCan(s, step)
    ensures var s' := AfterOther(s, step);
            && s'.window == s.window && s'.receiver == s.receiver && s'.settler == s.settler
            && s'.msgOf == s.msgOf && s'.seqOf == s.seqOf && s'.emitted == s.emitted && s'.calls == s.calls
            && s.hostAcked <= s'.hostAcked && (s.stop ==> s'.stop)
  {
  }
}
