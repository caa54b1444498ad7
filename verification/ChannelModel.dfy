/**
 The bounded channel as a protocol. `Chan` is the state guarded by the channel's lock
 and the functions on it are its critical sections; `System` adds everything that can
 happen between them, on any number of channels that share one budget.
 */
module ChannelModel {
  datatype Status = Accepted | Closed | Cancelled

  datatype Delivery = Ready | Deferred | OpenGate

  /** A message as its sender handed it over; ids number the accepted sends of a channel. */
  datatype Item = Item(id: nat, delivery: Delivery, bytes: nat)

  datatype Budget = Budget(maxBytes: nat, maxMessages: nat, bytes: int, messages: int)

  datatype Chan = Chan(
    maxBytes: nat,
    maxMessages: nat,
    bytes: int,
    messages: int,
    queue: seq<Item>,
    deferred: seq<Item>,
    scheduled: bool,
    ready: bool,
    status: Status)

  // ---- critical sections ----

  predicate CanReserve(b: Budget, bytes: nat) {
    b.messages < b.maxMessages && bytes <= b.maxBytes - b.bytes
  }

  function Release(b: Budget, bytes: nat): Budget {
    b.(bytes := b.bytes - bytes, messages := b.messages - 1)
  }

  predicate Admits(b: Budget, c: Chan, bytes: nat) {
    && c.status.Accepted?
    && c.messages < c.maxMessages && bytes <= c.maxBytes - c.bytes
    && CanReserve(b, bytes)
  }

  predicate IsHeld(c: Chan, item: Item) {
    item.delivery.Deferred? && !c.ready
  }

  /** What a successful send adds to the queue: itself, or itself and all it releases. */
  function Queued(c: Chan, item: Item): seq<Item> {
    if IsHeld(c, item) then [] else if item.delivery.OpenGate? then [item] + c.deferred else [item]
  }

  function Push(c: Chan, item: Item): Chan {
    var queue := c.queue + Queued(c, item);
    var deferred := if IsHeld(c, item) then c.deferred + [item] else if item.delivery.OpenGate? then [] else c.deferred;
    c.(queue := queue, deferred := deferred,
       bytes := c.bytes + item.bytes, messages := c.messages + 1,
       ready := c.ready || item.delivery.OpenGate?,
       scheduled := c.scheduled || queue != [])
  }

  function Send(b: Budget, c: Chan, item: Item): (Budget, Chan) {
    if Admits(b, c, item.bytes)
    then (b.(bytes := b.bytes + item.bytes, messages := b.messages + 1), Push(c, item))
    else (b, c)
  }

  function TotalBytes(items: seq<Item>): nat {
    if items == [] then 0 else items[0].bytes + TotalBytes(items[1..])
  }

  function Stop(b: Budget, c: Chan, status: Status): (Budget, Chan) {
    if !c.status.Accepted? then (b, c)
    else
      var bytes, messages := TotalBytes(c.queue) + TotalBytes(c.deferred), |c.queue| + |c.deferred|;
      (b.(bytes := b.bytes - bytes, messages := b.messages - messages),
       c.(bytes := c.bytes - bytes, messages := c.messages - messages, queue := [], deferred := [], status := status))
  }

  predicate CanTake(c: Chan) {
    c.status.Accepted? && c.queue != []
  }

  function Take(c: Chan): Chan {
    if CanTake(c) then c.(queue := c.queue[1..]) else c.(scheduled := false)
  }

  function Consumed(b: Budget, c: Chan, bytes: nat): (Budget, Chan) {
    (Release(b, bytes), c.(bytes := c.bytes - bytes, messages := c.messages - 1))
  }

  /** The completion of an asynchronous consumption; it resumes only an open channel. */
  function Completed(b: Budget, c: Chan, bytes: nat): (Budget, Chan) {
    var (b', c') := Consumed(b, c, bytes);
    (b', if c.status.Accepted? then c' else c'.(scheduled := false))
  }

  // ---- the protocol ----

  /** A thread's obligation towards a channel, outside its lock. */
  datatype Token =
    | MustPost                              // is about to hand a pump to the executor
    | Posted                                // a pump waits in the executor
    | Pumping(batch: nat)                   // the pump is about to take an item
    | Consuming(item: Item, batch: nat)     // a synchronous consumer runs
    | Completing(item: Item)                // a completion has won the exchange
    | MustStop                              // posting or consuming failed

  /** The completion callback given to an asynchronous consumer. */
  datatype Handle = Handle(item: Item, completed: bool)

  /** An item that has entered the queue, and the send that put it there. */
  datatype Entry = Entry(item: Item, gate: nat)

  datatype Channel = Channel(
    chan: Chan,
    isAsync: bool,
    tokens: seq<Token>,
    handles: seq<Handle>,
    // history
    sent: nat,               // accepted sends
    entered: seq<Entry>,     // everything that has entered the queue
    started: seq<Item>,      // everything whose consumption has begun
    finished: seq<Item>,     // everything released after consumption
    held: seq<Item>,         // what was deferred when the channel stopped
    dropped: seq<Item>)      // everything released by stopping

  datatype System = System(budget: Budget, channels: seq<Channel>)

  const BATCH: nat := 16

  datatype Act =
    | ASend(delivery: Delivery, bytes: nat)
    | AStop(status: Status)
    | AResetGate
    | ARun(token: nat, ok: bool)     // the thread holding a token makes its next move
    | AComplete(handle: nat)         // the consumer calls a completion, perhaps again

  datatype Action = Action(channel: nat, act: Act)

  function Drop<T>(s: seq<T>, i: nat): seq<T>
    requires i < |s|
  {
    s[..i] + s[i + 1..]
  }

  function EntriesFor(items: seq<Item>, gate: nat): (es: seq<Entry>)
    ensures |es| == |items| && forall i :: 0 <= i < |es| ==> es[i] == Entry(items[i], gate)
  {
    seq(|items|, i requires 0 <= i < |items| => Entry(items[i], gate))
  }

  function ActSend(b: Budget, x: Channel, delivery: Delivery, bytes: nat): (Budget, Channel) {
    var item := Item(x.sent, delivery, bytes);
    if !Admits(b, x.chan, bytes) then (b, x)
    else
      var (b', c) := Send(b, x.chan, item);
      (b', x.(chan := c,
              tokens := if c.scheduled && !x.chan.scheduled then x.tokens + [MustPost] else x.tokens,
              sent := x.sent + 1, entered := x.entered + EntriesFor(Queued(x.chan, item), item.id)))
  }

  function ActStop(b: Budget, x: Channel, status: Status): (Budget, Channel) {
    var (b', c) := Stop(b, x.chan, if status.Accepted? then Cancelled else status);
    (b', if !x.chan.status.Accepted? then x
         else x.(chan := c, held := x.chan.deferred, dropped := x.chan.queue + x.chan.deferred))
  }

  /** The lock section at the head of the pump's loop, and what follows it. */
  function ActTake(x: Channel, i: nat, batch: nat): Channel
    requires i < |x.tokens|
  {
    if !CanTake(x.chan) then x.(chan := Take(x.chan), tokens := Drop(x.tokens, i))
    else
      var item := x.chan.queue[0];
      var y := x.(chan := Take(x.chan), started := x.started + [item]);
      if x.isAsync then y.(tokens := Drop(x.tokens, i), handles := x.handles + [Handle(item, false)])
      else y.(tokens := x.tokens[i := Consuming(item, batch)])
  }

  function ActRun(b: Budget, x: Channel, i: nat, ok: bool): (Budget, Channel)
    requires i < |x.tokens|
  {
    match x.tokens[i]
    case MustPost => (b, x.(tokens := x.tokens[i := if ok then Posted else MustStop]))
    case Posted => (b, x.(tokens := x.tokens[i := Pumping(0)]))
    case Pumping(batch) =>
      if batch == BATCH then (b, x.(tokens := x.tokens[i := MustPost])) else (b, ActTake(x, i, batch))
    case Consuming(item, batch) =>
      var (b', c) := Consumed(b, x.chan, item.bytes);
      (b', x.(chan := c, finished := x.finished + [item],
              tokens := x.tokens[i := if ok then Pumping(batch + 1) else MustStop]))
    case Completing(item) =>
      var (b', c) := Completed(b, x.chan, item.bytes);
      (b', x.(chan := c, finished := x.finished + [item],
              tokens := if x.chan.status.Accepted? then x.tokens[i := MustPost] else Drop(x.tokens, i)))
    case MustStop => ActStop(b, x.(tokens := Drop(x.tokens, i)), Cancelled)
  }

  function ActComplete(x: Channel, h: nat): Channel
    requires h < |x.handles|
  {
    if x.handles[h].completed then x
    else x.(handles := x.handles[h := Handle(x.handles[h].item, true)],
        tokens := x.tokens + [Completing(x.handles[h].item)])
  }

  function ActOn(b: Budget, x: Channel, act: Act): (Budget, Channel) {
    match act
    case ASend(delivery, bytes) => ActSend(b, x, delivery, bytes)
    case AStop(status) => ActStop(b, x, status)
    case AResetGate => (b, x.(chan := x.chan.(ready := false)))
    case ARun(i, ok) => if i < |x.tokens| then ActRun(b, x, i, ok) else (b, x)
    case AComplete(h) => if h < |x.handles| then (b, ActComplete(x, h)) else (b, x)
  }

  function Step(s: System, a: Action): System {
    if a.channel >= |s.channels| then s
    else
      var (b, x) := ActOn(s.budget, s.channels[a.channel], a.act);
      System(b, s.channels[a.channel := x])
  }

  function Run(s: System, actions: seq<Action>): System
    decreases |actions|
  {
    if actions == [] then s else Run(Step(s, actions[0]), actions[1..])
  }

  function NewChan(maxBytes: nat, maxMessages: nat, gated: bool): Chan {
    Chan(maxBytes, maxMessages, 0, 0, [], [], false, !gated, Accepted)
  }

  predicate IsNew(x: Channel) {
    && x.chan == NewChan(x.chan.maxBytes, x.chan.maxMessages, !x.chan.ready)
    && x.tokens == [] && x.handles == [] && x.sent == 0 && x.entered == [] && x.started == []
    && x.finished == [] && x.held == [] && x.dropped == []
  }

  predicate IsInitial(s: System) {
    s.budget.bytes == 0 && s.budget.messages == 0 && forall i :: 0 <= i < |s.channels| ==> IsNew(s.channels[i])
  }
}
