/** What every interleaving of the channel protocol keeps. */
module ChannelSafety {
  import opened ChannelModel

  // ---- items a channel still answers for ----

  function TokenItem(t: Token): seq<Item> {
    if t.Consuming? || t.Completing? then [t.item] else []
  }

  function TokenItems(tokens: seq<Token>): seq<Item> {
    if tokens == [] then [] else TokenItem(tokens[0]) + TokenItems(tokens[1..])
  }

  function HandleItems(handles: seq<Handle>): seq<Item> {
    if handles == [] then []
    else (if handles[0].completed then [] else [handles[0].item]) + HandleItems(handles[1..])
  }

  /** Items taken from the queue whose release is outstanding. */
  function InFlight(x: Channel): seq<Item> {
    TokenItems(x.tokens) + HandleItems(x.handles)
  }

  function LiveCount(x: Channel): nat {
    |x.chan.queue| + |x.chan.deferred| + |InFlight(x)|
  }

  function LiveBytes(x: Channel): nat {
    TotalBytes(x.chan.queue) + TotalBytes(x.chan.deferred) + TotalBytes(InFlight(x))
  }

  lemma {:induction false} BytesAppend(a: seq<Item>, b: seq<Item>)
    ensures TotalBytes(a + b) == TotalBytes(a) + TotalBytes(b)
  {
    if a == [] {
      assert a + b == b;
    } else {
      assert (a + b)[1..] == a[1..] + b && (a + b)[0] == a[0];
      BytesAppend(a[1..], b);
    }
  }

  lemma {:induction false} HandleSnoc(handles: seq<Handle>, h: Handle)
    ensures HandleItems(handles + [h]) == HandleItems(handles) + (if h.completed then [] else [h.item])
  {
    if handles == [] {
      assert (handles + [h])[1..] == [];
    } else {
      assert (handles + [h])[1..] == handles[1..] + [h] && (handles + [h])[0] == handles[0];
      HandleSnoc(handles[1..], h);
    }
  }

  /** The only outstanding completion is the one being called; afterwards there is none. */
  lemma {:induction false} HandleCompletes(handles: seq<Handle>, h: nat)
    requires h < |handles| && !handles[h].completed && |HandleItems(handles)| <= 1
    ensures HandleItems(handles) == [handles[h].item]
    ensures HandleItems(handles[h := Handle(handles[h].item, true)]) == []
    decreases |handles|
  {
    var after := handles[h := Handle(handles[h].item, true)];
    if h == 0 {
      assert after[1..] == handles[1..];
      assert HandleItems(handles) == [handles[0].item] + HandleItems(handles[1..]);
    } else {
      assert after[1..] == handles[1..][h - 1 := Handle(handles[h].item, true)];
      assert HandleItems(handles) ==
             (if handles[0].completed then [] else [handles[0].item]) + HandleItems(handles[1..]);
      HandleCompletes(handles[1..], h - 1);
    }
  }

  // ---- the invariants ----

  /** Outstanding pumps, posts, stops and completions. */
  function Claims(x: Channel): nat {
    |x.tokens| + |HandleItems(x.handles)|
  }

  /** The counters are the totals over the live items and within the limits. */
  predicate Counted(x: Channel) {
    && x.chan.bytes == LiveBytes(x) <= x.chan.maxBytes
    && x.chan.messages == LiveCount(x) <= x.chan.maxMessages
  }

  function ItemsOf(es: seq<Entry>): (items: seq<Item>)
    ensures |items| == |es| && forall i :: 0 <= i < |es| ==> items[i] == es[i].item
  {
    seq(|es|, i requires 0 <= i < |es| => es[i].item)
  }

  /** Accepted items that have not entered the queue. */
  function Held(x: Channel): seq<Item> {
    if x.chan.status.Accepted? then x.chan.deferred else x.held
  }

  /**
   Every accepted item is, once, in one of five places: released after consumption, in
   flight, queued, deferred, or released by the stop. Consumption follows queue order.
   */
  predicate Conserved(x: Channel) {
    && x.started == x.finished + InFlight(x)
    && (x.chan.status.Accepted? ==> x.dropped == [] && ItemsOf(x.entered) == x.started + x.chan.queue)
    && (!x.chan.status.Accepted? ==> ItemsOf(x.entered) + x.held == x.started + x.dropped)
    && |x.entered| + |Held(x)| == x.sent
    && |x.started| <= |x.entered|
  }

  /** No lost wakeup and no second consumer. */
  predicate Awake(x: Channel) {
    && Claims(x) <= 1
    && (!x.chan.scheduled ==> Claims(x) == 0)
    && (x.chan.status.Accepted? && x.chan.scheduled ==> Claims(x) == 1)
    && (x.chan.status.Accepted? && !x.chan.scheduled ==> x.chan.queue == [])
    && (!x.chan.status.Accepted? ==> x.chan.queue == [] && x.chan.deferred == [])
    && (x.chan.ready ==> x.chan.deferred == [])
  }

  predicate Inv(x: Channel) {
    Counted(x) && Awake(x) && Conserved(x)
  }

  // ---- the single claim ----

  lemma OneToken(x: Channel, i: nat)
    requires Claims(x) <= 1 && i < |x.tokens|
    ensures i == 0 && x.tokens == [x.tokens[0]] && HandleItems(x.handles) == []
    ensures InFlight(x) == TokenItem(x.tokens[0])
    ensures Drop(x.tokens, i) == []
    ensures forall t :: TokenItems(x.tokens[i := t]) == TokenItem(t)
  {
    assert x.tokens[1..] == [];
    forall t ensures TokenItems(x.tokens[i := t]) == TokenItem(t) {
      assert x.tokens[i := t] == [t];
      assert [t][1..] == [];
      assert TokenItem(t) + [] == TokenItem(t);
    }
    assert TokenItem(x.tokens[0]) + [] == TokenItem(x.tokens[0]);
  }

  lemma TokenSnoc(tokens: seq<Token>)
    requires tokens == []
    ensures TokenItems(tokens + [MustPost]) == []
    ensures forall item :: TokenItems(tokens + [Completing(item)]) == [item]
  {
    assert [MustPost][1..] == [];
    forall item ensures TokenItems(tokens + [Completing(item)]) == [item] {
      assert tokens + [Completing(item)] == [Completing(item)];
      assert [Completing(item)][1..] == [];
    }
  }

  lemma OneItem(item: Item)
    ensures TotalBytes([item]) == item.bytes && TotalBytes([]) == 0
  {
    assert [item][1..] == [];
  }

  // ---- sending ----

  lemma PushCounts(c: Chan, item: Item)
    ensures var d := Push(c, item);
            && TotalBytes(d.queue) + TotalBytes(d.deferred) == TotalBytes(c.queue) + TotalBytes(c.deferred) + item.bytes
            && |d.queue| + |d.deferred| == |c.queue| + |c.deferred| + 1
  {
    OneItem(item);
    BytesAppend(c.deferred, [item]);
    BytesAppend([item], c.deferred);
    BytesAppend(c.queue, [item] + c.deferred);
    BytesAppend(c.queue, [item]);
    assert c.queue + [] == c.queue;
    hide TotalBytes;
  }

  lemma SendWakes(b: Budget, x: Channel, delivery: Delivery, bytes: nat)
    requires Awake(x)
    ensures Awake(ActSend(b, x, delivery, bytes).1)
    ensures InFlight(ActSend(b, x, delivery, bytes).1) == InFlight(x)
  {
    if x.tokens == [] {
      TokenSnoc(x.tokens);
    }
  }

  lemma SendCounts(b: Budget, x: Channel, delivery: Delivery, bytes: nat)
    requires Counted(x) && Awake(x)
    ensures Counted(ActSend(b, x, delivery, bytes).1)
  {
    SendWakes(b, x, delivery, bytes);
    PushCounts(x.chan, Item(x.sent, delivery, bytes));
    hide TotalBytes, InFlight, Awake, Queued;
  }

  lemma EnteredAppend(a: seq<Entry>, items: seq<Item>, gate: nat)
    ensures ItemsOf(a + EntriesFor(items, gate)) == ItemsOf(a) + items
  {
  }

  lemma PushShape(c: Chan, item: Item)
    ensures var d := Push(c, item);
            && d.status == c.status && d.queue == c.queue + Queued(c, item)
            && |d.deferred| + |Queued(c, item)| == |c.deferred| + 1
  {
  }

  lemma SendConserves(b: Budget, x: Channel, delivery: Delivery, bytes: nat)
    requires Conserved(x) && Awake(x)
    ensures Conserved(ActSend(b, x, delivery, bytes).1)
  {
    hide InFlight, Awake, ItemsOf, Push, Queued;
    if Admits(b, x.chan, bytes) {
      var item := Item(x.sent, delivery, bytes);
      var queued := Queued(x.chan, item);
      SendWakes(b, x, delivery, bytes);
      PushShape(x.chan, item);
      EnteredAppend(x.entered, queued, item.id);
      assert x.started + (x.chan.queue + queued) == (x.started + x.chan.queue) + queued;
    }
  }

  // ---- stopping ----

  /** What stopping relies on; an open channel may be about to lose its claim. */
  predicate Stoppable(x: Channel) {
    && Counted(x) && Conserved(x)
    && Claims(x) <= 1 && (!x.chan.scheduled ==> Claims(x) == 0)
    && (!x.chan.status.Accepted? ==> x.chan.queue == [] && x.chan.deferred == [])
    && (x.chan.ready ==> x.chan.deferred == [])
  }

  lemma StopKeeps(b: Budget, x: Channel, status: Status)
    requires Stoppable(x)
    ensures Inv(ActStop(b, x, status).1)
  {
    var y := ActStop(b, x, status).1;
    assert InFlight(y) == InFlight(x) && Claims(y) == Claims(x);
    assert TotalBytes([]) == 0;
    hide InFlight, TotalBytes, ItemsOf, TokenItems, HandleItems, Claims;
    if x.chan.status.Accepted? {
      assert (x.started + x.chan.queue) + x.chan.deferred == x.started + (x.chan.queue + x.chan.deferred);
    }
  }

  // ---- moves of a token-holding thread ----

  /** A move that changes only the claims, keeping the item they stand for. */
  lemma ReclaimKeeps(x: Channel, y: Channel)
    requires Inv(x) && y == x.(tokens := y.tokens, handles := y.handles)
    requires InFlight(y) == InFlight(x) && Claims(y) == Claims(x)
    ensures Inv(y)
  {
    hide InFlight, TotalBytes, ItemsOf, Claims;
  }

  lemma PostKeeps(x: Channel, i: nat, t: Token)
    requires Inv(x) && i < |x.tokens| && TokenItem(x.tokens[i]) == [] && TokenItem(t) == []
    ensures Inv(x.(tokens := x.tokens[i := t]))
  {
    OneToken(x, i);
    assert TokenItems(x.tokens[i := t]) == [];
    hide TokenItems, HandleItems, Inv;
    ReclaimKeeps(x, x.(tokens := x.tokens[i := t]));
  }

  lemma TakeFinds(x: Channel, i: nat, batch: nat)
    requires Claims(x) <= 1 && i < |x.tokens| && x.tokens[i] == Pumping(batch)
    ensures Claims(x) == 1
    ensures var y := ActTake(x, i, batch);
            && InFlight(x) == []
            && InFlight(y) == (if CanTake(x.chan) then [x.chan.queue[0]] else [])
            && Claims(y) == (if CanTake(x.chan) then 1 else 0)
  {
    OneToken(x, i);
    assert TokenItems([]) == [];
    if CanTake(x.chan) {
      var item := x.chan.queue[0];
      HandleSnoc(x.handles, Handle(item, false));
      assert TokenItems(x.tokens[i := Consuming(item, batch)]) == [item];
    }
  }

  lemma TakeCounts(x: Channel, y: Channel)
    requires Counted(x) && CanTake(x.chan) && InFlight(x) == [] && InFlight(y) == [x.chan.queue[0]]
    requires y.chan == x.chan.(queue := x.chan.queue[1..])
    ensures Counted(y)
  {
    hide InFlight;
    OneItem(x.chan.queue[0]);
    TakeHead(x.chan.queue);
    hide TotalBytes;
  }

  lemma TakeConserves(x: Channel, y: Channel)
    requires Conserved(x) && CanTake(x.chan) && InFlight(x) == [] && InFlight(y) == [x.chan.queue[0]]
    requires y.chan == x.chan.(queue := x.chan.queue[1..]) && y.started == x.started + [x.chan.queue[0]]
    requires y.finished == x.finished && y.dropped == x.dropped && y.entered == x.entered && y.sent == x.sent
    ensures Conserved(y)
  {
    hide InFlight, ItemsOf, TotalBytes;
    var head, rest := x.chan.queue[0], x.chan.queue[1..];
    TakeHead(x.chan.queue);
    assert x.started + ([head] + rest) == (x.started + [head]) + rest;
    assert x.finished + [] == x.finished;
  }

  lemma TakeWakes(x: Channel, y: Channel)
    requires Awake(x) && Claims(x) == 1 && y.chan == Take(x.chan) && Claims(y) == (if CanTake(x.chan) then 1 else 0)
    ensures Awake(y)
  {
    hide Claims;
  }

  /** The pump finds nothing to do and gives up its claim. */
  lemma TakeNothing(x: Channel, y: Channel)
    requires Counted(x) && Conserved(x) && InFlight(x) == [] && InFlight(y) == []
    requires y == x.(chan := x.chan.(scheduled := false), tokens := y.tokens)
    ensures Counted(y) && Conserved(y)
  {
    hide InFlight, TotalBytes, ItemsOf;
  }

  /** Taking the head of the queue moves its item from the queue to a claim. */
  lemma TakeKeeps(x: Channel, i: nat, batch: nat)
    requires Inv(x) && i < |x.tokens| && x.tokens[i] == Pumping(batch)
    ensures Inv(ActTake(x, i, batch))
  {
    assert Claims(x) <= 1;
    hide InFlight, Claims, Awake, Counted, Conserved;
    TakeFinds(x, i, batch);
    var y := ActTake(x, i, batch);
    TakeWakes(x, y);
    if CanTake(x.chan) {
      TakeCounts(x, y);
      TakeConserves(x, y);
    } else {
      TakeNothing(x, y);
    }
  }

  lemma TakeHead(queue: seq<Item>)
    requires queue != []
    ensures TotalBytes(queue) == queue[0].bytes + TotalBytes(queue[1..])
    ensures queue == [queue[0]] + queue[1..]
  {
  }

  /** Releasing the item of the only claim. */
  lemma ReleaseKeeps(x: Channel, y: Channel, item: Item)
    requires Inv(x) && InFlight(x) == [item] && InFlight(y) == []
    requires y.chan == x.chan.(bytes := x.chan.bytes - item.bytes, messages := x.chan.messages - 1,
             scheduled := y.chan.scheduled)
    requires y == x.(chan := y.chan, tokens := y.tokens, handles := y.handles, finished := x.finished + [item])
    requires Awake(y)
    ensures Inv(y)
  {
    OneItem(item);
    hide InFlight, TotalBytes, ItemsOf, Awake;
    assert x.started == (x.finished + [item]) + [];
  }

  lemma ConsumedKeeps(b: Budget, x: Channel, i: nat, ok: bool)
    requires Inv(x) && i < |x.tokens| && x.tokens[i].Consuming?
    ensures Inv(ActRun(b, x, i, ok).1)
  {
    OneToken(x, i);
    var item, batch := x.tokens[i].item, x.tokens[i].batch;
    assert TokenItems(x.tokens[i := Pumping(batch + 1)]) == [] && TokenItems(x.tokens[i := MustStop]) == [];
    hide TotalBytes, TokenItems, HandleItems, Counted, Conserved;
    ReleaseKeeps(x, ActRun(b, x, i, ok).1, item);
  }

  lemma CompletedKeeps(b: Budget, x: Channel, i: nat, ok: bool)
    requires Inv(x) && i < |x.tokens| && x.tokens[i].Completing?
    ensures Inv(ActRun(b, x, i, ok).1)
  {
    OneToken(x, i);
    assert TokenItems(x.tokens[i := MustPost]) == [] && TokenItems([]) == [];
    hide TotalBytes, TokenItems, HandleItems, Counted, Conserved;
    ReleaseKeeps(x, ActRun(b, x, i, ok).1, x.tokens[i].item);
  }

  lemma SameFlight(x: Channel, y: Channel)
    requires Counted(x) && Conserved(x) && y == x.(tokens := y.tokens) && InFlight(y) == InFlight(x)
    ensures Counted(y) && Conserved(y)
  {
    hide InFlight, TotalBytes, ItemsOf;
  }

  lemma DropClaim(x: Channel, i: nat)
    requires Claims(x) <= 1 && i < |x.tokens| && TokenItem(x.tokens[i]) == []
    ensures var y := x.(tokens := Drop(x.tokens, i));
            InFlight(y) == [] && InFlight(x) == [] && Claims(y) == 0
  {
    OneToken(x, i);
    assert TokenItems([]) == [];
  }

  lemma MustStopKeeps(b: Budget, x: Channel, i: nat)
    requires Inv(x) && i < |x.tokens| && x.tokens[i].MustStop?
    ensures Inv(ActStop(b, x.(tokens := Drop(x.tokens, i)), Cancelled).1)
  {
    assert Claims(x) <= 1;
    hide InFlight, Counted, Conserved, ActStop, Claims, Drop;
    var y := x.(tokens := Drop(x.tokens, i));
    DropClaim(x, i);
    SameFlight(x, y);
    StopKeeps(b, y, Cancelled);
  }

  lemma RunKeeps(b: Budget, x: Channel, i: nat, ok: bool)
    requires Inv(x) && i < |x.tokens|
    ensures Inv(ActRun(b, x, i, ok).1)
  {
    hide Inv, ActStop, ActTake;
    match x.tokens[i]
    case MustPost => PostKeeps(x, i, if ok then Posted else MustStop);
    case Posted => PostKeeps(x, i, Pumping(0));
    case Pumping(batch) =>
      if batch == BATCH {
        PostKeeps(x, i, MustPost);
      } else {
        TakeKeeps(x, i, batch);
      }
    case Consuming(_, _) => ConsumedKeeps(b, x, i, ok);
    case Completing(_) => CompletedKeeps(b, x, i, ok);
    case MustStop => MustStopKeeps(b, x, i);
  }

  /** The first call of a completion turns the handle into a claim; later calls do nothing. */
  lemma CompleteKeeps(x: Channel, h: nat)
    requires Inv(x) && h < |x.handles|
    ensures Inv(ActComplete(x, h))
  {
    if !x.handles[h].completed {
      var item := x.handles[h].item;
      HandleCompletes(x.handles, h);
      assert x.tokens == [] && TokenItems(x.tokens) == [];
      TokenSnoc(x.tokens);
      assert TokenItems(x.tokens + [Completing(item)]) == [item];
      hide TokenItems, HandleItems, Inv;
      ReclaimKeeps(x, ActComplete(x, h));
    }
  }

  lemma SendKeeps(b: Budget, x: Channel, delivery: Delivery, bytes: nat)
    requires Inv(x)
    ensures Inv(ActSend(b, x, delivery, bytes).1)
  {
    hide ActSend, Counted, Awake, Conserved;
    SendWakes(b, x, delivery, bytes);
    SendCounts(b, x, delivery, bytes);
    SendConserves(b, x, delivery, bytes);
  }

  lemma InvStoppable(x: Channel)
    requires Inv(x)
    ensures Stoppable(x)
  {
    hide Counted, Conserved, Claims;
  }

  lemma ResetGateKeeps(x: Channel)
    requires Inv(x)
    ensures Inv(x.(chan := x.chan.(ready := false)))
  {
    var y := x.(chan := x.chan.(ready := false));
    assert InFlight(y) == InFlight(x) && Claims(y) == Claims(x);
    hide InFlight, TotalBytes, ItemsOf, Claims;
  }

  lemma ActKeeps(b: Budget, x: Channel, act: Act)
    requires Inv(x)
    ensures Inv(ActOn(b, x, act).1)
  {
    hide Inv, ActSend, ActStop, ActRun, ActComplete, Stoppable;
    match act
    case ASend(delivery, bytes) => SendKeeps(b, x, delivery, bytes);
    case AStop(status) =>
      InvStoppable(x);
      StopKeeps(b, x, status);
    case AResetGate => ResetGateKeeps(x);
    case ARun(i, ok) => if i < |x.tokens| { RunKeeps(b, x, i, ok); }
    case AComplete(h) => if h < |x.handles| { CompleteKeeps(x, h); }
  }
}
