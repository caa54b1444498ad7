/** Order of consumption, finality of stopping, the shared budget, and whole runs. */
module ChannelOrder {
  import opened ChannelModel
  import opened ChannelSafety

  // ---- order ----

  /** The item waited behind the gate and was let in by a later OpenGate send. */
  predicate WasHeld(e: Entry) {
    e.item.id < e.gate
  }

  /** Queue order: by the send that let an item in; that send first, then what it released. */
  predicate Precedes(a: Entry, b: Entry) {
    && (a.gate < b.gate || (a.gate == b.gate && !WasHeld(a) && WasHeld(b)) ||
        (a.gate == b.gate && WasHeld(a) && WasHeld(b)))
    && (WasHeld(a) && WasHeld(b) ==> a.item.id < b.item.id)
    && a.item.id != b.item.id
  }

  predicate EnteredInOrder(es: seq<Entry>, sent: nat) {
    && (forall i, j :: 0 <= i < j < |es| ==> Precedes(es[i], es[j]))
    && (forall i :: 0 <= i < |es| ==>
          es[i].item.id <= es[i].gate < sent && (WasHeld(es[i]) ==> es[i].item.delivery.Deferred?))
  }

  /** Each released item comes after the OpenGate message that released it. */
  predicate GateFirst(es: seq<Entry>) {
    forall j :: 0 <= j < |es| && WasHeld(es[j]) ==> GateBefore(es, j)
  }

  predicate GateBefore(es: seq<Entry>, j: int)
    requires 0 <= j < |es|
  {
    exists i :: 0 <= i < j && es[i].item.id == es[j].gate && es[i].item.delivery.OpenGate?
  }

  predicate Waiting(deferred: seq<Item>, es: seq<Entry>, sent: nat) {
    && (forall i, j :: 0 <= i < j < |deferred| ==> deferred[i].id < deferred[j].id)
    && (forall i :: 0 <= i < |deferred| ==> deferred[i].id < sent && deferred[i].delivery.Deferred?)
    && (forall i, k :: 0 <= i < |deferred| && 0 <= k < |es| ==>
          es[k].item.id != deferred[i].id && (WasHeld(es[k]) ==> es[k].item.id < deferred[i].id))
  }

  predicate InOrder(x: Channel) {
    EnteredInOrder(x.entered, x.sent) && GateFirst(x.entered) && Waiting(Held(x), x.entered, x.sent)
  }

  lemma GateFirstAppend(es: seq<Entry>, more: seq<Entry>)
    requires GateFirst(es)
    requires forall k :: 0 <= k < |more| && WasHeld(more[k]) ==>
               k > 0 && more[0].item.id == more[k].gate && more[0].item.delivery.OpenGate?
    ensures GateFirst(es + more)
  {
    var all := es + more;
    forall j | 0 <= j < |all| && WasHeld(all[j]) ensures GateBefore(all, j) {
      if j < |es| {
        assert GateBefore(es, j);
        var i :| 0 <= i < j && es[i].item.id == es[j].gate && es[i].item.delivery.OpenGate?;
        assert all[i] == es[i];
      } else {
        assert all[j] == more[j - |es|] && all[|es|] == more[0];
      }
    }
  }

  /** The entries added by one send: the message itself, then everything it releases. */
  lemma NewEntries(x: Channel, item: Item)
    requires EnteredInOrder(x.entered, x.sent)
    requires Waiting(x.chan.deferred, x.entered, x.sent) && item.id == x.sent
    ensures var more := EntriesFor(Queued(x.chan, item), item.id);
            && (forall k :: 0 <= k < |more| ==>
                  && more[k].gate == item.id && more[k].item.id <= item.id
                  && (WasHeld(more[k]) <==> k > 0)
                  && (WasHeld(more[k]) ==>
                        more[k].item.delivery.Deferred? && item.delivery.OpenGate? && more[0].item == item))
            && (forall i, j :: 0 <= i < j < |more| ==> Precedes(more[i], more[j]))
            && (forall i, k :: 0 <= i < |more| && 0 <= k < |x.entered| ==> Precedes(x.entered[k], more[i]))
  {
    var more := EntriesFor(Queued(x.chan, item), item.id);
    forall k | 0 <= k < |more| ensures more[k].item == if k == 0 then item else x.chan.deferred[k - 1] {
    }
  }

  lemma EnteredAppended(es: seq<Entry>, more: seq<Entry>, sent: nat)
    requires EnteredInOrder(es, sent)
    requires forall k :: 0 <= k < |more| ==>
               more[k].gate == sent && more[k].item.id <= sent && (WasHeld(more[k]) ==> more[k].item.delivery.Deferred?)
    requires forall i, j :: 0 <= i < j < |more| ==> Precedes(more[i], more[j])
    requires forall i, k :: 0 <= i < |more| && 0 <= k < |es| ==> Precedes(es[k], more[i])
    ensures EnteredInOrder(es + more, sent + 1)
  {
    var all := es + more;
    forall i, j | 0 <= i < j < |all| ensures Precedes(all[i], all[j]) {
      if j < |es| {
        assert all[i] == es[i] && all[j] == es[j];
      } else if |es| <= i {
        assert all[i] == more[i - |es|] && all[j] == more[j - |es|];
      } else {
        assert all[i] == es[i] && all[j] == more[j - |es|];
      }
    }
  }

  lemma WaitingAfterSend(x: Channel, item: Item)
    requires Waiting(x.chan.deferred, x.entered, x.sent) && item.id == x.sent
    requires EnteredInOrder(x.entered, x.sent)
    ensures Waiting(Push(x.chan, item).deferred, x.entered + EntriesFor(Queued(x.chan, item), item.id), x.sent + 1)
  {
    var more := EntriesFor(Queued(x.chan, item), item.id);
    if IsHeld(x.chan, item) {
      assert x.entered + more == x.entered;
    } else if !item.delivery.OpenGate? {
      assert more == [Entry(item, item.id)];
      assert !WasHeld(more[0]);
    }
  }

  lemma PushStaysOpen(c: Chan, item: Item)
    ensures Push(c, item).status == c.status
  {
  }

  lemma SendOrdered(b: Budget, x: Channel, delivery: Delivery, bytes: nat)
    requires InOrder(x)
    ensures InOrder(ActSend(b, x, delivery, bytes).1)
  {
    hide Queued, Waiting, Precedes, GateFirst, EnteredInOrder, Push, EntriesFor;
    if Admits(b, x.chan, bytes) {
      var item := Item(x.sent, delivery, bytes);
      var more := EntriesFor(Queued(x.chan, item), item.id);
      assert Held(x) == x.chan.deferred;
      NewEntries(x, item);
      EnteredAppended(x.entered, more, x.sent);
      GateFirstAppend(x.entered, more);
      WaitingAfterSend(x, item);
      PushStaysOpen(x.chan, item);
    }
  }

  /** Only sends change what has entered, what waits and how much was sent. */
  lemma StopEntersNothing(b: Budget, x: Channel, status: Status)
    ensures var y := ActStop(b, x, status).1;
            y.entered == x.entered && y.sent == x.sent && Held(y) == Held(x)
  {
    hide TotalBytes;
  }

  lemma RunEntersNothing(b: Budget, x: Channel, i: nat, ok: bool)
    requires i < |x.tokens|
    ensures var y := ActRun(b, x, i, ok).1;
            y.entered == x.entered && y.sent == x.sent && Held(y) == Held(x)
  {
    hide Drop, ActStop;
    if x.tokens[i].MustStop? {
      StopEntersNothing(b, x.(tokens := Drop(x.tokens, i)), Cancelled);
    }
  }

  lemma OthersEnterNothing(b: Budget, x: Channel, act: Act)
    requires !act.ASend?
    ensures var y := ActOn(b, x, act).1;
            y.entered == x.entered && y.sent == x.sent && Held(y) == Held(x)
  {
    hide ActStop, ActRun;
    match act
    case AStop(status) => StopEntersNothing(b, x, status);
    case ARun(i, ok) =>
      if i < |x.tokens| {
        RunEntersNothing(b, x, i, ok);
      }
    case _ =>
  }

  lemma ActOrdered(b: Budget, x: Channel, act: Act)
    requires InOrder(x)
    ensures InOrder(ActOn(b, x, act).1)
  {
    hide EnteredInOrder, GateFirst, Waiting, Held;
    if act.ASend? {
      hide ActSend;
      SendOrdered(b, x, act.delivery, act.bytes);
    } else {
      hide ActOn;
      OthersEnterNothing(b, x, act);
    }
  }

  /**
   The order in which consumption begins: messages that did not wait in send order,
   messages that waited in send order, and each of those after the OpenGate message
   that released it.
   */
  lemma ConsumptionOrder(x: Channel)
    requires Inv(x) && InOrder(x)
    ensures forall i :: 0 <= i < |x.started| ==> i < |x.entered| && x.started[i] == x.entered[i].item
    ensures forall i, j :: 0 <= i < j < |x.started| && WasHeld(x.entered[i]) == WasHeld(x.entered[j]) ==>
              x.started[i].id < x.started[j].id
    ensures forall j :: 0 <= j < |x.started| && WasHeld(x.entered[j]) ==>
              exists i :: 0 <= i < j && x.started[i].delivery.OpenGate? && x.started[i].id > x.started[j].id
  {
    StartedIsPrefix(x);
    forall i, j | 0 <= i < j < |x.started| && WasHeld(x.entered[i]) == WasHeld(x.entered[j])
      ensures x.started[i].id < x.started[j].id
    {
      assert Precedes(x.entered[i], x.entered[j]);
    }
    forall j | 0 <= j < |x.started| && WasHeld(x.entered[j])
      ensures exists i :: 0 <= i < j && x.started[i].delivery.OpenGate? && x.started[i].id > x.started[j].id
    {
      assert GateBefore(x.entered, j);
      var i :| 0 <= i < j && x.entered[i].item.id == x.entered[j].gate && x.entered[i].item.delivery.OpenGate?;
      assert x.started[i] == x.entered[i].item;
    }
  }

  lemma StartedIsPrefix(x: Channel)
    requires Conserved(x)
    ensures forall i :: 0 <= i < |x.started| ==> i < |x.entered| && x.started[i] == x.entered[i].item
  {
    hide InFlight;
    var items := ItemsOf(x.entered);
    forall i | 0 <= i < |x.started| ensures i < |x.entered| && x.started[i] == x.entered[i].item {
      if x.chan.status.Accepted? {
        assert (x.started + x.chan.queue)[i] == x.started[i];
      } else {
        assert (x.started + x.dropped)[i] == x.started[i];
        assert (items + x.held)[i] == items[i];
      }
    }
  }

  /**
   Every accepted item is released exactly once: the accepted items carry distinct ids,
   one per accepted send, and together they are the finished, the dropped and the live.
   */
  lemma ReleasedOnce(x: Channel)
    requires Inv(x) && InOrder(x)
    ensures var accepted := ItemsOf(x.entered) + Held(x);
            && |accepted| == x.sent
            && (forall i, j :: 0 <= i < j < |accepted| ==> accepted[i].id != accepted[j].id)
            && accepted == x.finished + InFlight(x) + x.chan.queue + x.chan.deferred + x.dropped
  {
    var items, held := ItemsOf(x.entered), Held(x);
    var accepted := items + held;
    forall i, j | 0 <= i < j < |accepted| ensures accepted[i].id != accepted[j].id {
      if j < |items| {
        assert Precedes(x.entered[i], x.entered[j]);
      } else if |items| <= i {
        assert accepted[i] == held[i - |items|] && accepted[j] == held[j - |items|];
      } else {
        assert accepted[j] == held[j - |items|] && accepted[i] == x.entered[i].item;
      }
    }
    hide InFlight, InOrder, ItemsOf;
    var f, q, d := x.finished + InFlight(x), x.chan.queue, x.chan.deferred;
    if x.chan.status.Accepted? {
      assert f + q + d + [] == (f + q) + d;
    } else {
      assert f + [] + [] + x.dropped == f + x.dropped;
    }
  }

  /** In every reachable state an open channel with queued items has exactly one claim on it. */
  lemma WakeupNeverLost(s: System, actions: seq<Action>, i: nat)
    requires IsInitial(s)
    ensures var t := Run(s, actions);
            i < |t.channels| ==>
              && Claims(t.channels[i]) <= 1
              && (t.channels[i].chan.status.Accepted? && t.channels[i].chan.queue != [] ==> Claims(t.channels[i]) == 1)
  {
    InitialInv(s);
    RunKeepsInv(s, actions);
    var t := Run(s, actions);
    hide Run, Counted, Conserved, InOrder, Claims;
    if i < |t.channels| {
      assert Awake(t.channels[i]);
    }
  }

  // ---- stopping is final ----

  /** Consumption, sends and drops have ended with this status. */
  predicate SameEnd(x: Channel, y: Channel) {
    y.chan.status == x.chan.status && y.started == x.started && y.sent == x.sent && y.dropped == x.dropped
  }

  lemma RunStopped(b: Budget, x: Channel, i: nat, ok: bool)
    requires !x.chan.status.Accepted? && i < |x.tokens|
    ensures SameEnd(x, ActRun(b, x, i, ok).1)
  {
    hide Drop, TotalBytes;
  }

  lemma StoppedStays(b: Budget, x: Channel, act: Act)
    requires !x.chan.status.Accepted?
    ensures SameEnd(x, ActOn(b, x, act).1)
  {
    hide ActRun, TotalBytes;
    if act.ARun? && act.token < |x.tokens| {
      RunStopped(b, x, act.token, act.ok);
    }
  }

  // ---- the shared budget ----

  function SumBytes(xs: seq<Channel>): int {
    if xs == [] then 0 else xs[0].chan.bytes + SumBytes(xs[1..])
  }

  function SumMessages(xs: seq<Channel>): int {
    if xs == [] then 0 else xs[0].chan.messages + SumMessages(xs[1..])
  }

  lemma {:induction false} SumUpdate(xs: seq<Channel>, i: nat, y: Channel)
    requires i < |xs|
    ensures SumBytes(xs[i := y]) == SumBytes(xs) - xs[i].chan.bytes + y.chan.bytes
    ensures SumMessages(xs[i := y]) == SumMessages(xs) - xs[i].chan.messages + y.chan.messages
    decreases |xs|
  {
    if i == 0 {
      assert xs[i := y][1..] == xs[1..];
    } else {
      assert xs[i := y][1..] == xs[1..][i - 1 := y];
      SumUpdate(xs[1..], i - 1, y);
    }
  }

  /** One act moves the budget by what it moves the channel's own counts, within the budget's limits. */
  predicate Follows(b: Budget, x: Channel, b': Budget, y: Channel) {
    && b'.maxBytes == b.maxBytes && b'.maxMessages == b.maxMessages
    && b'.bytes - b.bytes == y.chan.bytes - x.chan.bytes
    && b'.messages - b.messages == y.chan.messages - x.chan.messages
    && b'.bytes <= b'.maxBytes && b'.messages <= b'.maxMessages
  }

  lemma SendFollows(b: Budget, x: Channel, delivery: Delivery, bytes: nat)
    requires b.bytes <= b.maxBytes && b.messages <= b.maxMessages
    ensures Follows(b, x, ActSend(b, x, delivery, bytes).0, ActSend(b, x, delivery, bytes).1)
  {
    hide Queued;
  }

  lemma StopFollows(b: Budget, x: Channel, status: Status)
    requires b.bytes <= b.maxBytes && b.messages <= b.maxMessages
    ensures Follows(b, x, ActStop(b, x, status).0, ActStop(b, x, status).1)
  {
    hide TotalBytes;
  }

  lemma RunFollows(b: Budget, x: Channel, i: nat, ok: bool)
    requires i < |x.tokens| && b.bytes <= b.maxBytes && b.messages <= b.maxMessages
    ensures Follows(b, x, ActRun(b, x, i, ok).0, ActRun(b, x, i, ok).1)
  {
    hide Drop;
    match x.tokens[i]
    case MustStop =>
      hide ActStop;
      StopFollows(b, x.(tokens := Drop(x.tokens, i)), Cancelled);
    case _ =>
      hide ActStop, TotalBytes;
  }

  lemma BudgetFollows(b: Budget, x: Channel, act: Act)
    requires b.bytes <= b.maxBytes && b.messages <= b.maxMessages
    ensures Follows(b, x, ActOn(b, x, act).0, ActOn(b, x, act).1)
  {
    hide ActSend, ActStop, ActRun;
    match act
    case ASend(delivery, bytes) => SendFollows(b, x, delivery, bytes);
    case AStop(status) => StopFollows(b, x, status);
    case ARun(i, ok) =>
      if i < |x.tokens| {
        RunFollows(b, x, i, ok);
      }
    case _ =>
  }

  predicate SystemInv(s: System) {
    && (forall i :: 0 <= i < |s.channels| ==> Inv(s.channels[i]) && InOrder(s.channels[i]))
    && s.budget.bytes == SumBytes(s.channels) <= s.budget.maxBytes
    && s.budget.messages == SumMessages(s.channels) <= s.budget.maxMessages
  }

  lemma {:induction false} SumsOfNew(xs: seq<Channel>)
    requires forall i :: 0 <= i < |xs| ==> IsNew(xs[i])
    ensures SumBytes(xs) == 0 && SumMessages(xs) == 0
  {
    if xs != [] {
      SumsOfNew(xs[1..]);
    }
  }

  lemma InitialInv(s: System)
    requires IsInitial(s)
    ensures SystemInv(s)
  {
    SumsOfNew(s.channels);
    forall i | 0 <= i < |s.channels| ensures Inv(s.channels[i]) && InOrder(s.channels[i]) {
      NewInv(s.channels[i]);
    }
    hide Inv, InOrder;
  }

  lemma NewInv(x: Channel)
    requires IsNew(x)
    ensures Inv(x) && InOrder(x)
  {
    assert [] + [] == InFlight(x);
    assert ItemsOf([]) == [];
  }

  lemma StepKeeps(s: System, a: Action)
    requires SystemInv(s)
    ensures SystemInv(Step(s, a))
  {
    hide ActOn, Inv, InOrder;
    if a.channel < |s.channels| {
      var x := s.channels[a.channel];
      var y := ActOn(s.budget, x, a.act).1;
      ActKeeps(s.budget, x, a.act);
      ActOrdered(s.budget, x, a.act);
      BudgetFollows(s.budget, x, a.act);
      SumUpdate(s.channels, a.channel, y);
      hide SumBytes, SumMessages;
    }
  }

  /** Every interleaving, over any number of channels, keeps every invariant. */
  lemma {:induction false} RunKeepsInv(s: System, actions: seq<Action>)
    requires SystemInv(s)
    ensures SystemInv(Run(s, actions))
    decreases |actions|
  {
    hide SystemInv, Step;
    if actions != [] {
      StepKeeps(s, actions[0]);
      RunKeepsInv(Step(s, actions[0]), actions[1..]);
    }
  }

  lemma {:induction false} SumsBound(xs: seq<Channel>, i: nat)
    requires i < |xs| && forall k :: 0 <= k < |xs| ==> Inv(xs[k])
    ensures 0 <= xs[i].chan.bytes <= SumBytes(xs) && 0 <= xs[i].chan.messages <= SumMessages(xs)
    decreases |xs|
  {
    assert Counted(xs[0]) && Counted(xs[i]);
    if |xs| > 1 {
      SumsBound(xs[1..], if i == 0 then 0 else i - 1);
    } else {
      assert xs[1..] == [];
    }
  }

  /**
   The counters never underflow: in every reachable state the item about to be released
   is covered by its channel's counters, and those by the shared budget.
   */
  lemma ReleaseIsCovered(s: System, actions: seq<Action>, i: nat)
    requires IsInitial(s)
    ensures var t := Run(s, actions);
            i < |t.channels| ==>
              && t.channels[i].chan.bytes >= TotalBytes(InFlight(t.channels[i]))
              && t.channels[i].chan.messages >= |InFlight(t.channels[i])|
              && t.budget.maxBytes >= t.budget.bytes >= t.channels[i].chan.bytes
              && t.budget.maxMessages >= t.budget.messages >= t.channels[i].chan.messages
  {
    InitialInv(s);
    RunKeepsInv(s, actions);
    var t := Run(s, actions);
    hide Run, Awake, Conserved, InOrder;
    if i < |t.channels| {
      SumsBound(t.channels, i);
      assert Counted(t.channels[i]);
    }
  }

  /** Once stopped, a channel stays stopped and never begins another consumption. */
  lemma {:induction false} NothingAfterStop(s: System, actions: seq<Action>, i: nat)
    requires SystemInv(s) && i < |s.channels| && !s.channels[i].chan.status.Accepted?
    ensures var t := Run(s, actions);
            && i < |t.channels|
            && t.channels[i].chan.status == s.channels[i].chan.status
            && t.channels[i].started == s.channels[i].started
    decreases |actions|
  {
    if actions != [] {
      var a := actions[0];
      StepKeeps(s, a);
      if a.channel == i {
        assert Inv(s.channels[i]);
        StoppedStays(s.budget, s.channels[i], a.act);
      }
      hide ActOn, SystemInv;
      NothingAfterStop(Step(s, a), actions[1..], i);
    }
  }

  // ---- the guarantees of one channel, in every run ----

  lemma {:induction false} RunReaches(s: System, actions: seq<Action>, i: nat)
    requires IsInitial(s) && i < |Run(s, actions).channels|
    ensures Inv(Run(s, actions).channels[i]) && InOrder(Run(s, actions).channels[i])
  {
    hide Inv, InOrder, Run;
    InitialInv(s);
    RunKeepsInv(s, actions);
    hide SumBytes, SumMessages;
  }

  /** In every run the messages of every channel begin to be consumed in this order. */
  lemma RunConsumptionOrder(s: System, actions: seq<Action>, c: nat)
    requires IsInitial(s) && c < |Run(s, actions).channels|
    ensures var x := Run(s, actions).channels[c];
            && |x.started| <= |x.entered|
            && (forall i :: 0 <= i < |x.started| ==> x.started[i] == x.entered[i].item)
            && (forall i, j :: 0 <= i < j < |x.started| && WasHeld(x.entered[i]) == WasHeld(x.entered[j]) ==>
                  x.started[i].id < x.started[j].id)
            && (forall j :: 0 <= j < |x.started| && WasHeld(x.entered[j]) ==>
                  exists i :: 0 <= i < j && x.started[i].delivery.OpenGate? && x.started[i].id > x.started[j].id)
  {
    RunReaches(s, actions, c);
    hide Run, Inv, InOrder, WasHeld;
    ConsumptionOrder(Run(s, actions).channels[c]);
  }

  /** In every run every accepted message of every channel is in exactly one place, so that it is released once. */
  lemma RunReleasedOnce(s: System, actions: seq<Action>, c: nat)
    requires IsInitial(s) && c < |Run(s, actions).channels|
    ensures var x := Run(s, actions).channels[c];
            var accepted := ItemsOf(x.entered) + Held(x);
            && |accepted| == x.sent
            && (forall i, j :: 0 <= i < j < |accepted| ==> accepted[i].id != accepted[j].id)
            && accepted == x.finished + InFlight(x) + x.chan.queue + x.chan.deferred + x.dropped
  {
    RunReaches(s, actions, c);
    hide Run, Inv, InOrder, InFlight, ItemsOf, Held;
    ReleasedOnce(Run(s, actions).channels[c]);
  }

  /** A handle keeps its message, and once completed stays completed. */
  predicate HandlesKept(x: Channel, y: Channel) {
    |x.handles| <= |y.handles| &&
    forall h :: 0 <= h < |x.handles| ==>
      y.handles[h].item == x.handles[h].item && (x.handles[h].completed ==> y.handles[h].completed)
  }

  lemma ActKeepsHandles(b: Budget, x: Channel, act: Act)
    ensures HandlesKept(x, ActOn(b, x, act).1)
  {
    hide Drop, TotalBytes, Queued, EntriesFor;
  }

  lemma {:induction false} RunKeepsHandles(s: System, actions: seq<Action>, c: nat)
    requires c < |s.channels|
    ensures c < |Run(s, actions).channels| && HandlesKept(s.channels[c], Run(s, actions).channels[c])
    decreases |actions|
  {
    if actions != [] {
      var a := actions[0];
      if a.channel == c {
        ActKeepsHandles(s.budget, s.channels[c], a.act);
      }
      hide ActOn;
      RunKeepsHandles(Step(s, a), actions[1..], c);
    }
  }

  /** Completing a message again, at any later time, changes nothing at all. */
  lemma CompletedAgain(s: System, c: nat, h: nat, actions: seq<Action>)
    requires c < |s.channels| && h < |s.channels[c].handles| && s.channels[c].handles[h].completed
    ensures Step(Run(s, actions), Action(c, AComplete(h))) == Run(s, actions)
  {
    RunKeepsHandles(s, actions, c);
    var t := Run(s, actions);
    hide Run;
    assert t.channels[c := t.channels[c]] == t.channels;
  }
}
