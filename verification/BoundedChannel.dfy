/**
 The channel's lock sections, in place. The counters are natural numbers here, as they
 are unsigned in the source: that no subtraction goes below zero is part of the proof.
 */
module BoundedChannel {
  import opened Basics
  import opened Sums
  import opened ChannelModel
  import opened ChannelSafety

  /** A budget shared by channels, with a ghost record of what each of them has reserved. */
  class ChannelBudget {
    const maxBytes: nat
    const maxMessages: nat
    var bytes: nat
    var messages: nat
    ghost var shares: map<nat, nat>   // bytes, by channel
    ghost var counts: map<nat, nat>   // messages, by channel
    ghost var members: nat

    ghost function View(): Budget
      reads this
    {
      Budget(maxBytes, maxMessages, bytes, messages)
    }

    /** The counters are the sums over the channels, and within the limits. */
    ghost predicate Valid()
      reads this
    {
      && bytes == Sum(shares) <= maxBytes && messages == Sum(counts) <= maxMessages
      && (forall i :: i in shares <==> 0 <= i < members)
      && (forall i :: i in counts <==> 0 <= i < members)
    }

    ghost predicate Holds(id: nat, size: nat, count: nat)
      reads this
    {
      id in shares && id in counts && shares[id] == size && counts[id] == count
    }

    /** No channel but this one has reserved or released anything. */
    twostate predicate OnlyShareOf(id: nat)
      reads this
    {
      members == old(members) &&
      forall i, size, count :: i != id && old(Holds(i, size, count)) ==> Holds(i, size, count)
    }

    constructor (maxBytes: nat, maxMessages: nat)
      ensures Valid() && View() == Budget(maxBytes, maxMessages, 0, 0)
    {
      this.maxBytes, this.maxMessages := maxBytes, maxMessages;
      bytes, messages := 0, 0;
      shares, counts, members := map[], map[], 0;
    }

    ghost method Join() returns (id: nat)
      requires Valid()
      modifies this`shares, this`counts, this`members
      ensures Valid() && id == old(members) && Holds(id, 0, 0) && members == old(members) + 1
      ensures forall i, size, count :: old(Holds(i, size, count)) ==> Holds(i, size, count)
    {
      id := members;
      SumAdd(shares, id, 0);
      SumAdd(counts, id, 0);
      shares, counts := shares[id := 0], counts[id := 0];
      members := members + 1;
    }

    method Reserve(ghost id: nat, size: nat) returns (ok: bool)
      requires Valid() && id < members
      modifies this
      ensures Valid() && OnlyShareOf(id) && ok == CanReserve(old(View()), size)
      ensures bytes == old(bytes) + (if ok then size else 0)
      ensures messages == old(messages) + (if ok then 1 else 0)
      ensures if ok then Holds(id, old(shares)[id] + size, old(counts)[id] + 1)
              else Holds(id, old(shares)[id], old(counts)[id])
    {
      if messages >= maxMessages || size > maxBytes - bytes {
        return false;
      }
      SumUpdate(shares, id, shares[id] + size);
      SumUpdate(counts, id, counts[id] + 1);
      bytes := bytes + size;
      messages := messages + 1;
      shares, counts := shares[id := shares[id] + size], counts[id := counts[id] + 1];
      return true;
    }

    /** A channel gives back part of what it has reserved: no more can be asked of it. */
    method Release(ghost id: nat, size: nat)
      requires Valid() && id < members && size <= shares[id] && 1 <= counts[id]
      modifies this
      ensures Valid() && OnlyShareOf(id) && Holds(id, old(shares)[id] - size, old(counts)[id] - 1)
      ensures View() == ChannelModel.Release(old(View()), size)
    {
      SumUpdate(shares, id, shares[id] - size);
      SumUpdate(counts, id, counts[id] - 1);
      bytes := bytes - size;
      messages := messages - 1;
      shares, counts := shares[id := shares[id] - size], counts[id := counts[id] - 1];
    }
  }

  datatype SendResult = Sent | Full | Refused(status: Status)

  class Channel {
    const maxBytes: nat
    const maxMessages: nat
    const budget: ChannelBudget
    var bytes: nat
    var messages: nat
    var queue: seq<Item>
    var deferred: seq<Item>
    var scheduled: bool
    var ready: bool
    var status: Status
    ghost var flight: seq<Item>   // taken from the queue, not yet released
    ghost var id: nat             // whose share of the budget is this

    ghost function View(): Chan
      reads this
    {
      Chan(maxBytes, maxMessages, bytes, messages, queue, deferred, scheduled, ready, status)
    }

    /** The counters cover everything queued, deferred or in flight, and are this channel's share of the budget. */
    ghost predicate Valid()
      reads this, budget
    {
      && budget.Valid() && budget.Holds(id, bytes, messages)
      && bytes == TotalBytes(queue) + TotalBytes(deferred) + TotalBytes(flight) <= maxBytes
      && messages == |queue| + |deferred| + |flight| <= maxMessages
    }

    constructor (maxBytes: nat, maxMessages: nat, budget: ChannelBudget, gated: bool)
      requires budget.Valid()
      modifies budget
      ensures Valid() && View() == NewChan(maxBytes, maxMessages, gated) && this.budget == budget && flight == []
      ensures budget.View() == old(budget.View()) && id == old(budget.members) &&
              budget.members == old(budget.members) + 1
      ensures forall i, size, count :: old(budget.Holds(i, size, count)) ==> budget.Holds(i, size, count)
    {
      this.maxBytes, this.maxMessages, this.budget := maxBytes, maxMessages, budget;
      bytes, messages, queue, deferred := 0, 0, [], [];
      scheduled, ready, status, flight := false, !gated, Accepted, [];
      new;
      id := budget.Join();
    }

    /** The splice loop that lets the deferred messages in. */
    method ReleaseDeferred()
      modifies this`queue, this`deferred
      ensures queue == old(queue) + old(deferred) && deferred == []
    {
      while deferred != []
        invariant queue + deferred == old(queue) + old(deferred)
        decreases |deferred|
      {
        assert queue + deferred == (queue + [deferred[0]]) + deferred[1..];
        queue, deferred := queue + [deferred[0]], deferred[1..];
      }
    }

    method Send(item: Item) returns (r: SendResult, schedule: bool)
      requires Valid()
      modifies this, budget
      ensures Valid() && flight == old(flight) && id == old(id) && budget.OnlyShareOf(id)
      ensures (budget.View(), View()) == ChannelModel.Send(old(budget.View()), old(View()), item)
      ensures r.Sent? <==> Admits(old(budget.View()), old(View()), item.bytes)
      ensures r.Refused? <==> !old(status).Accepted?
      ensures r.Refused? ==> r.status == old(status)
      ensures schedule <==> scheduled && !old(scheduled)
    {
      schedule := false;
      if !status.Accepted? {
        return Refused(status), false;
      }
      if messages >= maxMessages || item.bytes > maxBytes - bytes {
        return Full, false;
      }
      var reserved := budget.Reserve(id, item.bytes);
      if !reserved {
        return Full, false;
      }
      PushCounts(View(), item);
      schedule := Enqueue(item);
      hide TotalBytes, Push;
      return Sent, schedule;
    }

    /** The part of Send that follows a successful reservation. */
    method Enqueue(item: Item) returns (schedule: bool)
      modifies this`queue, this`deferred, this`bytes, this`messages, this`ready, this`scheduled
      ensures View() == Push(old(View()), item)
      ensures schedule <==> scheduled && !old(scheduled)
    {
      schedule := false;
      if item.delivery.Deferred? && !ready {
        deferred := deferred + [item];
        assert queue + [] == queue;
      } else {
        queue := queue + [item];
      }
      bytes := bytes + item.bytes;
      messages := messages + 1;
      if item.delivery.OpenGate? {
        ready := true;
        assert queue + deferred == old(queue) + ([item] + deferred);
        ReleaseDeferred();
      }
      if !scheduled && queue != [] {
        scheduled := true;
        schedule := true;
      }
    }

    /** Releases a list of unconsumed items one by one. */
    method ReleaseAll(items: seq<Item>)
      requires budget.Valid() && budget.Holds(id, bytes, messages) && TotalBytes(items) <= bytes && |items| <= messages
      modifies this`bytes, this`messages, budget
      ensures budget.Valid() && budget.Holds(id, bytes, messages) && budget.OnlyShareOf(id)
      ensures bytes == old(bytes) - TotalBytes(items) && messages == old(messages) - |items|
      ensures budget.bytes == old(budget.bytes) - TotalBytes(items) && budget.messages == old(budget.messages) - |items|
    {
      assert items[0..] == items;
      for i := 0 to |items|
        invariant budget.Valid() && budget.Holds(id, bytes, messages) && budget.OnlyShareOf(id)
        invariant bytes == old(bytes) - TotalBytes(items) + TotalBytes(items[i..])
        invariant messages == old(messages) - i
        invariant budget.bytes == old(budget.bytes) - TotalBytes(items) + TotalBytes(items[i..])
        invariant budget.messages == old(budget.messages) - i
      {
        assert items[i..][0] == items[i] && items[i..][1..] == items[i + 1..];
        budget.Release(id, items[i].bytes);
        bytes := bytes - items[i].bytes;
        messages := messages - 1;
      }
      assert items[|items|..] == [];
    }

    method Stop(final: Status)
      requires Valid() && !final.Accepted?
      modifies this, budget
      ensures Valid() && flight == old(flight) && id == old(id) && budget.OnlyShareOf(id)
      ensures (budget.View(), View()) == ChannelModel.Stop(old(budget.View()), old(View()), final)
    {
      if !status.Accepted? {
        return;
      }
      status := final;
      ReleaseAll(queue);
      ReleaseAll(deferred);
      queue, deferred := [], [];
    }

    method TakeItem() returns (item: Option<Item>)
      requires Valid()
      modifies this
      ensures Valid() && View() == Take(old(View())) && id == old(id)
      ensures item.Some? <==> CanTake(old(View()))
      ensures item.Some? ==> item.value == old(queue)[0] && flight == [item.value] + old(flight)
      ensures item.None? ==> flight == old(flight)
    {
      if !status.Accepted? || queue == [] {
        scheduled := false;
        return None;
      }
      item := Some(queue[0]);
      TakeHead(queue);
      flight := [queue[0]] + flight;
      assert flight[1..] == old(flight);
      queue := queue[1..];
    }

    method Finish(item: Item)
      requires Valid() && flight != [] && flight[0] == item
      modifies this, budget
      ensures Valid() && flight == old(flight)[1..] && id == old(id) && budget.OnlyShareOf(id)
      ensures (budget.View(), View()) == Consumed(old(budget.View()), old(View()), item.bytes)
    {
      bytes := bytes - item.bytes;
      messages := messages - 1;
      budget.Release(id, item.bytes);
      flight := flight[1..];
    }

    method FinishAsync(item: Item) returns (resume: bool)
      requires Valid() && flight != [] && flight[0] == item
      modifies this, budget
      ensures Valid() && flight == old(flight)[1..] && id == old(id) && budget.OnlyShareOf(id)
      ensures (budget.View(), View()) == Completed(old(budget.View()), old(View()), item.bytes)
      ensures resume == status.Accepted?
    {
      Finish(item);
      resume := status.Accepted?;
      if !resume {
        scheduled := false;
      }
    }

    method ResetGate()
      requires Valid()
      modifies this`ready
      ensures Valid() && View() == old(View()).(ready := false)
    {
      ready := false;
    }
  }

  /** Whatever one channel does, every other channel on the same budget stays valid. */
  twostate lemma OthersStayValid(c: Channel, id: nat)
    requires old(c.Valid()) && unchanged(c) && c.id != id
    requires c.budget.Valid() && c.budget.OnlyShareOf(id)
    ensures c.Valid()
  {
    assert old(c.budget.Holds(c.id, c.bytes, c.messages));
  }

  /** A channel never asks the budget for more back than the budget holds. */
  lemma ShareWithinBudget(c: Channel)
    requires c.Valid()
    ensures c.bytes <= c.budget.bytes && c.messages <= c.budget.messages
  {
    SumRemove(c.budget.shares, c.id);
    SumRemove(c.budget.counts, c.id);
  }
}
