/** The NACK requester with its list and counters updated in place. */
module NackRequesters {
  import opened Basics
  import opened NackModel

  datatype Entry = Entry(first: nat, last: nat, count: nat)

  /** The entries of the class with the identities that the model gives to losses. */
  function Identified(pending: map<uint16, Entry>, ids: map<uint16, nat>): map<uint16, Missing> {
    map k | k in pending :: Missing(pending[k].first, pending[k].last, pending[k].count, if k in ids then ids[k] else 0)
  }

  lemma IdentifiedSize(pending: map<uint16, Entry>, ids: map<uint16, nat>)
    ensures |Identified(pending, ids)| == |pending|
  {
    assert Identified(pending, ids).Keys == pending.Keys;
  }

  lemma IdentifiedAdd(pending: map<uint16, Entry>, ids: map<uint16, nat>, k: uint16, e: Entry, id: nat)
    requires k !in pending
    ensures Identified(pending[k := e], ids[k := id]) ==
            Identified(pending, ids)[k := Missing(e.first, e.last, e.count, id)]
  {
  }

  lemma IdentifiedUpdate(pending: map<uint16, Entry>, ids: map<uint16, nat>, k: uint16, e: Entry)
    requires k in pending && e.first == pending[k].first
    ensures Identified(pending[k := e], ids) ==
            Identified(pending, ids)[k := Identified(pending, ids)[k].(last := e.last, count := e.count)]
  {
  }

  lemma IdentifiedRemove(pending: map<uint16, Entry>, ids: map<uint16, nat>, k: uint16)
    ensures Identified(pending - {k}, ids) == Identified(pending, ids) - {k}
  {
  }

  class NackRequester {
    const config: Config
    const hasCallback: bool
    var initialized: bool
    var newest: uint16
    var pending: map<uint16, Entry>
    var rtt: nat
    var stats: Stats
    ghost var ids: map<uint16, nat>
    ghost var nextId: nat

    ghost function Model(): State
      reads this
    {
      State(config, hasCallback, initialized, newest, Identified(pending, ids), rtt, stats, nextId)
    }

    constructor (c: Config, hasCallback: bool)
      ensures Model() == NewState(c, hasCallback)
    {
      config := c.(maxBatch := Max(1, c.maxBatch), maxRetry := Max(c.minRetry, c.maxRetry));
      this.hasCallback := hasCallback;
      initialized, newest, pending, rtt, stats, ids, nextId := false, 0, map[], 0, NO_STATS, map[], 0;
    }

    /** A new entry; a number that is already pending is left alone. */
    method AddEntry(k: uint16, now: nat)
      modifies this
      ensures Model() == AddOne(old(Model()), k, now)
    {
      if k !in pending {
        IdentifiedAdd(pending, ids, k, Entry(now, 0, 0), nextId);
        hide Identified;
        pending := pending[k := Entry(now, 0, 0)];
        ids, nextId := ids[k := nextId], nextId + 1;
        stats := stats.(missing := stats.missing + 1);
      }
    }

    method AddMissingPackets(begin: uint16, end: uint16, now: nat)
      modifies this
      ensures Model() == AddMissing(old(Model()), begin, end, now)
    {
      hide AddOne, Wire, Identified;
      ghost var start := Model();
      var k: int := begin;
      while k != end
        invariant 0 <= k < 0x1_0000 && AddMissing(Model(), k, end, now) == AddMissing(start, begin, end, now)
        decreases Wire(end - k)
      {
        IdentifiedSize(pending, ids);
        if |pending| >= config.maxList {
          break;
        }
        AddEntry(k, now);
        Closer(k, end);
        k := Wire(k + 1);
      }
    }

    /** Takes a pending number that has arrived off the list. */
    method NoteArrival(k: uint16, now: nat, fec: bool) returns (result: PacketResult)
      requires initialized
      modifies this
      ensures Model() == Arrive(old(Model()), k, fec) && result == ResultOf(old(Model()), k, now, fec)
    {
      result := NOT_MISSING;
      if k in pending {
        IdentifiedRemove(pending, ids, k);
        var m := pending[k];
        var recovered := m.count > 0 || fec;
        result := PacketResult(true, recovered, m.count, if now >= m.first then now - m.first else 0);
        if recovered {
          stats := stats.(recovered := stats.recovered + 1);
        } else {
          stats := stats.(reordered := stats.reordered + 1);
        }
        pending := pending - {k};
      }
    }

    method OnReceivedPacket(k: uint16, now: nat, fec: bool) returns (result: PacketResult)
      modifies this
      ensures Model() == Receive(old(Model()), k, now, fec) && result == ResultOf(old(Model()), k, now, fec)
    {
      hide AddMissing, Arrive, IsNewer, Wire, ResultOf;
      Uninitialized(Model(), k, now, fec);
      if !initialized {
        initialized, newest := true, k;
        return NOT_MISSING;
      }
      result := NoteArrival(k, now, fec);
      ArriveFrame(old(Model()), k, fec);
      if !IsNewer(k, newest) {
        return;
      }
      var gap := Wire(k - newest);
      if gap > config.maxGap {
        pending, newest := map[], k;
        stats := stats.(resets := stats.resets + 1);
        return;
      }
      AddMissingPackets(Wire(newest + 1), k, now);
      newest := k;
    }

    method RetryIntervalMs() returns (interval: nat)
      ensures interval == RetryInterval(Model())
    {
      if rtt == 0 {
        interval := Max(config.minRetry, Min(config.retryInterval, config.maxRetry));
      } else {
        interval := Max(config.minRetry, rtt);
      }
    }

    /** One turn of the loop in Process. */
    method ProcessEntry(k: uint16, now: nat, batch: seq<uint16>) returns (more: seq<uint16>)
      requires k in pending
      modifies this
      ensures (Model(), more) == ProcessOne(old(Model()), k, now, batch)
    {
      var m := pending[k];
      ghost var entry := Model().pending[k];
      more := batch;
      IdentifiedRemove(pending, ids, k);
      IdentifiedUpdate(pending, ids, k, Entry(m.first, now, m.count + 1));
      hide Identified;
      if now < m.first {
        pending := pending - {k};
        return;
      }
      var age := now - m.first;
      var interval := RetryIntervalMs();
      var due := m.count == 0 || (now >= m.last && now - m.last >= interval);
      var exhausted := m.count >= config.maxRetries && due;
      var expired := age >= config.maxAge;
      var tooLate := !expired && due && rtt != 0 && rtt >= config.maxAge - age;
      assert due == RetryDue(Model(), entry, now);
      assert (expired || exhausted || tooLate) == Hopeless(Model(), entry, now);
      hide RetryDue, Hopeless;
      if expired || exhausted || tooLate {
        stats := stats.(abandoned := stats.abandoned + 1);
        pending := pending - {k};
        return;
      }
      if age < config.reorderWait {
        return;
      }
      if due && hasCallback && |batch| < config.maxBatch {
        more := batch + [k];
        pending := pending[k := Entry(m.first, now, m.count + 1)];
        stats := stats.(requests := stats.requests + 1);
      }
    }

    /** Walks the pending losses in ascending order and returns the numbers to ask for. */
    method ProcessPending(now: nat) returns (batch: seq<uint16>)
      modifies this
      ensures (Model(), batch) == Process(old(Model()), now)
    {
      hide ProcessOne, Identified;
      ghost var start := Model();
      batch := [];
      var k: int := 0;
      while k < 0x1_0000
        invariant 0 <= k <= 0x1_0000 && ProcessFrom(Model(), k, now, batch) == ProcessFrom(start, 0, now, [])
      {
        Listed(pending, ids, k);
        if k in pending {
          batch := ProcessEntry(k, now, batch);
        } else {
          ProcessAbsent(Model(), k, now, batch);
        }
        k := k + 1;
      }
    }

    method UpdateRtt(ms: nat)
      modifies this
      ensures Model() == old(Model()).(rtt := ms)
    {
      rtt := ms;
    }

    method ClearPendingUpTo(seqNo: uint16)
      modifies this
      ensures Model() == ClearUpTo(old(Model()), seqNo)
    {
      hide IsNewer;
      ghost var start := pending;
      var k: int := 0;
      while k < 0x1_0000
        invariant 0 <= k <= 0x1_0000
        invariant forall x :: x in pending <==> x in start && (x >= k || IsNewer(x, seqNo))
        invariant forall x :: x in pending ==> pending[x] == start[x]
        invariant Model() == old(Model()).(pending := Identified(pending, ids)) && ids == old(ids)
      {
        if k in pending && !IsNewer(k, seqNo) {
          pending := pending - {k};
        }
        k := k + 1;
      }
      assert Identified(pending, ids) == ClearUpTo(old(Model()), seqNo).pending;
    }

    method AbandonAll()
      modifies this
      ensures Model() == AbandonPending(old(Model()))
    {
      IdentifiedSize(pending, ids);
      stats := stats.(abandoned := stats.abandoned + |pending|);
      pending := map[];
    }

    method ResetAll()
      modifies this
      ensures Model() == Reset(old(Model()))
    {
      initialized, newest, rtt, pending, stats := false, 0, 0, map[], NO_STATS;
    }
  }

  lemma Listed(pending: map<uint16, Entry>, ids: map<uint16, nat>, k: uint16)
    ensures k in Identified(pending, ids) <==> k in pending
  {
  }

  lemma Uninitialized(s: State, k: uint16, now: nat, fec: bool)
    ensures !s.initialized ==> ResultOf(s, k, now, fec) == NOT_MISSING
  {
  }

  lemma Closer(k: uint16, end: uint16)
    requires k != end
    ensures Wire(end - Wire(k + 1)) == Wire(end - k) - 1
  {
  }

  lemma ArriveFrame(s: State, k: uint16, fec: bool)
    ensures var a := Arrive(s, k, fec);
            a.initialized == s.initialized && a.newest == s.newest && a.config == s.config
  {
  }

  lemma ProcessAbsent(s: State, k: uint16, now: nat, batch: seq<uint16>)
    requires k !in s.pending
    ensures ProcessOne(s, k, now, batch) == (s, batch)
  {
  }
}
