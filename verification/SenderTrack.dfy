/** The sender track with its fields updated in place, and its retransmission cache. */
module SenderTracks {
  import opened Basics
  import opened SenderModel

  /** The list names each of the keys once. */
  ghost predicate Lists(keys: set<uint16>, order: seq<uint16>) {
    && (forall i, j :: 0 <= i < j < |order| ==> order[i] != order[j])
    && (forall x :: x in keys <==> x in order) && |keys| == |order|
  }

  lemma ListsMore(keys: set<uint16>, order: seq<uint16>, x: uint16)
    requires Lists(keys, order) && x !in keys
    ensures Lists(keys + {x}, order + [x])
  {
  }

  lemma ListsFewer(keys: set<uint16>, order: seq<uint16>)
    requires Lists(keys, order) && order != []
    ensures order[0] in keys && Lists(keys - {order[0]}, order[1..])
    ensures |order| > 1 ==> order[|order| - 1] != order[0] && order[1..][|order| - 2] == order[|order| - 1]
  {
    assert order == [order[0]] + order[1..];
  }

  class RtpSenderTrack<P> {
    const cacheSize: nat

    var started: bool
    var hasSent: bool
    var rebasePending: bool
    var hasFloor: bool
    var baseInSeq: uint16
    var baseOutSeq: uint16
    var lastOutSeq: uint16
    var baseInTime: uint32
    var baseOutTime: uint32
    var lastOutTime: uint32
    var floorSeq: uint16
    var floorTime: int
    var latestTime: int
    var cache: map<uint16, P>
    var cacheOrder: seq<uint16>

    ghost function Model(): Sender
      reads this
    {
      Sender(started, hasSent, rebasePending, hasFloor, baseInSeq, baseOutSeq, lastOutSeq,
             baseInTime, baseOutTime, lastOutTime, floorSeq, floorTime, latestTime)
    }

    /** The eviction order lists exactly the cached packets, within the limit. */
    ghost predicate CacheOk()
      reads this
    {
      Lists(cache.Keys, cacheOrder) && |cacheOrder| <= cacheSize
    }

    constructor (cacheSize: nat)
      ensures Model() == NEW_SENDER && CacheOk() && this.cacheSize == cacheSize && cache == map[]
    {
      this.cacheSize := cacheSize;
      started, hasSent, rebasePending, hasFloor := false, false, false, false;
      baseInSeq, baseOutSeq, lastOutSeq := 0, 0, 0;
      baseInTime, baseOutTime, lastOutTime := 0, 0, 0;
      floorSeq, floorTime, latestTime := 0, 0, 0;
      cache, cacheOrder := map[], [];
    }

    method RewriteSeq(inSeq: uint16) returns (out: uint16)
      modifies this`baseInSeq, this`baseOutSeq
      ensures !started && !rebasePending ==> baseInSeq == inSeq && baseOutSeq == NextOut(old(Model()), inSeq)
      ensures started || rebasePending ==> baseInSeq == old(baseInSeq) && baseOutSeq == old(baseOutSeq)
      ensures out == OutSeq(Model(), inSeq)
    {
      if !started && !rebasePending {
        baseInSeq := inSeq;
        baseOutSeq := if hasSent then Wire(lastOutSeq + 1) else inSeq;
      }
      out := Wire(baseOutSeq + Wire(inSeq - baseInSeq));
    }

    method RewriteTimestamp(inTime: uint32) returns (out: uint32)
      modifies this`baseInTime, this`baseOutTime, this`started
      ensures started
      ensures !old(started) ==> baseInTime == inTime && baseOutTime == inTime
      ensures old(started) ==> baseInTime == old(baseInTime) && baseOutTime == old(baseOutTime)
      ensures out == OutTime(Model(), inTime)
    {
      if !started {
        baseInTime, baseOutTime, started := inTime, inTime, true;
      }
      out := Wire32(baseOutTime + Wire32(inTime - baseInTime));
    }

    /** The checks before anything changes. */
    method Admit(seqNo: uint16, time: uint32) returns (ok: bool, sourceTime: int)
      ensures ok == Passes(Model(), seqNo, time) && sourceTime == SourceTime(Model(), time)
    {
      sourceTime := time;
      if hasFloor && !rebasePending {
        var delta: int := Wire32(time - Wire32(latestTime));
        sourceTime := latestTime + if delta < 0x8000_0000 then delta else delta - 0x1_0000_0000;
        if sourceTime < floorTime || (sourceTime == floorTime && Wire(seqNo - floorSeq) >= 0x8000) {
          return false, sourceTime;
        }
      }
      if rebasePending && started && hasSent {
        var mapped := Wire32(baseOutTime + Wire32(time - baseInTime));
        if Wire32(mapped - lastOutTime) >= 0x8000_0000 {
          return false, sourceTime;
        }
      }
      ok := true;
    }

    method RebaseIfPending(seqNo: uint16, time: uint32, sourceTime: int)
      requires sourceTime == SourceTime(Model(), time)
      modifies this
      ensures Model() == Rebase(old(Model()), seqNo, time)
      ensures cache == old(cache) && cacheOrder == old(cacheOrder)
    {
      hide SourceTime, Wire;
      if rebasePending {
        baseInSeq := seqNo;
        baseOutSeq := if hasSent then Wire(lastOutSeq + 1) else seqNo;
        floorSeq, floorTime, latestTime, hasFloor := seqNo, time, sourceTime, true;
      }
    }

    method PrepareBases(seqNo: uint16, time: uint32, sourceTime: int) returns (out: Packet)
      requires sourceTime == SourceTime(Model(), time)
      modifies this
      ensures Model() == Prepare(old(Model()), seqNo, time)
      ensures out == Packet(OutSeq(Model(), seqNo), OutTime(Model(), time))
      ensures cache == old(cache) && cacheOrder == old(cacheOrder)
    {
      hide SourceTime, Wire, Wire32, Rebase;
      RebaseIfPending(seqNo, time, sourceTime);
      var outSeq := RewriteSeq(seqNo);
      var outTime := RewriteTimestamp(time);
      out := Packet(outSeq, outTime);
    }

    method NoteSent(out: Packet, sourceTime: int)
      modifies this
      ensures Model() == Commit(old(Model()), out.seqNo, out.time, sourceTime)
      ensures cache == old(cache) && cacheOrder == old(cacheOrder)
    {
      hide Wire;
      if !hasSent || Wire(out.seqNo - lastOutSeq) < 0x8000 {
        lastOutSeq, lastOutTime := out.seqNo, out.time;
      }
      hasSent, rebasePending := true, false;
      if hasFloor {
        latestTime := Max(latestTime, sourceTime);
      }
    }

    /** InputRtpPacket; `accepted` says that the rewritten packet went out, `copied` that it could be cached. */
    method InputRtpPacket(seqNo: uint16, time: uint32, content: P, accepted: bool, copied: bool)
        returns (out: Option<Packet>)
      requires CacheOk()
      modifies this
      ensures (Model(), out) == Input(old(Model()), seqNo, time, accepted) && CacheOk()
      ensures out.Some? && copied && cacheSize > 0 ==> out.value.seqNo in cache && cache[out.value.seqNo] == content
      ensures out.None? ==> cache == old(cache)
    {
      hide Passes, SourceTime, Prepare, Commit, OutSeq, OutTime, Lists;
      var ok, sourceTime := Admit(seqNo, time);
      if !ok {
        return None;
      }
      var packet := PrepareBases(seqNo, time, sourceTime);
      if !accepted {
        return None;
      }
      NoteSent(packet, sourceTime);
      if copied {
        CacheRtpPacket(packet.seqNo, content);
      }
      out := Some(packet);
    }

    method BeginDiscontinuity()
      modifies this
      ensures Model() == Discontinue(old(Model())) && CacheOk() && cache == map[]
    {
      cache, cacheOrder := map[], [];
      rebasePending := true;
    }

    method SendPadding(accepted: bool) returns (out: Option<Packet>)
      requires CacheOk()
      modifies this
      ensures (Model(), out) == Pad(old(Model()), accepted) && CacheOk() && cache == old(cache)
    {
      if !accepted {
        return None;
      }
      var sequence: uint16 := if hasSent then Wire(lastOutSeq + 1) else 0;
      out := Some(Packet(sequence, lastOutTime));
      if started {
        baseOutSeq := Wire(baseOutSeq + 1);
      }
      lastOutSeq, hasSent := sequence, true;
    }

    /** Evicts the oldest packets beyond the limit; only the newest entry can push one out. */
    method Evict()
      requires Lists(cache.Keys, cacheOrder) && 0 < cacheSize && |cacheOrder| <= cacheSize + 1
      modifies this`cache, this`cacheOrder
      ensures CacheOk()
      ensures forall x :: x in cache ==> x in old(cache) && cache[x] == old(cache)[x]
      ensures if |old(cacheOrder)| <= cacheSize then cache == old(cache)
              else cache == old(cache) - {old(cacheOrder)[0]}
    {
      while |cache.Keys| > cacheSize && cacheOrder != []
        invariant Lists(cache.Keys, cacheOrder) && |cacheOrder| <= cacheSize + 1
        invariant (cache == old(cache) && cacheOrder == old(cacheOrder)) ||
                  (|old(cacheOrder)| > cacheSize && |cacheOrder| == cacheSize &&
                      cache == old(cache) - {old(cacheOrder)[0]})
        decreases |cacheOrder|
      {
        ListsFewer(cache.Keys, cacheOrder);
        var oldest := cacheOrder[0];
        hide Lists;
        assert (cache - {oldest}).Keys == cache.Keys - {oldest};
        cacheOrder := cacheOrder[1..];
        cache := cache - {oldest};
      }
    }

    /** Adds or replaces a packet; at most the oldest other packet goes. */
    method CacheRtpPacket(seqNo: uint16, content: P)
      requires CacheOk()
      modifies this`cache, this`cacheOrder
      ensures CacheOk()
      ensures cacheSize > 0 ==> seqNo in cache && cache[seqNo] == content
      ensures forall x :: x in cache && x != seqNo ==> x in old(cache) && cache[x] == old(cache)[x]
      ensures |old(cacheOrder)| < cacheSize || seqNo in old(cache) ==> forall x :: x in old(cache) ==> x in cache
    {
      if cacheSize == 0 {
        return;
      }
      assert cache[seqNo := content].Keys == cache.Keys + {seqNo};
      if seqNo in cache {
        assert cache.Keys + {seqNo} == cache.Keys;
      } else {
        ListsMore(cache.Keys, cacheOrder, seqNo);
        if cacheOrder != [] {
          AppendedFirst(cache.Keys, cacheOrder, seqNo);
        }
        cacheOrder := cacheOrder + [seqNo];
      }
      hide Lists;
      cache := cache[seqNo := content];
      Evict();
    }
  }

  /** What is evicted to make room for a new packet is another packet. */
  lemma AppendedFirst(keys: set<uint16>, order: seq<uint16>, x: uint16)
    requires Lists(keys, order) && x !in keys && order != []
    ensures (order + [x])[0] != x
  {
  }
}
