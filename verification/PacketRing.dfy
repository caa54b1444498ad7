/**
 The two stores behind the packet buffer: the slot ring, and the arrival index (a
 multimap from time to sequence number). Both represent the same set of packets.
 */
module PacketRing {
  import opened Basics
  import opened H264Payload
  import opened PacketBufferModel

  datatype Buffered = Buffered(unwrapped: int, packet: ParsedPacket, arrival: int)

  datatype Arrival = Arrival(time: int, unwrapped: int)

  type Slots = seq<Option<Buffered>>

  // ---- the ring ----

  /** Every stored packet sits in its own slot, and nothing else does. */
  predicate RingHolds(slots: Slots, m: Packets, times: map<int, int>) {
    && |slots| == SLOTS
    && times.Keys == m.Keys
    && (forall i :: 0 <= i < SLOTS && slots[i].Some? ==> InPlace(slots, i, m, times))
    && (forall k :: k in m ==> slots[Slot(k)].Some? && slots[Slot(k)].value.unwrapped == k)
  }

  predicate InPlace(slots: Slots, i: int, m: Packets, times: map<int, int>)
    requires 0 <= i < |slots| && slots[i].Some?
  {
    var b := slots[i].value;
    Slot(b.unwrapped) == i && b.unwrapped in m && m[b.unwrapped] == b.packet
    && b.unwrapped in times && times[b.unwrapped] == b.arrival
  }

  lemma RingErase(slots: Slots, m: Packets, times: map<int, int>, i: int)
    requires RingHolds(slots, m, times) && 0 <= i < SLOTS && slots[i].Some?
    ensures var k := slots[i].value.unwrapped;
            RingHolds(slots[i := None], m - {k}, times - {k})
  {
    hide Slot;
    var k := slots[i].value.unwrapped;
    var after := slots[i := None];
    assert InPlace(slots, i, m, times);
    forall j | 0 <= j < SLOTS && after[j].Some? ensures InPlace(after, j, m - {k}, times - {k}) {
      assert InPlace(slots, j, m, times);
    }
    assert (times - {k}).Keys == (m - {k}).Keys;
  }

  lemma RingPlace(slots: Slots, m: Packets, times: map<int, int>, b: Buffered)
    requires RingHolds(slots, m, times) && slots[Slot(b.unwrapped)].None?
    ensures RingHolds(slots[Slot(b.unwrapped) := Some(b)], m[b.unwrapped := b.packet], times[b.unwrapped := b.arrival])
  {
    var k := b.unwrapped;
    var after := slots[Slot(k) := Some(b)];
    hide Slot;
    forall j | 0 <= j < SLOTS && after[j].Some? ensures InPlace(after, j, m[k := b.packet], times[k := b.arrival]) {
      if j != Slot(k) {
        assert InPlace(slots, j, m, times);
      }
    }
  }

  lemma RingEmpty(slots: Slots)
    requires |slots| == SLOTS && forall i :: 0 <= i < SLOTS ==> slots[i].None?
    ensures RingHolds(slots, map[], map[])
  {
  }

  // ---- the arrival index ----

  type Index = multiset<Arrival>

  predicate Listed(times: map<int, int>, a: Arrival) {
    a.unwrapped in times && times[a.unwrapped] == a.time
  }

  /** The index lists each stored packet exactly once, under its arrival time. */
  ghost predicate IndexHolds(index: Index, times: map<int, int>) {
    forall a :: index[a] == if Listed(times, a) then 1 else 0
  }

  lemma IndexEmplace(index: Index, times: map<int, int>, a: Arrival)
    requires IndexHolds(index, times) && a.unwrapped !in times
    ensures IndexHolds(index + multiset{a}, times[a.unwrapped := a.time])
  {
  }

  lemma IndexErase(index: Index, times: map<int, int>, k: int)
    requires IndexHolds(index, times) && k in times
    ensures IndexHolds(index - multiset{Arrival(times[k], k)}, times - {k})
  {
    var e := Arrival(times[k], k);
    forall a ensures (index - multiset{e})[a] == if Listed(times - {k}, a) then 1 else 0 {
      if a != e {
        assert (index - multiset{e})[a] == index[a];
      }
    }
  }

  /** multimap::begin: an entry with the earliest time. */
  predicate IsFront(index: Index, a: Arrival) {
    a in index && forall b :: b in index ==> a.time <= b.time
  }

  lemma {:induction false} FrontExists(index: Index)
    requires |index| > 0
    ensures exists a :: IsFront(index, a)
    decreases |index|
  {
    var a :| a in index;
    if !IsFront(index, a) {
      var b :| b in index && b.time < a.time;
      var rest := index - multiset{a};
      assert b in rest;
      FrontExists(rest);
      var c :| IsFront(rest, c);
      forall x | x in index ensures c.time <= x.time {
        if x != a {
          assert x in rest;
        }
      }
      assert IsFront(index, c);
    }
  }

  /** The front of the index decides expiry; no other entry needs to be looked at. */
  lemma FrontDecidesExpiry(cfg: Config, index: Index, st: State, now: int, front: Arrival)
    requires IndexHolds(index, st.arrivals) && IsFront(index, front)
    ensures Expired(cfg, st, now) <==> now >= front.time && now - front.time >= cfg.maxWaitMs
  {
    if Expired(cfg, st, now) {
      var k :| k in st.arrivals && now - st.arrivals[k] >= cfg.maxWaitMs;
      assert index[Arrival(st.arrivals[k], k)] == 1;
    } else {
      assert index[front] == 1;
    }
  }

  lemma EmptyIndex(cfg: Config, index: Index, st: State, now: int)
    requires IndexHolds(index, st.arrivals) && |index| == 0
    ensures !Expired(cfg, st, now) && st.arrivals == map[]
  {
    assert index == multiset{};
    assert forall k :: k in st.arrivals ==> index[Arrival(st.arrivals[k], k)] == 1;
    assert st.arrivals.Keys == {};
  }
}
