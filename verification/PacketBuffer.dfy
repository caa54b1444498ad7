/**
 The packet buffer itself: a 2048-slot ring, the arrival index and the frame cursor,
 updated in place. Every operation is proved to act on the abstract state as the model
 says, so the properties of PacketBufferSafety and PacketBufferOrder hold of it.
 */
module PacketBuffer {
  import opened Basics
  import opened H264Payload
  import opened AccessUnitAssembly
  import opened SequenceUnwrapper
  import opened PacketBufferModel
  import opened PacketBufferSafety
  import opened PacketRing
  import opened FrameScan

  datatype InsertResult = InsertResult(
    inserted: bool, duplicate: bool, late: bool, collision: bool,
    expired: nat, frames: seq<AccessUnit>)

  function FramesOf(es: seq<Emission>): (fs: seq<AccessUnit>)
    ensures |fs| == |es| && forall i :: 0 <= i < |es| ==> fs[i] == es[i].frame
  {
    seq(|es|, i requires 0 <= i < |es| => es[i].frame)
  }

  predicate SubTimes(a: map<int, int>, b: map<int, int>) {
    forall k :: k in a ==> k in b && a[k] == b[k]
  }

  /** `m` after the slots below `i` have been cleared of packets in lo..hi. */
  function Swept(m: Packets, lo: int, hi: int, i: int): Packets {
    map k | k in m && !(lo <= k <= hi && Slot(k) < i) :: m[k]
  }

  function SweptBefore(m: Packets, s: int, i: int): Packets {
    map k | k in m && !(k < s && Slot(k) < i) :: m[k]
  }

  class H264PacketBuffer {
    const cfg: Config
    const buffer: array<Option<Buffered>>
    var arrivals: Index
    var latest: Option<int>
    var lastSeq: Option<int>
    var lastTimestamp: Option<uint32>
    var frameStart: Option<int>
    var frameTimestamp: uint32
    var discarding: bool
    var waiting: bool
    var count: nat
    ghost var packets: Packets
    ghost var times: map<int, int>

    ghost predicate Rep()
      reads this, buffer
    {
      && buffer.Length == SLOTS && RingHolds(buffer[..], packets, times)
      && IndexHolds(arrivals, times) && count == |packets|
    }

    ghost function CoreView(): Core
      reads this
    {
      Core(packets, lastSeq, lastTimestamp, frameStart, frameTimestamp, discarding, waiting)
    }

    ghost function View(): State
      reads this
    {
      State(CoreView(), times, latest)
    }

    ghost predicate Valid()
      reads this, buffer
    {
      ValidConfig(cfg) && Rep() && StateInv(cfg, View())
    }

    constructor (config: Config)
      ensures Valid() && View() == INITIAL && cfg == Normalize(config) && fresh(buffer)
    {
      cfg := Normalize(config);
      buffer := new Option<Buffered>[SLOTS](_ => None);
      arrivals, latest, count := multiset{}, None, 0;
      lastSeq, lastTimestamp, frameStart, frameTimestamp := None, None, None, 0;
      discarding, waiting := false, false;
      packets, times := map[], map[];
      new;
      RingEmpty(buffer[..]);
      InitialInv(cfg);
    }

    // ---- erasing packets ----

    method ErasePacket(i: int)
      requires Rep() && 0 <= i < SLOTS && buffer[i].Some?
      modifies this`arrivals, this`count, this`packets, this`times, buffer
      ensures Rep()
      ensures packets == old(packets) - {old(buffer[i].value.unwrapped)} && SubTimes(times, old(times))
      ensures buffer[..] == old(buffer[..])[i := None]
    {
      hide RingHolds, IndexHolds, InPlace;
      var b := buffer[i].value;
      ghost var slots := buffer[..];
      assert slots[i] == buffer[i];
      Occupied(slots, packets, times, i);
      RingErase(slots, packets, times, i);
      IndexErase(arrivals, times, b.unwrapped);
      RemovedSize(packets, b.unwrapped);
      arrivals := arrivals - multiset{Arrival(b.arrival, b.unwrapped)};
      buffer[i] := None;
      count := count - 1;
      packets, times := packets - {b.unwrapped}, times - {b.unwrapped};
      assert buffer[..] == slots[i := None];
    }

    /** The wide-range case of RemovePackets: one look at every slot. */
    method SweepPackets(lo: int, hi: int)
      requires Rep()
      modifies this`arrivals, this`count, this`packets, this`times, buffer
      ensures Rep() && packets == Remove(old(packets), lo, hi) && SubTimes(times, old(times))
    {
      hide RingHolds, IndexHolds, Swept, Remove;
      SweepEnds(packets, lo, hi);
      for i := 0 to SLOTS
        invariant Rep() && packets == Swept(old(packets), lo, hi, i) && SubTimes(times, old(times))
      {
        SweepStep(buffer[..], packets, times, old(packets), lo, hi, i);
        if buffer[i].Some? && lo <= buffer[i].value.unwrapped <= hi {
          ErasePacket(i);
        }
      }
    }

    method RemovePackets(lo: int, hi: int)
      requires Rep()
      modifies this`arrivals, this`count, this`packets, this`times, buffer
      ensures Rep() && packets == Remove(old(packets), lo, hi) && SubTimes(times, old(times))
    {
      hide RingHolds, IndexHolds, Remove, Slot;
      if hi - lo >= SLOTS {
        SweepPackets(lo, hi);
        return;
      }
      var s := lo;
      SweepEnds(packets, lo, hi);
      while s <= hi
        invariant Rep() && packets == Remove(old(packets), lo, s - 1) && SubTimes(times, old(times))
        invariant lo <= s <= Max(lo, hi + 1)
        decreases hi - s
      {
        var i := Slot(s);
        RemoveStep(buffer[..], packets, times, old(packets), lo, s);
        if buffer[i].Some? && buffer[i].value.unwrapped == s {
          ErasePacket(i);
        }
        s := s + 1;
      }
    }

    method RemovePacketsBefore(s: int)
      requires Rep()
      modifies this`arrivals, this`count, this`packets, this`times, buffer
      ensures Rep() && packets == RemoveBefore(old(packets), s) && SubTimes(times, old(times))
    {
      hide RingHolds, IndexHolds, SweptBefore, RemoveBefore;
      SweepBeforeEnds(packets, s);
      for i := 0 to SLOTS
        invariant Rep() && packets == SweptBefore(old(packets), s, i) && SubTimes(times, old(times))
      {
        SweepBeforeStep(buffer[..], packets, times, old(packets), s, i);
        if buffer[i].Some? && buffer[i].value.unwrapped < s {
          ErasePacket(i);
        }
      }
    }

    method DropCurrentFrame(hi: int)
      requires Rep()
      modifies this`arrivals, this`count, this`packets, this`times, this`frameStart, this`discarding, buffer
      ensures Rep() && CoreView() == Drop(old(CoreView()), hi) && SubTimes(times, old(times))
    {
      if frameStart.Some? {
        RemovePackets(frameStart.value, hi);
      }
      frameStart := None;
      discarding := false;
    }

    // ---- assembling a frame ----

    function GetPacket(s: int): (p: Option<ParsedPacket>)
      requires Rep()
      reads this, buffer
      ensures p == if s in packets then Some(packets[s]) else None
    {
      Lookup(buffer[..], packets, times, s);
      var slot := buffer[Slot(s)];
      if slot.Some? && slot.value.unwrapped == s then Some(slot.value.packet) else None
    }

    /** The first pass of MaybeAssembleFrame. */
    method ScanFrame(first: int, last: int) returns (ok: bool, scan: Scan)
      requires Rep() && first <= last
      ensures ok ==> HasWindow(packets, first, last) && Summarises(scan, Window(packets, first, last))
      ensures !ok ==> !HasWindow(packets, first, last) || !Assembles(cfg, Window(packets, first, last))
    {
      hide RingHolds, IndexHolds, Summarises, Assembles;
      scan := START;
      var head := GetPacket(first);
      if head.None? {
        return false, scan;
      }
      SummariseNone();
      ghost var ps: seq<ParsedPacket> := [];
      for s := first to last + 1
        invariant HasWindow(packets, first, s - 1) && ps == Window(packets, first, s - 1)
        invariant Summarises(scan, ps)
      {
        var got := GetPacket(s);
        if got.None? {
          return false, scan;
        }
        var p := got.value;
        if HasWindow(packets, first, last) {
          WindowPrefix(packets, first, s, last);
        }
        if p.ssrc != head.value.ssrc || p.timestamp != head.value.timestamp {
          RefuseAt(cfg, packets, scan, first, s, last);
          return false, scan;
        }
        var fine, saw := CheckFirstSlice(p.units, scan.saw);
        if !fine {
          RefuseAt(cfg, packets, scan, first, s, last);
          return false, scan;
        }
        var accepted, header := Validate(p.units, scan.header);
        if !accepted {
          RefuseAt(cfg, packets, scan, first, s, last);
          return false, scan;
        }
        SummariseSnoc(scan, ps, p, saw, header);
        scan := Scan(Max(scan.receiveTimeMs, p.receiveTimeMs), scan.key || p.hasKeyNalu, scan.sps || p.hasSps,
                     scan.pps || p.hasPps, scan.idr || p.hasIdr, saw, header);
        ps := ps + [p];
        assert ps == Window(packets, first, s);
      }
      ok := true;
    }

    /** The second pass: moves the bytes of a validated frame out. */
    method MoveOut(first: int, last: int) returns (ok: bool, nalus: seq<Bytes>)
      requires Rep() && first <= last && HasWindow(packets, first, last)
      ensures var j := Join(UnitsOf(Window(packets, first, last)), NoFu);
              && (ok <==> j.Some? && j.value.fu.NoFu? && j.value.nalus != [])
              && (ok ==> nalus == j.value.nalus)
    {
      hide RingHolds, IndexHolds;
      var active := false;
      var bytes: Bytes := [];
      nalus := [];
      ghost var ps: seq<ParsedPacket> := [];
      for s := first to last + 1
        invariant active ==> bytes != []
        invariant ps == Window(packets, first, s - 1)
        invariant Join(UnitsOf(ps), NoFu) == Some(Joined(nalus, FuOf(active, bytes)))
      {
        var p := GetPacket(s).value;
        UnitsOfSnoc(ps, p);
        JoinAppend(UnitsOf(ps), p.units, NoFu);
        WindowPrefix(packets, first, s, last);
        var fine;
        fine, active, bytes, nalus := Append(p.units, active, bytes, nalus);
        if !fine {
          JoinFailsLater(Window(packets, first, last), s - first + 1);
          return false, nalus;
        }
        ps := ps + [p];
        assert ps == Window(packets, first, s);
      }
      ok := !active && nalus != [];
    }

    method MaybeAssembleFrame(first: int, last: int) returns (ok: bool, frame: AccessUnit)
      requires Rep()
      modifies this`arrivals, this`count, this`packets, this`times, buffer
      ensures Rep() && SubTimes(times, old(times))
      ensures FramesOf(Assemble(cfg, old(packets), first, last)) == if ok then [frame] else []
      ensures packets == if ok then Remove(old(packets), first, last) else old(packets)
    {
      hide RingHolds, IndexHolds, Summarises, Assembles, Remove, UnitsOf;
      frame := AccessUnit(0, 0, 0, 0, 0, false, false, false, false, false, false, false, []);
      if last < first || last - first + 1 > cfg.maxFramePackets {
        return false, frame;
      }
      var scanned, scan := ScanFrame(first, last);
      if !scanned {
        return false, frame;
      }
      ghost var ps := Window(packets, first, last);
      SummaryDecides(cfg, scan, ps);
      if scan.header.Some? || (scan.idr && !cfg.idrOnly && (!scan.sps || !scan.pps)) {
        return false, frame;
      }
      var moved, nalus := MoveOut(first, last);
      if !moved {
        return false, frame;
      }
      var head := GetPacket(first).value;
      frame := AccessUnit(head.ssrc, head.timestamp, scan.receiveTimeMs, first % CYCLE, last % CYCLE,
                          true, false, true, scan.key, scan.sps, scan.pps, scan.idr, nalus);
      SummaryFrame(cfg, scan, ps, first, frame);
      RemovePackets(first, last);
      ok := true;
    }

    // ---- the walk ----

    method BeginsStream(p: ParsedPacket) returns (r: bool)
      ensures r == BeginningOfStream(cfg, p)
    {
      for i := 0 to |p.units|
        invariant forall j :: 0 <= j < i ==> !StartsStream(cfg, p.units[j])
      {
        var u := p.units[i];
        if u.kind.FuAFragment? && !u.fuStart {
          continue;
        }
        if u.isSps {
          assert StartsStream(cfg, p.units[i]);
          return true;
        }
        if cfg.idrOnly && u.isIdr && u.firstSlice {
          assert StartsStream(cfg, p.units[i]);
          return true;
        }
      }
      return false;
    }

    method CanAdvanceFrom(s: int, p: ParsedPacket) returns (ok: bool)
      requires Rep()
      modifies this`arrivals, this`count, this`packets, this`times, this`frameStart, this`discarding,
               this`lastSeq, this`waiting, buffer
      ensures Rep() && SubTimes(times, old(times))
      ensures Resume(cfg, old(CoreView()), s, p) == if ok then Some(CoreView()) else None
      ensures !ok ==> CoreView() == old(CoreView())
    {
      hide RingHolds, IndexHolds, BeginningOfStream, RemoveBefore;
      if lastSeq.Some? {
        if s <= lastSeq.value {
          return false;
        }
        if !waiting && s == lastSeq.value + 1 {
          return true;
        }
        if lastTimestamp == Some(p.timestamp) {
          return false;
        }
      }
      var begins := BeginsStream(p);
      if !begins {
        return false;
      }
      RemovePacketsBefore(s);
      frameStart := None;
      discarding := false;
      lastSeq := Some(s - 1);
      waiting := false;
      return true;
    }

    /** Moves the cursor onto `s` and settles which frame it belongs to. */
    method EnterPacket(s: int, p: ParsedPacket)
      requires Rep() && s in packets && packets[s] == p
      modifies this`arrivals, this`count, this`packets, this`times, this`frameStart, this`frameTimestamp,
               this`discarding, this`lastSeq, this`lastTimestamp, buffer
      ensures Rep() && SubTimes(times, old(times))
      ensures CoreView() == Enter(old(CoreView()), s) && frameStart.Some?
    {
      hide RingHolds, IndexHolds, Remove;
      lastSeq := Some(s);
      lastTimestamp := Some(p.timestamp);
      if frameStart.Some? && frameTimestamp != p.timestamp {
        DropCurrentFrame(s - 1);
      }
      if frameStart.None? {
        frameStart := Some(s);
        frameTimestamp := p.timestamp;
      }
    }

    method LimitFrame(s: int)
      requires Rep() && frameStart.Some?
      modifies this`arrivals, this`count, this`packets, this`times, this`discarding, buffer
      ensures Rep() && SubTimes(times, old(times))
      ensures CoreView() == Limit(cfg, old(CoreView()), s)
    {
      hide RingHolds, IndexHolds, Remove;
      if s - frameStart.value + 1 > cfg.maxFramePackets {
        if !discarding {
          RemovePackets(frameStart.value, s);
        } else {
          RemovePackets(s, s);
        }
        discarding := true;
      }
    }

    method CloseFrame(s: int) returns (frames: seq<AccessUnit>)
      requires Rep() && frameStart.Some?
      modifies this`arrivals, this`count, this`packets, this`times, this`frameStart, this`discarding, buffer
      ensures Rep() && SubTimes(times, old(times))
      ensures CoreView() == Close(cfg, old(CoreView()), s, true).0
      ensures frames == FramesOf(Close(cfg, old(CoreView()), s, true).1)
    {
      hide RingHolds, IndexHolds, Remove, Assemble;
      RemoveTwice(packets, frameStart.value, s);
      frames := [];
      if !discarding {
        var ok, frame := MaybeAssembleFrame(frameStart.value, s);
        if ok {
          frames := [frame];
        }
      }
      DropCurrentFrame(s);
    }

    method FindFrames(inserted: int) returns (frames: seq<AccessUnit>)
      requires Rep()
      modifies this`arrivals, this`count, this`packets, this`times, this`frameStart, this`frameTimestamp,
               this`discarding, this`lastSeq, this`lastTimestamp, this`waiting, buffer
      ensures Rep() && SubTimes(times, old(times))
      ensures CoreView() == PacketBufferModel.FindFrames(cfg, old(CoreView()), inserted).0
      ensures frames == FramesOf(PacketBufferModel.FindFrames(cfg, old(CoreView()), inserted).1)
    {
      hide RingHolds, IndexHolds, Walk, Resume;
      FramesEmpty();
      frames := [];
      var p := GetPacket(inserted);
      if p.None? {
        return;
      }
      var can := CanAdvanceFrom(inserted, p.value);
      if !can {
        return;
      }
      frames := WalkFrom(inserted);
    }

    method WalkFrom(inserted: int) returns (frames: seq<AccessUnit>)
      requires Rep()
      modifies this`arrivals, this`count, this`packets, this`times, this`frameStart, this`frameTimestamp,
               this`discarding, this`lastSeq, this`lastTimestamp, buffer
      ensures Rep() && SubTimes(times, old(times))
      ensures CoreView() == Walk(cfg, old(CoreView()), inserted, SLOTS).0
      ensures frames == FramesOf(Walk(cfg, old(CoreView()), inserted, SLOTS).1)
    {
      hide RingHolds, IndexHolds, Enter, Limit, Close;
      frames := [];
      ghost var done: seq<Emission> := [];
      ghost var goal := Walk(cfg, CoreView(), inserted, SLOTS);
      assert [] + goal.1 == goal.1;
      for offset := 0 to SLOTS
        invariant Rep() && SubTimes(times, old(times))
        invariant frames == FramesOf(done)
        invariant goal == (Walk(cfg, CoreView(), inserted + offset, SLOTS - offset).0,
                           done + Walk(cfg, CoreView(), inserted + offset, SLOTS - offset).1)
      {
        var s := inserted + offset;
        var got := GetPacket(s);
        if got.None? {
          assert done + [] == done;
          return;
        }
        ghost var c := CoreView();
        var more := AdvancePacket(s, got.value);
        ghost var e := Advance(cfg, c, s).1;
        ghost var rest := Walk(cfg, CoreView(), s + 1, SLOTS - offset - 1).1;
        assert done + (e + rest) == (done + e) + rest;
        FramesAppend(done, e);
        frames := frames + more;
        done := done + e;
      }
      assert done + [] == done;
    }

    /** The body of the loop in FindFrames for a packet that is present. */
    method AdvancePacket(s: int, p: ParsedPacket) returns (frames: seq<AccessUnit>)
      requires Rep() && s in packets && packets[s] == p
      modifies this`arrivals, this`count, this`packets, this`times, this`frameStart, this`frameTimestamp,
               this`discarding, this`lastSeq, this`lastTimestamp, buffer
      ensures Rep() && SubTimes(times, old(times))
      ensures CoreView() == Advance(cfg, old(CoreView()), s).0
      ensures frames == FramesOf(Advance(cfg, old(CoreView()), s).1)
    {
      hide RingHolds, IndexHolds, Enter, Limit;
      EnterPacket(s, p);
      LimitFrame(s);
      frames := [];
      if p.marker {
        hide Close;
        frames := CloseFrame(s);
      }
    }

    // ---- expiry ----

    method ClearInternal()
      requires buffer.Length == SLOTS
      modifies this`arrivals, this`count, this`packets, this`times, this`frameStart, this`frameTimestamp,
               this`discarding, this`lastSeq, this`lastTimestamp, this`waiting, buffer
      ensures Rep() && CoreView() == EMPTY && times == map[]
    {
      for i := 0 to SLOTS
        invariant forall j :: 0 <= j < i ==> buffer[j].None?
      {
        buffer[i] := None;
      }
      arrivals, count := multiset{}, 0;
      packets, times := map[], map[];
      lastSeq, lastTimestamp, frameStart, frameTimestamp := None, None, None, 0;
      discarding, waiting := false, false;
      RingEmpty(buffer[..]);
    }

    /** The loop of FlushExpired that finds the floor. */
    method FindFloor() returns (floor: Option<int>, timestamp: Option<uint32>)
      requires Rep() && packets != map[]
      ensures (floor, timestamp) == (Abandon(CoreView()).lastSeq, Abandon(CoreView()).lastTimestamp)
    {
      hide RingHolds, IndexHolds;
      floor, timestamp := lastSeq, lastTimestamp;
      var rest := arrivals;
      while |rest| > 0
        invariant rest <= arrivals
        invariant FloorSoFar(CoreView(), arrivals, rest, floor, timestamp)
        decreases |rest|
      {
        var e :| e in rest;
        IndexEntry(arrivals, packets, times, buffer[..], e);
        var p := GetPacket(e.unwrapped).value;
        FloorStep(CoreView(), arrivals, rest, floor, timestamp, e);
        if floor.None? || e.unwrapped >= floor.value {
          floor, timestamp := Some(e.unwrapped), Some(p.timestamp);
        }
        rest := rest - multiset{e};
      }
      FloorFound(CoreView(), arrivals, rest, floor, timestamp, times, buffer[..]);
    }

    method FlushExpired(now: int) returns (discarded: nat)
      requires Valid()
      modifies this`arrivals, this`count, this`packets, this`times, this`frameStart, this`frameTimestamp,
               this`discarding, this`lastSeq, this`lastTimestamp, this`waiting, buffer
      ensures Valid() && View() == Flush(cfg, old(View()), now)
      ensures discarded == FlushCount(cfg, old(View()), now)
    {
      hide RingHolds, IndexHolds, StateInv, Expired, Abandon;
      FlushKeeps(cfg, View(), now);
      if |arrivals| == 0 {
        EmptyIndex(cfg, arrivals, View(), now);
        return 0;
      }
      FrontExists(arrivals);
      var front :| IsFront(arrivals, front);
      FrontDecidesExpiry(cfg, arrivals, View(), now, front);
      if now < front.time || now - front.time < cfg.maxWaitMs {
        return 0;
      }
      discarded := count;
      assert packets != map[] by { SomethingStored(arrivals, packets, times, buffer[..], front); }
      AbandonShape(CoreView());
      var floor, timestamp := FindFloor();
      ClearInternal();
      lastSeq, lastTimestamp, waiting := floor, timestamp, true;
    }

    method Reset()
      requires Valid()
      modifies this, buffer
      ensures Valid() && View() == INITIAL
    {
      ClearInternal();
      latest := None;
      InitialInv(cfg);
    }

    // ---- insertion ----

    method Unwrap(wire: uint16) returns (ext: int)
      modifies this`latest
      ensures ext == SequenceUnwrapper.Unwrap(old(latest), wire)
      ensures latest == Some(Newest(old(latest), ext))
    {
      if latest.None? {
        latest := Some(wire);
        return wire;
      }
      var cycleBase := latest.value / CYCLE * CYCLE;
      ext := cycleBase + wire;
      if ext - latest.value > HALF {
        ext := ext - CYCLE;
      } else if latest.value - ext > HALF {
        ext := ext + CYCLE;
      }
      if ext > latest.value {
        latest := Some(ext);
      }
    }

    /** Looks at the slot of `s` and, when the packet is admitted, evicts an older occupant. */
    method ClaimSlot(s: int) returns (outcome: Outcome)
      requires Rep()
      modifies this`arrivals, this`count, this`packets, this`times, buffer
      ensures outcome == OutcomeOf(old(CoreView()), s)
      ensures Rep() && SubTimes(times, old(times))
      ensures packets == if outcome.Stored? then Vacated(old(packets), s) else old(packets)
      ensures !outcome.Stored? ==> times == old(times)
      ensures outcome.Stored? ==> buffer[Slot(s)].None?
    {
      hide RingHolds, IndexHolds, Slot;
      if lastSeq.Some? && s <= lastSeq.value {
        return Late;
      }
      var i := Slot(s);
      Occupant(buffer[..], packets, times, s);
      if buffer[i].Some? {
        if buffer[i].value.unwrapped == s {
          return Duplicate;
        }
        if buffer[i].value.unwrapped > s {
          return Late;
        }
        ErasePacket(i);
        return Stored(true);
      }
      return Stored(false);
    }

    method Place(s: int, p: ParsedPacket, now: int)
      requires Rep() && buffer[Slot(s)].None?
      modifies this`arrivals, this`count, this`packets, this`times, buffer
      ensures Rep() && packets == old(packets)[s := p] && times == old(times)[s := now]
    {
      hide RingHolds, IndexHolds, Slot;
      ghost var slots := buffer[..];
      Lookup(slots, packets, times, s);
      RingPlace(slots, packets, times, Buffered(s, p, now));
      assert s !in times by { NotTimed(slots, packets, times, s); }
      IndexEmplace(arrivals, times, Arrival(now, s));
      arrivals := arrivals + multiset{Arrival(now, s)};
      buffer[Slot(s)] := Some(Buffered(s, p, now));
      count := count + 1;
      packets, times := packets[s := p], times[s := now];
      assert buffer[..] == slots[Slot(s) := Some(Buffered(s, p, now))];
    }

    /** Everything after the expiry check and the unwrapping. */
    method Admit(s: int, p: ParsedPacket, now: int) returns (outcome: Outcome, frames: seq<AccessUnit>)
      requires Rep()
      modifies this`arrivals, this`count, this`packets, this`times, this`frameStart, this`frameTimestamp,
               this`discarding, this`lastSeq, this`lastTimestamp, this`waiting, buffer
      ensures Rep() && outcome == OutcomeOf(old(CoreView()), s)
      ensures CoreView() == InsertCore(cfg, old(CoreView()), s, p).0
      ensures frames == FramesOf(InsertCore(cfg, old(CoreView()), s, p).1)
      ensures times == Restrict(if outcome.Stored? then old(times)[s := now] else old(times), packets)
    {
      hide RingHolds, IndexHolds, PacketBufferModel.FindFrames, Slot, OutcomeOf;
      FramesEmpty();
      frames := [];
      outcome := ClaimSlot(s);
      if !outcome.Stored? {
        TimesKept(buffer[..], packets, times, times);
        return;
      }
      Place(s, p, now);
      StoreIsPlace(old(packets), s, p);
      frames := FindFrames(s);
      TimesKept(buffer[..], packets, times, old(times)[s := now]);
    }

    method InsertPacket(p: ParsedPacket, now: int) returns (r: InsertResult)
      requires Valid()
      modifies this, buffer
      ensures Valid() && View() == Insert(cfg, old(View()), p, now).0
      ensures r.frames == FramesOf(Insert(cfg, old(View()), p, now).1)
      ensures !Usable(p) ==> r == InsertResult(false, false, false, false, 0, [])
      ensures Usable(p) ==>
                var f := Flush(cfg, old(View()), now);
                var o := OutcomeOf(f.core, SequenceUnwrapper.Unwrap(f.latest, p.seqNo));
                && r.expired == FlushCount(cfg, old(View()), now)
                && r.inserted == o.Stored? && r.collision == (o == Stored(true))
                && r.duplicate == o.Duplicate? && r.late == o.Late?
    {
      hide RingHolds, IndexHolds, StateInv, InsertCore, Flush, OutcomeOf, FlushCount, SequenceUnwrapper.Unwrap;
      InsertKeeps(cfg, View(), p, now);
      FramesEmpty();
      r := InsertResult(false, false, false, false, 0, []);
      if !p.valid || p.malformed {
        return;
      }
      var expired := FlushExpired(now);
      var s := Unwrap(p.seqNo);
      var outcome, frames := Admit(s, p, now);
      r := InsertResult(outcome.Stored?, outcome.Duplicate?, outcome.Late?, outcome == Stored(true), expired, frames);
    }
  }

  // ---- what a sweep does to one slot ----

  lemma Occupied(slots: Slots, m: Packets, times: map<int, int>, i: int)
    requires RingHolds(slots, m, times) && 0 <= i < SLOTS && slots[i].Some?
    ensures var b := slots[i].value;
            && Slot(b.unwrapped) == i && b.unwrapped in m && m[b.unwrapped] == b.packet
            && b.unwrapped in times && times[b.unwrapped] == b.arrival
  {
    assert InPlace(slots, i, m, times);
  }

  lemma Lookup(slots: Slots, m: Packets, times: map<int, int>, s: int)
    requires RingHolds(slots, m, times)
    ensures s in m <==> slots[Slot(s)].Some? && slots[Slot(s)].value.unwrapped == s
    ensures s in m ==> m[s] == slots[Slot(s)].value.packet && s in times && times[s] == slots[Slot(s)].value.arrival
  {
    hide Slot;
    if slots[Slot(s)].Some? {
      assert InPlace(slots, Slot(s), m, times);
    }
  }

  lemma SummariseNone()
    ensures Summarises(START, [])
  {
  }

  lemma WindowPrefix(m: Packets, first: int, s: int, last: int)
    requires first <= s <= last && HasWindow(m, first, last)
    ensures HasWindow(m, first, s - 1)
    ensures Window(m, first, last)[..s - first] == Window(m, first, s - 1)
    ensures Window(m, first, last)[s - first] == m[s]
    ensures Window(m, first, last)[..s - first + 1] == Window(m, first, s - 1) + [m[s]]
  {
  }

  lemma RefuseAt(cfg: Config, m: Packets, scan: Scan, first: int, s: int, last: int)
    requires first <= s <= last && s in m && HasWindow(m, first, s - 1) && first in m
    requires Summarises(scan, Window(m, first, s - 1))
    requires
      || m[s].ssrc != m[first].ssrc || m[s].timestamp != m[first].timestamp
      || (!scan.saw && !FirstSliceFlagged(m[s].units))
      || Accepts(m[s].units, scan.header).None?
    ensures !HasWindow(m, first, last) || !Assembles(cfg, Window(m, first, last))
  {
    if HasWindow(m, first, last) {
      WindowPrefix(m, first, s, last);
      RefusedPrefix(cfg, scan, Window(m, first, last), s - first);
    }
  }

  lemma JoinFailsLater(ps: seq<ParsedPacket>, k: int)
    requires 0 <= k <= |ps| && Join(UnitsOf(ps[..k]), NoFu).None?
    ensures Join(UnitsOf(ps), NoFu).None?
  {
    assert ps == ps[..k] + ps[k..];
    UnitsOfAppend(ps[..k], ps[k..]);
    JoinAppend(UnitsOf(ps[..k]), UnitsOf(ps[k..]), NoFu);
  }

  lemma SummaryFrame(cfg: Config, scan: Scan, ps: seq<ParsedPacket>, first: int, frame: AccessUnit)
    requires ps != [] && Summarises(scan, ps) && Assembles(cfg, ps)
    requires frame == AccessUnit(ps[0].ssrc, ps[0].timestamp, scan.receiveTimeMs, first % CYCLE,
             (first + |ps| - 1) % CYCLE,
                                 true, false, true, scan.key, scan.sps, scan.pps, scan.idr,
                                     Join(UnitsOf(ps), NoFu).value.nalus)
    ensures frame == Frame(cfg, ps, first)
  {
  }

  lemma RemoveTwice(m: Packets, lo: int, hi: int)
    ensures Remove(Remove(m, lo, hi), lo, hi) == Remove(m, lo, hi)
  {
  }

  lemma FramesEmpty()
    ensures FramesOf([]) == []
  {
  }

  lemma FramesAppend(a: seq<Emission>, b: seq<Emission>)
    ensures FramesOf(a + b) == FramesOf(a) + FramesOf(b)
  {
  }

  // ---- taking a slot ----

  function Vacated(m: Packets, s: int): Packets {
    map k | k in m && Slot(k) != Slot(s) :: m[k]
  }

  lemma Occupant(slots: Slots, m: Packets, times: map<int, int>, s: int)
    requires RingHolds(slots, m, times)
    ensures forall k :: k in m && Slot(k) == Slot(s) ==> slots[Slot(s)].Some? && k == slots[Slot(s)].value.unwrapped
    ensures slots[Slot(s)].Some? ==>
              var k := slots[Slot(s)].value.unwrapped;
              k in m && Slot(k) == Slot(s) && Vacated(m, s) == m - {k}
    ensures slots[Slot(s)].None? ==> Vacated(m, s) == m
  {
    hide Slot;
    if slots[Slot(s)].Some? {
      assert InPlace(slots, Slot(s), m, times);
    }
  }

  lemma NotTimed(slots: Slots, m: Packets, times: map<int, int>, s: int)
    requires RingHolds(slots, m, times) && s !in m
    ensures s !in times
  {
    assert s !in times.Keys;
  }

  lemma StoreIsPlace(m: Packets, s: int, p: ParsedPacket)
    ensures Store(m, s, p) == Vacated(m, s)[s := p]
  {
  }

  lemma TimesKept(slots: Slots, m: Packets, times: map<int, int>, was: map<int, int>)
    requires RingHolds(slots, m, times) && SubTimes(times, was)
    ensures times == Restrict(was, m)
  {
    assert times.Keys == m.Keys;
    hide RingHolds;
    forall k | k in m ensures k in times {
      assert k in m.Keys;
    }
    forall k | k in times ensures k in m {
      assert k in times.Keys;
    }
    var r := Restrict(was, m);
    assert forall k :: k in r <==> k in times;
    assert forall k :: k in times ==> r[k] == times[k];
    assert r == times;
  }

  // ---- the floor left by an expiry ----

  /** floor and timestamp after looking at every entry of `index` outside `rest`. */
  ghost predicate FloorSoFar(c: Core, index: Index, rest: Index, floor: Option<int>, timestamp: Option<uint32>) {
    && (c.lastSeq.Some? ==> floor.Some? && c.lastSeq.value <= floor.value)
    && (forall a :: a in index && a !in rest ==> floor.Some? && a.unwrapped <= floor.value)
    && ((floor == c.lastSeq && timestamp == c.lastTimestamp
         && forall a :: a in index && a !in rest ==> floor.Some? && a.unwrapped < floor.value)
        || (floor.Some? && floor.value in c.packets && timestamp == Some(c.packets[floor.value].timestamp)))
  }

  lemma FloorStep(c: Core, index: Index, rest: Index, floor: Option<int>, timestamp: Option<uint32>, e: Arrival)
    requires FloorSoFar(c, index, rest, floor, timestamp) && e in rest && e.unwrapped in c.packets
    ensures if floor.None? || e.unwrapped >= floor.value
            then FloorSoFar(c, index, rest - multiset{e}, Some(e.unwrapped), Some(c.packets[e.unwrapped].timestamp))
            else FloorSoFar(c, index, rest - multiset{e}, floor, timestamp)
  {
    var after := rest - multiset{e};
    assert forall a :: a in index && a !in after ==> a == e || a !in rest;
  }

  lemma IndexEntry(index: Index, m: Packets, times: map<int, int>, slots: Slots, e: Arrival)
    requires RingHolds(slots, m, times) && IndexHolds(index, times) && e in index
    ensures e.unwrapped in m
  {
    assert index[e] == 1;
  }

  lemma SomethingStored(index: Index, m: Packets, times: map<int, int>, slots: Slots, e: Arrival)
    requires RingHolds(slots, m, times) && IndexHolds(index, times) && e in index
    ensures m != map[]
  {
    IndexEntry(index, m, times, slots, e);
  }

  lemma FloorFound(c: Core, index: Index, rest: Index, floor: Option<int>, timestamp: Option<uint32>,
                   times: map<int, int>, slots: Slots)
    requires RingHolds(slots, c.packets, times) && IndexHolds(index, times) && c.packets != map[]
    requires FloorSoFar(c, index, rest, floor, timestamp) && |rest| == 0
    ensures (floor, timestamp) == (Abandon(c).lastSeq, Abandon(c).lastTimestamp)
  {
    assert rest == multiset{};
    var top := Top(c.packets);
    assert top in times.Keys;
    assert index[Arrival(times[top], top)] == 1;
    hide RingHolds, IndexHolds;
  }

  lemma AbandonShape(c: Core)
    requires c.packets != map[]
    ensures Abandon(c) == EMPTY.(lastSeq := Abandon(c).lastSeq, lastTimestamp := Abandon(c).lastTimestamp,
            waiting := true)
  {
  }

  lemma SweepEnds(m: Packets, lo: int, hi: int)
    ensures Swept(m, lo, hi, 0) == m && Swept(m, lo, hi, SLOTS) == Remove(m, lo, hi)
    ensures Remove(m, lo, lo - 1) == m
    ensures hi < lo ==> Remove(m, lo, hi) == m
  {
    hide Slot;
  }

  lemma SweepBeforeEnds(m: Packets, s: int)
    ensures SweptBefore(m, s, 0) == m && SweptBefore(m, s, SLOTS) == RemoveBefore(m, s)
  {
    hide Slot;
  }

  lemma SweepStep(slots: Slots, m: Packets, times: map<int, int>, was: Packets, lo: int, hi: int, i: int)
    requires RingHolds(slots, m, times) && 0 <= i < SLOTS && m == Swept(was, lo, hi, i)
    ensures Swept(was, lo, hi, i + 1) ==
            if slots[i].Some? && lo <= slots[i].value.unwrapped <= hi then m - {slots[i].value.unwrapped} else m
  {
    hide Slot;
    if slots[i].Some? {
      assert InPlace(slots, i, m, times);
    }
  }

  lemma SweepBeforeStep(slots: Slots, m: Packets, times: map<int, int>, was: Packets, s: int, i: int)
    requires RingHolds(slots, m, times) && 0 <= i < SLOTS && m == SweptBefore(was, s, i)
    ensures SweptBefore(was, s, i + 1) ==
            if slots[i].Some? && slots[i].value.unwrapped < s then m - {slots[i].value.unwrapped} else m
  {
    hide Slot;
    if slots[i].Some? {
      assert InPlace(slots, i, m, times);
    }
  }

  lemma RemoveStep(slots: Slots, m: Packets, times: map<int, int>, was: Packets, lo: int, s: int)
    requires RingHolds(slots, m, times) && m == Remove(was, lo, s - 1) && lo <= s
    ensures Remove(was, lo, s) ==
            if slots[Slot(s)].Some? && slots[Slot(s)].value.unwrapped == s then m - {s} else m
  {
    hide Slot;
    var i := Slot(s);
    if slots[i].Some? {
      assert InPlace(slots, i, m, times);
    }
  }
}
