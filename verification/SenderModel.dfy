/**
 The sender's rewriting of sequence numbers and timestamps, on values. Whether a packet
 that passes the sender's own checks goes out (header extensions, transport) is an input.
 */
module SenderModel {
  import opened Basics

  function Wire32(x: int): uint32 {
    x % 0x1_0000_0000
  }

  datatype Sender = Sender(
    started: bool, hasSent: bool, rebasePending: bool, hasFloor: bool,
    baseInSeq: uint16, baseOutSeq: uint16, lastOutSeq: uint16,
    baseInTime: uint32, baseOutTime: uint32, lastOutTime: uint32,
    floorSeq: uint16, floorTime: int, latestTime: int)

  const NEW_SENDER := Sender(false, false, false, false, 0, 0, 0, 0, 0, 0, 0, 0, 0)

  /** The source timestamp, unwrapped against the latest media once there is a floor. */
  function SourceTime(s: Sender, time: uint32): int {
    if s.hasFloor && !s.rebasePending then
      var delta := Wire32(time - Wire32(s.latestTime));
      s.latestTime + if delta < 0x8000_0000 then delta else delta - 0x1_0000_0000
    else time
  }

  predicate BelowFloor(s: Sender, seqNo: uint16, time: uint32) {
    var t := SourceTime(s, time);
    s.hasFloor && !s.rebasePending && (t < s.floorTime || (t == s.floorTime && Wire(seqNo - s.floorSeq) >= 0x8000))
  }

  function OutTime(s: Sender, time: uint32): uint32 {
    Wire32(s.baseOutTime + Wire32(time - s.baseInTime))
  }

  /** A rebase must not take the outgoing clock back. */
  predicate TurnsBack(s: Sender, time: uint32) {
    s.rebasePending && s.started && s.hasSent && Wire32(OutTime(s, time) - s.lastOutTime) >= 0x8000_0000
  }

  predicate Passes(s: Sender, seqNo: uint16, time: uint32) {
    !BelowFloor(s, seqNo, time) && !TurnsBack(s, time)
  }

  function NextOut(s: Sender, first: uint16): uint16 {
    if s.hasSent then Wire(s.lastOutSeq + 1) else first
  }

  function Rebase(s: Sender, seqNo: uint16, time: uint32): Sender {
    if s.rebasePending then
      s.(baseInSeq := seqNo, baseOutSeq := NextOut(s, seqNo), floorSeq := seqNo, floorTime := time,
         latestTime := SourceTime(s, time), hasFloor := true)
    else s
  }

  /** What rewriting the first packet fixes. */
  function Start(s: Sender, seqNo: uint16, time: uint32): Sender {
    var t := if !s.started && !s.rebasePending then s.(baseInSeq := seqNo, baseOutSeq := NextOut(s, seqNo)) else s;
    if t.started then t else t.(baseInTime := time, baseOutTime := time, started := true)
  }

  function Prepare(s: Sender, seqNo: uint16, time: uint32): Sender {
    Start(Rebase(s, seqNo, time), seqNo, time)
  }

  function OutSeq(s: Sender, seqNo: uint16): uint16 {
    Wire(s.baseOutSeq + Wire(seqNo - s.baseInSeq))
  }

  /** After the packet went out. */
  function Commit(s: Sender, outSeq: uint16, outTime: uint32, sourceTime: int): Sender {
    var newer := !s.hasSent || Wire(outSeq - s.lastOutSeq) < 0x8000;
    s.(lastOutSeq := if newer then outSeq else s.lastOutSeq,
       lastOutTime := if newer then outTime else s.lastOutTime,
       hasSent := true, rebasePending := false,
       latestTime := if s.hasFloor then Max(s.latestTime, sourceTime) else s.latestTime)
  }

  datatype Packet = Packet(seqNo: uint16, time: uint32)

  /** InputRtpPacket; `accepted` says that the rewritten packet went out. */
  function Input(s: Sender, seqNo: uint16, time: uint32, accepted: bool): (Sender, Option<Packet>) {
    if !Passes(s, seqNo, time) then (s, None)
    else
      var p := Prepare(s, seqNo, time);
      var out := Packet(OutSeq(p, seqNo), OutTime(p, time));
      if !accepted then (p, None) else (Commit(p, out.seqNo, out.time, SourceTime(s, time)), Some(out))
  }

  function Discontinue(s: Sender): Sender {
    s.(rebasePending := true)
  }

  function Pad(s: Sender, accepted: bool): (Sender, Option<Packet>) {
    if !accepted then (s, None)
    else
      var out := NextOut(s, 0);
      (s.(baseOutSeq := if s.started then Wire(s.baseOutSeq + 1) else s.baseOutSeq, lastOutSeq := out, hasSent := true),
       Some(Packet(out, s.lastOutTime)))
  }
}
