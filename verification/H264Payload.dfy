/** The records that travel from the RTP payload parser to the packet buffer. */
module H264Payload {
  import opened Basics

  datatype UnitKind = Unknown | SingleNalu | StapANalu | FuAFragment

  datatype PayloadUnit = PayloadUnit(
    kind: UnitKind,
    nalType: byte,
    data: Bytes,
    fuStart: bool,
    fuEnd: bool,
    nalHeader: byte,     // reconstructed_nal_header
    firstSlice: bool,
    isSps: bool,
    isPps: bool,
    isIdr: bool,
    isKey: bool)

  datatype ParsedPacket = ParsedPacket(
    valid: bool,
    malformed: bool,
    ssrc: uint32,
    seqNo: uint16,
    timestamp: uint32,
    receiveTimeMs: int,
    marker: bool,
    beginsFrame: bool,
    endsFrame: bool,
    hasKeyNalu: bool,
    hasSps: bool,
    hasPps: bool,
    hasIdr: bool,
    units: seq<PayloadUnit>)

  datatype AccessUnit = AccessUnit(
    ssrc: uint32,
    timestamp: uint32,
    receiveTimeMs: int,
    firstSeq: uint16,
    lastSeq: uint16,
    complete: bool,
    broken: bool,
    marker: bool,
    keyframe: bool,
    hasSps: bool,
    hasPps: bool,
    hasIdr: bool,
    nalus: seq<Bytes>)

  /** Slice NAL units of a coded picture: non-IDR (1) and IDR (5). */
  predicate IsSliceType(nalType: byte) {
    nalType == 1 || nalType == 5
  }

  predicate IsKeyType(nalType: byte) {
    nalType == 5 || nalType == 7 || nalType == 8
  }

  function UnitsOf(packets: seq<ParsedPacket>): seq<PayloadUnit> {
    if packets == [] then [] else packets[0].units + UnitsOf(packets[1..])
  }

  lemma {:induction false} UnitsOfAppend(a: seq<ParsedPacket>, b: seq<ParsedPacket>)
    ensures UnitsOf(a + b) == UnitsOf(a) + UnitsOf(b)
  {
    if a == [] {
      assert a + b == b;
    } else {
      UnitsOfAppend(a[1..], b);
      assert (a + b)[1..] == a[1..] + b;
      assert (a + b)[0] == a[0];
      var h, t, r := a[0].units, UnitsOf(a[1..]), UnitsOf(b);
      assert UnitsOf(a + b) == h + UnitsOf(a[1..] + b);
      assert h + (t + r) == (h + t) + r;
    }
  }

  lemma UnitsOfSnoc(a: seq<ParsedPacket>, p: ParsedPacket)
    ensures UnitsOf(a + [p]) == UnitsOf(a) + p.units
  {
    UnitsOfAppend(a, [p]);
    assert UnitsOf([p]) == p.units + UnitsOf([p][1..]);
  }
}
