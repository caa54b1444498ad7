/** The RTP payload parser for H.264 (section 5.6, 5.7.1 and 5.8 of RFC 6184). */
module PayloadParser {
  import opened Basics
  import opened H264Payload

  datatype RtpView = RtpView(
    seqNo: uint16, timestamp: uint32, marker: bool, payload: Bytes, ssrc: uint32, receiveTimeMs: int)

  const STAP_A: int := 24
  const FU_A: int := 28

  /** The low five bits of a NAL header. */
  function NalType(header: byte): (t: byte)
    ensures t < 32
  {
    header % 32
  }

  predicate ForbiddenBit(header: byte) {
    header >= 0x80
  }

  // The bits of an FU header, and the F and NRI bits of an FU indicator.

  predicate StartBit(header: byte) {
    header >= 0x80
  }

  predicate EndBit(header: byte) {
    header / 0x40 % 2 == 1
  }

  predicate ReservedBit(header: byte) {
    header / 0x20 % 2 == 1
  }

  function Rebuilt(indicator: byte, nalType: byte): byte
    requires nalType < 32
  {
    indicator / 32 * 32 + nalType
  }

  // ---- what a payload means ----

  function MakeUnit(kind: UnitKind, nalType: byte, data: Bytes, start: bool, end: bool,
                    header: byte, firstSlice: bool): PayloadUnit {
    PayloadUnit(kind, nalType, data, start, end, header, firstSlice,
                nalType == 7, nalType == 8, nalType == 5, IsKeyType(nalType))
  }

  /** A NAL unit that fits into one packet; its second byte's top bit marks a first slice. */
  function WholeUnit(kind: UnitKind, nal: Bytes): PayloadUnit
    requires nal != []
  {
    var t := NalType(nal[0]);
    MakeUnit(kind, t, nal, false, false, 0, IsSliceType(t) && |nal| >= 2 && nal[1] >= 0x80)
  }

  /** Slices need a byte after the header. */
  predicate LongEnough(nal: Bytes)
    requires nal != []
  {
    IsSliceType(NalType(nal[0])) ==> |nal| >= 2
  }

  function SingleUnits(payload: Bytes): Option<seq<PayloadUnit>>
    requires payload != []
  {
    if LongEnough(payload) then Some([WholeUnit(SingleNalu, payload)]) else None
  }

  function Size16(payload: Bytes, offset: nat): nat
    requires offset + 2 <= |payload|
  {
    (payload[offset] as int) * 256 + (payload[offset + 1] as int)
  }

  /** A NAL unit that may be aggregated. */
  predicate Aggregable(nal: Bytes) {
    nal != [] && !ForbiddenBit(nal[0]) && 1 <= NalType(nal[0]) < 24 && LongEnough(nal)
  }

  function StapUnits(payload: Bytes, offset: nat): Option<seq<PayloadUnit>>
    requires offset <= |payload|
    decreases |payload| - offset
  {
    if offset == |payload| then Some([])
    else if offset + 2 > |payload| then None
    else
      var next := offset + 2 + Size16(payload, offset);
      if next > |payload| || !Aggregable(payload[offset + 2..next]) then None
      else
        match StapUnits(payload, next)
        case None => None
        case Some(rest) => Some([WholeUnit(StapANalu, payload[offset + 2..next])] + rest)
  }

  function FuUnits(payload: Bytes): Option<seq<PayloadUnit>>
    requires payload != []
  {
    if |payload| < 3 then None
    else
      var indicator, header := payload[0], payload[1];
      var start, end := StartBit(header), EndBit(header);
      var t := NalType(header);
      if ReservedBit(header) || (start && end) || t == 0 || t >= 24 then None
      else Some([MakeUnit(FuAFragment, t, payload[2..], start, end, Rebuilt(indicator, t),
                          start && IsSliceType(t) && payload[2] >= 0x80)])
  }

  /** The units of a payload, or None when it is malformed. */
  function UnitsIn(payload: Bytes): Option<seq<PayloadUnit>> {
    if payload == [] || ForbiddenBit(payload[0]) then None
    else
      var t := NalType(payload[0]);
      if 1 <= t <= 23 then SingleUnits(payload)
      else if t == STAP_A then
        match StapUnits(payload, 1)
        case None => None
        case Some(units) => if units == [] then None else Some(units)
      else if t == FU_A then FuUnits(payload)
      else None
  }

  predicate HasType(units: seq<PayloadUnit>, nalType: byte) {
    exists i :: 0 <= i < |units| && units[i].nalType == nalType
  }

  function PacketOf(view: RtpView, units: seq<PayloadUnit>): ParsedPacket {
    var fu := |units| == 1 && units[0].kind.FuAFragment?;
    ParsedPacket(true, false, view.ssrc, view.seqNo, view.timestamp, view.receiveTimeMs, view.marker,
                 fu && units[0].fuStart, view.marker && (fu ==> units[0].fuEnd),
                 HasType(units, 5) || HasType(units, 7) || HasType(units, 8),
                 HasType(units, 7), HasType(units, 8), HasType(units, 5), units)
  }

  // ---- the parser ----

  function Blank(view: RtpView): ParsedPacket {
    ParsedPacket(false, false, view.ssrc, view.seqNo, view.timestamp, view.receiveTimeMs, view.marker,
                 false, false, false, false, false, false, [])
  }

  /** UpdateKeyInfo and emplace_back: adds a unit and accumulates the packet's flags. */
  function AddUnit(out: ParsedPacket, u: PayloadUnit): ParsedPacket {
    out.(units := out.units + [u], hasSps := out.hasSps || u.isSps, hasPps := out.hasPps || u.isPps,
         hasIdr := out.hasIdr || u.isIdr, hasKeyNalu := out.hasKeyNalu || u.isKey)
  }

  lemma HasTypeSnoc(units: seq<PayloadUnit>, u: PayloadUnit, t: byte)
    ensures HasType(units + [u], t) <==> HasType(units, t) || u.nalType == t
  {
    var all := units + [u];
    assert all[|units|] == u;
    if HasType(units, t) {
      var i :| 0 <= i < |units| && units[i].nalType == t;
      assert all[i] == units[i];
    }
  }

  /** The fields of `out` that depend on its units are in step with them. */
  predicate Flagged(out: ParsedPacket) {
    && out.hasSps == HasType(out.units, 7) && out.hasPps == HasType(out.units, 8)
    && out.hasIdr == HasType(out.units, 5)
    && out.hasKeyNalu == (HasType(out.units, 5) || HasType(out.units, 7) || HasType(out.units, 8))
  }

  predicate SelfConsistent(u: PayloadUnit) {
    u.isSps == (u.nalType == 7) && u.isPps == (u.nalType == 8) && u.isIdr == (u.nalType == 5) &&
        u.isKey == IsKeyType(u.nalType)
  }

  /** Whatever the parser yields, its units are flagged by their own types. */
  lemma ParsedConsistent(payload: Bytes)
    requires UnitsIn(payload).Some?
    ensures forall i :: 0 <= i < |UnitsIn(payload).value| ==> SelfConsistent(UnitsIn(payload).value[i])
  {
    hide StapUnits, NalType;
    StapConsistent(payload, 1);
  }

  lemma {:induction false} StapConsistent(payload: Bytes, from: nat)
    requires from <= |payload|
    ensures StapUnits(payload, from).Some? ==>
              forall i :: 0 <= i < |StapUnits(payload, from).value| ==>
                  SelfConsistent(StapUnits(payload, from).value[i])
    decreases |payload| - from
  {
    hide Size16;
    if from + 2 <= |payload| {
      var next := from + 2 + Size16(payload, from);
      if from < next <= |payload| {
        StapConsistent(payload, next);
      }
    }
  }

  lemma AddUnitFlags(out: ParsedPacket, u: PayloadUnit)
    requires Flagged(out) && SelfConsistent(u)
    ensures Flagged(AddUnit(out, u))
  {
    HasTypeSnoc(out.units, u, 5);
    HasTypeSnoc(out.units, u, 7);
    HasTypeSnoc(out.units, u, 8);
    hide HasType;
  }

  method ParseSingleNalu(view: RtpView) returns (ok: bool, out: ParsedPacket)
    requires view.payload != []
    ensures ok <==> SingleUnits(view.payload).Some?
    ensures ok ==> out == PacketOf(view, SingleUnits(view.payload).value)
    ensures !ok ==> out.malformed && !out.valid
  {
    out := Blank(view);
    var t := NalType(view.payload[0]);
    if IsSliceType(t) && |view.payload| < 2 {
      return false, out.(malformed := true);
    }
    var first := IsSliceType(t) && view.payload[1] >= 0x80;
    var u := MakeUnit(SingleNalu, t, view.payload, false, false, 0, first);
    AddUnitFlags(out, u);
    out := AddUnit(out, u).(valid := true, beginsFrame := false, endsFrame := view.marker);
    assert out.units == [u];
    ok := true;
  }

  /** One element of the aggregation packet at `offset`: refused, or consumed. */
  lemma StapNext(payload: Bytes, offset: nat)
    requires offset + 2 <= |payload|
    ensures var next := offset + 2 + Size16(payload, offset);
            if next > |payload| || !Aggregable(payload[offset + 2..next]) then StapUnits(payload, offset).None?
            else StapUnits(payload, offset) ==
                 Prepend([WholeUnit(StapANalu, payload[offset + 2..next])], StapUnits(payload, next))
  {
    hide Aggregable, WholeUnit;
  }

  lemma StapEnd(payload: Bytes, offset: nat)
    requires offset <= |payload| < offset + 2
    ensures StapUnits(payload, offset) == if offset == |payload| then Some([]) else None
  {
  }

  lemma FlagsOnly(view: RtpView, out: ParsedPacket)
    requires Flagged(out) && out == Blank(view).(units := out.units, hasSps := out.hasSps, hasPps := out.hasPps,
                                                 hasIdr := out.hasIdr, hasKeyNalu := out.hasKeyNalu)
    requires forall i :: 0 <= i < |out.units| ==> out.units[i].kind.StapANalu?
    ensures out.(valid := true, endsFrame := view.marker) == PacketOf(view, out.units)
  {
    hide HasType;
  }

  /** The body of the STAP-A loop: one size field and the NAL unit after it. */
  method ParseElement(payload: Bytes, from: nat) returns (ok: bool, u: PayloadUnit, next: nat)
    requires from + 2 <= |payload|
    ensures StapUnits(payload, from) == if ok then Prepend([u], StapUnits(payload, Min(next, |payload|))) else None
    ensures ok ==> from < next <= |payload| && u.kind.StapANalu? && SelfConsistent(u)
  {
    hide StapUnits;
    StapNext(payload, from);
    u, next := MakeUnit(Unknown, 0, [], false, false, 0, false), from;
    var size := Size16(payload, from);
    var offset := from + 2;
    if size == 0 || offset + size > |payload| {
      return false, u, next;
    }
    var nal := payload[offset..offset + size];
    assert nal[0] == payload[offset];
    var t := NalType(payload[offset]);
    if ForbiddenBit(payload[offset]) || t == 0 || t >= 24 || (IsSliceType(t) && size < 2) {
      return false, u, next;
    }
    var first := IsSliceType(t) && payload[offset + 1] >= 0x80;
    u := MakeUnit(StapANalu, t, nal, false, false, 0, first);
    assert u == WholeUnit(StapANalu, nal);
    return true, u, offset + size;
  }

  method ParseStapA(view: RtpView) returns (ok: bool, out: ParsedPacket)
    requires view.payload != []
    ensures ok <==> StapUnits(view.payload, 1).Some? && StapUnits(view.payload, 1).value != []
    ensures ok ==> out == PacketOf(view, StapUnits(view.payload, 1).value)
    ensures !ok ==> out.malformed && !out.valid
  {
    hide StapUnits, Flagged, PacketOf;
    out := Blank(view);
    BlankFlagged(view);
    var payload := view.payload;
    var offset := 1;
    PrependNone(StapUnits(payload, 1));
    while offset + 2 <= |payload|
      invariant 1 <= offset <= |payload|
      invariant out == Blank(view).(units := out.units, hasSps := out.hasSps, hasPps := out.hasPps,
                                    hasIdr := out.hasIdr, hasKeyNalu := out.hasKeyNalu)
      invariant Flagged(out) && forall i :: 0 <= i < |out.units| ==> out.units[i].kind.StapANalu?
      invariant StapUnits(payload, 1) == Prepend(out.units, StapUnits(payload, offset))
      decreases |payload| - offset
    {
      var fine, u, next := ParseElement(payload, offset);
      if !fine {
        return false, out.(malformed := true);
      }
      AddUnitFlags(out, u);
      PrependOne(out.units, u, StapUnits(payload, next));
      out := AddUnit(out, u);
      offset := next;
    }
    StapEnd(payload, offset);
    if offset != |payload| || out.units == [] {
      return false, out.(malformed := true);
    }
    assert out.units + [] == out.units;
    FlagsOnly(view, out);
    out := out.(valid := true, endsFrame := view.marker);
    ok := true;
  }

  lemma BlankFlagged(view: RtpView)
    ensures Flagged(Blank(view))
  {
  }

  lemma PrependNone(rest: Option<seq<PayloadUnit>>)
    ensures Prepend([], rest) == rest
  {
    if rest.Some? {
      assert [] + rest.value == rest.value;
    }
  }

  function Prepend(units: seq<PayloadUnit>, rest: Option<seq<PayloadUnit>>): Option<seq<PayloadUnit>> {
    if rest.None? then None else Some(units + rest.value)
  }

  lemma PrependOne(units: seq<PayloadUnit>, u: PayloadUnit, rest: Option<seq<PayloadUnit>>)
    ensures rest.Some? ==> units + ([u] + rest.value) == (units + [u]) + rest.value
  {
    if rest.Some? {
      assert units + ([u] + rest.value) == (units + [u]) + rest.value;
    }
  }

  method ParseFuA(view: RtpView) returns (ok: bool, out: ParsedPacket)
    requires view.payload != []
    ensures ok <==> FuUnits(view.payload).Some?
    ensures ok ==> out == PacketOf(view, FuUnits(view.payload).value)
    ensures !ok ==> out.malformed && !out.valid
  {
    hide StartBit, EndBit, ReservedBit, Rebuilt, HasType;
    out := Blank(view);
    BlankFlagged(view);
    var payload := view.payload;
    if |payload| < 3 {
      return false, out.(malformed := true);
    }
    var indicator, header := payload[0], payload[1];
    var start, end := StartBit(header), EndBit(header);
    var t := NalType(header);
    if ReservedBit(header) || (start && end) || t == 0 || t >= 24 {
      return false, out.(malformed := true);
    }
    var first := start && IsSliceType(t) && payload[2] >= 0x80;
    var u := MakeUnit(FuAFragment, t, payload[2..], start, end, Rebuilt(indicator, t), first);
    AddUnitFlags(out, u);
    out := AddUnit(out, u).(valid := true, beginsFrame := start, endsFrame := end && view.marker);
    assert out.units == [u];
    ok := true;
  }

  method Parse(view: RtpView) returns (ok: bool, out: ParsedPacket)
    ensures ok <==> UnitsIn(view.payload).Some?
    ensures ok ==> out == PacketOf(view, UnitsIn(view.payload).value)
    ensures !ok ==> out.malformed && !out.valid
  {
    out := Blank(view);
    if view.payload == [] || ForbiddenBit(view.payload[0]) {
      return false, out.(malformed := true);
    }
    var t := NalType(view.payload[0]);
    if 1 <= t <= 23 {
      ok, out := ParseSingleNalu(view);
    } else if t == STAP_A {
      ok, out := ParseStapA(view);
    } else if t == FU_A {
      ok, out := ParseFuA(view);
    } else {
      return false, out.(malformed := true);
    }
  }
}
