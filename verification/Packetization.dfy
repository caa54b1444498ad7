/**
 The sending side of RFC 6184 as a reference: every way of cutting a list of NAL
 units into single NAL unit packets, STAP-A and FU-A. Parsing and assembling the
 result gives the list back.
 */
module Packetization {
  import opened Basics
  import opened H264Payload
  import opened AccessUnitAssembly
  import opened PacketBufferModel
  import opened FrameScan
  import opened PayloadParser

  datatype Piece =
    | Single(nal: Bytes)
    | Aggregate(header: byte, nals: seq<Bytes>)
    | Fragmented(nal: Bytes, cuts: seq<Bytes>)

  /** A NAL unit that RTP can carry: types 1 to 23, no forbidden bit, slices with a body. */
  predicate NalOk(nal: Bytes) {
    Aggregable(nal)
  }

  predicate PieceOk(p: Piece) {
    match p
    case Single(nal) => NalOk(nal)
    case Aggregate(header, nals) =>
      && !ForbiddenBit(header) && NalType(header) == STAP_A && nals != []
      && forall i :: 0 <= i < |nals| ==> NalOk(nals[i]) && |nals[i]| < 0x1_0000
    case Fragmented(nal, cuts) =>
      && NalOk(nal) && |cuts| >= 2 && Flatten(cuts) == nal[1..]
      && forall i :: 0 <= i < |cuts| ==> cuts[i] != []
  }

  function Nals(p: Piece): seq<Bytes> {
    match p
    case Single(nal) => [nal]
    case Aggregate(_, nals) => nals
    case Fragmented(nal, _) => [nal]
  }

  // ---- the payloads ----

  /** Each NAL unit preceded by its size in two bytes. */
  function Sized(nals: seq<Bytes>): Bytes
    requires forall i :: 0 <= i < |nals| ==> |nals[i]| < 0x1_0000
  {
    if nals == [] then [] else [|nals[0]| / 256, |nals[0]| % 256] + nals[0] + Sized(nals[1..])
  }

  function FuPayload(h: byte, cut: Bytes, start: bool, end: bool): Bytes {
    [h / 32 * 32 + FU_A, (if start then 0x80 else 0) + (if end then 0x40 else 0) + h % 32] + cut
  }

  function FuPayloads(h: byte, cuts: seq<Bytes>, start: bool): seq<Bytes> {
    if cuts == [] then []
    else [FuPayload(h, cuts[0], start, |cuts| == 1)] + FuPayloads(h, cuts[1..], false)
  }

  function Payloads(p: Piece): seq<Bytes>
    requires PieceOk(p)
  {
    match p
    case Single(nal) => [nal]
    case Aggregate(header, nals) => [[header] + Sized(nals)]
    case Fragmented(nal, cuts) => FuPayloads(nal[0], cuts, true)
  }

  // ---- the units the parser is expected to find ----

  function StapOf(nals: seq<Bytes>): seq<PayloadUnit>
    requires forall i :: 0 <= i < |nals| ==> NalOk(nals[i])
  {
    if nals == [] then []
    else
      assert NalOk(nals[0]);
      [WholeUnit(StapANalu, nals[0])] + StapOf(nals[1..])
  }

  function FuUnit(h: byte, cut: Bytes, start: bool, end: bool): PayloadUnit
    requires cut != []
  {
    MakeUnit(FuAFragment, NalType(h), cut, start, end, h, start && IsSliceType(NalType(h)) && cut[0] >= 0x80)
  }

  function FuOfCuts(h: byte, cuts: seq<Bytes>, start: bool): seq<PayloadUnit>
    requires forall i :: 0 <= i < |cuts| ==> cuts[i] != []
  {
    if cuts == [] then [] else [FuUnit(h, cuts[0], start, |cuts| == 1)] + FuOfCuts(h, cuts[1..], false)
  }

  function Units(p: Piece): seq<PayloadUnit>
    requires PieceOk(p)
  {
    match p
    case Single(nal) => [WholeUnit(SingleNalu, nal)]
    case Aggregate(_, nals) => StapOf(nals)
    case Fragmented(nal, cuts) => FuOfCuts(nal[0], cuts, true)
  }

  // ---- parsing a list of payloads ----

  predicate AllParse(payloads: seq<Bytes>) {
    forall i :: 0 <= i < |payloads| ==> UnitsIn(payloads[i]).Some?
  }

  function ParsedUnits(payloads: seq<Bytes>): seq<PayloadUnit>
    requires AllParse(payloads)
  {
    if payloads == [] then [] else UnitsIn(payloads[0]).value + ParsedUnits(payloads[1..])
  }

  lemma {:induction false} ParsedUnitsAppend(a: seq<Bytes>, b: seq<Bytes>)
    requires AllParse(a) && AllParse(b)
    ensures AllParse(a + b) && ParsedUnits(a + b) == ParsedUnits(a) + ParsedUnits(b)
  {
    hide UnitsIn;
    if a == [] {
      assert a + b == b;
    } else {
      assert (a + b)[1..] == a[1..] + b && (a + b)[0] == a[0];
      ParsedUnitsAppend(a[1..], b);
      var h, t, r := UnitsIn(a[0]).value, ParsedUnits(a[1..]), ParsedUnits(b);
      assert ParsedUnits(a + b) == h + ParsedUnits(a[1..] + b);
      assert h + (t + r) == (h + t) + r;
    }
  }

  lemma {:induction false} StapParses(pre: Bytes, nals: seq<Bytes>)
    requires forall i :: 0 <= i < |nals| ==> NalOk(nals[i]) && |nals[i]| < 0x1_0000
    ensures StapUnits(pre + Sized(nals), |pre|) == Some(StapOf(nals))
    decreases |nals|
  {
    hide Aggregable, WholeUnit, StapUnits;
    var payload := pre + Sized(nals);
    if nals == [] {
      StapEnd(payload, |pre|);
    } else {
      var nal, rest := nals[0], Sized(nals[1..]);
      var pre' := pre + ([|nal| / 256, |nal| % 256] + nal);
      assert payload == pre' + rest;
      StapParses(pre', nals[1..]);
      SizedHead(pre, nal, rest);
      StapNext(payload, |pre|);
      assert NalOk(nal);
    }
  }

  lemma SizedHead(pre: Bytes, nal: Bytes, rest: Bytes)
    requires |nal| < 0x1_0000
    ensures var payload := pre + ([|nal| / 256, |nal| % 256] + nal) + rest;
            && Size16(payload, |pre|) == |nal|
            && payload[|pre| + 2..|pre| + 2 + |nal|] == nal
  {
    var payload := pre + ([|nal| / 256, |nal| % 256] + nal) + rest;
    assert payload[|pre|] == |nal| / 256 && payload[|pre| + 1] == |nal| % 256;
  }

  lemma FuHeaderBits(h: byte, start: bool, end: bool)
    requires !ForbiddenBit(h) && 1 <= NalType(h) < 24 && !(start && end)
    ensures var header: byte := (if start then 0x80 else 0) + (if end then 0x40 else 0) + h % 32;
            && StartBit(header) == start && EndBit(header) == end && !ReservedBit(header) &&
                NalType(header) == NalType(h)
    ensures var indicator: byte := h / 32 * 32 + FU_A;
            && !ForbiddenBit(indicator) && NalType(indicator) == FU_A && Rebuilt(indicator, NalType(h)) == h
  {
  }

  lemma FuParses(h: byte, cut: Bytes, start: bool, end: bool)
    requires !ForbiddenBit(h) && 1 <= NalType(h) < 24 && !(start && end) && cut != []
    ensures UnitsIn(FuPayload(h, cut, start, end)) == Some([FuUnit(h, cut, start, end)])
  {
    FuHeaderBits(h, start, end);
    var payload := FuPayload(h, cut, start, end);
    assert payload[2..] == cut && payload[2] == cut[0];
    hide StartBit, EndBit, ReservedBit, Rebuilt, ForbiddenBit, NalType;
  }

  lemma {:induction false} FuListParses(h: byte, cuts: seq<Bytes>, start: bool)
    requires !ForbiddenBit(h) && 1 <= NalType(h) < 24 && (start ==> |cuts| >= 2)
    requires forall i :: 0 <= i < |cuts| ==> cuts[i] != []
    ensures AllParse(FuPayloads(h, cuts, start))
    ensures ParsedUnits(FuPayloads(h, cuts, start)) == FuOfCuts(h, cuts, start)
    decreases |cuts|
  {
    if cuts != [] {
      FuParses(h, cuts[0], start, |cuts| == 1);
      FuListParses(h, cuts[1..], false);
      hide UnitsIn, FuPayload, FuUnit;
      var head := FuPayload(h, cuts[0], start, |cuts| == 1);
      var rest := FuPayloads(h, cuts[1..], false);
      assert ([head] + rest)[1..] == rest;
    }
  }

  lemma PieceParses(p: Piece)
    requires PieceOk(p)
    ensures AllParse(Payloads(p)) && ParsedUnits(Payloads(p)) == Units(p)
  {
    match p
    case Single(nal) =>
      assert UnitsIn(nal) == Some([WholeUnit(SingleNalu, nal)]);
      assert [nal][1..] == [];
    case Aggregate(header, nals) =>
      StapParses([header], nals);
      assert StapOf(nals) != [];
      var payload: Bytes := [header] + Sized(nals);
      assert payload[0] == header;
      hide StapUnits;
      assert UnitsIn(payload) == Some(StapOf(nals));
      hide UnitsIn;
      assert [payload][1..] == [];
    case Fragmented(nal, cuts) =>
      FuListParses(nal[0], cuts, true);
  }

  // ---- the units join to the NAL units ----

  lemma {:induction false} StapJoins(nals: seq<Bytes>)
    requires forall i :: 0 <= i < |nals| ==> NalOk(nals[i])
    ensures Join(StapOf(nals), NoFu) == Some(Joined(nals, NoFu))
  {
    if nals != [] {
      StapJoins(nals[1..]);
      var us := StapOf(nals);
      assert us[1..] == StapOf(nals[1..]);
      assert JoinUnit(us[0], NoFu) == Some(Joined([nals[0]], NoFu));
      assert [nals[0]] + nals[1..] == nals;
    }
  }

  lemma {:induction false} FuJoins(h: byte, cuts: seq<Bytes>, acc: Bytes)
    requires cuts != [] && forall i :: 0 <= i < |cuts| ==> cuts[i] != []
    ensures Join(FuOfCuts(h, cuts, false), OpenFu(h, acc)) == Some(Joined([[h] + acc + Flatten(cuts)], NoFu))
    decreases |cuts|
  {
    var us := FuOfCuts(h, cuts, false);
    assert us[1..] == FuOfCuts(h, cuts[1..], false);
    if |cuts| == 1 {
      assert cuts[1..] == [];
      assert Flatten(cuts) == cuts[0] + [];
      assert cuts[0] + [] == cuts[0];
      var whole := [h] + acc + cuts[0];
      assert JoinUnit(us[0], OpenFu(h, acc)) == Some(Joined([whole], NoFu));
      assert us[1..] == [] && Join([], NoFu) == Some(Joined([], NoFu));
      assert [whole] + [] == [whole];
    } else {
      FuJoins(h, cuts[1..], acc + cuts[0]);
      assert JoinUnit(us[0], OpenFu(h, acc)) == Some(Joined([], OpenFu(h, acc + cuts[0])));
      var whole := [h] + acc + Flatten(cuts);
      assert [h] + (acc + cuts[0]) + Flatten(cuts[1..]) == whole;
      assert [] + [whole] == [whole];
    }
  }

  lemma FuWholeJoins(nal: Bytes, cuts: seq<Bytes>)
    requires PieceOk(Fragmented(nal, cuts))
    ensures Join(FuOfCuts(nal[0], cuts, true), NoFu) == Some(Joined([nal], NoFu))
  {
    var h := nal[0];
    var us := FuOfCuts(h, cuts, true);
    assert us[1..] == FuOfCuts(h, cuts[1..], false);
    FuJoins(h, cuts[1..], cuts[0]);
    assert [] + cuts[0] == cuts[0];
    assert JoinUnit(us[0], NoFu) == Some(Joined([], OpenFu(h, cuts[0])));
    assert [h] + cuts[0] + Flatten(cuts[1..]) == [h] + (cuts[0] + Flatten(cuts[1..]));
    assert [h] + nal[1..] == nal;
    assert [] + [nal] == [nal];
  }

  lemma PieceJoins(p: Piece)
    requires PieceOk(p)
    ensures Join(Units(p), NoFu) == Some(Joined(Nals(p), NoFu))
  {
    match p
    case Single(nal) =>
      var u := WholeUnit(SingleNalu, nal);
      assert [u][1..] == [];
      assert Join([], NoFu) == Some(Joined([], NoFu));
      assert [nal] + [] == [nal];
    case Aggregate(_, nals) => StapJoins(nals);
    case Fragmented(nal, cuts) => FuWholeJoins(nal, cuts);
  }

  // ---- NAL types and the first slice survive ----

  predicate HasNal(nals: seq<Bytes>, t: byte) {
    nals != [] && ((nals[0] != [] && NalType(nals[0][0]) == t) || HasNal(nals[1..], t))
  }

  predicate SliceNal(nal: Bytes) {
    nal != [] && IsSliceType(NalType(nal[0]))
  }

  predicate HasSlice(nals: seq<Bytes>) {
    nals != [] && (SliceNal(nals[0]) || HasSlice(nals[1..]))
  }

  /** The first slice of the list, if any, is the first slice of a picture. */
  predicate FirstNalFlagged(nals: seq<Bytes>) {
    nals != [] ==>
      if SliceNal(nals[0]) then |nals[0]| >= 2 && nals[0][1] >= 0x80 else FirstNalFlagged(nals[1..])
  }

  /** The units say of types and slices what the NAL units say. */
  ghost predicate Faithful(units: seq<PayloadUnit>, nals: seq<Bytes>) {
    && (forall t: byte :: HasType(units, t) <==> HasNal(nals, t))
    && (SawSlice(units) <==> HasSlice(nals))
    && (FirstSliceFlagged(units) <==> FirstNalFlagged(nals))
  }

  lemma HasTypeAppend(a: seq<PayloadUnit>, b: seq<PayloadUnit>, t: byte)
    ensures HasType(a + b, t) <==> HasType(a, t) || HasType(b, t)
  {
    if HasType(a, t) {
      var i :| 0 <= i < |a| && a[i].nalType == t;
      assert (a + b)[i] == a[i];
    }
    if HasType(b, t) {
      var i :| 0 <= i < |b| && b[i].nalType == t;
      assert (a + b)[|a| + i] == b[i];
    }
  }

  lemma {:induction false} NalsAppend(a: seq<Bytes>, b: seq<Bytes>)
    ensures forall t: byte :: HasNal(a + b, t) <==> HasNal(a, t) || HasNal(b, t)
    ensures HasSlice(a + b) <==> HasSlice(a) || HasSlice(b)
    ensures FirstNalFlagged(a + b) <==> FirstNalFlagged(a) && (HasSlice(a) || FirstNalFlagged(b))
  {
    if a == [] {
      assert a + b == b;
    } else {
      assert (a + b)[1..] == a[1..] + b && (a + b)[0] == a[0];
      NalsAppend(a[1..], b);
    }
  }

  lemma FaithfulAppend(a: seq<PayloadUnit>, m: seq<Bytes>, b: seq<PayloadUnit>, n: seq<Bytes>)
    requires Faithful(a, m) && Faithful(b, n)
    ensures Faithful(a + b, m + n)
  {
    NalsAppend(m, n);
    FirstSliceAppend(a, b);
    hide HasType, HasNal, SawSlice, HasSlice, FirstSliceFlagged, FirstNalFlagged;
    forall t: byte ensures HasType(a + b, t) <==> HasNal(m + n, t) {
      HasTypeAppend(a, b, t);
    }
  }

  lemma FaithfulOne(u: PayloadUnit, nal: Bytes)
    requires nal != [] && u.nalType == NalType(nal[0])
    requires SliceNal(nal) ==> |nal| >= 2 && (u.firstSlice <==> nal[1] >= 0x80)
    ensures Faithful([u], [nal])
  {
    assert [u][1..] == [] && [nal][1..] == [];
    assert [u][0] == u && [nal][0] == nal;
    assert !HasSlice([]) && !SawSlice([]);
    forall t: byte ensures HasType([u], t) <==> HasNal([nal], t) {
      assert !HasNal([], t);
    }
  }

  lemma {:induction false} StapFaithful(nals: seq<Bytes>)
    requires forall i :: 0 <= i < |nals| ==> NalOk(nals[i])
    ensures Faithful(StapOf(nals), nals)
  {
    if nals != [] {
      assert NalOk(nals[0]);
      FaithfulOne(WholeUnit(StapANalu, nals[0]), nals[0]);
      StapFaithful(nals[1..]);
      FaithfulAppend([WholeUnit(StapANalu, nals[0])], [nals[0]], StapOf(nals[1..]), nals[1..]);
      assert [nals[0]] + nals[1..] == nals;
    }
  }

  lemma {:induction false} FuTypes(h: byte, cuts: seq<Bytes>, start: bool)
    requires forall i :: 0 <= i < |cuts| ==> cuts[i] != []
    ensures |FuOfCuts(h, cuts, start)| == |cuts|
    ensures forall i :: 0 <= i < |cuts| ==> FuOfCuts(h, cuts, start)[i].nalType == NalType(h)
    decreases |cuts|
  {
    if cuts != [] {
      FuTypes(h, cuts[1..], false);
    }
  }

  lemma {:induction false} NoSliceTypes(units: seq<PayloadUnit>)
    requires forall i :: 0 <= i < |units| ==> !IsSliceType(units[i].nalType)
    ensures !SawSlice(units) && FirstSliceFlagged(units)
  {
    if units != [] {
      NoSliceTypes(units[1..]);
    }
  }

  lemma FuFaithful(nal: Bytes, cuts: seq<Bytes>)
    requires PieceOk(Fragmented(nal, cuts))
    ensures Faithful(FuOfCuts(nal[0], cuts, true), [nal])
  {
    var us := FuOfCuts(nal[0], cuts, true);
    FuTypes(nal[0], cuts, true);
    assert us[0] == FuUnit(nal[0], cuts[0], true, false);
    assert Flatten(cuts)[0] == cuts[0][0];
    assert nal[1] == nal[1..][0] == cuts[0][0];
    FaithfulOne(us[0], nal);
    hide FuOfCuts;
    forall t: byte ensures HasType(us, t) <==> HasNal([nal], t) {
      assert HasType([us[0]], t) <==> us[0].nalType == t;
    }
    if !SliceNal(nal) {
      NoSliceTypes(us);
      NoSliceTypes([us[0]]);
    } else {
      assert [us[0]][0] == us[0];
    }
  }

  lemma PieceFaithful(p: Piece)
    requires PieceOk(p)
    ensures Faithful(Units(p), Nals(p))
  {
    match p
    case Single(nal) => FaithfulOne(WholeUnit(SingleNalu, nal), nal);
    case Aggregate(_, nals) => StapFaithful(nals);
    case Fragmented(nal, cuts) => FuFaithful(nal, cuts);
  }

  // ---- whole access units ----

  predicate PiecesOk(ps: seq<Piece>) {
    forall i :: 0 <= i < |ps| ==> PieceOk(ps[i])
  }

  function AllPayloads(ps: seq<Piece>): seq<Bytes>
    requires PiecesOk(ps)
  {
    if ps == [] then [] else Payloads(ps[0]) + AllPayloads(ps[1..])
  }

  function AllNals(ps: seq<Piece>): seq<Bytes> {
    if ps == [] then [] else Nals(ps[0]) + AllNals(ps[1..])
  }

  /** The payloads of any packetization parse, and their units join to the original list. */
  lemma {:induction false} PacketizationRoundTrip(ps: seq<Piece>)
    requires PiecesOk(ps)
    ensures AllParse(AllPayloads(ps))
    ensures Join(ParsedUnits(AllPayloads(ps)), NoFu) == Some(Joined(AllNals(ps), NoFu))
    ensures Faithful(ParsedUnits(AllPayloads(ps)), AllNals(ps))
  {
    hide UnitsIn, Payloads, Nals, Units, PieceOk, Faithful;
    if ps == [] {
      FaithfulEmpty();
    } else {
      PacketizationRoundTrip(ps[1..]);
      PieceParses(ps[0]);
      PieceJoins(ps[0]);
      PieceFaithful(ps[0]);
      var a, b := Payloads(ps[0]), AllPayloads(ps[1..]);
      ParsedUnitsAppend(a, b);
      JoinAppend(Units(ps[0]), ParsedUnits(b), NoFu);
      FaithfulAppend(Units(ps[0]), Nals(ps[0]), ParsedUnits(b), AllNals(ps[1..]));
    }
  }

  lemma FaithfulEmpty()
    ensures Faithful([], [])
  {
  }

  /** Packets carrying the payloads of `pieces` in order. */
  predicate Carries(packets: seq<ParsedPacket>, payloads: seq<Bytes>) {
    |packets| == |payloads| &&
    forall i :: 0 <= i < |packets| ==>
      UnitsIn(payloads[i]).Some? &&
      packets[i].units == UnitsIn(payloads[i]).value &&
      packets[i].hasSps == HasType(packets[i].units, 7) &&
      packets[i].hasPps == HasType(packets[i].units, 8) &&
      packets[i].hasIdr == HasType(packets[i].units, 5)
  }

  /** Whatever the parser returns for a view of a payload carries that payload. */
  lemma ParserCarries(view: RtpView)
    requires UnitsIn(view.payload).Some?
    ensures Carries([PacketOf(view, UnitsIn(view.payload).value)], [view.payload])
  {
  }

  lemma {:induction false} CarriedUnits(packets: seq<ParsedPacket>, payloads: seq<Bytes>)
    requires Carries(packets, payloads)
    ensures AllParse(payloads) && UnitsOf(packets) == ParsedUnits(payloads)
  {
    hide UnitsIn, HasType;
    if packets != [] {
      CarriedUnits(packets[1..], payloads[1..]);
    }
  }

  lemma {:induction false} CarriedFlags(packets: seq<ParsedPacket>, payloads: seq<Bytes>)
    requires Carries(packets, payloads)
    ensures Any(packets, HAS_SPS) <==> HasType(UnitsOf(packets), 7)
    ensures Any(packets, HAS_PPS) <==> HasType(UnitsOf(packets), 8)
    ensures Any(packets, HAS_IDR) <==> HasType(UnitsOf(packets), 5)
  {
    hide UnitsIn, HasType;
    if packets != [] {
      var init, last := packets[..|packets| - 1], packets[|packets| - 1];
      assert packets == init + [last];
      CarriedFlags(init, payloads[..|packets| - 1]);
      UnitsOfSnoc(init, last);
      AnySnoc(init, last, HAS_SPS);
      AnySnoc(init, last, HAS_PPS);
      AnySnoc(init, last, HAS_IDR);
      HasTypeAppend(UnitsOf(init), last.units, 7);
      HasTypeAppend(UnitsOf(init), last.units, 8);
      HasTypeAppend(UnitsOf(init), last.units, 5);
    } else {
      HasTypeNone();
    }
  }

  lemma HasTypeNone()
    ensures !HasType([], 7) && !HasType([], 8) && !HasType([], 5)
  {
  }

  lemma NotEmpty(pieces: seq<Piece>)
    requires PiecesOk(pieces) && pieces != []
    ensures AllNals(pieces) != [] && AllPayloads(pieces) != []
  {
    assert PieceOk(pieces[0]);
    assert Nals(pieces[0]) != [] && Payloads(pieces[0]) != [];
  }

  /**
   Packets that carry any packetization of a NAL list form a complete access unit with
   exactly that list, precisely when the list's first slice starts a picture and, where
   parameter sets are demanded, an IDR picture comes with both of them.
   */
  lemma AccessUnitRoundTrip(cfg: Config, pieces: seq<Piece>, packets: seq<ParsedPacket>, first: int)
    requires PiecesOk(pieces) && pieces != [] && Carries(packets, AllPayloads(pieces)) && SameStream(packets)
    ensures var nals := AllNals(pieces);
            Assembles(cfg, packets) <==>
              && FirstNalFlagged(nals)
              && (HasNal(nals, 5) && !cfg.idrOnly ==> HasNal(nals, 7) && HasNal(nals, 8))
    ensures Assembles(cfg, packets) ==> Frame(cfg, packets, first).nalus == AllNals(pieces)
  {
    hide AllNals, AllPayloads, UnitsIn, HasType, Any, PieceOk;
    NotEmpty(pieces);
    PacketizationRoundTrip(pieces);
    CarriedUnits(packets, AllPayloads(pieces));
    CarriedFlags(packets, AllPayloads(pieces));
  }
}
