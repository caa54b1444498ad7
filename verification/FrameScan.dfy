/** The running state of the validation pass over the packets of one frame. */
module FrameScan {
  import opened Basics
  import opened H264Payload
  import opened AccessUnitAssembly
  import opened PacketBufferModel

  predicate SawSlice(units: seq<PayloadUnit>) {
    units != [] && (IsSliceType(units[0].nalType) || SawSlice(units[1..]))
  }

  lemma {:induction false} FirstSliceAppend(a: seq<PayloadUnit>, b: seq<PayloadUnit>)
    ensures SawSlice(a + b) <==> SawSlice(a) || SawSlice(b)
    ensures FirstSliceFlagged(a + b) <==> FirstSliceFlagged(a) && (SawSlice(a) || FirstSliceFlagged(b))
  {
    if a == [] {
      assert a + b == b;
    } else {
      assert (a + b)[1..] == a[1..] + b && (a + b)[0] == a[0];
      FirstSliceAppend(a[1..], b);
    }
  }

  /** The loop over one packet's units that looks for the first slice of the picture. */
  method CheckFirstSlice(units: seq<PayloadUnit>, saw: bool) returns (ok: bool, saw': bool)
    ensures ok <==> saw || FirstSliceFlagged(units)
    ensures ok ==> (saw' <==> saw || SawSlice(units))
  {
    saw' := saw;
    for i := 0 to |units|
      invariant saw || FirstSliceFlagged(units) <==> saw' || FirstSliceFlagged(units[i..])
      invariant saw || SawSlice(units) <==> saw' || SawSlice(units[i..])
    {
      assert units[i..][0] == units[i] && units[i..][1..] == units[i + 1..];
      if !saw' && IsSliceType(units[i].nalType) {
        if !units[i].firstSlice {
          return false, saw';
        }
        saw' := true;
      }
    }
    ok := true;
  }

  datatype Scan = Scan(
    receiveTimeMs: int, key: bool, sps: bool, pps: bool, idr: bool,
    saw: bool, header: Option<byte>)

  const START := Scan(0, false, false, false, false, false, None)

  /** `scan` summarises the packets `ps`, none of which has been refused. */
  predicate Summarises(scan: Scan, ps: seq<ParsedPacket>) {
    && SameStream(ps)
    && scan.receiveTimeMs == NewestReceiveTime(ps)
    && scan.key == Any(ps, HAS_KEY) && scan.sps == Any(ps, HAS_SPS)
    && scan.pps == Any(ps, HAS_PPS) && scan.idr == Any(ps, HAS_IDR)
    && scan.saw == SawSlice(UnitsOf(ps)) && FirstSliceFlagged(UnitsOf(ps))
    && Accepts(UnitsOf(ps), None) == Some(scan.header)
  }

  lemma AnySnoc(ps: seq<ParsedPacket>, p: ParsedPacket, f: ParsedPacket -> bool)
    ensures Any(ps + [p], f) <==> Any(ps, f) || f(p)
  {
    var all := ps + [p];
    assert all[|ps|] == p;
    if Any(ps, f) {
      var i :| 0 <= i < |ps| && f(ps[i]);
      assert all[i] == ps[i];
    }
  }

  lemma SummariseSnoc(scan: Scan, ps: seq<ParsedPacket>, p: ParsedPacket, saw: bool, header: Option<byte>)
    requires Summarises(scan, ps)
    requires ps != [] ==> p.ssrc == ps[0].ssrc && p.timestamp == ps[0].timestamp
    requires scan.saw || FirstSliceFlagged(p.units)
    requires saw <==> scan.saw || SawSlice(p.units)
    requires Accepts(p.units, scan.header) == Some(header)
    ensures Summarises(Scan(Max(scan.receiveTimeMs, p.receiveTimeMs), scan.key || p.hasKeyNalu, scan.sps || p.hasSps,
                            scan.pps || p.hasPps, scan.idr || p.hasIdr, saw, header), ps + [p])
  {
    assert (ps + [p])[..|ps|] == ps;
    UnitsOfSnoc(ps, p);
    FirstSliceAppend(UnitsOf(ps), p.units);
    AcceptsAppend(UnitsOf(ps), p.units, None);
    AnySnoc(ps, p, HAS_KEY);
    AnySnoc(ps, p, HAS_SPS);
    AnySnoc(ps, p, HAS_PPS);
    AnySnoc(ps, p, HAS_IDR);
    hide Any, FirstSliceFlagged, SawSlice, Accepts, UnitsOf;
  }

  /** A packet refused by the scan spoils every frame that contains it at that place. */
  lemma RefusedPrefix(cfg: Config, scan: Scan, ps: seq<ParsedPacket>, k: int)
    requires 0 <= k < |ps| && Summarises(scan, ps[..k])
    requires
      || ps[k].ssrc != ps[0].ssrc || ps[k].timestamp != ps[0].timestamp
      || (!scan.saw && !FirstSliceFlagged(ps[k].units))
      || Accepts(ps[k].units, scan.header).None?
    ensures !Assembles(cfg, ps)
  {
    var a, b, c := UnitsOf(ps[..k]), ps[k].units, UnitsOf(ps[k + 1..]);
    assert ps == (ps[..k] + [ps[k]]) + ps[k + 1..];
    UnitsOfAppend(ps[..k] + [ps[k]], ps[k + 1..]);
    UnitsOfSnoc(ps[..k], ps[k]);
    assert UnitsOf(ps) == (a + b) + c;
    FirstSliceAppend(a, b);
    FirstSliceAppend(a + b, c);
    AcceptsAppend(a, b, None);
    AcceptsAppend(a + b, c, None);
    AcceptsIffJoins(UnitsOf(ps), NoFu);
    hide Any, FirstSliceFlagged, SawSlice, Accepts, UnitsOf, Join, NewestReceiveTime;
  }

  /** After the whole frame has been scanned, the summary decides completeness. */
  lemma SummaryDecides(cfg: Config, scan: Scan, ps: seq<ParsedPacket>)
    requires ps != [] && Summarises(scan, ps)
    ensures Join(UnitsOf(ps), NoFu).Some?
    ensures Assembles(cfg, ps) <==>
            && scan.header.None? && !(scan.idr && !cfg.idrOnly && (!scan.sps || !scan.pps))
            && Join(UnitsOf(ps), NoFu).value.nalus != []
    ensures scan.header.None? <==> Join(UnitsOf(ps), NoFu).value.fu.NoFu?
  {
    AcceptsIffJoins(UnitsOf(ps), NoFu);
  }
}
