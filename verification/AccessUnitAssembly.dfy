/**
 Turning the payload units of consecutive packets back into NAL units. `Join` is
 the one-pass meaning of a unit list; the packet buffer runs a validation pass
 (`Accepts`) first and moves the bytes out (`Append`) only afterwards.
 */
module AccessUnitAssembly {
  import opened Basics
  import opened H264Payload

  /** The NAL unit being rebuilt from FU-A fragments: its header, then the data so far. */
  datatype Fu = NoFu | OpenFu(header: byte, data: Bytes)

  datatype Joined = Joined(nalus: seq<Bytes>, fu: Fu)

  predicate IsWhole(u: PayloadUnit) {
    u.kind.SingleNalu? || u.kind.StapANalu?
  }

  /** Adds one unit: the NAL units it completes and the fragment left open. */
  function JoinUnit(u: PayloadUnit, fu: Fu): Option<Joined> {
    if u.data == [] then None
    else if IsWhole(u) then
      if fu.OpenFu? then None else Some(Joined([u.data], NoFu))
    else if !u.kind.FuAFragment? || u.fuStart == fu.OpenFu? then None
    else
      var open := if u.fuStart then OpenFu(u.nalHeader, []) else fu;
      if open.header != u.nalHeader then None
      else if u.fuEnd then Some(Joined([[open.header] + open.data + u.data], NoFu))
      else Some(Joined([], OpenFu(open.header, open.data + u.data)))
  }

  function Join(units: seq<PayloadUnit>, fu: Fu): Option<Joined> {
    if units == [] then Some(Joined([], fu))
    else
      match JoinUnit(units[0], fu)
      case None => None
      case Some(head) =>
        match Join(units[1..], head.fu)
        case None => None
        case Some(rest) => Some(Joined(head.nalus + rest.nalus, rest.fu))
  }

  lemma {:induction false} JoinAppend(a: seq<PayloadUnit>, b: seq<PayloadUnit>, fu: Fu)
    ensures Join(a + b, fu) ==
            match Join(a, fu)
            case None => None
            case Some(left) =>
              match Join(b, left.fu)
              case None => None
              case Some(right) => Some(Joined(left.nalus + right.nalus, right.fu))
  {
    if a == [] {
      assert a + b == b;
      if Join(b, fu).Some? {
        assert [] + Join(b, fu).value.nalus == Join(b, fu).value.nalus;
      }
    } else {
      assert (a + b)[1..] == a[1..] + b;
      match JoinUnit(a[0], fu)
      case None =>
      case Some(head) =>
        JoinAppend(a[1..], b, head.fu);
        if Join(a[1..], head.fu).Some? && Join(b, Join(a[1..], head.fu).value.fu).Some? {
          var left := Join(a[1..], head.fu).value;
          var right := Join(b, left.fu).value;
          assert head.nalus + (left.nalus + right.nalus) == (head.nalus + left.nalus) + right.nalus;
        }
    }
  }

  // ---- the validation pass: only the header of the open fragment is tracked ----

  function FuHeader(fu: Fu): Option<byte> {
    if fu.OpenFu? then Some(fu.header) else None
  }

  /** The open header after `units`, or None when a unit is refused. */
  function Accepts(units: seq<PayloadUnit>, header: Option<byte>): Option<Option<byte>> {
    if units == [] then Some(header)
    else
      var u := units[0];
      if IsWhole(u) then
        if header.Some? || u.data == [] then None else Accepts(units[1..], header)
      else if !u.kind.FuAFragment? || u.data == [] || u.fuStart == header.Some? then None
      else
        var open := if u.fuStart then Some(u.nalHeader) else header;
        if open != Some(u.nalHeader) then None
        else Accepts(units[1..], if u.fuEnd then None else open)
  }

  /** Validation accepts exactly the unit lists that join, and predicts the open fragment. */
  lemma {:induction false} AcceptsIffJoins(units: seq<PayloadUnit>, fu: Fu)
    ensures Accepts(units, FuHeader(fu)).Some? <==> Join(units, fu).Some?
    ensures Join(units, fu).Some? ==> Accepts(units, FuHeader(fu)).value == FuHeader(Join(units, fu).value.fu)
  {
    if units != [] {
      match JoinUnit(units[0], fu)
      case None =>
      case Some(head) => AcceptsIffJoins(units[1..], head.fu);
    }
  }

  lemma {:induction false} AcceptsAppend(a: seq<PayloadUnit>, b: seq<PayloadUnit>, header: Option<byte>)
    ensures Accepts(a + b, header) ==
            if Accepts(a, header).None? then None else Accepts(b, Accepts(a, header).value)
  {
    if a == [] {
      assert a + b == b;
    } else {
      assert (a + b)[1..] == a[1..] + b;
      var u := a[0];
      var open := if IsWhole(u) then header else if u.fuEnd then None else Some(u.nalHeader);
      AcceptsAppend(a[1..], b, open);
    }
  }

  /** ValidatePacketUnits: scans one packet's units, updating the open header in place. */
  method Validate(units: seq<PayloadUnit>, header: Option<byte>) returns (ok: bool, open: Option<byte>)
    ensures Accepts(units, header) == if ok then Some(open) else None
  {
    open := header;
    for i := 0 to |units|
      invariant Accepts(units, header) == Accepts(units[i..], open)
    {
      var u := units[i];
      assert units[i..][1..] == units[i + 1..];
      if u.kind.SingleNalu? || u.kind.StapANalu? {
        if open.Some? || u.data == [] {
          return false, open;
        }
        continue;
      }
      if !u.kind.FuAFragment? || u.data == [] {
        return false, open;
      }
      if u.fuStart {
        if open.Some? {
          return false, open;
        }
        open := Some(u.nalHeader);
      } else if open.None? {
        return false, open;
      }
      if open.value != u.nalHeader {
        return false, open;
      }
      if u.fuEnd {
        open := None;
      }
    }
    ok := true;
  }

  /** The bytes held in fu_nalu stand for the open fragment. */
  function FuOf(active: bool, bytes: Bytes): Fu {
    if active && bytes != [] then OpenFu(bytes[0], bytes[1..]) else NoFu
  }

  /** AppendPacketUnits: moves one packet's bytes to the end of `nalus`. */
  method Append(units: seq<PayloadUnit>, active: bool, bytes: Bytes, nalus: seq<Bytes>)
      returns (ok: bool, active': bool, bytes': Bytes, nalus': seq<Bytes>)
    requires active ==> bytes != []
    ensures active' ==> bytes' != []
    ensures ok <==> Join(units, FuOf(active, bytes)).Some?
    ensures ok ==> var j := Join(units, FuOf(active, bytes)).value;
                   nalus' == nalus + j.nalus && FuOf(active', bytes') == j.fu
  {
    active', bytes', nalus' := active, bytes, nalus;
    ghost var fu := FuOf(active, bytes);
    ghost var done: seq<Bytes> := [];
    assert units[0..] == units;
    JoinedStep([], [], Join(units, fu));
    for i := 0 to |units|
      invariant active' ==> bytes' != []
      invariant nalus' == nalus + done
      invariant Join(units, fu) ==
                match Join(units[i..], FuOf(active', bytes'))
                case None => None
                case Some(j) => Some(Joined(done + j.nalus, j.fu))
    {
      var u := units[i];
      assert units[i..][1..] == units[i + 1..];
      ghost var before := FuOf(active', bytes');
      ghost var added: seq<Bytes> := [];
      if u.kind.SingleNalu? || u.kind.StapANalu? {
        if active' || u.data == [] {
          return false, active', bytes', nalus';
        }
        nalus' := nalus' + [u.data];
        added := [u.data];
      } else {
        if !u.kind.FuAFragment? || u.data == [] {
          return false, active', bytes', nalus';
        }
        if u.fuStart {
          if active' {
            return false, active', bytes', nalus';
          }
          active', bytes' := true, [u.nalHeader];
        } else if !active' {
          return false, active', bytes', nalus';
        }
        if bytes'[0] != u.nalHeader {
          return false, active', bytes', nalus';
        }
        ghost var open := if u.fuStart then OpenFu(u.nalHeader, []) else before;
        assert bytes' == [open.header] + open.data;
        bytes' := bytes' + u.data;
        assert bytes'[1..] == open.data + u.data;
        assert bytes' == [open.header] + open.data + u.data;
        if u.fuEnd {
          nalus' := nalus' + [bytes'];
          added := [bytes'];
          active', bytes' := false, [];
        }
      }
      assert JoinUnit(u, before) == Some(Joined(added, FuOf(active', bytes')));
      JoinedStep(done, added, Join(units[i + 1..], FuOf(active', bytes')));
      done := done + added;
    }
    assert units[|units|..] == [];
    assert done + [] == done;
    ok := true;
  }

  lemma JoinedStep(a: seq<Bytes>, b: seq<Bytes>, rest: Option<Joined>)
    ensures rest.Some? ==> a + (b + rest.value.nalus) == (a + b) + rest.value.nalus
    ensures rest.Some? ==> [] + rest.value.nalus == rest.value.nalus
  {
    if rest.Some? {
      assert a + (b + rest.value.nalus) == (a + b) + rest.value.nalus;
      assert [] + rest.value.nalus == rest.value.nalus;
    }
  }
}
