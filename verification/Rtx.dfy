/** Retransmission packets: section 4 of RFC 4588. */
module Rtx {
  import opened Basics
  import opened RtpPackets
  import opened ExtensionEditing

  function HighWord(x: uint32): uint16 { x / 0x1_0000 }

  function LowWord(x: uint32): uint16 { x % 0x1_0000 }

  function JoinWords(high: uint16, low: uint16): uint32 { high * 0x1_0000 + low }

  lemma WordsOfJoin(high: uint16, low: uint16)
    ensures HighWord(JoinWords(high, low)) == high && LowWord(JoinWords(high, low)) == low
  {
  }

  function Four(x: uint32): (s: Bytes)
    ensures |s| == 4
  {
    Two(HighWord(x)) + Two(LowWord(x))
  }

  function Join32(s: Bytes): uint32
    requires |s| == 4
  {
    JoinWords(Join16(s[0], s[1]), Join16(s[2], s[3]))
  }

  function PayloadType(b: byte): nat {
    if b >= 128 then b - 128 else b
  }

  /** The marker bit with another payload type. */
  function WithType(b: byte, pt: nat): byte
    requires pt <= 127
  {
    if b >= 128 then 128 + pt else pt
  }

  function Ssrc(p: Bytes): uint32
    requires |p| >= FIXED
  {
    Join32(p[8..12])
  }

  /** Where the payload begins and ends, without padding; None when the packet is malformed. */
  function Bounds(p: Bytes): (r: Option<(nat, nat)>)
    ensures r.Some? ==> FIXED <= r.value.0 <= r.value.1 <= |p|
  {
    if |p| < FIXED || Version(p[0]) != 2 || !WellBounded(p) || !PaddingFits(p) then None
    else Some((ExtensionEnd(p), |p| - if HasPadding(p[0]) then p[|p| - 1] else 0))
  }

  /** A header with its padding flag cleared and another type, sequence number and source. */
  function Retagged(h: Bytes, pt: nat, number: Bytes, ssrc: uint32): (r: Bytes)
    requires |h| >= FIXED && pt <= 127 && |number| == 2
    ensures |r| == |h|
  {
    [ClearPadding(h[0]), WithType(h[1], pt)] + number + h[4..8] + Four(ssrc) + h[12..]
  }

  function Encapsulated(p: Bytes, pt: nat, ssrc: uint32, number: uint16): Option<Bytes> {
    if pt > 127 || ssrc == 0 || Bounds(p).None? || Bounds(p).value.0 == Bounds(p).value.1 then None
    else
      var (begin, end) := Bounds(p).value;
      Some(Retagged(p[..begin], pt, Two(number), ssrc) + p[2..4] + p[begin..end])
  }

  function Decapsulated(p: Bytes, pt: nat, ssrc: uint32): Option<Bytes> {
    if pt > 127 || ssrc == 0 || Bounds(p).None? || Bounds(p).value.1 - Bounds(p).value.0 <= 2 then None
    else
      var (begin, end) := Bounds(p).value;
      Some(Retagged(p[..begin], pt, p[begin..begin + 2], ssrc) + p[begin + 2..end])
  }

  /** The packet without its padding. */
  function Unpadded(p: Bytes): Bytes
    requires Bounds(p).Some?
  {
    [ClearPadding(p[0])] + p[1..Bounds(p).value.1]
  }

  // ---- the round trip ----

  lemma Join32Four(s: Bytes)
    requires |s| == 4
    ensures Four(Join32(s)) == s
  {
    hide Join16, High, Low, JoinWords, HighWord, LowWord;
    PartsJoin16(s[0], s[1]);
    PartsJoin16(s[2], s[3]);
    WordsOfJoin(Join16(s[0], s[1]), Join16(s[2], s[3]));
    assert s == [s[0], s[1]] + [s[2], s[3]];
  }

  lemma RetaggedParts(h: Bytes, pt: nat, number: Bytes, ssrc: uint32)
    requires |h| >= FIXED && pt <= 127 && |number| == 2
    ensures var r := Retagged(h, pt, number, ssrc);
            && r[0] == ClearPadding(h[0]) && r[1] == WithType(h[1], pt) && r[2..4] == number
            && r[4..8] == h[4..8] && r[8..12] == Four(ssrc) && r[12..] == h[12..]
  {
    hide ClearPadding, WithType, Four;
  }

  lemma BoundsParts(p: Bytes)
    requires Bounds(p).Some?
    ensures |p| >= FIXED && Version(p[0]) == 2 && WellBounded(p) && PaddingFits(p) &&
            Bounds(p).value.0 == ExtensionEnd(p)
    ensures !HasPadding(p[0]) ==> Bounds(p).value.1 == |p|
  {
  }

  /** A packet whose header agrees with p's on the bits that bound it. */
  lemma SameExtensionEnd(p: Bytes, q: Bytes)
    requires WellBounded(p) && |q| >= ExtensionEnd(p) && ExtensionEnd(p) >= FIXED
    requires CsrcCount(q[0]) == CsrcCount(p[0]) && HasExtension(q[0]) == HasExtension(p[0])
    requires forall i :: FIXED <= i < ExtensionEnd(p) ==> q[i] == p[i]
    ensures WellBounded(q) && ExtensionEnd(q) == ExtensionEnd(p)
  {
    hide CsrcCount, HasExtension, Join16;
    if HasExtension(p[0]) {
      assert q[Base(p) + 2] == p[Base(p) + 2] && q[Base(p) + 3] == p[Base(p) + 3];
    }
  }

  /** An encapsulated packet has the same header length and no padding. */
  lemma EncapsulatedBounds(p: Bytes, pt: nat, ssrc: uint32, number: uint16)
    requires Encapsulated(p, pt, ssrc, number).Some?
    ensures var q := Encapsulated(p, pt, ssrc, number).value;
            var (begin, end) := Bounds(p).value;
            && Bounds(q) == Some((begin, |q|)) && |q| == end + 2
            && q[..begin] == Retagged(p[..begin], pt, Two(number), ssrc)
            && q[begin..begin + 2] == p[2..4] && q[begin + 2..] == p[begin..end]
  {
    BoundsParts(p);
    var (begin, end) := Bounds(p).value;
    var q := Encapsulated(p, pt, ssrc, number).value;
    var r := Retagged(p[..begin], pt, Two(number), ssrc);
    RetaggedParts(p[..begin], pt, Two(number), ssrc);
    ClearPaddingBits(p[0]);
    hide Bounds, Encapsulated, Retagged, CsrcCount, HasExtension, HasPadding, Version, ClearPadding, WithType, Four,
         WellBounded, PaddingFits, ExtensionEnd;
    assert q[..begin] == r && q[begin..begin + 2] == p[2..4] && q[begin + 2..] == p[begin..end];
    forall i | FIXED <= i < begin ensures q[i] == p[i] {
      assert q[i] == r[i] && r[i] == r[12..][i - 12] && p[i] == p[..begin][12..][i - 12];
    }
    assert q[0] == r[0];
    SameExtensionEnd(p, q);
    UnpaddedBounds(q, begin);
  }

  lemma UnpaddedBounds(q: Bytes, begin: nat)
    requires |q| >= FIXED && Version(q[0]) == 2 && WellBounded(q) && !HasPadding(q[0]) && ExtensionEnd(q) == begin
    ensures Bounds(q) == Some((begin, |q|))
  {
  }

  /** Retagging with the original type, number and source restores the header. */
  lemma RetagBack(h: Bytes, pt: nat, number: uint16, ssrc: uint32)
    requires |h| >= FIXED && pt <= 127
    ensures Retagged(Retagged(h, pt, Two(number), ssrc), PayloadType(h[1]), h[2..4], Ssrc(h)) ==
            [ClearPadding(h[0])] + h[1..]
  {
    var r := Retagged(h, pt, Two(number), ssrc);
    RetaggedParts(h, pt, Two(number), ssrc);
    ClearPaddingBits(h[0]);
    Join32Four(h[8..12]);
    assert WithType(WithType(h[1], pt), PayloadType(h[1])) == h[1];
    hide ClearPadding, WithType, PayloadType, Four, Join32;
    var b := Retagged(r, PayloadType(h[1]), h[2..4], Ssrc(h));
    RetaggedParts(r, PayloadType(h[1]), h[2..4], Ssrc(h));
    hide Retagged;
    SixParts(b);
    SixParts(h);
    Regrouped(ClearPadding(h[0]), h);
  }

  lemma SixParts(h: Bytes)
    requires |h| >= FIXED
    ensures h == [h[0], h[1]] + h[2..4] + h[4..8] + h[8..12] + h[12..]
  {
  }

  lemma Regrouped(c: byte, h: Bytes)
    requires |h| >= FIXED
    ensures [c, h[1]] + h[2..4] + h[4..8] + h[8..12] + h[12..] == [c] + h[1..]
  {
  }

  /**
   Encapsulating and decapsulating with the original payload type and source returns the
   original packet without its padding: contributing sources, extension, marker,
   timestamp, sequence number and payload are intact.
   */
  lemma RoundTrip(p: Bytes, pt: nat, ssrc: uint32, number: uint16)
    requires Encapsulated(p, pt, ssrc, number).Some? && |p| >= FIXED && Ssrc(p) != 0
    ensures Bounds(p).Some?
    ensures Decapsulated(Encapsulated(p, pt, ssrc, number).value, PayloadType(p[1]), Ssrc(p)) == Some(Unpadded(p))
  {
    var q := Encapsulated(p, pt, ssrc, number).value;
    var (begin, end) := Bounds(p).value;
    EncapsulatedBounds(p, pt, ssrc, number);
    var h := p[..begin];
    RetagBack(h, pt, number, ssrc);
    PrefixSlice(p, begin, 2, 4);
    PrefixSlice(p, begin, 8, 12);
    hide Bounds, Encapsulated, Retagged, ClearPadding, Join32, Decapsulated, PayloadType;
    TypeFits(p[1]);
    DecapsulatedIs(q, begin, PayloadType(p[1]), Ssrc(p));
    Rejoined(ClearPadding(p[0]), p, begin, end);
  }

  lemma TypeFits(b: byte)
    ensures PayloadType(b) <= 127
  {
  }

  lemma DecapsulatedIs(q: Bytes, begin: nat, pt: nat, ssrc: uint32)
    requires Bounds(q) == Some((begin, |q|)) && |q| - begin > 2 && pt <= 127 && ssrc != 0
    ensures Decapsulated(q, pt, ssrc) == Some(Retagged(q[..begin], pt, q[begin..begin + 2], ssrc) + q[begin + 2..])
  {
    hide Bounds, Retagged;
    assert q[begin + 2..|q|] == q[begin + 2..];
  }

  lemma PrefixSlice(p: Bytes, n: nat, i: nat, j: nat)
    requires i <= j <= n <= |p|
    ensures p[..n][i..j] == p[i..j]
  {
  }

  lemma Rejoined(c: byte, p: Bytes, begin: nat, end: nat)
    requires 1 <= begin <= end <= |p|
    ensures [c] + p[..begin][1..] + p[begin..end] == [c] + p[1..end]
  {
  }

  /** Without padding the round trip is the identity. */
  lemma RoundTripIdentity(p: Bytes, pt: nat, ssrc: uint32, number: uint16)
    requires Encapsulated(p, pt, ssrc, number).Some? && |p| >= FIXED && Ssrc(p) != 0 && !HasPadding(p[0])
    ensures Decapsulated(Encapsulated(p, pt, ssrc, number).value, PayloadType(p[1]), Ssrc(p)) == Some(p)
  {
    RoundTrip(p, pt, ssrc, number);
    assert Unpadded(p) == p by {
      BoundsParts(p);
      assert ClearPadding(p[0]) == p[0];
      assert p == [p[0]] + p[1..];
    }
  }

  /** Exactly which packets can be encapsulated. */
  lemma EncapsulatesIff(p: Bytes, pt: nat, ssrc: uint32, number: uint16)
    ensures Encapsulated(p, pt, ssrc, number).Some? <==>
            pt <= 127 && ssrc != 0 && |p| >= FIXED && Version(p[0]) == 2 && WellBounded(p) && PaddingFits(p)
            && |Tail(p)| > if HasPadding(p[0]) then p[|p| - 1] else 0
  {
    hide Version, CsrcCount, HasExtension, HasPadding, Words, Base;
  }

  // ---- in place ----

  method SetSource(packet: ByteVector, ssrc: uint32)
    requires |packet.data| >= FIXED
    modifies packet
    ensures packet.data == old(packet.data[..8]) + Four(ssrc) + old(packet.data[12..])
  {
    hide Four;
    ghost var p := packet.data;
    var i := 0;
    while i < 4
      invariant i <= 4 && packet.data == p[..8] + Four(ssrc)[..i] + p[8 + i..]
    {
      SetNext(p, Four(ssrc), i);
      packet.Set(8 + i, Four(ssrc)[i]);
      i := i + 1;
    }
    assert Four(ssrc)[..4] == Four(ssrc);
  }

  lemma SetNext(p: Bytes, f: Bytes, i: nat)
    requires |p| >= FIXED && |f| == 4 && i < 4
    ensures (p[..8] + f[..i] + p[8 + i..])[8 + i := f[i]] == p[..8] + f[..i + 1] + p[8 + i + 1..]
  {
  }

  method PayloadBounds(p: Bytes) returns (r: Option<(nat, nat)>)
    ensures r == Bounds(p)
  {
    hide Version, CsrcCount, HasExtension, HasPadding, Join16;
    if |p| < FIXED || Version(p[0]) != 2 {
      return None;
    }
    var begin := FIXED + 4 * CsrcCount(p[0]);
    if begin > |p| {
      return None;
    }
    if HasExtension(p[0]) {
      if |p| - begin < 4 {
        return None;
      }
      begin := begin + 4 + 4 * Join16(p[begin + 2], p[begin + 3]);
      if begin > |p| {
        return None;
      }
    }
    var end := |p|;
    if HasPadding(p[0]) {
      var padding := p[|p| - 1];
      if padding == 0 || padding > |p| - begin {
        return None;
      }
      end := end - padding;
    }
    r := Some((begin, end));
  }

  /** Clears the padding flag and writes type, number and source. */
  method Retag(packet: ByteVector, pt: nat, number: Bytes, ssrc: uint32, ghost begin: nat)
    requires FIXED <= begin <= |packet.data| && pt <= 127 && |number| == 2
    modifies packet
    ensures packet.data == Retagged(old(packet.data[..begin]), pt, number, ssrc) + old(packet.data[begin..])
  {
    hide ClearPadding, WithType, Four;
    ghost var p := packet.data;
    packet.Set(0, ClearPadding(packet.data[0]));
    packet.Set(1, WithType(packet.data[1], pt));
    packet.Set(2, number[0]);
    packet.Set(3, number[1]);
    ghost var m := packet.data;
    SetSource(packet, ssrc);
    RetaggedInPlace(p, ClearPadding(p[0]), WithType(p[1], pt), number, Four(ssrc), begin);
  }

  lemma RetaggedInPlace(p: Bytes, b0: byte, b1: byte, number: Bytes, f: Bytes, begin: nat)
    requires FIXED <= begin <= |p| && |number| == 2 && |f| == 4
    ensures var m := p[0 := b0][1 := b1][2 := number[0]][3 := number[1]];
            var h := p[..begin];
            m[..8] + f + m[12..] == [b0, b1] + number + h[4..8] + f + h[12..] + p[begin..]
  {
    var m := p[0 := b0][1 := b1][2 := number[0]][3 := number[1]];
    assert m[..8] == [b0, b1] + number + p[4..8];
    assert m[12..] == p[12..begin] + p[begin..];
    var h := p[..begin];
    assert h[4..8] == p[4..8] && h[12..] == p[12..begin];
  }

  method EncapsulateRtx(packet: ByteVector, pt: nat, ssrc: uint32, number: uint16) returns (ok: bool)
    modifies packet
    ensures ok == Encapsulated(old(packet.data), pt, ssrc, number).Some?
    ensures packet.data == if ok then Encapsulated(old(packet.data), pt, ssrc, number).value else old(packet.data)
  {
    hide Bounds, Retagged;
    ghost var p := packet.data;
    var bounds := PayloadBounds(packet.data);
    if pt > 127 || ssrc == 0 || bounds.None? || bounds.value.0 == bounds.value.1 {
      return false;
    }
    var (begin, end) := bounds.value;
    var osn := packet.data[2..4];
    packet.Resize(end);
    packet.Insert(begin, osn);
    InsertedNumber(p, begin, end);
    Retag(packet, pt, Two(number), ssrc, begin);
    ok := true;
  }

  lemma InsertedNumber(p: Bytes, begin: nat, end: nat)
    requires FIXED <= begin <= end <= |p|
    ensures var q := p[..end][..begin] + p[2..4] + p[..end][begin..];
            q[..begin] == p[..begin] && q[begin..] == p[2..4] + p[begin..end]
  {
  }

  method DecapsulateRtx(packet: ByteVector, pt: nat, ssrc: uint32) returns (ok: bool)
    modifies packet
    ensures ok == Decapsulated(old(packet.data), pt, ssrc).Some?
    ensures packet.data == if ok then Decapsulated(old(packet.data), pt, ssrc).value else old(packet.data)
  {
    hide Bounds, Retagged;
    ghost var p := packet.data;
    var bounds := PayloadBounds(packet.data);
    if pt > 127 || ssrc == 0 || bounds.None? || bounds.value.1 - bounds.value.0 <= 2 {
      return false;
    }
    var (begin, end) := bounds.value;
    var number := packet.data[begin..begin + 2];
    packet.Resize(end);
    packet.Erase(begin, begin + 2);
    ErasedNumber(p, begin, end);
    Retag(packet, pt, number, ssrc, begin);
    ok := true;
  }

  lemma ErasedNumber(p: Bytes, begin: nat, end: nat)
    requires FIXED <= begin && begin + 2 <= end <= |p|
    ensures var q := p[..end][..begin] + p[..end][begin + 2..];
            q[..begin] == p[..begin] && q[begin..] == p[begin + 2..end]
  {
  }
}
