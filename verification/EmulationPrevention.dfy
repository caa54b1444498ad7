/** Emulation prevention in NAL units: section 7.3.1 of ITU-T H.264. */
module EmulationPrevention {
  import opened Basics

  const THREE: byte := 3

  // ---- the encoder of the standard ----

  /** `zeros` is the number of zero bytes just written, at most two. */
  function EscapeFrom(rbsp: Bytes, zeros: nat): Bytes
    decreases |rbsp|
  {
    if rbsp == [] then []
    else if zeros >= 2 && rbsp[0] <= 3 then [THREE, rbsp[0]] + EscapeFrom(rbsp[1..], ZerosAfter(0, rbsp[0]))
    else [rbsp[0]] + EscapeFrom(rbsp[1..], ZerosAfter(zeros, rbsp[0]))
  }

  function Escape(rbsp: Bytes): Bytes {
    EscapeFrom(rbsp, 0)
  }

  function ZerosAfter(zeros: nat, value: byte): nat {
    if value == 0 then zeros + 1 else 0
  }

  // ---- the decoder ----

  function UnescapeFrom(data: Bytes, zeros: nat): Bytes
    decreases |data|
  {
    if data == [] then []
    else if zeros >= 2 && data[0] == THREE then UnescapeFrom(data[1..], 0)
    else [data[0]] + UnescapeFrom(data[1..], ZerosAfter(zeros, data[0]))
  }

  /** NaluToRbsp: what follows the header byte, without the emulation prevention bytes. */
  method NaluToRbsp(nalu: Bytes) returns (rbsp: Bytes)
    ensures rbsp == if nalu == [] then [] else UnescapeFrom(nalu[1..], 0)
  {
    rbsp := [];
    if |nalu| < 2 {
      return;
    }
    var zeroCount, i := 0, 1;
    while i < |nalu|
      invariant 1 <= i <= |nalu|
      invariant rbsp + UnescapeFrom(nalu[i..], zeroCount) == UnescapeFrom(nalu[1..], 0)
    {
      var value := nalu[i];
      assert nalu[i..][0] == value && nalu[i..][1..] == nalu[i + 1..];
      if zeroCount >= 2 && value == 3 {
        zeroCount := 0;
      } else {
        Regroup(rbsp, value, UnescapeFrom(nalu[i + 1..], ZerosAfter(zeroCount, value)));
        rbsp := rbsp + [value];
        zeroCount := if value == 0 then zeroCount + 1 else 0;
      }
      i := i + 1;
    }
    assert nalu[|nalu|..] == [];
  }

  lemma Regroup(a: Bytes, x: byte, b: Bytes)
    ensures a + ([x] + b) == (a + [x]) + b
  {
  }

  // ---- the round trip ----

  lemma UnescapeCons(x: byte, rest: Bytes, zeros: nat)
    ensures UnescapeFrom([x] + rest, zeros) ==
            if zeros >= 2 && x == THREE then UnescapeFrom(rest, 0) else [x] + UnescapeFrom(rest, ZerosAfter(zeros, x))
  {
    assert ([x] + rest)[1..] == rest;
  }

  /** Two zeros are the most the escaped bytes can end with. */
  lemma {:induction false} RoundTripFrom(rbsp: Bytes, zeros: nat, tail: Bytes)
    requires zeros <= 2
    ensures UnescapeFrom(EscapeFrom(rbsp, zeros) + tail, zeros) == rbsp + UnescapeFrom(tail, FinalZeros(rbsp, zeros))
    ensures FinalZeros(rbsp, zeros) <= 2
    decreases |rbsp|
  {
    if rbsp == [] {
      assert [] + tail == tail;
      assert [] + UnescapeFrom(tail, zeros) == UnescapeFrom(tail, zeros);
    } else {
      var x, rest := rbsp[0], rbsp[1..];
      var z := if zeros >= 2 && x <= 3 then ZerosAfter(0, x) else ZerosAfter(zeros, x);
      RoundTripFrom(rest, z, tail);
      var e := EscapeFrom(rest, z) + tail;
      assert rbsp == [x] + rest;
      Associate(x, rest, UnescapeFrom(tail, FinalZeros(rest, z)));
      UnescapeCons(x, e, if zeros >= 2 && x <= 3 then 0 else zeros);
      if zeros >= 2 && x <= 3 {
        EscapedPair(x, EscapeFrom(rest, z), tail);
        UnescapeCons(THREE, [x] + e, zeros);
      } else {
        Associate(x, EscapeFrom(rest, z), tail);
      }
    }
  }

  /** The number of zeros written since the last other byte, after escaping. */
  function FinalZeros(rbsp: Bytes, zeros: nat): nat
    decreases |rbsp|
  {
    if rbsp == [] then zeros
    else FinalZeros(rbsp[1..], if zeros >= 2 && rbsp[0] <= 3 then ZerosAfter(0, rbsp[0])
        else ZerosAfter(zeros, rbsp[0]))
  }

  lemma Associate(x: byte, a: Bytes, b: Bytes)
    ensures ([x] + a) + b == [x] + (a + b)
  {
  }

  lemma EscapedPair(x: byte, a: Bytes, b: Bytes)
    ensures ([THREE, x] + a) + b == [THREE] + ([x] + (a + b))
  {
  }

  /** Escaping any RBSP behind any header byte and extracting it returns the RBSP. */
  lemma ExtractionRoundTrip(header: byte, rbsp: Bytes)
    ensures UnescapeFrom(([header] + Escape(rbsp))[1..], 0) == rbsp
  {
    RoundTripFrom(rbsp, 0, []);
    assert ([header] + Escape(rbsp))[1..] == Escape(rbsp) && Escape(rbsp) + [] == Escape(rbsp);
    assert rbsp + [] == rbsp;
  }

  /** With the final byte 3 that the standard appends after a trailing zero. */
  function EscapeFinal(rbsp: Bytes): Bytes {
    if rbsp != [] && rbsp[|rbsp| - 1] == 0 then Escape(rbsp) + [THREE] else Escape(rbsp)
  }

  function TrailingZeros(rbsp: Bytes): nat
    decreases |rbsp|
  {
    if rbsp == [] || rbsp[|rbsp| - 1] != 0 then 0 else 1 + TrailingZeros(rbsp[..|rbsp| - 1])
  }

  lemma {:induction false} FinalZerosAppend(rbsp: Bytes, x: byte, zeros: nat)
    ensures FinalZeros(rbsp + [x], zeros) ==
            var z := FinalZeros(rbsp, zeros); if z >= 2 && x <= 3 then ZerosAfter(0, x) else ZerosAfter(z, x)
    decreases |rbsp|
  {
    if rbsp == [] {
      assert rbsp + [x] == [x];
      assert [x][1..] == [];
    } else {
      assert (rbsp + [x])[1..] == rbsp[1..] + [x];
      FinalZerosAppend(rbsp[1..], x, if zeros >= 2 && rbsp[0] <= 3 then ZerosAfter(0, rbsp[0])
          else ZerosAfter(zeros, rbsp[0]));
    }
  }

  /** An even, nonzero run of trailing zeros leaves two zeros pending; an odd run leaves one. */
  lemma {:induction false} PendingZeros(rbsp: Bytes)
    ensures FinalZeros(rbsp, 0) == if TrailingZeros(rbsp) == 0 then 0 else if TrailingZeros(rbsp) % 2 == 0 then 2 else 1
    decreases |rbsp|
  {
    if rbsp != [] {
      var init, x := rbsp[..|rbsp| - 1], rbsp[|rbsp| - 1];
      assert rbsp == init + [x];
      FinalZerosAppend(init, x, 0);
      PendingZeros(init);
    }
  }

  /**
   With the final byte, the extraction is exact if and only if the RBSP ends in an even
   number of zero bytes, as it does when it ends in whole cabac_zero_words. Otherwise the
   final byte stays behind.
   */
  lemma FinalByteRoundTripIff(rbsp: Bytes)
    ensures UnescapeFrom(EscapeFinal(rbsp), 0) == rbsp <==> TrailingZeros(rbsp) % 2 == 0
    ensures TrailingZeros(rbsp) % 2 != 0 ==> UnescapeFrom(EscapeFinal(rbsp), 0) == rbsp + [THREE]
  {
    PendingZeros(rbsp);
    if rbsp != [] && rbsp[|rbsp| - 1] == 0 {
      RoundTripFrom(rbsp, 0, [THREE]);
      var z := FinalZeros(rbsp, 0);
      UnescapeCons(THREE, [], z);
      assert [THREE] + [] == [THREE];
      var last := UnescapeFrom([THREE], z);
      assert last == if z >= 2 then [] else [THREE];
      assert |rbsp + last| == |rbsp| + |last|;
      assert rbsp + [] == rbsp;
    } else {
      RoundTripFrom(rbsp, 0, []);
      assert Escape(rbsp) + [] == Escape(rbsp) && rbsp + [] == rbsp;
    }
  }

  /** A single zero byte is where the final byte is not taken out again. */
  lemma FinalByteCounterexample()
    ensures EscapeFinal([0]) == [0, THREE] && UnescapeFrom(EscapeFinal([0]), 0) == [0, THREE]
  {
    FinalByteRoundTripIff([0]);
    assert TrailingZeros([0]) == 1;
    assert Escape([0]) == [0] by {
      assert [0][1..] == [];
    }
  }

  // ---- no start codes ----

  /** No two zeros are followed by 0, 1 or 2. */
  predicate NoStartCode(data: Bytes, zeros: nat)
    decreases |data|
  {
    data == [] || (!(zeros >= 2 && data[0] <= 2) && NoStartCode(data[1..], ZerosAfter(zeros, data[0])))
  }

  lemma {:induction false} EscapedHasNoStartCode(rbsp: Bytes, zeros: nat)
    requires zeros <= 2
    ensures NoStartCode(EscapeFrom(rbsp, zeros), zeros)
    decreases |rbsp|
  {
    if rbsp != [] {
      var x, rest := rbsp[0], rbsp[1..];
      if zeros >= 2 && x <= 3 {
        var r := EscapeFrom(rest, ZerosAfter(0, x));
        EscapedHasNoStartCode(rest, ZerosAfter(0, x));
        assert ([THREE, x] + r)[1..] == [x] + r && ([x] + r)[1..] == r;
      } else {
        var r := EscapeFrom(rest, ZerosAfter(zeros, x));
        EscapedHasNoStartCode(rest, ZerosAfter(zeros, x));
        assert ([x] + r)[1..] == r;
      }
    }
  }

  /** Read as bytes: an escaped RBSP contains no 00 00 00, 00 00 01 or 00 00 02. */
  lemma {:induction false} NoStartCodeAt(data: Bytes, zeros: nat, i: nat)
    requires NoStartCode(data, zeros) && i + 2 < |data|
    ensures !(data[i] == 0 && data[i + 1] == 0 && data[i + 2] <= 2)
    decreases |data|
  {
    if i == 0 {
      var rest := data[1..];
      var z := ZerosAfter(zeros, data[0]);
      assert NoStartCode(rest, z) && rest[0] == data[1];
      assert NoStartCode(rest[1..], ZerosAfter(z, rest[0])) && rest[1..][0] == data[2];
    } else {
      NoStartCodeAt(data[1..], ZerosAfter(zeros, data[0]), i - 1);
      assert data[1..][i - 1] == data[i] && data[1..][i] == data[i + 1] && data[1..][i + 1] == data[i + 2];
    }
  }
}
