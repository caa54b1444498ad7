/** Exp-Golomb codes: section 9.1 of ITU-T H.264. */
module ExpGolomb {
  import opened Basics

  type bit = x: int | 0 <= x < 2
  type Bits = seq<bit>

  /** Most significant bit first. */
  function Value(bits: Bits): (v: nat)
    ensures v < Power2(|bits|)
  {
    if bits == [] then 0 else 2 * Value(bits[..|bits| - 1]) + bits[|bits| - 1]
  }

  lemma NoValue()
    ensures Value([]) == 0
  {
  }

  lemma ValueNext(bits: Bits, i: nat)
    requires i < |bits|
    ensures Value(bits[..i + 1]) == 2 * Value(bits[..i]) + bits[i]
  {
    assert bits[..i + 1][..i] == bits[..i];
  }

  /** x in n bits. */
  function Binary(x: nat, n: nat): (bits: Bits)
    requires x < Power2(n)
    ensures |bits| == n
  {
    if n == 0 then [] else Binary(x / 2, n - 1) + [x % 2]
  }

  lemma {:induction false} ValueOfBinary(x: nat, n: nat)
    requires x < Power2(n)
    ensures Value(Binary(x, n)) == x
  {
    if n > 0 {
      ValueOfBinary(x / 2, n - 1);
      var b := Binary(x, n);
      assert b[..n - 1] == Binary(x / 2, n - 1);
    }
  }

  lemma {:induction false} BinaryOfValue(bits: Bits)
    ensures Binary(Value(bits), |bits|) == bits
  {
    if bits != [] {
      var init, last := bits[..|bits| - 1], bits[|bits| - 1];
      BinaryOfValue(init);
      HalfOf(Value(init), last);
      assert bits == init + [last];
    }
  }

  lemma HalfOf(v: nat, b: bit)
    ensures (2 * v + b) / 2 == v && (2 * v + b) % 2 == b
  {
  }

  // ---- the code ----

  /** The number of leading zeros of v's codeword: 2^n <= v + 1 < 2^(n + 1). */
  predicate PrefixLength(v: nat, n: nat) {
    Power2(n) <= v + 1 < Power2(n + 1)
  }

  /** ue(v): n zeros, a one, and the remainder in n bits. */
  function Codeword(v: nat, n: nat): (c: Bits)
    requires PrefixLength(v, n)
    ensures |c| == 2 * n + 1
  {
    Repeat<bit>(0, n) + [1] + Binary(v + 1 - Power2(n), n)
  }

  lemma {:induction false} PowerGrows(m: nat, n: nat)
    requires m < n
    ensures 2 * Power2(m) <= Power2(n)
  {
    if m < n - 1 {
      PowerGrows(m, n - 1);
    }
  }

  /** Every number has one codeword. */
  lemma PrefixUnique(v: nat, m: nat, n: nat)
    requires PrefixLength(v, m) && PrefixLength(v, n)
    ensures m == n
  {
    if m < n {
      PowerGrows(m, n);
    } else if n < m {
      PowerGrows(n, m);
    }
  }

  lemma {:induction false} PrefixExists(v: nat) returns (n: nat)
    ensures PrefixLength(v, n)
  {
    n := 0;
    while v + 1 >= Power2(n + 1)
      invariant Power2(n) <= v + 1
      decreases v + 1 - Power2(n)
    {
      assert Power2(n + 1) == 2 * Power2(n);
      n := n + 1;
    }
  }

  // ---- decoding ----

  function LeadingZeros(b: Bits): (n: nat)
    ensures n <= |b| && (forall i :: 0 <= i < n ==> b[i] == 0) && (n < |b| ==> b[n] == 1)
  {
    if b == [] || b[0] == 1 then 0 else 1 + LeadingZeros(b[1..])
  }

  datatype Decoded = Decoded(value: Option<nat>, consumed: nat)

  /** What ReadUE does with the remaining bits: the value, and how far it advances. */
  function DecodeUe(b: Bits): (d: Decoded)
    ensures d.consumed <= |b|
  {
    var n := LeadingZeros(b);
    if n > 31 then Decoded(None, 32)
    else if n == |b| then Decoded(None, n)
    else if |b| < 2 * n + 1 then Decoded(None, n + 1)
    else Decoded(Some(Power2(n) - 1 + Value(Suffix(b, n))), 2 * n + 1)
  }

  /** The n bits behind the first one. */
  function Suffix(b: Bits, n: nat): (s: Bits)
    requires 2 * n + 1 <= |b|
    ensures |s| == n
  {
    b[n + 1..2 * n + 1]
  }

  lemma {:induction false} LeadingZerosOf(b: Bits, n: nat)
    requires n < |b| && b[n] == 1 && forall i :: 0 <= i < n ==> b[i] == 0
    ensures LeadingZeros(b) == n
  {
    if n > 0 {
      assert b[0] == 0;
      LeadingZerosOf(b[1..], n - 1);
    }
  }

  /** Every codeword with up to 31 leading zeros is decoded to its value, whatever follows. */
  lemma DecodesCodeword(v: nat, n: nat, rest: Bits)
    requires PrefixLength(v, n) && n <= 31
    ensures DecodeUe(Codeword(v, n) + rest) == Decoded(Some(v), 2 * n + 1)
  {
    var x := v + 1 - Power2(n);
    var b := Codeword(v, n) + rest;
    ValueOfBinary(x, n);
    assert b[n] == 1 && forall i :: 0 <= i < n ==> b[i] == Repeat<bit>(0, n)[i];
    LeadingZerosOf(b, n);
    assert b[n + 1..2 * n + 1] == Binary(x, n);
  }

  lemma SplitAtOne(b: Bits, n: nat)
    requires 2 * n + 1 <= |b| && b[n] == 1 && forall i :: 0 <= i < n ==> b[i] == 0
    ensures b[..2 * n + 1] == Repeat<bit>(0, n) + [1] + Suffix(b, n)
  {
  }

  /** Nothing else is decoded: an answer v means that the bits start with v's codeword. */
  lemma DecodesOnlyCodewords(b: Bits)
    requires DecodeUe(b).value.Some?
    ensures var v, n := DecodeUe(b).value.value, LeadingZeros(b);
            && n <= 31 && PrefixLength(v, n) && DecodeUe(b).consumed == 2 * n + 1 <= |b| &&
                b[..2 * n + 1] == Codeword(v, n)
  {
    hide Power2, Value, LeadingZeros, Repeat, DecodeUe, Suffix, Codeword, PrefixLength;
    DecodedParts(b);
    var n := LeadingZeros(b);
    CodewordOf(DecodeUe(b).value.value, n, Suffix(b, n));
    SplitAtOne(b, n);
  }

  lemma CodewordOf(v: nat, n: nat, suffix: Bits)
    requires |suffix| == n && v == Power2(n) - 1 + Value(suffix)
    ensures PrefixLength(v, n) && Codeword(v, n) == Repeat<bit>(0, n) + [1] + suffix
  {
    hide Power2, Value, Repeat, Binary;
    PowerNext(n);
    BinaryOfValue(suffix);
  }

  lemma PowerNext(n: nat)
    ensures Power2(n + 1) == 2 * Power2(n)
  {
  }

  lemma DecodedParts(b: Bits)
    requires DecodeUe(b).value.Some?
    ensures var n := LeadingZeros(b);
            && n <= 31 && 2 * n + 1 <= |b| && DecodeUe(b).consumed == 2 * n + 1
            && DecodeUe(b).value.value == Power2(n) - 1 + Value(Suffix(b, n))
  {
    hide Power2, Value, LeadingZeros, Suffix;
  }

  /** se(v): the numbers 0, 1, -1, 2, -2, ... */
  function SignedCode(v: int): nat {
    if v > 0 then 2 * v - 1 else -2 * v
  }

  function Signed(code: nat): int {
    if code % 2 == 1 then (code + 1) / 2 else -(code / 2)
  }

  lemma SignedRoundTrip(v: int)
    ensures Signed(SignedCode(v)) == v
  {
  }

  lemma SignedCodeRoundTrip(code: nat)
    ensures SignedCode(Signed(code)) == code
  {
  }

  lemma Power32()
    ensures Power2(31) == 0x8000_0000 && Power2(32) == 0x1_0000_0000
  {
    assert Power2(8) == 256;
    assert Power2(16) == 0x1_0000;
    assert Power2(24) == 0x100_0000;
  }

  lemma {:induction false} PowerMonotone(m: nat, n: nat)
    requires m <= n
    ensures Power2(m) <= Power2(n)
  {
    if m < n {
      PowerGrows(m, n);
    }
  }

  /** A decoded number fits into 32 bits and its signed form into 32 bits with a sign. */
  lemma DecodedFits(b: Bits)
    requires DecodeUe(b).value.Some?
    ensures DecodeUe(b).value.value <= 0xFFFF_FFFE
    ensures -0x7FFF_FFFF <= Signed(DecodeUe(b).value.value) <= 0x7FFF_FFFF
  {
    DecodesOnlyCodewords(b);
    Power32();
    PowerMonotone(LeadingZeros(b) + 1, 32);
  }

  // ---- the reader ----

  /** Bit k of the bytes, from the most significant bit of the first byte. */
  function BitAt(data: Bytes, k: nat): bit
    requires k < 8 * |data|
  {
    data[k / 8] / Power2(7 - k % 8) % 2
  }

  function AllBits(data: Bytes): (b: Bits)
    ensures |b| == 8 * |data| && forall k :: 0 <= k < |b| ==> b[k] == BitAt(data, k)
  {
    seq(8 * |data|, k requires 0 <= k < 8 * |data| => BitAt(data, k))
  }

  class BitReader {
    const data: Bytes
    var offset: nat

    ghost predicate Valid()
      reads this
    {
      offset <= 8 * |data|
    }

    ghost function Remaining(): Bits
      requires Valid()
      reads this
    {
      AllBits(data)[offset..]
    }

    constructor (data: Bytes)
      ensures Valid() && offset == 0 && this.data == data && Remaining() == AllBits(data)
    {
      this.data := data;
      offset := 0;
    }

    /** The next `count` bits as a number; refused, without moving, when there are not enough. */
    method ReadBits(count: nat) returns (value: Option<nat>)
      requires Valid()
      modifies this
      ensures Valid()
      ensures count > 32 || count > |old(Remaining())| ==> value.None? && offset == old(offset)
      ensures count <= 32 && count <= |old(Remaining())| ==>
                value == Some(Value(old(Remaining())[..count])) && offset == old(offset) + count
    {
      hide Value, BitAt;
      if count > 32 || offset + count > 8 * |data| {
        return None;
      }
      ghost var start, bits := offset, AllBits(data)[offset..];
      NoValue();
      assert bits[..0] == [];
      var v, i := 0, 0;
      while i < count
        invariant i <= count && offset == start + i && start + count <= 8 * |data| && v == Value(bits[..i])
      {
        ValueNext(bits, i);
        assert bits[i] == BitAt(data, offset);
        v := 2 * v + BitAt(data, offset);
        offset := offset + 1;
        i := i + 1;
      }
      value := Some(v);
    }

    method ReadBit() returns (b: Option<bool>)
      requires Valid()
      modifies this
      ensures Valid()
      ensures old(Remaining()) == [] ==> b.None? && offset == old(offset)
      ensures old(Remaining()) != [] ==> b == Some(old(Remaining())[0] == 1) && offset == old(offset) + 1
    {
      ghost var bits := Remaining();
      var v := ReadBits(1);
      if v.None? {
        return None;
      }
      assert bits[..1][..0] == [] && bits[..1][0] == bits[0];
      b := Some(v.value != 0);
    }

    /** Counts zeros up to the first one; false when 32 zeros or the end come first. */
    method SkipZeros() returns (ok: bool, zeros: nat)
      requires Valid()
      modifies this
      ensures Valid()
      ensures var n := LeadingZeros(old(Remaining()));
              && ok == (n <= 31 && n < |old(Remaining())|)
              && (if ok then zeros == n && offset == old(offset) + n + 1 else offset == old(offset) + Min(n, 32))
    {
      hide LeadingZeros, AllBits;
      ghost var bits, start := Remaining(), offset;
      zeros := 0;
      while true
        invariant Valid() && zeros <= 31 && zeros <= |bits| && offset == start + zeros && LeadingZeros(bits) >= zeros
        invariant Remaining() == bits[zeros..]
        decreases 32 - zeros
      {
        var b := ReadBit();
        if b.None? {
          return false, zeros;
        }
        if b.value {
          LeadingZerosOf(bits, zeros);
          return true, zeros;
        }
        ghost var n := LeadingZeros(bits);
        assert bits[zeros..][0] == bits[zeros] == 0;
        MoreZeros(bits, zeros);
        zeros := zeros + 1;
        if zeros > 31 {
          return false, zeros;
        }
      }
    }

    /** The n bits after the first one. */
    method ReadSuffix(n: nat) returns (value: Option<nat>)
      requires Valid() && n <= 31
      modifies this
      ensures Valid()
      ensures n > |old(Remaining())| ==> value.None? && offset == old(offset)
      ensures n <= |old(Remaining())| ==> value == Some(Value(old(Remaining())[..n])) && offset == old(offset) + n
    {
      if n == 0 {
        return Some(0);
      }
      value := ReadBits(n);
    }

    method ReadUe() returns (value: Option<nat>)
      requires Valid()
      modifies this
      ensures Valid() && offset >= old(offset)
      ensures Decoded(value, offset - old(offset)) == DecodeUe(old(Remaining()))
    {
      hide Power2, Value, LeadingZeros, AllBits, Suffix;
      ghost var bits := Remaining();
      var ok, zeros := SkipZeros();
      if !ok {
        return None;
      }
      TakeAfter(AllBits(data), old(offset), zeros);
      var suffix := ReadSuffix(zeros);
      if suffix.None? {
        return None;
      }
      value := Some(Power2(zeros) - 1 + suffix.value);
    }

    method ReadSe() returns (value: Option<int>)
      requires Valid()
      modifies this
      ensures Valid()
      ensures var d := DecodeUe(old(Remaining()));
              offset == old(offset) + d.consumed && value == if d.value.None? then None else Some(Signed(d.value.value))
    {
      hide DecodeUe;
      var code := ReadUe();
      if code.None? {
        return None;
      }
      var c: int := code.value;
      value := Some(if c % 2 == 1 then (c + 1) / 2 else -(c / 2));
    }
  }

  lemma TakeAfter(all: Bits, offset: nat, n: nat)
    requires offset + n < |all|
    ensures all[offset + n + 1..] == all[offset..][n + 1..]
    ensures offset + 2 * n + 1 <= |all| ==> all[offset + n + 1..][..n] == Suffix(all[offset..], n)
  {
  }

  lemma MoreZeros(b: Bits, k: nat)
    requires k < |b| && LeadingZeros(b) >= k && b[k] == 0
    ensures LeadingZeros(b) >= k + 1
  {
  }

  /** Reading se(v) from its codeword gives v back. */
  lemma SignedCodewordRoundTrip(v: int, n: nat, rest: Bits)
    requires PrefixLength(SignedCode(v), n) && n <= 31
    ensures var d := DecodeUe(Codeword(SignedCode(v), n) + rest);
            d.value.Some? && Signed(d.value.value) == v && d.consumed == |Codeword(SignedCode(v), n)|
  {
    DecodesCodeword(SignedCode(v), n, rest);
    SignedRoundTrip(v);
  }
}
