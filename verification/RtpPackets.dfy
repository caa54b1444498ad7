/** RTP packets as bytes: section 5.1 and section 5.3.1 of RFC 3550. */
module RtpPackets {
  import opened Basics

  const FIXED: nat := 12

  // ---- the bits of the first byte ----

  // Version, padding flag, extension flag and count of contributing sources, from the top.

  function Version(b: byte): nat {
    if b >= 192 then 3 else if b >= 128 then 2 else if b >= 64 then 1 else 0
  }

  /** The low six bits. */
  function Low6(b: byte): nat {
    b - 64 * Version(b)
  }

  predicate HasPadding(b: byte) {
    Low6(b) >= 32
  }

  /** The low five bits. */
  function Low5(b: byte): nat {
    if HasPadding(b) then Low6(b) - 32 else Low6(b)
  }

  predicate HasExtension(b: byte) {
    Low5(b) >= 16
  }

  function CsrcCount(b: byte): (n: nat)
    ensures n < 16
  {
    if HasExtension(b) then Low5(b) - 16 else Low5(b)
  }

  function SetExtension(b: byte): byte {
    if HasExtension(b) then b else b + 16
  }

  function ClearExtension(b: byte): byte {
    if HasExtension(b) then b - 16 else b
  }

  function ClearPadding(b: byte): byte {
    if HasPadding(b) then b - 32 else b
  }

  lemma SetExtensionBits(b: byte)
    ensures HasExtension(SetExtension(b)) && CsrcCount(SetExtension(b)) == CsrcCount(b)
    ensures Version(SetExtension(b)) == Version(b) && HasPadding(SetExtension(b)) == HasPadding(b)
  {
  }

  lemma ClearExtensionBits(b: byte)
    ensures !HasExtension(ClearExtension(b)) && CsrcCount(ClearExtension(b)) == CsrcCount(b)
    ensures Version(ClearExtension(b)) == Version(b) && HasPadding(ClearExtension(b)) == HasPadding(b)
  {
  }

  lemma ClearPaddingBits(b: byte)
    ensures !HasPadding(ClearPadding(b)) && CsrcCount(ClearPadding(b)) == CsrcCount(b)
    ensures Version(ClearPadding(b)) == Version(b) && HasExtension(ClearPadding(b)) == HasExtension(b)
    ensures ClearPadding(ClearPadding(b)) == ClearPadding(b)
  {
  }

  // ---- 16-bit fields ----

  function High(x: uint16): byte { x / 256 }

  function Low(x: uint16): byte { x % 256 }

  function Two(x: uint16): (s: Bytes)
    ensures |s| == 2
  {
    [High(x), Low(x)]
  }

  function Join16(high: byte, low: byte): uint16 { high * 256 + low }

  lemma Join16Parts(x: uint16)
    ensures Join16(High(x), Low(x)) == x
  {
  }

  lemma PartsJoin16(high: byte, low: byte)
    ensures High(Join16(high, low)) == high && Low(Join16(high, low)) == low
  {
  }

  // ---- the parts of a packet ----

  /** Where the fixed header and the contributing sources end. */
  function Base(p: Bytes): nat
    requires p != []
  {
    FIXED + 4 * CsrcCount(p[0])
  }

  predicate HeaderFits(p: Bytes) {
    |p| >= FIXED && Base(p) <= |p|
  }

  function Profile(p: Bytes): uint16
    requires HeaderFits(p) && Base(p) + 4 <= |p|
  {
    Join16(p[Base(p)], p[Base(p) + 1])
  }

  function Words(p: Bytes): uint16
    requires HeaderFits(p) && Base(p) + 4 <= |p|
  {
    Join16(p[Base(p) + 2], p[Base(p) + 3])
  }

  /** Where the extension ends, or the header if there is none. */
  function ExtensionEnd(p: Bytes): nat
    requires HeaderFits(p) && (HasExtension(p[0]) ==> Base(p) + 4 <= |p|)
  {
    if HasExtension(p[0]) then Base(p) + 4 + 4 * Words(p) else Base(p)
  }

  /** The header, the contributing sources and the extension lie inside the packet. */
  predicate WellBounded(p: Bytes) {
    && HeaderFits(p) && (HasExtension(p[0]) ==> Base(p) + 4 <= |p|)
    && ExtensionEnd(p) <= |p|
  }

  /** The extension data. */
  function Data(p: Bytes): (d: Bytes)
    requires WellBounded(p) && HasExtension(p[0])
    ensures |d| == 4 * Words(p)
  {
    p[Base(p) + 4..ExtensionEnd(p)]
  }

  /** Payload and padding. */
  function Tail(p: Bytes): Bytes
    requires WellBounded(p)
  {
    p[ExtensionEnd(p)..]
  }

  /** A packet put together from its parts. */
  function Assembled(head: Bytes, profile: uint16, words: uint16, data: Bytes, tail: Bytes): Bytes {
    head + Two(profile) + Two(words) + data + tail
  }

  /** The parts of an assembled packet are the parts it was made of. */
  lemma AssembledParts(head: Bytes, profile: uint16, words: uint16, data: Bytes, tail: Bytes)
    requires |head| >= FIXED && Base(head) == |head| && HasExtension(head[0]) && |data| == 4 * words
    ensures var p := Assembled(head, profile, words, data, tail);
            && WellBounded(p) && p[0] == head[0] && p[..Base(p)] == head && Profile(p) == profile && Words(p) == words
            && Data(p) == data && Tail(p) == tail && |p| == |head| + 4 + |data| + |tail|
  {
    var p := Assembled(head, profile, words, data, tail);
    Join16Parts(profile);
    Join16Parts(words);
    hide CsrcCount, HasExtension, High, Low, Join16;
    assert p[0] == head[0] && p[|head|] == High(profile) && p[|head| + 1] == Low(profile);
    assert p[|head| + 2] == High(words) && p[|head| + 3] == Low(words);
    assert p[..|head|] == head;
    assert p[|head| + 4..|head| + 4 + |data|] == data;
    assert p[|head| + 4 + |data|..] == tail;
  }

  lemma FiveParts(p: Bytes, b: nat, e: nat)
    requires b + 4 <= e <= |p|
    ensures p == p[..b] + [p[b], p[b + 1]] + [p[b + 2], p[b + 3]] + p[b + 4..e] + p[e..]
  {
  }

  /** Every packet with an extension is assembled from its parts. */
  lemma PartsAssemble(p: Bytes)
    requires WellBounded(p) && HasExtension(p[0])
    ensures p == Assembled(p[..Base(p)], Profile(p), Words(p), Data(p), Tail(p))
  {
    var b := Base(p);
    hide CsrcCount, HasExtension, High, Low, Join16;
    FiveParts(p, b, ExtensionEnd(p));
    PartsJoin16(p[b], p[b + 1]);
    PartsJoin16(p[b + 2], p[b + 3]);
    assert Two(Profile(p)) == [p[b], p[b + 1]] && Two(Words(p)) == [p[b + 2], p[b + 3]];
  }

  /** Section 5.1: the last byte counts the padding, which lies in the tail. */
  predicate PaddingFits(p: Bytes)
    requires WellBounded(p)
  {
    HasPadding(p[0]) ==> 0 < p[|p| - 1] <= |Tail(p)|
  }
}
