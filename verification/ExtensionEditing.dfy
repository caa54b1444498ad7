/** The extension code as it is written: scanning loops and byte vectors edited in place. */
module ExtensionEditing {
  import opened Basics
  import opened RtpPackets
  import opened ExtensionBlocks
  import opened TransportCc
  import opened HeaderExtensions

  class ByteVector {
    var data: Bytes

    constructor (data: Bytes)
      ensures this.data == data
    {
      this.data := data;
    }

    method Insert(at: nat, bytes: Bytes)
      requires at <= |data|
      modifies this
      ensures data == old(data[..at]) + bytes + old(data[at..])
    {
      data := data[..at] + bytes + data[at..];
    }

    method Erase(begin: nat, end: nat)
      requires begin <= end <= |data|
      modifies this
      ensures data == old(data[..begin]) + old(data[end..])
    {
      data := data[..begin] + data[end..];
    }

    method Set(i: nat, b: byte)
      requires i < |data|
      modifies this
      ensures data == old(data)[i := b]
    {
      data := data[i := b];
    }

    method Set16(i: nat, x: uint16)
      requires i + 2 <= |data|
      modifies this
      ensures data == old(data[..i]) + Two(x) + old(data[i + 2..])
    {
      data := data[..i] + Two(x) + data[i + 2..];
    }

    method Resize(n: nat)
      requires n <= |data|
      modifies this
      ensures data == old(data[..n])
    {
      data := data[..n];
    }
  }

  lemma SliceNext(p: Bytes, offset: nat, end: nat, n: nat)
    requires offset < end <= |p| && offset + n <= end
    ensures var rest := p[offset..end];
            rest[0] == p[offset] && |rest| == end - offset && rest[n..] == p[offset + n..end]
  {
  }

  lemma ShiftTwice(s: Search, m: nat, n: nat)
    ensures Shift(Shift(s, m), n) == Shift(s, m + n)
  {
  }

  /** The scan shared by the writer and the reader, from `begin` to `end`. */
  method ScanElements(p: Bytes, begin: nat, end: nat, id: byte) returns (r: Search)
    requires begin <= end <= |p|
    ensures r == Find(p[begin..end], id)
  {
    hide Id, DataSize, Shift;
    var offset := begin;
    ShiftNothing(Find(p[begin..end], id));
    while offset < end
      invariant begin <= offset <= end
      invariant Shift(Find(p[offset..end], id), offset - begin) == Find(p[begin..end], id)
    {
      var header := p[offset];
      SliceNext(p, offset, end, 1);
      if header == 0 {
        ShiftTwice(Find(p[offset + 1..end], id), 1, offset - begin);
        offset := offset + 1;
      } else if Id(header) == 15 {
        ShiftFixed(Stopped, offset - begin);
        return Stopped;
      } else {
        var size := DataSize(header);
        ShiftFixed(Refused, offset - begin);
        if offset + 1 + size > end {
          return Refused;
        }
        if Id(header) == id {
          if size != 2 {
            return Refused;
          }
          ShiftFound(1, offset - begin);
          return Found(offset + 1 - begin);
        }
        SliceNext(p, offset, end, 1 + size);
        ShiftTwice(Find(p[offset + 1 + size..end], id), 1 + size, offset - begin);
        offset := offset + 1 + size;
      }
    }
    ShiftFixed(Absent, offset - begin);
    r := Absent;
  }

  lemma ShiftNothing(s: Search)
    ensures Shift(s, 0) == s
  {
  }

  lemma ShiftFixed(s: Search, n: nat)
    requires !s.Found?
    ensures Shift(s, n) == s
  {
  }

  lemma ShiftFound(at: nat, n: nat)
    ensures Shift(Found(at), n) == Found(at + n)
  {
  }

  /** RtpTransportCcExtension::Read */
  method ReadTransportCc(p: Bytes, id: byte) returns (r: Option<uint16>)
    ensures r == Read(p, id)
  {
    hide Find, Version, CsrcCount, HasExtension, Join16;
    if |p| < FIXED || id == 0 || id > 14 || Version(p[0]) != 2 || !HasExtension(p[0]) {
      return None;
    }
    var base := FIXED + 4 * CsrcCount(p[0]);
    if |p| < base + 4 || Join16(p[base], p[base + 1]) != ONE_BYTE {
      return None;
    }
    var begin := base + 4;
    var end := begin + 4 * Join16(p[base + 2], p[base + 3]);
    if |p| < end {
      return None;
    }
    var s := ScanElements(p, begin, end, id);
    if s.Found? {
      r := Some(Join16(p[begin + s.at], p[begin + s.at + 1]));
    } else {
      r := None;
    }
  }

  /** A new extension in front of the payload. */
  method AddExtension(packet: ByteVector, id: byte, x: uint16)
    requires WellBounded(packet.data) && !HasExtension(packet.data[0]) && 1 <= id <= 14
    modifies packet
    ensures packet.data == old(Assembled(Marked(packet.data[..Base(packet.data)]), ONE_BYTE, 1, Word(id, x),
            packet.data[Base(packet.data)..]))
  {
    hide CsrcCount, HasExtension, SetExtension, High, Low;
    ghost var p := packet.data;
    var base := Base(packet.data);
    packet.Insert(base, Two(ONE_BYTE) + Two(1) + Word(id, x));
    assert packet.data[0] == p[0];
    packet.Set(0, SetExtension(packet.data[0]));
    MarkedInsert(p, base, Two(ONE_BYTE) + Two(1) + Word(id, x), SetExtension(p[0]));
  }

  lemma MarkedInsert(p: Bytes, base: nat, bytes: Bytes, b: byte)
    requires 1 <= base <= |p|
    ensures (p[..base] + bytes + p[base..])[0 := b] == [b] + p[..base][1..] + bytes + p[base..]
  {
  }

  /** A word behind the extension data, and one more in the length field. */
  method AppendWord(packet: ByteVector, id: byte, x: uint16)
    requires WellBounded(packet.data) && HasExtension(packet.data[0]) && Profile(packet.data) == ONE_BYTE &&
             1 <= id <= 14
    modifies packet
    ensures packet.data == old(Assembled(packet.data[..Base(packet.data)], ONE_BYTE, NextWords(packet.data),
            Data(packet.data) + Word(id, x), Tail(packet.data)))
  {
    hide CsrcCount, HasExtension, High, Low, Join16, Word, NextWords;
    ghost var p := packet.data;
    var base, end, words := Base(packet.data), ExtensionEnd(packet.data), NextWords(packet.data);
    PartsAssemble(p);
    packet.Insert(end, Word(id, x));
    packet.Set16(base + 2, words);
    SpliceWord(p[..base], Two(ONE_BYTE), Two(Words(p)), Data(p), Tail(p), Word(id, x), Two(words));
  }

  lemma SpliceWord(h: Bytes, profile: Bytes, words: Bytes, d: Bytes, t: Bytes, w: Bytes, next: Bytes)
    requires |profile| == |words| == |next| == 2
    ensures var p := h + profile + words + d + t;
            var e := |h| + 4 + |d|;
            var q := p[..e] + w + p[e..];
            q[..|h| + 2] + next + q[|h| + 4..] == h + profile + next + (d + w) + t
  {
    var p := h + profile + words + d + t;
    var e := |h| + 4 + |d|;
    assert p[..e] == h + profile + words + d && p[e..] == t;
    var q := p[..e] + w + p[e..];
    assert q == h + profile + words + d + w + t;
    assert q[..|h| + 2] == h + profile;
    assert q[|h| + 4..] == d + w + t;
  }

  method WriteTransportCc(packet: ByteVector, id: byte, x: uint16) returns (ok: bool)
    modifies packet
    ensures ok == Write(old(packet.data), id, x).Some?
    ensures packet.data == if ok then Write(old(packet.data), id, x).value else old(packet.data)
  {
    hide Find, CsrcCount, HasExtension, Join16, Assembled, Put, Word, Marked, NextWords;
    ghost var p := packet.data;
    if id == 0 || id > 14 || |packet.data| < FIXED {
      return false;
    }
    var base := FIXED + 4 * CsrcCount(packet.data[0]);
    if |packet.data| < base {
      return false;
    }
    if !HasExtension(packet.data[0]) {
      WriteCases(p, id, x);
      AddExtension(packet, id, x);
      return true;
    }
    if |packet.data| < base + 4 || Join16(packet.data[base], packet.data[base + 1]) != ONE_BYTE {
      return false;
    }
    var begin := base + 4;
    var end := begin + 4 * Join16(packet.data[base + 2], packet.data[base + 3]);
    if |packet.data| < end {
      return false;
    }
    WriteCases(p, id, x);
    var s := ScanElements(packet.data, begin, end, id);
    if s.Refused? {
      return false;
    }
    if s.Found? {
      PutInPacket(p, s.at, x);
      packet.Set16(begin + s.at, x);
    } else {
      AppendWord(packet, id, x);
    }
    ok := true;
  }

  /** PrepareTransportCc: the placeholder write decides; the allocated number is then always written. */
  method PrepareTransportCc(packet: ByteVector, id: byte, number: uint16) returns (ok: bool)
    modifies packet
    ensures id == 0 ==> ok && packet.data == old(packet.data)
    ensures id != 0 ==> ok == Write(old(packet.data), id, 0).Some?
    ensures id != 0 && ok && HeaderFits(old(packet.data)) && Version(old(packet.data)[0]) == 2 &&
            Reachable(old(packet.data), id) ==>
              Read(packet.data, id) == Some(number)
  {
    if id == 0 {
      return true;
    }
    hide Write, Read, Version, Reachable, CsrcCount;
    ghost var p := packet.data;
    ok := WriteTransportCc(packet, id, 0);
    if !ok {
      return;
    }
    WriteFits(p, id, 0);
    ghost var q := packet.data;
    SecondWriteSucceeds(p, id, 0, number);
    ok := WriteTransportCc(packet, id, number);
    if Version(p[0]) == 2 && Reachable(p, id) {
      PreparedReads(p, id, number);
    }
  }

  lemma WriteFits(p: Bytes, id: byte, x: uint16)
    requires Write(p, id, x).Some?
    ensures HeaderFits(p)
  {
  }

  lemma PreparedReads(p: Bytes, id: byte, x: uint16)
    requires Write(p, id, 0).Some? && HeaderFits(p) && Version(p[0]) == 2 && Reachable(p, id)
    ensures Write(Write(p, id, 0).value, id, x).Some?
    ensures Read(Write(Write(p, id, 0).value, id, x).value, id) == Some(x)
  {
    var q := Write(p, id, 0).value;
    SecondWriteSucceeds(p, id, 0, x);
    WriteParts(p, id, 0);
    NewDataFound(p, id, 0);
    assert HeaderFits(q) && Version(q[0]) == 2 && Reachable(q, id);
    hide Write, Read, Version, Reachable, CsrcCount, Written, NewData;
    ReadBackIff(q, id, x);
  }

  // ---- the whole extension ----

  /** Drops the extension, if there is one. */
  method Strip(packet: ByteVector) returns (ok: bool)
    requires |packet.data| >= FIXED
    modifies packet
    ensures ok == WellBounded(old(packet.data))
    ensures packet.data == if ok then Stripped(old(packet.data)) else old(packet.data)
  {
    hide CsrcCount, HasExtension, ClearExtension, Join16;
    ghost var p := packet.data;
    var base := FIXED + 4 * CsrcCount(packet.data[0]);
    if |packet.data| < base {
      return false;
    }
    if HasExtension(packet.data[0]) {
      if |packet.data| < base + 4 {
        return false;
      }
      var end := base + 4 + 4 * Join16(packet.data[base + 2], packet.data[base + 3]);
      if end > |packet.data| {
        return false;
      }
      packet.Erase(base, end);
      assert packet.data[0] == p[0];
      packet.Set(0, ClearExtension(packet.data[0]));
      ErasedFirst(p, base, end, ClearExtension(p[0]));
    } else {
      PlainStripped(p);
    }
    ok := true;
  }

  lemma ErasedFirst(p: Bytes, base: nat, end: nat, b: byte)
    requires 1 <= base <= end <= |p|
    ensures (p[..base] + p[end..])[0 := b] == [b] + p[1..base] + p[end..]
  {
  }

  lemma PlainStripped(p: Bytes)
    requires HeaderFits(p) && !HasExtension(p[0])
    ensures WellBounded(p) && Stripped(p) == p
  {
    hide CsrcCount, HasExtension;
    assert ClearExtension(p[0]) == p[0];
    assert p == [p[0]] + p[1..Base(p)] + p[Base(p)..];
  }

  /** The element and the zero bytes that fill its last word. */
  method MakeMid(id: byte, mid: Bytes) returns (d: Bytes)
    requires 1 <= id <= 14 && 1 <= |mid| <= 16
    ensures d == MidData(id, mid)
  {
    var element := [id * 16 + (|mid| - 1)] + mid;
    d := element;
    var zeros := 0;
    while |d| % 4 != 0
      invariant zeros <= Fill(|element|) && d == element + Repeat<byte>(0, zeros)
      decreases Fill(|element|) - zeros
    {
      assert Repeat<byte>(0, zeros) + [0] == Repeat<byte>(0, zeros + 1);
      NotYetFull(|element|, zeros);
      d := d + [0];
      zeros := zeros + 1;
    }
    FullAt(|element|, zeros);
  }

  lemma NotYetFull(n: nat, zeros: nat)
    requires zeros <= Fill(n) && (n + zeros) % 4 != 0
    ensures zeros < Fill(n)
  {
  }

  lemma FullAt(n: nat, zeros: nat)
    requires zeros <= Fill(n) && (n + zeros) % 4 == 0
    ensures zeros == Fill(n)
  {
  }

  method RewriteHeaderExtensions(packet: ByteVector, c: Config) returns (ok: bool)
    requires |packet.data| >= FIXED
    modifies packet
    ensures ok == Rewrite(old(packet.data), c).Some?
    ensures ok ==> packet.data == Rewrite(old(packet.data), c).value
  {
    hide CsrcCount, HasExtension, Marked, Stripped, MidData, Tail, Assembled, SetExtension;
    ghost var p := packet.data;
    ok := Strip(packet);
    if !ok {
      return;
    }
    ghost var s := packet.data;
    StrippedParts(p);
    if c.midId == 0 {
      return c.mid == [];
    }
    if c.midId > 14 || c.mid == [] || |c.mid| > 16 || c.midId == c.transportId {
      return false;
    }
    var d := MakeMid(c.midId, c.mid);
    MidDataWords(c.midId, c.mid);
    InsertMid(packet, d);
    TailOfPlain(s);
  }

  method InsertMid(packet: ByteVector, d: Bytes)
    requires WellBounded(packet.data) && |d| / 4 <= 5
    modifies packet
    ensures packet.data == old(Assembled(Marked(packet.data[..Base(packet.data)]), ONE_BYTE, |d| / 4, d,
            packet.data[Base(packet.data)..]))
  {
    hide CsrcCount, HasExtension, SetExtension, High, Low;
    ghost var p := packet.data;
    var base := Base(packet.data);
    packet.Insert(base, Two(ONE_BYTE) + Two(|d| / 4) + d);
    assert packet.data[0] == p[0];
    packet.Set(0, SetExtension(packet.data[0]));
    MarkedInsert(p, base, Two(ONE_BYTE) + Two(|d| / 4) + d, SetExtension(p[0]));
  }

  // ---- the general reader ----

  lemma SliceData(p: Bytes, offset: nat, end: nat, from: nat, n: nat)
    requires offset + from + n <= end <= |p|
    ensures p[offset..end][from..from + n] == p[offset + from..offset + from + n]
  {
    var a, b := p[offset..end][from..from + n], p[offset + from..offset + from + n];
    assert |a| == |b| && forall i :: 0 <= i < n ==> a[i] == b[i];
  }

  method CollectElements(p: Bytes, begin: nat, end: nat) returns (r: Option<Values>)
    requires begin <= end <= |p|
    ensures r == Collect(p[begin..end], map[])
  {
    hide Id, DataSize;
    var offset := begin;
    var values: Values := map[];
    while offset < end
      invariant begin <= offset <= end
      invariant Collect(p[offset..end], values) == Collect(p[begin..end], map[])
    {
      var header := p[offset];
      SliceNext(p, offset, end, 1);
      if header == 0 {
        offset := offset + 1;
      } else if Id(header) == 15 {
        return Some(values);
      } else {
        var size := DataSize(header);
        if offset + 1 + size > end || Id(header) in values {
          return None;
        }
        SliceNext(p, offset, end, 1 + size);
        SliceData(p, offset, end, 1, size);
        values := values[Id(header) := p[offset + 1..offset + 1 + size]];
        offset := offset + 1 + size;
      }
    }
    r := Some(values);
  }

  method CollectWideElements(p: Bytes, begin: nat, end: nat) returns (r: Option<Values>)
    requires begin <= end <= |p|
    ensures r == CollectWide(p[begin..end], map[])
  {
    var offset := begin;
    var values: Values := map[];
    while offset < end
      invariant begin <= offset <= end
      invariant CollectWide(p[offset..end], values) == CollectWide(p[begin..end], map[])
    {
      var id := p[offset];
      SliceNext(p, offset, end, 1);
      if id == 0 {
        offset := offset + 1;
      } else if offset + 1 == end {
        return None;
      } else {
        var length: nat := p[offset + 1];
        assert p[offset..end][1] == length;
        if offset + 2 + length > end || id in values {
          return None;
        }
        SliceNext(p, offset, end, 2 + length);
        SliceData(p, offset, end, 2, length);
        values := values[id := p[offset + 2..offset + 2 + length]];
        offset := offset + 2 + length;
      }
    }
    r := Some(values);
  }

  method ReadRtpHeaderExtensions(p: Bytes) returns (r: Option<Values>)
    ensures r == ReadAll(p)
  {
    hide Collect, CollectWide, Version, CsrcCount, HasExtension, HasPadding, Join16, TwoByteProfile;
    if |p| < FIXED || Version(p[0]) != 2 {
      return None;
    }
    var offset := FIXED + 4 * CsrcCount(p[0]);
    if offset > |p| {
      return None;
    }
    r := Some(map[]);
    if HasExtension(p[0]) {
      if offset + 4 > |p| {
        return None;
      }
      var profile := Join16(p[offset], p[offset + 1]);
      var end := offset + 4 + 4 * Join16(p[offset + 2], p[offset + 3]);
      if end > |p| {
        return None;
      }
      if profile == ONE_BYTE {
        r := CollectElements(p, offset + 4, end);
      } else if TwoByteProfile(profile) {
        r := CollectWideElements(p, offset + 4, end);
      }
      if r.None? {
        return;
      }
      offset := end;
    }
    if HasPadding(p[0]) {
      var padding := p[|p| - 1];
      if padding == 0 || padding > |p| - offset {
        return None;
      }
    }
  }
}
