/** The general extension reader and the sender's rewriting of the whole extension. */
module HeaderExtensions {
  import opened Basics
  import opened RtpPackets
  import opened ExtensionBlocks
  import opened TransportCc

  type Values = map<byte, Bytes>

  // ---- the general reader ----

  /** One-byte elements (section 4.2 of RFC 8285); an identifier that repeats is refused. */
  function Collect(d: Bytes, values: Values): Option<Values>
    decreases |d|
  {
    if d == [] then Some(values)
    else if d[0] == 0 then Collect(d[1..], values)
    else if Id(d[0]) == 15 then Some(values)
    else if |d| < 1 + DataSize(d[0]) || Id(d[0]) in values then None
    else Collect(d[1 + DataSize(d[0])..], values[Id(d[0]) := d[1..1 + DataSize(d[0])]])
  }

  /** Two-byte elements (section 4.3 of RFC 8285). */
  function CollectWide(d: Bytes, values: Values): Option<Values>
    decreases |d|
  {
    if d == [] then Some(values)
    else if d[0] == 0 then CollectWide(d[1..], values)
    else if |d| == 1 then None
    else
      var n: nat := d[1];
      if |d| < 2 + n || d[0] in values then None
      else CollectWide(d[2 + n..], values[d[0] := d[2..2 + n]])
  }

  predicate TwoByteProfile(profile: uint16) {
    profile / 16 == 0x100
  }

  function CollectAll(p: Bytes): Option<Values>
    requires WellBounded(p)
  {
    if !HasExtension(p[0]) then Some(map[])
    else if Profile(p) == ONE_BYTE then Collect(Data(p), map[])
    else if TwoByteProfile(Profile(p)) then CollectWide(Data(p), map[])
    else Some(map[])
  }

  /** ReadRtpHeaderExtensions */
  function ReadAll(p: Bytes): Option<Values> {
    if |p| < FIXED || Version(p[0]) != 2 || !WellBounded(p) then None
    else if CollectAll(p).Some? && PaddingFits(p) then CollectAll(p) else None
  }

  // ---- the reader and the writer ----

  lemma {:induction false} CollectAppend(d: Bytes, e: Bytes, id: byte, values: Values)
    requires Find(d, id).Absent? && Collect(d, values).Some? && id !in values
    ensures Collect(d + e, values) == Collect(e, Collect(d, values).value) && id !in Collect(d, values).value
    decreases |d|
  {
    hide Id, DataSize;
    if d == [] {
      assert d + e == e;
    } else if d[0] == 0 {
      CollectAppend(d[1..], e, id, values);
      Suffix(d, e, 1);
    } else {
      var n := 1 + DataSize(d[0]);
      Suffix(d, e, n);
      assert (d + e)[1..n] == d[1..n];
      CollectAppend(d[n..], e, id, values[Id(d[0]) := d[1..n]]);
    }
  }

  lemma CollectWord(id: byte, x: uint16, values: Values)
    requires 1 <= id <= 14 && id !in values
    ensures Collect(Word(id, x), values) == Some(values[id := Two(x)])
  {
    var w := Word(id, x);
    WordHeader(id, x);
    hide Id, DataSize, High, Low;
    assert w[1..3] == Two(x) && w[3..] == [0];
    assert [0][1..] == [];
    var v := values[id := Two(x)];
    assert Collect([0], v) == Collect([], v);
  }

  /** Values collected later do not depend on a value collected before. */
  lemma {:induction false} CollectFrame(d: Bytes, values: Values, id: byte, data: Bytes)
    requires id in values && Collect(d, values).Some?
    ensures Collect(d, values[id := data]) == Some(Collect(d, values).value[id := data])
    decreases |d|
  {
    hide Id, DataSize;
    if d != [] {
      if d[0] == 0 {
        CollectFrame(d[1..], values, id, data);
      } else if Id(d[0]) != 15 {
        var n := 1 + DataSize(d[0]);
        var v := values[Id(d[0]) := d[1..n]];
        CollectFrame(d[n..], v, id, data);
        assert values[id := data][Id(d[0]) := d[1..n]] == v[id := data];
      }
    }
  }

  lemma {:induction false} CollectPut(d: Bytes, id: byte, x: uint16, values: Values)
    requires Find(d, id).Found? && Collect(d, values).Some? && id !in values
    ensures Collect(Put(d, Find(d, id).at, x), values) == Some(Collect(d, values).value[id := Two(x)])
    decreases |d|
  {
    hide Id, DataSize, High, Low, Put;
    var at := Find(d, id).at;
    var r := Put(d, at, x);
    if d[0] == 0 {
      PutSuffix(d, at, x, 1);
      CollectPut(d[1..], id, x, values);
    } else {
      var n := 1 + DataSize(d[0]);
      if Id(d[0]) == id {
        PutFirst(d, id, x);
        var v := values[id := d[1..3]];
        CollectFrame(d[3..], v, id, Two(x));
        assert v[id := Two(x)] == values[id := Two(x)];
      } else {
        PutLater(d, at, x, n);
        CollectPut(d[n..], id, x, values[Id(d[0]) := d[1..n]]);
      }
    }
  }

  /** The general reader sees the written number beside exactly what it saw before. */
  lemma CollectNewData(p: Bytes, id: byte, x: uint16)
    requires WellBounded(p) && 1 <= id <= 14 && Reachable(p, id) && (HasExtension(p[0]) ==> Profile(p) == ONE_BYTE)
    requires CollectAll(p).Some?
    ensures Collect(NewData(p, id, x), map[]) == Some(CollectAll(p).value[id := Two(x)])
  {
    hide CsrcCount, HasExtension, Find, Data, Words, Base, Put, Word, Collect, CollectWide;
    if !HasExtension(p[0]) {
      CollectWord(id, x, map[]);
    } else if Find(Data(p), id).Found? {
      CollectPut(Data(p), id, x, map[]);
    } else {
      CollectAppend(Data(p), Word(id, x), id, map[]);
      CollectWord(id, x, Collect(Data(p), map[]).value);
    }
  }

  lemma SamePadding(p: Bytes, q: Bytes)
    requires WellBounded(p) && WellBounded(q) && Tail(p) == Tail(q) && HasPadding(p[0]) == HasPadding(q[0])
    ensures HasPadding(p[0]) && |Tail(p)| > 0 ==> p[|p| - 1] == q[|q| - 1]
    ensures PaddingFits(p) && PaddingInTail(p) ==> PaddingFits(q)
  {
    hide CsrcCount, HasExtension, Words, Base, HasPadding;
    var t := Tail(p);
    if |t| > 0 {
      assert t[|t| - 1] == p[|p| - 1];
      assert Tail(q)[|t| - 1] == q[|q| - 1];
    }
  }

  predicate PaddingInTail(p: Bytes)
    requires WellBounded(p)
  {
    HasPadding(p[0]) ==> |Tail(p)| > 0
  }

  lemma ReaderSeesWrite(p: Bytes, id: byte, x: uint16)
    requires ReadAll(p).Some? && Write(p, id, x).Some? && HeaderFits(p) && Reachable(p, id)
    ensures ReadAll(Write(p, id, x).value) == Some(ReadAll(p).value[id := Two(x)])
  {
    hide Write, CsrcCount, HasExtension, Find, Data, Words, Base, Collect, CollectWide, NewData, Tail, Reachable,
         Version, HasPadding;
    WriteBounds(p, id, x);
    WriteParts(p, id, x);
    CollectNewData(p, id, x);
    SamePadding(p, Write(p, id, x).value);
  }

  // ---- replacing the whole extension ----

  datatype Config = Config(transportId: byte, midId: byte, mid: Bytes)

  /** The packet without its extension. */
  function Stripped(p: Bytes): Bytes
    requires WellBounded(p)
  {
    [ClearExtension(p[0])] + p[1..Base(p)] + Tail(p)
  }

  /** How many zero bytes fill up the last word. */
  function Fill(n: nat): nat {
    (4 - n % 4) % 4
  }

  /** The element for the media identification, padded to words. */
  function MidData(id: byte, mid: Bytes): (d: Bytes)
    requires 1 <= id <= 14 && 1 <= |mid| <= 16
  {
    [id * 16 + (|mid| - 1)] + mid + Repeat<byte>(0, Fill(1 + |mid|))
  }

  predicate MidOk(c: Config) {
    1 <= c.midId <= 14 && 1 <= |c.mid| <= 16 && c.midId != c.transportId
  }

  /** RewriteHeaderExtensions: whatever was there is replaced by the media identification. */
  function Rewrite(p: Bytes, c: Config): Option<Bytes>
    requires |p| >= FIXED
  {
    if !WellBounded(p) then None
    else if c.midId == 0 then if c.mid == [] then Some(Stripped(p)) else None
    else if !MidOk(c) then None
    else
      var d := MidData(c.midId, c.mid);
      Some(Assembled(Marked(Stripped(p)[..Base(p)]), ONE_BYTE, |d| / 4, d, Tail(p)))
  }

  lemma FillsWords(n: nat)
    ensures (n + Fill(n)) % 4 == 0 && Fill(n) < 4
  {
  }

  lemma MidDataWords(id: byte, mid: Bytes)
    requires 1 <= id <= 14 && 1 <= |mid| <= 16
    ensures |MidData(id, mid)| == 4 * (|MidData(id, mid)| / 4) && |MidData(id, mid)| / 4 <= 5
  {
    FillsWords(1 + |mid|);
    hide Fill;
  }

  lemma {:induction false} CollectZeros(n: nat, values: Values)
    ensures Collect(Repeat<byte>(0, n), values) == Some(values)
  {
    if n > 0 {
      assert Repeat<byte>(0, n)[1..] == Repeat<byte>(0, n - 1);
      CollectZeros(n - 1, values);
    }
  }

  lemma {:induction false} FindZeros(n: nat, id: byte)
    ensures Find(Repeat<byte>(0, n), id).Absent?
  {
    if n > 0 {
      assert Repeat<byte>(0, n)[1..] == Repeat<byte>(0, n - 1);
      FindZeros(n - 1, id);
    }
  }

  lemma MidHeader(id: byte, n: nat)
    requires 1 <= id <= 14 && 1 <= n <= 16
    ensures var h: byte := id * 16 + (n - 1); h != 0 && Id(h) == id && DataSize(h) == n
  {
  }

  lemma MidParts(id: byte, mid: Bytes)
    requires 1 <= id <= 14 && 1 <= |mid| <= 16
    ensures var d, n := MidData(id, mid), 1 + |mid|;
            && d != [] && d[0] == id * 16 + (|mid| - 1) && n <= |d| && d[1..n] == mid &&
                d[n..] == Repeat<byte>(0, Fill(n))
  {
    hide Fill;
  }

  /** The media identification is all the reader finds, and the search for another number passes it. */
  lemma MidDataReads(id: byte, mid: Bytes, other: byte)
    requires 1 <= id <= 14 && 1 <= |mid| <= 16 && other != id
    ensures Collect(MidData(id, mid), map[]) == Some(map[id := mid]) && Find(MidData(id, mid), other).Absent?
  {
    var d, n := MidData(id, mid), 1 + |mid|;
    MidParts(id, mid);
    MidHeader(id, |mid|);
    CollectZeros(Fill(n), map[][id := mid]);
    FindZeros(Fill(n), other);
    hide MidData, Fill, Id, DataSize;
  }

  lemma StrippedParts(p: Bytes)
    requires WellBounded(p)
    ensures var q := Stripped(p);
            && WellBounded(q) && !HasExtension(q[0]) && q[0] == ClearExtension(p[0]) && Base(q) == Base(p)
            && q[1..Base(q)] == p[1..Base(p)] && Tail(q) == Tail(p)
            && Version(q[0]) == Version(p[0]) && HasPadding(q[0]) == HasPadding(p[0])
  {
    ClearExtensionBits(p[0]);
    hide CsrcCount, HasExtension, Version, HasPadding, ClearExtension;
    var q, t := Stripped(p), Tail(p);
    hide Tail, ExtensionEnd;
    assert q[0] == ClearExtension(p[0]);
    assert |q| == Base(p) + |t|;
    assert q[1..Base(p)] == p[1..Base(p)];
    assert q[Base(p)..] == t;
    TailOfPlain(q);
  }

  lemma TailOfPlain(q: Bytes)
    requires HeaderFits(q) && !HasExtension(q[0])
    ensures WellBounded(q) && Tail(q) == q[Base(q)..]
  {
  }

  /** The rewritten packet: same header and payload, and only the media identification. */
  lemma RewriteParts(p: Bytes, c: Config)
    requires |p| >= FIXED && Rewrite(p, c).Some?
    ensures WellBounded(p) && WellBounded(Rewrite(p, c).value)
    ensures var q := Rewrite(p, c).value;
            && Base(q) == Base(p) && q[1..Base(q)] == p[1..Base(p)] && Tail(q) == Tail(p)
            && Version(q[0]) == Version(p[0]) && HasPadding(q[0]) == HasPadding(p[0])
            && (HasExtension(q[0]) <==> c.midId != 0)
            && (c.midId != 0 ==> MidOk(c) && Profile(q) == ONE_BYTE && Data(q) == MidData(c.midId, c.mid))
  {
    StrippedParts(p);
    var s := Stripped(p);
    hide CsrcCount, HasExtension, Version, HasPadding, Stripped, Tail, Data, Marked, Assembled, Words, Profile, MidData;
    if c.midId != 0 {
      MidDataWords(c.midId, c.mid);
      var d := MidData(c.midId, c.mid);
      TailOfPlain(s);
      Inserted(s, |d| / 4, d);
    }
  }

  /** What the general reader finds after the rewrite; only the padding can make it refuse. */
  lemma RewriteReads(p: Bytes, c: Config)
    requires |p| >= FIXED && Version(p[0]) == 2 && Rewrite(p, c).Some?
    ensures WellBounded(p)
    ensures ReadAll(Rewrite(p, c).value) ==
            if PaddingFits(p) then Some(if c.midId == 0 then map[] else map[c.midId := c.mid]) else None
  {
    RewriteParts(p, c);
    var q := Rewrite(p, c).value;
    hide Rewrite, CsrcCount, HasExtension, Version, Tail, Data, Words, Profile, MidData, Base, Collect, CollectWide;
    if c.midId != 0 {
      MidDataReads(c.midId, c.mid, 0);
    }
    SamePadding(p, q);
    SamePadding(q, p);
    EmptyTailPadding(p);
    EmptyTailPadding(q);
  }

  lemma EmptyTailPadding(p: Bytes)
    requires WellBounded(p)
    ensures PaddingFits(p) ==> PaddingInTail(p)
  {
  }

  /** After the rewrite and the write, the reader returns exactly the media identification and the number. */
  lemma RewriteWriteReads(p: Bytes, c: Config, x: uint16)
    requires |p| >= FIXED && Version(p[0]) == 2 && Rewrite(p, c).Some? && 1 <= c.transportId <= 14
    requires WellBounded(p) && PaddingFits(p)
    ensures var q := Rewrite(p, c).value;
            && Write(q, c.transportId, x).Some?
            && Read(Write(q, c.transportId, x).value, c.transportId) == Some(x)
            && ReadAll(Write(q, c.transportId, x).value) ==
               Some(if c.midId == 0 then map[c.transportId := Two(x)]
                   else map[c.midId := c.mid, c.transportId := Two(x)])
  {
    var q, id := Rewrite(p, c).value, c.transportId;
    RewriteParts(p, c);
    RewriteReads(p, c);
    RewriteReachable(p, c);
    WriteCases(q, id, x);
    hide Rewrite, CsrcCount, HasExtension, Version, Tail, Data, Words, Profile, MidData, Base, Collect, CollectWide,
         Write, Read, ReadAll, Find, WellBounded, PaddingFits;
    ReadBackIff(q, id, x);
    ReaderSeesWrite(q, id, x);
  }

  lemma RewriteReachable(p: Bytes, c: Config)
    requires |p| >= FIXED && Rewrite(p, c).Some? && 1 <= c.transportId <= 14
    ensures WellBounded(Rewrite(p, c).value) && Reachable(Rewrite(p, c).value, c.transportId)
    ensures HasExtension(Rewrite(p, c).value[0]) ==> Find(Data(Rewrite(p, c).value), c.transportId).Absent?
  {
    RewriteParts(p, c);
    var q := Rewrite(p, c).value;
    hide Rewrite, CsrcCount, HasExtension, Version, Tail, Profile, MidData, Find;
    if c.midId != 0 {
      MidDataReads(c.midId, c.mid, c.transportId);
      MidDataWords(c.midId, c.mid);
    }
  }
}
