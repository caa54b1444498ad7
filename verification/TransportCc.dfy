/** Writing and reading the transport-wide sequence number. */
module TransportCc {
  import opened Basics
  import opened RtpPackets
  import opened ExtensionBlocks

  /** The header with its extension bit set. */
  function Marked(head: Bytes): Bytes
    requires head != []
  {
    [SetExtension(head[0])] + head[1..]
  }

  /** WriteTransportCcExtension, by the parts of the packet. */
  function Write(p: Bytes, id: byte, x: uint16): Option<Bytes> {
    if id == 0 || id > 14 || |p| < FIXED || |p| < Base(p) then None
    else if !HasExtension(p[0]) then Some(Assembled(Marked(p[..Base(p)]), ONE_BYTE, 1, Word(id, x), p[Base(p)..]))
    else if |p| < Base(p) + 4 || Profile(p) != ONE_BYTE || |p| < ExtensionEnd(p) then None
    else
      var head, d, tail := p[..Base(p)], Data(p), Tail(p);
      match Find(d, id)
      case Refused => None
      case Found(at) => Some(Assembled(head, ONE_BYTE, Words(p), Put(d, at, x), tail))
      case Absent => Some(Assembled(head, ONE_BYTE, NextWords(p), d + Word(id, x), tail))
      case Stopped => Some(Assembled(head, ONE_BYTE, NextWords(p), d + Word(id, x), tail))
  }

  /** The length field after one more word, in its 16 bits. */
  function NextWords(p: Bytes): uint16
    requires HeaderFits(p) && Base(p) + 4 <= |p|
  {
    (Words(p) + 1) % 0x1_0000
  }

  /** RtpTransportCcExtension::Read */
  function Read(p: Bytes, id: byte): Option<uint16> {
    if |p| < FIXED || id == 0 || id > 14 || Version(p[0]) != 2 || !HasExtension(p[0]) then None
    else if |p| < Base(p) + 4 || Profile(p) != ONE_BYTE || |p| < ExtensionEnd(p) then None
    else
      match Find(Data(p), id)
      case Found(at) => Some(Join16(Data(p)[at], Data(p)[at + 1]))
      case _ => None
  }

  /** The writer's guard: the value goes where the reader will look for it. */
  predicate Reachable(p: Bytes, id: byte)
    requires HeaderFits(p)
  {
    HasExtension(p[0]) && WellBounded(p) ==>
        Find(Data(p), id).Found? || (Find(Data(p), id).Absent? && Words(p) < 0xFFFF)
  }

  function ElementsOf(p: Bytes): Elements
    requires WellBounded(p)
  {
    if HasExtension(p[0]) then Parse(Data(p)) else Elements([], Complete)
  }

  lemma MarkedHead(head: Bytes)
    requires |head| >= FIXED && Base(head) == |head|
    ensures var m := Marked(head);
            && |m| == |head| && Base(m) == |m| && HasExtension(m[0]) && m[0] == SetExtension(head[0]) &&
                m[1..] == head[1..]
            && Version(m[0]) == Version(head[0]) && HasPadding(m[0]) == HasPadding(head[0])
  {
    SetExtensionBits(head[0]);
    hide CsrcCount, HasExtension, HasPadding, Version, SetExtension;
  }

  lemma HeadBase(p: Bytes)
    requires HeaderFits(p)
    ensures var h := p[..Base(p)]; |h| >= FIXED && h[0] == p[0] && Base(h) == |h|
  {
  }

  /** How a write changes the parts of a packet. */
  predicate Written(p: Bytes, q: Bytes, data: Bytes)
    requires HeaderFits(p)
  {
    && WellBounded(q) && HasExtension(q[0]) && Profile(q) == ONE_BYTE && Data(q) == data
    && q[0] == SetExtension(p[0]) && Base(q) == Base(p) && q[1..Base(q)] == p[1..Base(p)]
    && Version(q[0]) == Version(p[0]) && HasPadding(q[0]) == HasPadding(p[0])
    && (WellBounded(p) ==> Tail(q) == Tail(p))
  }

  lemma SliceFrom1(p: Bytes, n: nat)
    requires 1 <= n <= |p|
    ensures p[1..n] == p[..n][1..]
  {
  }

  /** The first extension of a packet without one. */
  lemma Inserted(p: Bytes, words: uint16, data: Bytes)
    requires HeaderFits(p) && !HasExtension(p[0]) && |data| == 4 * words
    ensures Written(p, Assembled(Marked(p[..Base(p)]), ONE_BYTE, words, data, p[Base(p)..]), data)
  {
    hide CsrcCount, HasExtension, Version, HasPadding, SetExtension, Marked, High, Low, Join16, Assembled, Data;
    var head := p[..Base(p)];
    HeadBase(p);
    MarkedHead(head);
    var q := Assembled(Marked(head), ONE_BYTE, words, data, p[Base(p)..]);
    AssembledParts(Marked(head), ONE_BYTE, words, data, p[Base(p)..]);
    SliceFrom1(q, Base(q));
    SliceFrom1(p, Base(p));
  }

  /** Rebuilding a packet around new extension data. */
  lemma Rebuilt(p: Bytes, words: uint16, data: Bytes)
    requires WellBounded(p) && HasExtension(p[0]) && |data| == 4 * words
    ensures Written(p, Assembled(p[..Base(p)], ONE_BYTE, words, data, Tail(p)), data)
  {
    SetExtensionBits(p[0]);
    assert SetExtension(p[0]) == p[0];
    hide CsrcCount, HasExtension, Version, HasPadding, SetExtension, High, Low, Join16, Assembled, Tail, Data;
    var head := p[..Base(p)];
    HeadBase(p);
    var q := Assembled(head, ONE_BYTE, words, data, Tail(p));
    AssembledParts(head, ONE_BYTE, words, data, Tail(p));
    SliceFrom1(q, Base(q));
    SliceFrom1(p, Base(p));
  }

  /** The data a successful write leaves, when the reader can reach it. */
  function NewData(p: Bytes, id: byte, x: uint16): Bytes
    requires WellBounded(p) && 1 <= id <= 14
  {
    if !HasExtension(p[0]) then Word(id, x)
    else if Find(Data(p), id).Found? then Put(Data(p), Find(Data(p), id).at, x)
    else Data(p) + Word(id, x)
  }

  lemma WriteBounds(p: Bytes, id: byte, x: uint16)
    requires Write(p, id, x).Some?
    ensures HeaderFits(p) && 1 <= id <= 14 && WellBounded(p) &&
            (HasExtension(p[0]) ==> Profile(p) == ONE_BYTE && !Find(Data(p), id).Refused?)
  {
  }

  /** What Write answers, case by case. */
  lemma WriteCases(p: Bytes, id: byte, x: uint16)
    requires WellBounded(p) && 1 <= id <= 14
    ensures !HasExtension(p[0]) ==>
            Write(p, id, x) == Some(Assembled(Marked(p[..Base(p)]), ONE_BYTE, 1, Word(id, x), p[Base(p)..]))
    ensures HasExtension(p[0]) && Profile(p) == ONE_BYTE ==>
              match Find(Data(p), id)
              case Refused => Write(p, id, x).None?
              case Found(at) => Write(p, id, x) ==
                  Some(Assembled(p[..Base(p)], ONE_BYTE, Words(p), Put(Data(p), at, x), Tail(p)))
              case _ => Write(p, id, x) == Some(Assembled(p[..Base(p)], ONE_BYTE, NextWords(p), Data(p) + Word(id, x),
                  Tail(p)))
  {
    hide CsrcCount, HasExtension, Find, Put, Word, Assembled, Marked, Data, Tail, Join16;
  }

  lemma NextWordsIs(p: Bytes)
    requires WellBounded(p) && HasExtension(p[0])
    ensures NextWords(p) == if Words(p) < 0xFFFF then Words(p) + 1 else 0
  {
  }

  /** Appending a word to the extension data, while the length field can count it. */
  lemma AppendedParts(p: Bytes, id: byte, x: uint16)
    requires WellBounded(p) && 1 <= id <= 14 && HasExtension(p[0]) && Profile(p) == ONE_BYTE && Words(p) < 0xFFFF
    requires Find(Data(p), id).Absent? || Find(Data(p), id).Stopped?
    ensures Write(p, id, x).Some? && Written(p, Write(p, id, x).value, Data(p) + Word(id, x))
  {
    hide Write, Written, Word, Put, Assembled, Find, CsrcCount, HasExtension, Data, Tail, Words, NextWords, Base,
         ExtensionEnd;
    WriteCases(p, id, x);
    NextWordsIs(p);
    Rebuilt(p, Words(p) + 1, Data(p) + Word(id, x));
  }

  /** A reachable write replaces the extension data and nothing else. */
  lemma WriteParts(p: Bytes, id: byte, x: uint16)
    requires Write(p, id, x).Some? && HeaderFits(p) && Reachable(p, id)
    ensures WellBounded(p) && 1 <= id <= 14 && Written(p, Write(p, id, x).value, NewData(p, id, x))
  {
    hide Write, Written, Word, Put, Assembled, Find, CsrcCount, HasExtension, Marked, Data, Tail, Words, NextWords,
         Base, WellBounded, ExtensionEnd;
    WriteBounds(p, id, x);
    WriteCases(p, id, x);
    if !HasExtension(p[0]) {
      Inserted(p, 1, Word(id, x));
    } else if Find(Data(p), id).Found? {
      Rebuilt(p, Words(p), Put(Data(p), Find(Data(p), id).at, x));
    } else {
      AppendedParts(p, id, x);
    }
  }

  /** The new data holds the value where a search finds it. */
  lemma NewDataFound(p: Bytes, id: byte, x: uint16)
    requires WellBounded(p) && 1 <= id <= 14 && Reachable(p, id)
    ensures var d := NewData(p, id, x);
            Find(d, id).Found? && Join16(d[Find(d, id).at], d[Find(d, id).at + 1]) == x
  {
    Join16Parts(x);
    FindWord(id, x);
    if HasExtension(p[0]) {
      hide Find, Id, CsrcCount, HasExtension, High, Low, Join16;
      var d := Data(p);
      match Find(d, id)
      case Found(at) =>
        FindPut(d, id, x);
        PutReads(d, at, x);
      case Absent =>
        FindAppend(d, Word(id, x), id);
    }
  }

  lemma ReadWritten(p: Bytes, q: Bytes, data: Bytes, id: byte, x: uint16)
    requires HeaderFits(p) && Written(p, q, data) && 1 <= id <= 14 && Version(p[0]) == 2
    requires Find(data, id).Found? && Join16(data[Find(data, id).at], data[Find(data, id).at + 1]) == x
    ensures Read(q, id) == Some(x)
  {
    hide Find, CsrcCount, HasExtension, Version, Join16;
  }

  lemma FindNothing(id: byte)
    ensures Find([], id).Absent?
  {
  }

  /** With a length field of 0 the data belongs to the payload. */
  lemma WrappedRebuilt(p: Bytes, data: Bytes)
    requires WellBounded(p) && HasExtension(p[0])
    ensures var q := Assembled(p[..Base(p)], ONE_BYTE, 0, data, Tail(p));
            WellBounded(q) && HasExtension(q[0]) && Profile(q) == ONE_BYTE && Data(q) == [] && Base(q) == Base(p)
  {
    hide CsrcCount, HasExtension, Join16, Data, Tail, Assembled;
    var head := p[..Base(p)];
    HeadBase(p);
    AssembledParts(head, ONE_BYTE, 0, [], data + Tail(p));
    EmptyData(head, ONE_BYTE, data, Tail(p));
  }

  lemma EmptyData(head: Bytes, profile: uint16, data: Bytes, tail: Bytes)
    ensures Assembled(head, profile, 0, [], data + tail) == Assembled(head, profile, 0, data, tail)
  {
    EmptyMiddle(head + Two(profile) + Two(0), data, tail);
  }

  lemma EmptyMiddle(a: Bytes, b: Bytes, c: Bytes)
    ensures a + [] + (b + c) == a + b + c
  {
  }

  lemma ReadNothing(q: Bytes, id: byte)
    requires WellBounded(q) && HasExtension(q[0]) && !Find(Data(q), id).Found?
    ensures Read(q, id).None?
  {
    hide Find, CsrcCount, HasExtension, Join16, Data, Version;
  }

  /** Where the data of an unreachable write ends up: behind a stop element, or past a length field wrapped to 0. */
  lemma UnreachableData(p: Bytes, id: byte, x: uint16)
    requires Write(p, id, x).Some? && HeaderFits(p) && !Reachable(p, id)
    ensures 1 <= id <= 14
    ensures var q := Write(p, id, x).value;
            && WellBounded(q) && HasExtension(q[0]) && Profile(q) == ONE_BYTE
            && (Find(Data(q), id).Stopped? || Find(Data(q), id).Absent?)
  {
    hide Write, Word, Put, Assembled, Find, CsrcCount, HasExtension, Marked, Data, Tail, Words, NextWords, Base,
         WellBounded, ExtensionEnd;
    WriteBounds(p, id, x);
    if Words(p) < 0xFFFF {
      AppendedParts(p, id, x);
      FindAppend(Data(p), Word(id, x), id);
    } else {
      WrappedData(p, id, x);
    }
  }

  lemma WrappedData(p: Bytes, id: byte, x: uint16)
    requires Write(p, id, x).Some? && WellBounded(p) && HasExtension(p[0]) && Words(p) == 0xFFFF
    requires Profile(p) == ONE_BYTE && 1 <= id <= 14 && (Find(Data(p), id).Absent? || Find(Data(p), id).Stopped?)
    ensures var q := Write(p, id, x).value;
            WellBounded(q) && HasExtension(q[0]) && Profile(q) == ONE_BYTE && Find(Data(q), id).Absent?
  {
    hide Write, Word, Put, Assembled, Find, CsrcCount, HasExtension, Marked, Data, Tail, Words, NextWords, Base,
         WellBounded, ExtensionEnd;
    WriteCases(p, id, x);
    NextWordsIs(p);
    WrappedRebuilt(p, Data(p) + Word(id, x));
    FindNothing(id);
  }

  lemma UnreachableLost(p: Bytes, id: byte, x: uint16)
    requires Write(p, id, x).Some? && HeaderFits(p) && !Reachable(p, id)
    ensures Read(Write(p, id, x).value, id).None?
  {
    hide Write, Read, Find, Data, Reachable, WellBounded, HasExtension;
    UnreachableData(p, id, x);
    ReadNothing(Write(p, id, x).value, id);
  }

  /** A written number is read back exactly when the writer's guard holds. */
  lemma ReadBackIff(p: Bytes, id: byte, x: uint16)
    requires Write(p, id, x).Some? && HeaderFits(p) && Version(p[0]) == 2
    ensures Read(Write(p, id, x).value, id) == Some(x) <==> Reachable(p, id)
  {
    hide Write, Read, Reachable, NewData, Written;
    if Reachable(p, id) {
      WriteParts(p, id, x);
      NewDataFound(p, id, x);
      ReadWritten(p, Write(p, id, x).value, NewData(p, id, x), id, x);
    } else {
      UnreachableLost(p, id, x);
    }
  }

  /** The elements of the new data. */
  lemma NewElements(p: Bytes, id: byte, x: uint16)
    requires WellBounded(p) && 1 <= id <= 14 && Reachable(p, id)
    ensures Parse(NewData(p, id, x)) ==
            if HasExtension(p[0]) && Find(Data(p), id).Found?
            then Elements(Replaced(ElementsOf(p).list, id, Two(x)), ElementsOf(p).ending)
            else Elements(ElementsOf(p).list + [Element(id, Two(x))], Complete)
  {
    ParseWord(id, x);
    hide CsrcCount, HasExtension, Find, High, Low, Join16, Word, Put, Parse, Data, Replaced;
    if HasExtension(p[0]) {
      var d := Data(p);
      match Find(d, id)
      case Found(at) =>
        ParsePut(d, id, x);
      case Absent =>
        AbsentMeansComplete(d, id);
        ParseAppend(d, Word(id, x));
    } else {
      assert [] + [Element(id, Two(x))] == [Element(id, Two(x))];
    }
  }

  /** A write keeps the header, the payload and every other element. */
  lemma WriteKeeps(p: Bytes, id: byte, x: uint16)
    requires Write(p, id, x).Some? && HeaderFits(p) && Reachable(p, id)
    ensures WellBounded(p) && WellBounded(Write(p, id, x).value)
    ensures var q := Write(p, id, x).value;
            && q[0] == SetExtension(p[0]) && Base(q) == Base(p) && q[1..Base(q)] == p[1..Base(p)] && Tail(q) == Tail(p)
            && ElementsOf(q) == if HasExtension(p[0]) && Find(Data(p), id).Found?
                                then Elements(Replaced(ElementsOf(p).list, id, Two(x)), ElementsOf(p).ending)
                                else Elements(ElementsOf(p).list + [Element(id, Two(x))], Complete)
  {
    hide Write, CsrcCount, HasExtension, Find, Join16, Parse, Data, Tail, Replaced, NewData, Reachable, SetExtension;
    WriteParts(p, id, x);
    NewElements(p, id, x);
  }

  /** Once written, a rewrite changes the two value bytes and nothing else. */
  lemma RewriteInPlace(p: Bytes, id: byte, x: uint16, y: uint16)
    requires Write(p, id, x).Some? && HeaderFits(p) && Reachable(p, id)
    ensures var q := Write(p, id, x).value;
            exists at :: 0 <= at && at + 2 <= |q| && q[at..at + 2] == Two(x) &&
                Write(q, id, y) == Some(q[..at] + Two(y) + q[at + 2..])
  {
    hide Write, CsrcCount, HasExtension, Find, Join16, Data, Tail, Reachable, SetExtension, Assembled, Put;
    WriteParts(p, id, x);
    NewDataFound(p, id, x);
    var q, d := Write(p, id, x).value, NewData(p, id, x);
    hide NewData;
    WriteCases(q, id, y);
    var at := Find(d, id).at;
    ValueAt(q, at);
    PutInPacket(q, at, y);
    PartsJoin16(d[at], d[at + 1]);
    assert Two(x) == [d[at], d[at + 1]];
  }

  lemma ValueAt(q: Bytes, at: nat)
    requires WellBounded(q) && HasExtension(q[0]) && at + 2 <= |Data(q)|
    ensures var k := Base(q) + 4 + at;
            k + 2 <= |q| && q[k..k + 2] == [Data(q)[at], Data(q)[at + 1]]
  {
    hide CsrcCount, HasExtension, Join16;
  }

  lemma PutInPacket(q: Bytes, at: nat, y: uint16)
    requires WellBounded(q) && HasExtension(q[0]) && Profile(q) == ONE_BYTE && at + 2 <= |Data(q)|
    ensures var k := Base(q) + 4 + at;
            k + 2 <= |q| && Assembled(q[..Base(q)], ONE_BYTE, Words(q), Put(Data(q), at, y), Tail(q)) ==
                q[..k] + Two(y) + q[k + 2..]
  {
    hide CsrcCount, HasExtension, Join16, High, Low;
    var b, e := Base(q), ExtensionEnd(q);
    var k := b + 4 + at;
    PartsAssemble(q);
    var h := q[..b] + Two(ONE_BYTE) + Two(Words(q));
    assert q == h + Data(q) + Tail(q);
    hide Assembled, Data, Tail, Two, Words;
    Spliced(h, Data(q), Tail(q), at, Two(y));
  }

  lemma Spliced(h: Bytes, d: Bytes, t: Bytes, at: nat, v: Bytes)
    requires at + 2 <= |d|
    ensures var q := h + d + t;
            h + (d[..at] + v + d[at + 2..]) + t == q[..|h| + at] + v + q[|h| + at + 2..]
  {
    var q := h + d + t;
    assert q[..|h| + at] == h + d[..at];
    assert q[|h| + at + 2..] == d[at + 2..] + t;
  }

  /** The real write after the placeholder never fails, so no allocated number is wasted. */
  lemma SecondWriteSucceeds(p: Bytes, id: byte, x: uint16, y: uint16)
    requires Write(p, id, x).Some? && HeaderFits(p)
    ensures Write(Write(p, id, x).value, id, y).Some?
  {
    hide Write, Reachable, Find, CsrcCount, HasExtension, Data, WellBounded, Tail, Base, Words, Put, Word, Assembled;
    var q := Write(p, id, x).value;
    if Reachable(p, id) {
      RewriteInPlace(p, id, x, y);
    } else {
      UnreachableData(p, id, x);
      WriteCases(q, id, y);
    }
  }

  // ---- the two ways a written number is lost ----

  const PLAIN_HEAD: Bytes := [0x90, 96, 0, 1, 0, 0, 0, 0, 0, 0, 0, 1]

  function OneBytePacket(words: uint16, data: Bytes): Bytes {
    Assembled(PLAIN_HEAD, ONE_BYTE, words, data, [])
  }

  lemma OneByteParts(words: uint16, data: Bytes)
    requires |data| == 4 * words
    ensures var p := OneBytePacket(words, data);
            && WellBounded(p) && HasExtension(p[0]) && Version(p[0]) == 2 && Profile(p) == ONE_BYTE &&
                Words(p) == words && Data(p) == data
  {
    assert HasExtension(0x90) && CsrcCount(0x90) == 0 && Version(0x90) == 2;
    hide CsrcCount, HasExtension, Version, Join16, Data, Tail, Assembled;
    AssembledParts(PLAIN_HEAD, ONE_BYTE, words, data, []);
  }

  /** A stop element hides the appended number. */
  lemma LostBehindStop()
    ensures var p := OneBytePacket(1, [0xF0, 0, 0, 0]);
            Write(p, 3, 7).Some? && Read(Write(p, 3, 7).value, 3).None?
  {
    var d := [0xF0, 0, 0, 0];
    var p := OneBytePacket(1, d);
    assert Find(d, 3) == Stopped;
    LostExample(p, d);
  }

  /** A full block wraps its length field, and the number ends up in the payload. */
  lemma LostByWrapping(d: Bytes)
    requires |d| == 4 * 0xFFFF && forall i :: 0 <= i < |d| ==> d[i] == 0
    ensures var p := OneBytePacket(0xFFFF, d);
            Write(p, 3, 7).Some? && Read(Write(p, 3, 7).value, 3).None?
  {
    AllZerosAbsent(d, 3);
    hide Find;
    LostExample(OneBytePacket(0xFFFF, d), d);
  }

  lemma {:induction false} AllZerosAbsent(d: Bytes, id: byte)
    requires forall i :: 0 <= i < |d| ==> d[i] == 0
    ensures Find(d, id).Absent?
    decreases |d|
  {
    if d != [] {
      AllZerosAbsent(d[1..], id);
    }
  }

  lemma LostExample(p: Bytes, d: Bytes)
    requires |d| % 4 == 0 && |d| / 4 <= 0xFFFF && p == OneBytePacket(|d| / 4, d)
    requires Find(d, 3).Stopped? || (Find(d, 3).Absent? && |d| == 4 * 0xFFFF)
    ensures Write(p, 3, 7).Some? && Read(Write(p, 3, 7).value, 3).None?
  {
    hide Write, Read, Find, CsrcCount, HasExtension, Version, Join16, Tail, Data, OneBytePacket;
    OneByteParts(|d| / 4, d);
    WriteCases(p, 3, 7);
    UnreachableLost(p, 3, 7);
  }
}
