/** One-byte header extension elements: section 4.2 of RFC 8285. */
module ExtensionBlocks {
  import opened Basics
  import opened RtpPackets

  const ONE_BYTE: uint16 := 0xBEDE

  datatype Element = Element(id: byte, data: Bytes)

  datatype Ending = Complete | Stop | Broken

  /** The elements of a block up to its end, a stop element or a truncated element. */
  datatype Elements = Elements(list: seq<Element>, ending: Ending)

  function Id(header: byte): byte { header / 16 }

  function DataSize(header: byte): (n: nat)
    ensures 1 <= n <= 16
  {
    header % 16 + 1
  }

  function Cons(e: Element, rest: Elements): Elements {
    Elements([e] + rest.list, rest.ending)
  }

  function Parse(d: Bytes): Elements
    decreases |d|
  {
    if d == [] then Elements([], Complete)
    else if d[0] == 0 then Parse(d[1..])
    else if Id(d[0]) == 15 then Elements([], Stop)
    else if |d| < 1 + DataSize(d[0]) then Elements([], Broken)
    else Cons(Element(Id(d[0]), d[1..1 + DataSize(d[0])]), Parse(d[1 + DataSize(d[0])..]))
  }

  /** A two-byte element for `id`, padded to a word. */
  function Word(id: byte, x: uint16): (w: Bytes)
    requires 1 <= id <= 14
    ensures |w| == 4
  {
    [id * 16 + 1, High(x), Low(x), 0]
  }

  /** Where the writer and the reader find the value of element `id`, or why they do not. */
  datatype Search = Found(at: nat) | Absent | Stopped | Refused

  function Shift(s: Search, n: nat): Search {
    if s.Found? then Found(s.at + n) else s
  }

  function Find(d: Bytes, id: byte): (s: Search)
    ensures s.Found? ==> 1 <= s.at && s.at + 2 <= |d|
    decreases |d|
  {
    if d == [] then Absent
    else if d[0] == 0 then Shift(Find(d[1..], id), 1)
    else if Id(d[0]) == 15 then Stopped
    else if |d| < 1 + DataSize(d[0]) then Refused
    else if Id(d[0]) == id then if DataSize(d[0]) == 2 then Found(1) else Refused
    else Shift(Find(d[1 + DataSize(d[0])..], id), 1 + DataSize(d[0]))
  }

  /** The block with the two bytes at `at` replaced. */
  function Put(d: Bytes, at: nat, x: uint16): (r: Bytes)
    requires at + 2 <= |d|
    ensures |r| == |d|
  {
    d[..at] + Two(x) + d[at + 2..]
  }

  // ---- appending to a block ----

  lemma Suffix(d: Bytes, e: Bytes, n: nat)
    requires n <= |d|
    ensures (d + e)[n..] == d[n..] + e
  {
  }

  /** A block that starts with a whole element. */
  predicate StartsElement(d: Bytes) {
    d != [] && d[0] != 0 && Id(d[0]) != 15 && |d| >= 1 + DataSize(d[0])
  }

  lemma ParseStep(d: Bytes)
    requires StartsElement(d)
    ensures Parse(d) == Cons(Element(Id(d[0]), d[1..1 + DataSize(d[0])]), Parse(d[1 + DataSize(d[0])..]))
  {
  }

  /** A complete block followed by another holds the elements of both. */
  lemma {:induction false} ParseAppend(d: Bytes, e: Bytes)
    requires Parse(d).ending == Complete
    ensures Parse(d + e) == Elements(Parse(d).list + Parse(e).list, Parse(e).ending)
    decreases |d|
  {
    hide Id, DataSize;
    if d == [] {
      assert d + e == e;
    } else if d[0] == 0 {
      ParseAppend(d[1..], e);
      Suffix(d, e, 1);
    } else {
      var n := 1 + DataSize(d[0]);
      assert StartsElement(d) && StartsElement(d + e);
      ParseStep(d);
      ParseStep(d + e);
      ParseAppend(d[n..], e);
      Suffix(d, e, n);
      assert (d + e)[1..n] == d[1..n];
      hide Parse;
      ConsAppend(Element(Id(d[0]), d[1..n]), Parse(d[n..]).list, Parse(e).list);
    }
  }

  lemma ConsAppend(x: Element, a: seq<Element>, b: seq<Element>)
    ensures [x] + (a + b) == ([x] + a) + b
  {
  }

  lemma WordHeader(id: byte, x: uint16)
    requires 1 <= id <= 14
    ensures Id(Word(id, x)[0]) == id && DataSize(Word(id, x)[0]) == 2 && Word(id, x)[0] != 0
  {
  }

  lemma ParseWord(id: byte, x: uint16)
    requires 1 <= id <= 14
    ensures Parse(Word(id, x)) == Elements([Element(id, Two(x))], Complete)
  {
    var w := Word(id, x);
    WordHeader(id, x);
    hide Id, DataSize, High, Low;
    assert w[1..3] == Two(x) && w[3..] == [0];
    assert Parse([0]) == Parse([0][1..]) == Elements([], Complete);
  }

  lemma FindWord(id: byte, x: uint16)
    requires 1 <= id <= 14
    ensures Find(Word(id, x), id) == Found(1)
  {
    WordHeader(id, x);
  }

  /** A search that reaches the end continues in what is appended; one that stops early does not. */
  lemma {:induction false} FindAppend(d: Bytes, e: Bytes, id: byte)
    ensures Find(d, id).Absent? ==> Find(d + e, id) == Shift(Find(e, id), |d|)
    ensures Find(d, id).Stopped? ==> Find(d + e, id).Stopped?
    ensures Find(d, id).Found? ==> Find(d + e, id) == Find(d, id)
    decreases |d|
  {
    hide Id;
    if d == [] {
      assert d + e == e;
    } else {
      var n := if d[0] == 0 then 1 else 1 + DataSize(d[0]);
      if n <= |d| {
        FindAppend(d[n..], e, id);
        Suffix(d, e, n);
      }
    }
  }

  /** A search that reaches the end has passed every element, none with this identifier. */
  lemma {:induction false} AbsentMeansComplete(d: Bytes, id: byte)
    requires Find(d, id).Absent?
    ensures Parse(d).ending == Complete && forall i :: 0 <= i < |Parse(d).list| ==> Parse(d).list[i].id != id
    decreases |d|
  {
    hide Id;
    if d != [] {
      AbsentMeansComplete(d[if d[0] == 0 then 1 else 1 + DataSize(d[0])..], id);
    }
  }

  // ---- replacing a value ----

  lemma PutSuffix(d: Bytes, at: nat, x: uint16, n: nat)
    requires n <= at && at + 2 <= |d|
    ensures Put(d, at, x)[n..] == Put(d[n..], at - n, x) && forall i :: 0 <= i < at ==> Put(d, at, x)[i] == d[i]
    ensures Put(d, at, x)[..n] == d[..n]
  {
  }

  lemma {:induction false} FindPut(d: Bytes, id: byte, x: uint16)
    requires Find(d, id).Found?
    ensures Find(Put(d, Find(d, id).at, x), id) == Find(d, id)
    decreases |d|
  {
    hide Id, DataSize, High, Low, Put;
    var at := Find(d, id).at;
    PutSuffix(d, at, x, 1);
    if d[0] == 0 {
      FindPut(d[1..], id, x);
    } else if Id(d[0]) != id {
      var n := 1 + DataSize(d[0]);
      FindPut(d[n..], id, x);
      PutSuffix(d, at, x, n);
    }
  }

  /** The value at the place a search found. */
  lemma PutReads(d: Bytes, at: nat, x: uint16)
    requires at + 2 <= |d|
    ensures Put(d, at, x)[at] == High(x) && Put(d, at, x)[at + 1] == Low(x)
    ensures Put(d, at, x)[at..at + 2] == Two(x)
    ensures forall i :: 0 <= i < |d| && i != at && i != at + 1 ==> Put(d, at, x)[i] == d[i]
  {
  }

  /** The elements with the first one of this identifier given a new value. */
  function Replaced(list: seq<Element>, id: byte, data: Bytes): seq<Element> {
    if list == [] then []
    else if list[0].id == id then [Element(id, data)] + list[1..]
    else [list[0]] + Replaced(list[1..], id, data)
  }

  lemma ReplacedCons(x: Element, list: seq<Element>, id: byte, data: Bytes)
    ensures Replaced([x] + list, id, data) == if x.id == id then [Element(id, data)] + list
            else [x] + Replaced(list, id, data)
  {
    assert ([x] + list)[1..] == list;
  }

  /** The element itself: its two bytes are the first ones behind the header. */
  lemma PutFirst(d: Bytes, id: byte, x: uint16)
    requires StartsElement(d) && DataSize(d[0]) == 2
    ensures var r := Put(d, 1, x); StartsElement(r) && r[0] == d[0] && r[1..3] == Two(x) && r[3..] == d[3..]
  {
    hide Id, DataSize, High, Low;
  }

  lemma PutLater(d: Bytes, at: nat, x: uint16, n: nat)
    requires StartsElement(d) && n == 1 + DataSize(d[0]) <= at && at + 2 <= |d|
    ensures var r := Put(d, at, x);
            StartsElement(r) && r[0] == d[0] && r[1..n] == d[1..n] && r[n..] == Put(d[n..], at - n, x)
  {
    hide Id, DataSize, High, Low;
    PutSuffix(d, at, x, n);
  }

  /** Replacing the value found changes that element and no other. */
  lemma {:induction false} ParsePut(d: Bytes, id: byte, x: uint16)
    requires Find(d, id).Found?
    ensures Parse(Put(d, Find(d, id).at, x)) == Elements(Replaced(Parse(d).list, id, Two(x)), Parse(d).ending)
    decreases |d|
  {
    hide Id, DataSize, High, Low, Put, Replaced;
    var at := Find(d, id).at;
    var r := Put(d, at, x);
    if d[0] == 0 {
      ParsePut(d[1..], id, x);
      PutSuffix(d, at, x, 1);
      assert r[0] == 0;
    } else {
      var n := 1 + DataSize(d[0]);
      ParseStep(d);
      if Id(d[0]) == id {
        PutFirst(d, id, x);
      } else {
        ParsePut(d[n..], id, x);
        PutLater(d, at, x, n);
      }
      ParseStep(r);
      hide Parse, Find;
      ReplacedCons(Element(Id(d[0]), d[1..n]), Parse(d[n..]).list, id, Two(x));
    }
  }
}
