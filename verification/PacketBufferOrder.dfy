/**
 Arrival order does not matter: within the ring's window, any permutation of the
 packets that follow the cursor yields the access units of in-order delivery.
 */
module PacketBufferOrder {
  import opened Basics
  import opened H264Payload
  import opened SequenceUnwrapper
  import opened PacketBufferModel
  import opened PacketBufferSafety

  // ---- packets above the cursor do not influence a step ----

  lemma RemoveUnder(a: Packets, extra: Packets, lo: int, hi: int)
    requires forall k :: k in extra ==> k > hi
    ensures Remove(a + extra, lo, hi) == Remove(a, lo, hi) + extra
  {
  }

  lemma EnterUnder(c: Core, s: int, extra: Packets)
    requires s in c.packets && forall k :: k in extra ==> k > s
    ensures Enter(c.(packets := c.packets + extra), s) == Enter(c, s).(packets := Enter(c, s).packets + extra)
  {
    if c.frameStart.Some? {
      RemoveUnder(c.packets, extra, c.frameStart.value, s - 1);
    }
  }

  lemma LimitUnder(cfg: Config, c: Core, s: int, extra: Packets)
    requires c.frameStart.Some? && forall k :: k in extra ==> k > s
    ensures Limit(cfg, c.(packets := c.packets + extra), s) ==
            Limit(cfg, c, s).(packets := Limit(cfg, c, s).packets + extra)
  {
    RemoveUnder(c.packets, extra, if c.discarding then s else c.frameStart.value, s);
  }

  lemma AssembleUnder(cfg: Config, a: Packets, extra: Packets, first: int, s: int)
    requires forall k :: k in extra ==> k > s
    ensures Assemble(cfg, a + extra, first, s) == Assemble(cfg, a, first, s)
  {
    hide Assembles, Frame;
    assert forall k :: k <= s ==> (k in a + extra <==> k in a);
    assert HasWindow(a + extra, first, s) <==> HasWindow(a, first, s);
    if first <= s && HasWindow(a, first, s) {
      assert Window(a + extra, first, s) == Window(a, first, s);
    }
  }

  lemma AdvanceUnder(cfg: Config, c: Core, s: int, extra: Packets)
    requires s in c.packets && forall k :: k in extra ==> k > s
    ensures Advance(cfg, c.(packets := c.packets + extra), s) ==
            (Advance(cfg, c, s).0.(packets := Advance(cfg, c, s).0.packets + extra), Advance(cfg, c, s).1)
  {
    EnterUnder(c, s, extra);
    var e := Enter(c, s);
    LimitUnder(cfg, e, s, extra);
    var d := Limit(cfg, e, s);
    RemoveUnder(d.packets, extra, d.frameStart.value, s);
    AssembleUnder(cfg, d.packets, extra, d.frameStart.value, s);
  }

  // ---- in-order delivery ----

  /** The packets `ps`, numbered base+1, base+2, ..., arriving at a buffer in state `start`. */
  datatype Batch = Batch(cfg: Config, start: Core, base: int, ps: seq<ParsedPacket>)

  function Fed(b: Batch, d: Core, k: nat): Core
    requires k < |b.ps|
  {
    d.(packets := d.packets[b.base + 1 + k := b.ps[k]])
  }

  /** The core and the access units after the first k packets, delivered in sequence. */
  function InOrder(b: Batch, k: nat): (Core, seq<Emission>)
    requires k <= |b.ps|
    decreases k
  {
    if k == 0 then (b.start, [])
    else
      var (d, es) := InOrder(b, k - 1);
      var (d', e) := Advance(b.cfg, Fed(b, d, k - 1), b.base + k);
      (d', es + e)
  }

  /** An established cursor with nothing stored above it. */
  predicate Caught(c: Core, base: int) {
    c.lastSeq == Some(base) && !c.waiting && forall k :: k in c.packets ==> k <= base
  }

  /** The packets still stored and the n to come share the ring without colliding. */
  predicate Fits(c: Core, base: int, n: int) {
    n < SLOTS && forall k :: k in c.packets ==> base + n - k < SLOTS
  }

  predicate Good(b: Batch) {
    && Caught(b.start, b.base) && Fits(b.start, b.base, |b.ps|)
    && forall i :: 0 <= i < |b.ps| ==> b.ps[i].seqNo == (b.base + 1 + i) % CYCLE && Usable(b.ps[i])
  }

  lemma {:induction false} InOrderInv(b: Batch, k: nat)
    requires k <= |b.ps| && Good(b)
    ensures Caught(InOrder(b, k).0, b.base + k)
    ensures Fits(InOrder(b, k).0, b.base + k, |b.ps| - k)
  {
    hide Advance;
    if k > 0 {
      InOrderInv(b, k - 1);
      var d := InOrder(b, k - 1).0;
      AdvanceShrinks(b.cfg, Fed(b, d, k - 1), b.base + k);
    }
  }

  // ---- a partially received batch: S holds the indices received so far ----

  /** The received packets from index k on. */
  function Pending(b: Batch, S: set<int>, k: int): Packets {
    map s {:trigger Index(b, s)} | b.base < s <= b.base + |b.ps| && k <= Index(b, s) && Index(b, s) in S
      :: b.ps[Index(b, s)]
  }

  function Index(b: Batch, s: int): int {
    s - b.base - 1
  }

  lemma PendingSplit(b: Batch, S: set<int>, k: nat, m: Packets)
    requires k < |b.ps| && k in S
    ensures m + Pending(b, S, k) == m[b.base + 1 + k := b.ps[k]] + Pending(b, S, k + 1)
  {
    var s := b.base + 1 + k;
    assert Index(b, s) == k;
  }

  lemma PendingGrow(b: Batch, S: set<int>, k: nat, i: nat, m: Packets)
    requires k <= i < |b.ps|
    ensures (m + Pending(b, S, k))[b.base + 1 + i := b.ps[i]] == m + Pending(b, S + {i}, k)
  {
    var s := b.base + 1 + i;
    assert Index(b, s) == i;
    assert forall x :: Index(b, x) == i ==> x == s;
  }

  /** How many leading packets have been received, counting from k. */
  function Prefix(S: set<int>, k: nat, n: nat): (r: nat)
    requires k <= n
    ensures k <= r <= n
    ensures forall j :: k <= j < r ==> j in S
    ensures r < n ==> r !in S
    decreases n - k
  {
    if k < n && k in S then Prefix(S, k + 1, n) else k
  }

  lemma PrefixUnique(S: set<int>, k: nat, n: nat, r: nat)
    requires k <= r <= n && (forall j :: k <= j < r ==> j in S) && (r < n ==> r !in S)
    ensures Prefix(S, k, n) == r
  {
  }

  lemma PrefixGrows(S: set<int>, i: nat, n: nat)
    requires i < n && Prefix(S, 0, n) == i
    ensures Prefix(S + {i}, 0, n) > i
  {
    var r := Prefix(S + {i}, 0, n);
    assert r in S + {i} || r >= i;
  }

  function With(d: Core, extra: Packets): Core {
    d.(packets := d.packets + extra)
  }

  /** The buffer that has processed k packets in sequence and stores the received rest. */
  function At(b: Batch, S: set<int>, k: nat): Core
    requires k <= |b.ps|
  {
    With(InOrder(b, k).0, Pending(b, S, k))
  }

  lemma AtStep(b: Batch, S: set<int>, k: nat)
    requires k < |b.ps| && k in S && Good(b)
    ensures b.base + 1 + k in At(b, S, k).packets
    ensures Advance(b.cfg, At(b, S, k), b.base + 1 + k).0 == At(b, S, k + 1)
    ensures InOrder(b, k + 1).1 == InOrder(b, k).1 + Advance(b.cfg, At(b, S, k), b.base + 1 + k).1
  {
    hide Advance, InOrder, Pending, Good;
    var d := InOrder(b, k).0;
    var s := b.base + 1 + k;
    var extra := Pending(b, S, k + 1);
    InOrderStep(b, k);
    PendingSplit(b, S, k, d.packets);
    PendingAbove(b, S, k + 1);
    assert With(d, Pending(b, S, k)) == With(Fed(b, d, k), extra);
    AdvanceUnder(b.cfg, Fed(b, d, k), s, extra);
  }

  lemma InOrderStep(b: Batch, k: nat)
    requires k < |b.ps|
    ensures InOrder(b, k + 1).0 == Advance(b.cfg, Fed(b, InOrder(b, k).0, k), b.base + 1 + k).0
    ensures InOrder(b, k + 1).1 == InOrder(b, k).1 + Advance(b.cfg, Fed(b, InOrder(b, k).0, k), b.base + 1 + k).1
  {
    hide Advance;
  }

  lemma PendingAbove(b: Batch, S: set<int>, k: nat)
    ensures forall x :: x in Pending(b, S, k) ==> x > b.base + k
  {
  }

  lemma AtStops(b: Batch, S: set<int>, k: nat)
    requires k <= |b.ps| && Good(b) && (k < |b.ps| ==> k !in S)
    ensures b.base + 1 + k !in At(b, S, k).packets
  {
    InOrderInv(b, k);
    hide InOrder, Fits;
    assert Index(b, b.base + 1 + k) == k;
  }

  /** The walk runs through exactly the received prefix. */
  lemma {:induction false} WalkThroughPrefix(b: Batch, S: set<int>, k: nat, steps: nat)
    requires k <= |b.ps| && steps >= |b.ps| - k && Good(b)
    ensures Walk(b.cfg, At(b, S, k), b.base + 1 + k, steps).0 == At(b, S, Prefix(S, k, |b.ps|))
    ensures InOrder(b, Prefix(S, k, |b.ps|)).1 == InOrder(b, k).1 + Walk(b.cfg, At(b, S, k), b.base + 1 + k, steps).1
    decreases |b.ps| - k
  {
    hide Advance, InOrder, At, Good;
    var here := InOrder(b, k).1;
    if k < |b.ps| && k in S {
      AtStep(b, S, k);
      WalkThroughPrefix(b, S, k + 1, steps - 1);
      var e := Advance(b.cfg, At(b, S, k), b.base + 1 + k).1;
      var rest := Walk(b.cfg, At(b, S, k + 1), b.base + 2 + k, steps - 1).1;
      assert (here + e) + rest == here + (e + rest);
    } else {
      AtStops(b, S, k);
      assert here + [] == here;
    }
  }

  // ---- inserting one packet of the batch ----

  lemma ApartDiffer(a: int, b: int)
    requires a != b && -SLOTS < a - b < SLOTS
    ensures Slot(a) != Slot(b)
  {
  }

  lemma AtInv(b: Batch, S: set<int>, k: nat)
    requires k <= |b.ps| && Good(b)
    ensures forall x :: x in At(b, S, k).packets ==> x <= b.base + |b.ps| && b.base + |b.ps| - x < SLOTS
    ensures At(b, S, k).lastSeq == Some(b.base + k) && !At(b, S, k).waiting
  {
    InOrderInv(b, k);
    hide InOrder;
  }

  lemma AtMisses(b: Batch, S: set<int>, k: nat, i: nat)
    requires k <= i < |b.ps| && i !in S && Good(b)
    ensures b.base + 1 + i !in At(b, S, k).packets
  {
    InOrderInv(b, k);
    hide InOrder, Fits;
    assert Index(b, b.base + 1 + i) == i;
  }

  lemma FreeSlot(a: Core, s: int, p: ParsedPacket)
    requires a.lastSeq.Some? && s > a.lastSeq.value && s !in a.packets
    requires forall x :: x in a.packets ==> -SLOTS < x - s < SLOTS
    ensures OutcomeOf(a, s) == Stored(false)
    ensures Store(a.packets, s, p) == a.packets[s := p]
  {
    forall x | x in a.packets ensures Slot(x) != Slot(s) {
      ApartDiffer(x, s);
    }
    hide Slot;
  }

  lemma AtGrows(b: Batch, S: set<int>, k: nat, i: nat)
    requires k <= i < |b.ps|
    ensures At(b, S + {i}, k) == At(b, S, k).(packets := At(b, S, k).packets[b.base + 1 + i := b.ps[i]])
  {
    hide InOrder, Pending;
    PendingGrow(b, S, k, i, InOrder(b, k).0.packets);
  }

  lemma FreshIsStored(b: Batch, S: set<int>, k: nat, i: nat)
    requires k <= i < |b.ps| && i !in S && Good(b)
    ensures OutcomeOf(At(b, S, k), b.base + 1 + i) == Stored(false)
    ensures At(b, S, k).(packets := Store(At(b, S, k).packets, b.base + 1 + i, b.ps[i])) == At(b, S + {i}, k)
  {
    hide At, Good, OutcomeOf, Store;
    AtInv(b, S, k);
    AtMisses(b, S, k, i);
    AtGrows(b, S, k, i);
    assert |b.ps| < SLOTS by { SmallBatch(b); }
    FreeSlot(At(b, S, k), b.base + 1 + i, b.ps[i]);
  }

  lemma SmallBatch(b: Batch)
    requires Good(b)
    ensures |b.ps| < SLOTS
  {
  }

  lemma ResumeAtCursor(cfg: Config, a: Core, s: int, p: ParsedPacket)
    requires a.lastSeq == Some(s - 1) && !a.waiting
    ensures Resume(cfg, a, s, p) == Some(a)
  {
  }

  lemma NoResumeBeyond(cfg: Config, a: Core, s: int, p: ParsedPacket)
    requires a.lastSeq.Some? && s > a.lastSeq.value + 1
    requires !BeginningOfStream(cfg, p) || a.lastTimestamp == Some(p.timestamp)
    ensures Resume(cfg, a, s, p) == None
  {
  }

  lemma FindFromCursor(cfg: Config, a: Core, s: int)
    requires s in a.packets && a.lastSeq == Some(s - 1) && !a.waiting
    ensures FindFrames(cfg, a, s) == Walk(cfg, a, s, SLOTS)
  {
    hide Resume, Walk;
    ResumeAtCursor(cfg, a, s, a.packets[s]);
  }

  /** The packet at the cursor arrives: the walk consumes the received prefix. */
  lemma WalkAtCursor(b: Batch, S: set<int>, k: nat)
    requires k < |b.ps| && Prefix(S, 0, |b.ps|) > k && Good(b)
    ensures Walk(b.cfg, At(b, S, k), b.base + 1 + k, SLOTS).0 == At(b, S, Prefix(S, 0, |b.ps|))
    ensures InOrder(b, Prefix(S, 0, |b.ps|)).1 == InOrder(b, k).1 + Walk(b.cfg, At(b, S, k), b.base + 1 + k, SLOTS).1
  {
    hide InOrder, At, Walk, Good;
    SmallBatch(b);
    PrefixUnique(S, k, |b.ps|, Prefix(S, 0, |b.ps|));
    WalkThroughPrefix(b, S, k, SLOTS);
  }

  /** A packet beyond the cursor arrives: it is kept for later. */
  lemma FindBeyond(cfg: Config, a: Core, s: int)
    requires s in a.packets && a.lastSeq.Some? && s > a.lastSeq.value + 1
    requires !BeginningOfStream(cfg, a.packets[s]) || a.lastTimestamp == Some(a.packets[s].timestamp)
    ensures FindFrames(cfg, a, s) == (a, [])
  {
    hide Resume, Walk, BeginningOfStream;
    NoResumeBeyond(cfg, a, s, a.packets[s]);
  }

  /** The timestamp at the cursor after the first k packets. */
  function TimestampAt(b: Batch, k: nat): Option<uint32>
    requires k <= |b.ps|
  {
    if k == 0 then b.start.lastTimestamp else Some(b.ps[k - 1].timestamp)
  }

  /**
   Packet i, arriving after those in S, does not restart the stream: it is no recovery
   point, or it is the next packet anyway, or it belongs to the picture at the cursor.
   */
  predicate Harmless(b: Batch, S: set<int>, i: nat)
    requires i < |b.ps|
  {
    var k := Prefix(S, 0, |b.ps|);
    !BeginningOfStream(b.cfg, b.ps[i]) || i == k || TimestampAt(b, k) == Some(b.ps[i].timestamp)
  }

  lemma AdvanceTimestamp(cfg: Config, c: Core, s: int)
    requires s in c.packets
    ensures Advance(cfg, c, s).0.lastTimestamp == Some(c.packets[s].timestamp)
  {
    hide Assemble, Remove;
  }

  lemma {:induction false} TimestampInOrder(b: Batch, k: nat)
    requires k <= |b.ps|
    ensures InOrder(b, k).0.lastTimestamp == TimestampAt(b, k)
  {
    hide Advance, InOrder;
    if k == 0 {
      InOrderStart(b);
    } else {
      InOrderStep(b, k - 1);
      AdvanceTimestamp(b.cfg, Fed(b, InOrder(b, k - 1).0, k - 1), b.base + k);
    }
  }

  lemma InOrderStart(b: Batch)
    ensures InOrder(b, 0) == (b.start, [])
  {
  }

  lemma AtTimestamp(b: Batch, S: set<int>, k: nat)
    requires k <= |b.ps|
    ensures At(b, S, k).lastTimestamp == TimestampAt(b, k)
  {
    hide InOrder, Pending;
    TimestampInOrder(b, k);
  }

  lemma InsertAtCursor(b: Batch, S: set<int>, i: nat)
    requires i < |b.ps| && i !in S && Good(b) && i == Prefix(S, 0, |b.ps|)
    requires b.base + 1 + i in At(b, S + {i}, i).packets
    ensures var k' := Prefix(S + {i}, 0, |b.ps|);
            var (d, es) := FindFrames(b.cfg, At(b, S + {i}, i), b.base + 1 + i);
            d == At(b, S + {i}, k') && InOrder(b, k').1 == InOrder(b, i).1 + es
  {
    hide At, InOrder, FindFrames, Good, Walk, Prefix;
    AtInv(b, S + {i}, i);
    FindFromCursor(b.cfg, At(b, S + {i}, i), b.base + 1 + i);
    PrefixGrows(S, i, |b.ps|);
    WalkAtCursor(b, S + {i}, i);
  }

  lemma InsertBeyond(b: Batch, S: set<int>, i: nat)
    requires i < |b.ps| && i !in S && Good(b) && Harmless(b, S, i) && i != Prefix(S, 0, |b.ps|)
    requires var a := At(b, S + {i}, Prefix(S, 0, |b.ps|));
             b.base + 1 + i in a.packets && a.packets[b.base + 1 + i] == b.ps[i]
    ensures var k := Prefix(S, 0, |b.ps|);
            Prefix(S + {i}, 0, |b.ps|) == k &&
                FindFrames(b.cfg, At(b, S + {i}, k), b.base + 1 + i) == (At(b, S + {i}, k), [])
  {
    hide At, InOrder, FindFrames, Good, BeginningOfStream, TimestampAt;
    var k := Prefix(S, 0, |b.ps|);
    AtInv(b, S + {i}, k);
    PrefixUnique(S + {i}, 0, |b.ps|, k);
    AtTimestamp(b, S + {i}, k);
    FindBeyond(b.cfg, At(b, S + {i}, k), b.base + 1 + i);
  }

  lemma InsertOne(b: Batch, S: set<int>, i: nat)
    requires i < |b.ps| && i !in S && Good(b) && Harmless(b, S, i)
    ensures var k := Prefix(S, 0, |b.ps|);
            var k' := Prefix(S + {i}, 0, |b.ps|);
            var (d, es) := InsertCore(b.cfg, At(b, S, k), b.base + 1 + i, b.ps[i]);
            && d == At(b, S + {i}, k')
            && InOrder(b, k').1 == InOrder(b, k).1 + es
  {
    hide At, InOrder, FindFrames, OutcomeOf, Good, Harmless, Prefix;
    var k := Prefix(S, 0, |b.ps|);
    FreshIsStored(b, S, k, i);
    StoreHas(At(b, S, k).packets, b.base + 1 + i, b.ps[i]);
    hide Store;
    if i == k {
      InsertAtCursor(b, S, i);
    } else {
      InsertBeyond(b, S, i);
      assert InOrder(b, k).1 + [] == InOrder(b, k).1;
    }
  }

  lemma StoreHas(m: Packets, s: int, p: ParsedPacket)
    ensures s in Store(m, s, p) && Store(m, s, p)[s] == p
  {
  }

  // ---- whole deliveries ----

  datatype Delivery = Delivery(index: int, now: int)

  predicate IsPermutation(ds: seq<Delivery>, n: nat) {
    && |ds| == n
    && (forall j :: 0 <= j < |ds| ==> 0 <= ds[j].index < n)
    && (forall i, j :: 0 <= i < j < |ds| ==> ds[i].index != ds[j].index)
    && (forall i :: 0 <= i < n ==> i in Indices(ds))
  }

  function Indices(ds: seq<Delivery>): set<int> {
    set j | 0 <= j < |ds| :: ds[j].index
  }

  /** All times involved lie within one waiting period, so nothing expires. */
  predicate Prompt(cfg: Config, st: State, ds: seq<Delivery>) {
    && (forall k, j :: k in st.arrivals && 0 <= j < |ds| ==> ds[j].now - st.arrivals[k] < cfg.maxWaitMs)
    && (forall i, j :: 0 <= i < |ds| && 0 <= j < |ds| ==> ds[j].now - ds[i].now < cfg.maxWaitMs)
  }

  function Arrivals(ps: seq<ParsedPacket>, ds: seq<Delivery>): (events: seq<Event>)
    requires forall j :: 0 <= j < |ds| ==> 0 <= ds[j].index < |ps|
    ensures |events| == |ds|
  {
    if ds == [] then [] else [Arrive(ps[ds[0].index], ds[0].now)] + Arrivals(ps, ds[1..])
  }

  /** No packet restarts the stream at the moment it arrives. */
  predicate NoRestart(b: Batch, S: set<int>, ds: seq<Delivery>)
    requires forall j :: 0 <= j < |ds| ==> 0 <= ds[j].index < |b.ps|
    decreases |ds|
  {
    ds == [] || (Harmless(b, S, ds[0].index) && NoRestart(b, S + {ds[0].index}, ds[1..]))
  }

  /** `st` is the buffer after the packets in S have arrived, in some order. */
  predicate Mid(b: Batch, S: set<int>, st: State) {
    && st.core == At(b, S, Prefix(S, 0, |b.ps|))
    && st.latest.Some? && b.base <= st.latest.value <= b.base + |b.ps|
  }

  lemma InsertUnexpired(cfg: Config, st: State, p: ParsedPacket, s: int, now: int)
    requires Usable(p) && !Expired(cfg, st, now) && st.latest.Some? && Unwrap(st.latest, p.seqNo) == s
    ensures var (st', es) := Insert(cfg, st, p, now);
            && (st'.core, es) == InsertCore(cfg, st.core, s, p)
            && st'.latest == Some(Max(st.latest.value, s))
            && (forall k :: k in st'.arrivals ==>
                  st'.arrivals[k] == now || (k in st.arrivals && st'.arrivals[k] == st.arrivals[k]))
  {
    hide Unwrap, InsertCore, OutcomeOf;
  }

  lemma UnwrapInBatch(b: Batch, i: nat, latest: int)
    requires i < |b.ps| && Good(b) && b.base <= latest <= b.base + |b.ps|
    ensures Usable(b.ps[i]) && Unwrap(Some(latest), b.ps[i].seqNo) == b.base + 1 + i
  {
    SmallBatch(b);
    hide Unwrap;
    UnwrapRecovers(latest, b.base + 1 + i);
  }

  lemma DeliverOne(b: Batch, S: set<int>, st: State, d: Delivery)
    requires 0 <= d.index < |b.ps| && d.index !in S
    requires Good(b) && Harmless(b, S, d.index) && Mid(b, S, st) && !Expired(b.cfg, st, d.now)
    ensures var (st', es) := Insert(b.cfg, st, b.ps[d.index], d.now);
            && Mid(b, S + {d.index}, st')
            && (forall k :: k in st'.arrivals ==>
                  st'.arrivals[k] == d.now || (k in st.arrivals && st'.arrivals[k] == st.arrivals[k]))
            && InOrder(b, Prefix(S + {d.index}, 0, |b.ps|)).1 == InOrder(b, Prefix(S, 0, |b.ps|)).1 + es
  {
    hide At, InOrder, Insert, InsertCore, Prefix, Good, OutcomeOf, Expired, Unwrap, Usable, Harmless;
    var s := b.base + 1 + d.index;
    UnwrapInBatch(b, d.index, st.latest.value);
    InsertUnexpired(b.cfg, st, b.ps[d.index], s, d.now);
    InsertOne(b, S, d.index);
  }

  lemma PromptRest(cfg: Config, st: State, st1: State, ds: seq<Delivery>)
    requires ds != [] && Prompt(cfg, st, ds)
    requires forall k :: k in st1.arrivals ==>
               st1.arrivals[k] == ds[0].now || (k in st.arrivals && st1.arrivals[k] == st.arrivals[k])
    ensures Prompt(cfg, st1, ds[1..])
  {
  }

  lemma {:induction false} DeliverAll(b: Batch, S: set<int>, st: State, ds: seq<Delivery>)
    requires forall j :: 0 <= j < |ds| ==> 0 <= ds[j].index < |b.ps| && ds[j].index !in S
    requires forall i, j :: 0 <= i < j < |ds| ==> ds[i].index != ds[j].index
    requires Good(b) && NoRestart(b, S, ds) && Mid(b, S, st) && Prompt(b.cfg, st, ds)
    ensures var (st', es) := Run(b.cfg, st, Arrivals(b.ps, ds));
            var S' := S + Indices(ds);
            && Mid(b, S', st')
            && InOrder(b, Prefix(S', 0, |b.ps|)).1 == InOrder(b, Prefix(S, 0, |b.ps|)).1 + es
    decreases |ds|
  {
    hide InOrder, Prefix, Insert, Good, Harmless, Mid, Prompt, Indices, Run, Arrivals, Expired;
    var here := InOrder(b, Prefix(S, 0, |b.ps|)).1;
    DeliverySteps(b.cfg, st, b.ps, ds);
    if ds == [] {
      assert S + Indices(ds) == S;
      assert here + [] == here;
    } else {
      var S1, rest := S + {ds[0].index}, ds[1..];
      var (st1, e1) := Insert(b.cfg, st, b.ps[ds[0].index], ds[0].now);
      assert !Expired(b.cfg, st, ds[0].now) by { NotYetExpired(b.cfg, st, ds); }
      DeliverOne(b, S, st, ds[0]);
      PromptRest(b.cfg, st, st1, ds);
      DeliverAll(b, S1, st1, rest);
      IndicesHead(ds);
      assert S1 + Indices(rest) == S + Indices(ds);
      var e2 := Run(b.cfg, st1, Arrivals(b.ps, rest)).1;
      assert (here + e1) + e2 == here + (e1 + e2);
    }
  }

  lemma NotYetExpired(cfg: Config, st: State, ds: seq<Delivery>)
    requires ds != [] && Prompt(cfg, st, ds)
    ensures !Expired(cfg, st, ds[0].now)
  {
  }

  lemma DeliverySteps(cfg: Config, st: State, ps: seq<ParsedPacket>, ds: seq<Delivery>)
    requires forall j :: 0 <= j < |ds| ==> 0 <= ds[j].index < |ps|
    ensures ds == [] ==> Run(cfg, st, Arrivals(ps, ds)) == (st, []) && Indices(ds) == {}
    ensures ds != [] ==>
              var (st1, e1) := Insert(cfg, st, ps[ds[0].index], ds[0].now);
              var (st2, e2) := Run(cfg, st1, Arrivals(ps, ds[1..]));
              Run(cfg, st, Arrivals(ps, ds)) == (st2, e1 + e2)
  {
    hide Insert;
    if ds != [] {
      assert Arrivals(ps, ds)[1..] == Arrivals(ps, ds[1..]);
    }
  }

  lemma IndicesHead(ds: seq<Delivery>)
    requires ds != []
    ensures Indices(ds) == {ds[0].index} + Indices(ds[1..])
  {
    forall x | x in Indices(ds) ensures x in {ds[0].index} + Indices(ds[1..]) {
      var j :| 0 <= j < |ds| && ds[j].index == x;
      if j > 0 {
        assert ds[1..][j - 1].index == x;
      }
    }
    forall x | x in Indices(ds[1..]) ensures x in Indices(ds) {
      var j :| 0 <= j < |ds[1..]| && ds[1..][j].index == x;
      assert ds[j + 1].index == x;
    }
  }

  lemma AtEnds(b: Batch, S: set<int>)
    ensures At(b, {}, 0) == b.start
    ensures At(b, S, |b.ps|) == InOrder(b, |b.ps|).0
    ensures InOrder(b, 0).1 == []
  {
    assert Pending(b, {}, 0) == map[];
    assert b.start.packets + map[] == b.start.packets;
    assert Pending(b, S, |b.ps|) == map[];
    var m := InOrder(b, |b.ps|).0.packets;
    assert m + map[] == m;
  }

  lemma CaughtIsNewest(cfg: Config, st: State, b: Batch)
    requires StateInv(cfg, st) && st.core == b.start && Good(b)
    ensures st.latest == Some(b.base)
  {
  }

  /**
   Arrival-order independence. From an established cursor with nothing stored above it,
   every complete delivery of the next packets in which none restarts the stream yields
   the same access units in the same order, and the same buffer, as feeding the packets
   one by one in sequence.
   */
  lemma ArrivalOrderIrrelevant(b: Batch, st: State, ds: seq<Delivery>)
    requires StateInv(b.cfg, st) && st.core == b.start && Good(b)
    requires IsPermutation(ds, |b.ps|) && NoRestart(b, {}, ds) && Prompt(b.cfg, st, ds)
    ensures Run(b.cfg, st, Arrivals(b.ps, ds)).0.core == InOrder(b, |b.ps|).0
    ensures Run(b.cfg, st, Arrivals(b.ps, ds)).1 == InOrder(b, |b.ps|).1
  {
    hide At, InOrder, Run, Good, NoRestart, StateInv, Arrivals, Prompt;
    var n := |b.ps|;
    var all := {} + Indices(ds);
    PrefixUnique({}, 0, n, 0);
    PrefixUnique(all, 0, n, n);
    AtEnds(b, all);
    CaughtIsNewest(b.cfg, st, b);
    DeliverAll(b, {}, st, ds);
    var es := Run(b.cfg, st, Arrivals(b.ps, ds)).1;
    assert [] + es == es;
  }

  /** Two deliveries of the same packets cannot be told apart by what they produce. */
  lemma DeliveriesAgree(b: Batch, st: State, ds: seq<Delivery>, other: seq<Delivery>)
    requires StateInv(b.cfg, st) && st.core == b.start && Good(b)
    requires IsPermutation(ds, |b.ps|) && NoRestart(b, {}, ds) && Prompt(b.cfg, st, ds)
    requires IsPermutation(other, |b.ps|) && NoRestart(b, {}, other) && Prompt(b.cfg, st, other)
    ensures Run(b.cfg, st, Arrivals(b.ps, ds)).1 == Run(b.cfg, st, Arrivals(b.ps, other)).1
    ensures Run(b.cfg, st, Arrivals(b.ps, ds)).0.core == Run(b.cfg, st, Arrivals(b.ps, other)).0.core
  {
    ArrivalOrderIrrelevant(b, st, ds);
    ArrivalOrderIrrelevant(b, st, other);
  }

  // ---- deliveries in which nothing restarts the stream ----

  /** Each recovery point comes after all packets before it. */
  predicate RecoveryWaits(b: Batch, S: set<int>, ds: seq<Delivery>)
    requires forall j :: 0 <= j < |ds| ==> 0 <= ds[j].index < |b.ps|
  {
    forall j :: 0 <= j < |ds| && BeginningOfStream(b.cfg, b.ps[ds[j].index]) ==>
      forall x :: 0 <= x < ds[j].index ==> x in S || exists h :: 0 <= h < j && ds[h].index == x
  }

  /** Several recovery points are harmless if each waits for the packets before it. */
  lemma {:induction false} WaitingIsHarmless(b: Batch, S: set<int>, ds: seq<Delivery>)
    requires forall j :: 0 <= j < |ds| ==> 0 <= ds[j].index < |b.ps| && ds[j].index !in S
    requires forall i, j :: 0 <= i < j < |ds| ==> ds[i].index != ds[j].index
    requires RecoveryWaits(b, S, ds)
    ensures NoRestart(b, S, ds)
    decreases |ds|
  {
    hide BeginningOfStream, Prefix, TimestampAt;
    if ds != [] {
      var i, rest := ds[0].index, ds[1..];
      if BeginningOfStream(b.cfg, b.ps[i]) {
        PrefixUnique(S, 0, |b.ps|, i);
      }
      forall j, x | 0 <= j < |rest| && BeginningOfStream(b.cfg, b.ps[rest[j].index]) && 0 <= x < rest[j].index
        ensures x in S + {i} || exists h :: 0 <= h < j && rest[h].index == x
      {
        assert rest[j] == ds[j + 1];
        if x !in S {
          var h :| 0 <= h < j + 1 && ds[h].index == x;
          if h > 0 {
            assert rest[h - 1].index == x;
          }
        }
      }
      WaitingIsHarmless(b, S + {i}, rest);
    }
  }

  /** A recovery point in the first packet of the batch is harmless in every order. */
  lemma FirstIsHarmless(b: Batch, ds: seq<Delivery>)
    requires IsPermutation(ds, |b.ps|)
    requires forall i :: 1 <= i < |b.ps| ==> !BeginningOfStream(b.cfg, b.ps[i])
    ensures NoRestart(b, {}, ds)
  {
    WaitingIsHarmless(b, {}, ds);
  }

  lemma {:induction false} SamePictureHarmless(b: Batch, S: set<int>, ds: seq<Delivery>)
    requires forall j :: 0 <= j < |ds| ==> 0 <= ds[j].index < |b.ps|
    requires 0 in S && b.ps != [] && forall i :: 0 <= i < |b.ps| ==> b.ps[i].timestamp == b.ps[0].timestamp
    ensures NoRestart(b, S, ds)
    decreases |ds|
  {
    hide BeginningOfStream;
    if ds != [] {
      assert Prefix(S, 0, |b.ps|) > 0;
      SamePictureHarmless(b, S + {ds[0].index}, ds[1..]);
    }
  }

  /** Within one picture the other packets may come in any order once its first one is there. */
  lemma FirstThenAnyOrder(b: Batch, ds: seq<Delivery>)
    requires IsPermutation(ds, |b.ps|) && ds != [] && ds[0].index == 0
    requires forall i :: 0 <= i < |b.ps| ==> b.ps[i].timestamp == b.ps[0].timestamp
    ensures NoRestart(b, {}, ds)
  {
    hide BeginningOfStream;
    PrefixUnique({}, 0, |b.ps|, 0);
    SamePictureHarmless(b, {0}, ds[1..]);
    assert {} + {0} == {0};
  }

  // ---- the beginning of a stream ----

  /**
   Nothing is stored, and the first packet of the batch is a recovery point where one is
   awaited: at the very start, or after an expiry for a picture other than the one given up.
   */
  predicate Begins(b: Batch, st: State) {
    var c := st.core;
    && b.ps != [] && c.packets == map[] && (c.lastSeq.None? || c.waiting)
    && b.start == Recover(c, b.base + 1)
    && Unwrap(st.latest, b.ps[0].seqNo) == b.base + 1
    && (c.lastSeq.Some? ==> b.base + 1 > c.lastSeq.value && c.lastTimestamp != Some(b.ps[0].timestamp))
    && BeginningOfStream(b.cfg, b.ps[0])
  }

  /** The recovery point starts the walk as the next packet would in the recovered buffer. */
  lemma RecoveryStarts(b: Batch, st: State)
    requires Begins(b, st) && Good(b)
    ensures InsertCore(b.cfg, st.core, b.base + 1, b.ps[0]) == InsertCore(b.cfg, b.start, b.base + 1, b.ps[0])
  {
    var s, p, c := b.base + 1, b.ps[0], st.core;
    hide BeginningOfStream, Walk, Unwrap, Good;
    var stored := c.(packets := Store(c.packets, s, p));
    assert Store(c.packets, s, p) == map[s := p];
    assert RemoveBefore(map[s := p], s) == map[s := p];
    assert RemoveBefore(map[], s) == map[];
    assert Store(b.start.packets, s, p) == map[s := p];
    assert Resume(b.cfg, stored, s, p) == Some(b.start.(packets := map[s := p]));
    assert Resume(b.cfg, b.start.(packets := map[s := p]), s, p) == Some(b.start.(packets := map[s := p]));
  }

  lemma InsertFirst(b: Batch, st: State, now: int)
    requires StateInv(b.cfg, st) && Begins(b, st) && Good(b)
    ensures !Expired(b.cfg, st, now)
    ensures var (st', es) := Insert(b.cfg, st, b.ps[0], now);
            && (st'.core, es) == InsertCore(b.cfg, st.core, b.base + 1, b.ps[0])
            && st'.latest == Some(b.base + 1)
            && forall k :: k in st'.arrivals ==> st'.arrivals[k] == now
  {
    NothingWaits(b, st);
    hide BeginningOfStream, InsertCore, Unwrap, OutcomeOf, StateInv, Recover, Good;
    assert Flush(b.cfg, st, now) == st;
  }

  lemma NothingWaits(b: Batch, st: State)
    requires StateInv(b.cfg, st) && Begins(b, st) && Good(b)
    ensures st.arrivals == map[] && (st.latest.Some? ==> st.latest.value < b.base + 1) && Usable(b.ps[0])
  {
    hide BeginningOfStream, Unwrap, CoreInv, Recover;
    assert st.arrivals.Keys == {};
  }

  /** After the first packet the buffer is that of a batch with this packet received. */
  lemma FirstReceived(b: Batch, st: State, now: int)
    requires StateInv(b.cfg, st) && Begins(b, st) && Good(b)
    ensures var (st1, e1) := Insert(b.cfg, st, b.ps[0], now);
            && Mid(b, {0}, st1) && (forall k :: k in st1.arrivals ==> st1.arrivals[k] == now)
            && InOrder(b, Prefix({0}, 0, |b.ps|)).1 == e1
  {
    hide At, InOrder, Good, StateInv, InsertCore, Insert, Begins, BeginningOfStream, TimestampAt;
    NotEmptyBatch(b, st);
    InsertFirst(b, st, now);
    RecoveryStarts(b, st);
    PrefixUnique({}, 0, |b.ps|, 0);
    AtEnds(b, {});
    InsertOne(b, {}, 0);
    assert {} + {0} == {0};
    var e1 := Insert(b.cfg, st, b.ps[0], now).1;
    assert [] + e1 == e1;
  }

  lemma NotEmptyBatch(b: Batch, st: State)
    requires Begins(b, st)
    ensures b.ps != []
  {
  }

  /** Arrival-order independence from the beginning of a stream, its first packet arriving first. */
  lemma BeginningOrderIrrelevant(b: Batch, st: State, ds: seq<Delivery>)
    requires StateInv(b.cfg, st) && Begins(b, st) && Good(b)
    requires IsPermutation(ds, |b.ps|) && Prompt(b.cfg, st, ds) && ds[0].index == 0 && NoRestart(b, {0}, ds[1..])
    ensures Run(b.cfg, st, Arrivals(b.ps, ds)).0.core == InOrder(b, |b.ps|).0
    ensures Run(b.cfg, st, Arrivals(b.ps, ds)).1 == InOrder(b, |b.ps|).1
  {
    hide At, InOrder, Run, Good, NoRestart, StateInv, Arrivals, InsertCore, Insert, Begins, Prompt, Indices;
    NotEmptyBatch(b, st);
    var n := |b.ps|;
    var st1 := Insert(b.cfg, st, b.ps[0], ds[0].now).0;
    FirstReceived(b, st, ds[0].now);
    PromptRest(b.cfg, st, st1, ds);
    DeliverySteps(b.cfg, st, b.ps, ds);
    DeliverAll(b, {0}, st1, ds[1..]);
    IndicesHead(ds);
    PrefixUnique({0} + Indices(ds[1..]), 0, n, n);
    AtEnds(b, {0} + Indices(ds[1..]));
  }
}
