/**
 What every run of the packet buffer keeps: the stored packets and the frame cursor
 agree, and the produced access units are well formed, in order and never overlap.
 */
module PacketBufferSafety {
  import opened Basics
  import opened H264Payload
  import opened SequenceUnwrapper
  import opened PacketBufferModel

  // ---- invariants ----

  predicate SlotsDistinct(m: Packets) {
    forall a, b :: a in m && b in m && Slot(a) == Slot(b) ==> a == b
  }

  predicate Labelled(m: Packets) {
    forall k :: k in m ==> m[k].seqNo == k % CYCLE && Usable(m[k])
  }

  /** Stored packets at or below `last` are exactly members of the open, undiscarded frame. */
  predicate FrameInv(cfg: Config, c: Core, last: int) {
    && (c.frameStart.None? ==> !c.discarding)
    && (c.frameStart.Some? ==>
          && c.frameStart.value <= last
          && (c.discarding <==> last - c.frameStart.value + 1 > cfg.maxFramePackets))
    && (forall k :: k in c.packets && k <= last ==>
          && c.frameStart.Some? && !c.discarding && c.frameStart.value <= k
          && !c.packets[k].marker && c.packets[k].timestamp == c.frameTimestamp)
  }

  predicate WalkInv(cfg: Config, c: Core, s: int) {
    && SlotsDistinct(c.packets) && Labelled(c.packets)
    && c.lastSeq == Some(s - 1) && !c.waiting
    && FrameInv(cfg, c, s - 1)
  }

  /** The cursor's timestamp is known, and is the open frame's when one is open. */
  predicate Stamped(c: Core) {
    c.lastTimestamp.Some? && (c.frameStart.Some? ==> c.lastTimestamp.value == c.frameTimestamp)
  }

  predicate CoreInv(cfg: Config, c: Core) {
    && SlotsDistinct(c.packets) && Labelled(c.packets)
    && (c.lastSeq.None? ==> c.frameStart.None? && !c.discarding && !c.waiting)
    && (c.lastSeq.Some? ==>
          && Stamped(c)
          && FrameInv(cfg, c, c.lastSeq.value)
          && (c.waiting ==> c.frameStart.None?)
          && (!c.waiting ==> c.lastSeq.value + 1 !in c.packets))
  }

  predicate StateInv(cfg: Config, st: State) {
    && CoreInv(cfg, st.core)
    && st.arrivals.Keys == st.core.packets.Keys
    && (st.latest.None? ==> st.core.packets == map[] && st.core.lastSeq.None?)
    && (st.latest.Some? ==> IsNewest(st.core, st.latest.value))
  }

  /** `l` bounds every number in use and is either stored or the cursor itself. */
  predicate IsNewest(c: Core, l: int) {
    && (forall k :: k in c.packets ==> k <= l)
    && (c.lastSeq.Some? ==> c.lastSeq.value <= l)
    && (l in c.packets || c.lastSeq == Some(l))
  }

  // ---- what a produced access unit looks like ----

  predicate EmissionOk(cfg: Config, e: Emission) {
    && e.first <= e.last
    && |e.packets| == e.last - e.first + 1 <= cfg.maxFramePackets
    && (forall i :: 0 <= i < |e.packets| ==>
          && Usable(e.packets[i])
          && e.packets[i].seqNo == (e.first + i) % CYCLE
          && (e.packets[i].marker <==> i == |e.packets| - 1))
    && Assembles(cfg, e.packets)
    && e.frame == Frame(cfg, e.packets, e.first)
  }

  /** Lower bounds on positions; None is below every position. */
  predicate Leq(a: Option<int>, b: Option<int>) {
    a.None? || (b.Some? && a.value <= b.value)
  }

  predicate Ordered(cfg: Config, es: seq<Emission>, lo: Option<int>, hi: Option<int>) {
    && Leq(lo, hi)
    && (forall i :: 0 <= i < |es| ==>
          EmissionOk(cfg, es[i]) && Leq(lo, Some(es[i].first)) && Leq(Some(es[i].last + 1), hi))
    && (forall i, j :: 0 <= i < j < |es| ==> es[i].last < es[j].first)
  }

  lemma OrderedEmpty(cfg: Config, lo: Option<int>, hi: Option<int>)
    requires Leq(lo, hi)
    ensures Ordered(cfg, [], lo, hi)
  {
  }

  lemma OrderedConcat(cfg: Config, a: seq<Emission>, b: seq<Emission>,
                      lo: Option<int>, mid: Option<int>, hi: Option<int>)
    requires Ordered(cfg, a, lo, mid) && Ordered(cfg, b, mid, hi)
    ensures Ordered(cfg, a + b, lo, hi)
  {
    forall i | 0 <= i < |a + b|
      ensures EmissionOk(cfg, (a + b)[i]) && Leq(lo, Some((a + b)[i].first)) && Leq(Some((a + b)[i].last + 1), hi)
    {
      if i < |a| { assert (a + b)[i] == a[i]; } else { assert (a + b)[i] == b[i - |a|]; }
    }
    forall i, j | 0 <= i < j < |a + b| ensures (a + b)[i].last < (a + b)[j].first
    {
      if j < |a| {
        assert (a + b)[i] == a[i] && (a + b)[j] == a[j];
      } else if |a| <= i {
        assert (a + b)[i] == b[i - |a|] && (a + b)[j] == b[j - |a|];
      } else {
        assert (a + b)[i] == a[i] && (a + b)[j] == b[j - |a|];
      }
    }
  }

  /** Nothing below this position can be produced from `c`. */
  function Bound(c: Core): Option<int> {
    if c.lastSeq.None? then None
    else if c.frameStart.Some? then c.frameStart
    else Some(c.lastSeq.value + 1)
  }

  predicate SubMap(a: Packets, b: Packets) {
    forall k :: k in a ==> k in b && a[k] == b[k]
  }

  ghost predicate SameAbove(a: Packets, b: Packets, s: int) {
    forall k :: k > s ==> (k in a <==> k in b) && (k in a ==> a[k] == b[k])
  }

  // ---- one packet ----

  /** The packet at `s` is under the cursor; the open frame may still be one packet too long. */
  predicate Entering(cfg: Config, d: Core, s: int) {
    && SlotsDistinct(d.packets) && Labelled(d.packets)
    && s in d.packets
    && d.lastSeq == Some(s) && !d.waiting && Stamped(d)
    && d.frameStart.Some? && d.frameStart.value <= s
    && d.frameTimestamp == d.packets[s].timestamp
    && (d.discarding ==> s - d.frameStart.value >= cfg.maxFramePackets)
    && (!d.discarding ==> s - d.frameStart.value <= cfg.maxFramePackets)
    && (forall k :: k in d.packets && k < s ==>
          && !d.discarding && d.frameStart.value <= k && !d.packets[k].marker
          && d.packets[k].timestamp == d.frameTimestamp)
  }

  lemma EnterKeeps(cfg: Config, c: Core, s: int)
    requires WalkInv(cfg, c, s) && s in c.packets
    ensures var d := Enter(c, s);
            && Entering(cfg, d, s)
            && SubMap(d.packets, c.packets) && SameAbove(d.packets, c.packets, s)
            && Leq(Bound(c), d.frameStart)
  {
  }

  /** The packet at `s` has been entered and belongs to the open frame. */
  predicate Entered(cfg: Config, d: Core, s: int) {
    && SlotsDistinct(d.packets) && Labelled(d.packets)
    && d.lastSeq == Some(s) && !d.waiting && Stamped(d)
    && d.frameStart.Some? && d.frameStart.value <= s
    && (d.discarding <==> s - d.frameStart.value + 1 > cfg.maxFramePackets)
    && (forall k :: k in d.packets && k <= s ==>
          && !d.discarding && d.frameStart.value <= k && (k < s ==> !d.packets[k].marker)
          && d.packets[k].timestamp == d.frameTimestamp)
  }

  lemma LimitKeeps(cfg: Config, e: Core, s: int)
    requires ValidConfig(cfg) && Entering(cfg, e, s)
    ensures var d := Limit(cfg, e, s);
            && Entered(cfg, d, s) && d.frameStart == e.frameStart
            && SubMap(d.packets, e.packets) && SameAbove(d.packets, e.packets, s)
            && (!d.discarding ==> s in d.packets)
  {
  }

  lemma DropKeeps(cfg: Config, d: Core, s: int)
    requires Entered(cfg, d, s)
    ensures var r := Drop(d, s);
            && WalkInv(cfg, r, s + 1) && Stamped(r) && Bound(r) == Some(s + 1)
            && SubMap(r.packets, d.packets) && SameAbove(r.packets, d.packets, s)
  {
  }

  lemma CloseKeeps(cfg: Config, d: Core, s: int, marker: bool)
    requires Entered(cfg, d, s)
    requires !d.discarding ==> s in d.packets && d.packets[s].marker == marker
    ensures var (r, es) := Close(cfg, d, s, marker);
            && WalkInv(cfg, r, s + 1) && Stamped(r)
            && SubMap(r.packets, d.packets) && SameAbove(r.packets, d.packets, s)
            && Ordered(cfg, es, d.frameStart, Bound(r))
  {
    if marker {
      hide Assemble, Ordered, Drop;
      DropKeeps(cfg, d, s);
      OrderedEmpty(cfg, d.frameStart, Some(s + 1));
      if !d.discarding {
        AssembleKeeps(cfg, d, s);
      }
    }
  }

  lemma AdvanceKeeps(cfg: Config, c: Core, s: int)
    requires ValidConfig(cfg) && WalkInv(cfg, c, s) && s in c.packets
    ensures var (d, es) := Advance(cfg, c, s);
            && WalkInv(cfg, d, s + 1) && Stamped(d)
            && SubMap(d.packets, c.packets) && SameAbove(d.packets, c.packets, s)
            && Ordered(cfg, es, Bound(c), Bound(d))
  {
    EnterKeeps(cfg, c, s);
    hide Enter, WalkInv;
    var e := Enter(c, s);
    LimitKeeps(cfg, e, s);
    hide Limit, Entering, Close, Entered, Ordered, Bound;
    var d := Limit(cfg, e, s);
    assert !d.discarding ==> s in d.packets && d.packets[s].marker == c.packets[s].marker;
    CloseKeeps(cfg, d, s, c.packets[s].marker);
    var (r, es) := Close(cfg, d, s, c.packets[s].marker);
    OrderedLower(cfg, es, Bound(c), d.frameStart, Bound(r));
  }

  lemma OrderedLower(cfg: Config, es: seq<Emission>, lo: Option<int>, mid: Option<int>, hi: Option<int>)
    requires Leq(lo, mid) && Ordered(cfg, es, mid, hi)
    ensures Ordered(cfg, es, lo, hi)
  {
    hide EmissionOk;
  }

  lemma AssembleKeeps(cfg: Config, d: Core, s: int)
    requires Labelled(d.packets) && d.frameStart.Some? && d.frameStart.value <= s
    requires forall k :: k in d.packets && d.frameStart.value <= k < s ==> !d.packets[k].marker
    requires s in d.packets && d.packets[s].marker
    ensures Ordered(cfg, Assemble(cfg, d.packets, d.frameStart.value, s), d.frameStart, Some(s + 1))
  {
    hide Assembles, Frame;
    var first := d.frameStart.value;
    var es := Assemble(cfg, d.packets, first, s);
    if es != [] {
      var ps := Window(d.packets, first, s);
      assert ps[|ps| - 1] == d.packets[s];
      assert EmissionOk(cfg, es[0]);
    }
  }

  lemma AdvanceShrinks(cfg: Config, c: Core, s: int)
    requires s in c.packets
    ensures var d := Advance(cfg, c, s).0;
            SubMap(d.packets, c.packets) && d.lastSeq == Some(s) && d.waiting == c.waiting
  {
    hide Assemble;
  }

  // ---- the walk ----

  lemma {:induction false} WalkKeeps(cfg: Config, c: Core, s: int, steps: nat)
    requires ValidConfig(cfg) && WalkInv(cfg, c, s)
    ensures var (d, es) := Walk(cfg, c, s, steps);
            && d.lastSeq.Some? && s <= d.lastSeq.value + 1 <= s + steps
            && WalkInv(cfg, d, d.lastSeq.value + 1)
            && (d.lastSeq.value + 1 in d.packets ==> d.lastSeq.value + 1 == s + steps)
            && SubMap(d.packets, c.packets) && SameAbove(d.packets, c.packets, d.lastSeq.value)
            && (steps > 0 && s in c.packets ==> d.lastSeq.value >= s)
            && (d.lastSeq.value >= s ==> Stamped(d) && d.lastSeq.value in c.packets)
            && Ordered(cfg, es, Bound(c), Bound(d))
    decreases steps
  {
    hide Advance, Ordered, FrameInv, EmissionOk, SlotsDistinct, Labelled;
    if steps > 0 && s in c.packets {
      var (c1, e1) := Advance(cfg, c, s);
      AdvanceKeeps(cfg, c, s);
      var (c2, e2) := Walk(cfg, c1, s + 1, steps - 1);
      WalkKeeps(cfg, c1, s + 1, steps - 1);
      OrderedConcat(cfg, e1, e2, Bound(c), Bound(c1), Bound(c2));
    } else {
      OrderedEmpty(cfg, Bound(c), Bound(c));
    }
  }

  // ---- insertion ----

  lemma StoreKeeps(m: Packets, s: int, p: ParsedPacket)
    requires SlotsDistinct(m) && Labelled(m)
    requires Usable(p) && p.seqNo == s % CYCLE
    ensures SlotsDistinct(Store(m, s, p)) && Labelled(Store(m, s, p))
  {
  }

  lemma NoTwin(m: Packets, s: int)
    requires SlotsDistinct(m) && s in m
    ensures s + SLOTS !in m
  {
    assert Slot(s + SLOTS) == Slot(s);
  }

  /** A full turn of the ring cannot hold a second packet in the slot where the walk began. */
  lemma WalkSettles(cfg: Config, c: Core, s: int)
    requires ValidConfig(cfg) && WalkInv(cfg, c, s) && s in c.packets
    ensures var (d, es) := Walk(cfg, c, s, SLOTS);
            && d.lastSeq.Some? && s <= d.lastSeq.value
            && CoreInv(cfg, d) && d.lastSeq.value in c.packets
            && SubMap(d.packets, c.packets) && SameAbove(d.packets, c.packets, d.lastSeq.value)
            && Ordered(cfg, es, Bound(c), Bound(d))
  {
    hide Walk, Ordered, FrameInv, SlotsDistinct, Labelled, Slot;
    NoTwin(c.packets, s);
    WalkKeeps(cfg, c, s, SLOTS);
  }

  /** A packet stored above the cursor disturbs nothing at or below it. */
  lemma StoreAboveKeeps(cfg: Config, c: Core, s: int, p: ParsedPacket)
    requires CoreInv(cfg, c) && c.lastSeq.Some? && s > c.lastSeq.value
    ensures FrameInv(cfg, c.(packets := Store(c.packets, s, p)), c.lastSeq.value)
  {
    hide SlotsDistinct, Labelled;
    assert forall k :: k in Store(c.packets, s, p) && k != s ==>
           k in c.packets && Store(c.packets, s, p)[k] == c.packets[k];
  }

  lemma StoredKeeps(cfg: Config, c: Core, s: int, p: ParsedPacket)
    requires CoreInv(cfg, c) && Usable(p) && p.seqNo == s % CYCLE && OutcomeOf(c, s).Stored?
    requires Resume(cfg, c.(packets := Store(c.packets, s, p)), s, p).None?
    ensures CoreInv(cfg, c.(packets := Store(c.packets, s, p)))
  {
    StoreKeeps(c.packets, s, p);
    if c.lastSeq.Some? {
      StoreAboveKeeps(cfg, c, s, p);
    }
    hide SlotsDistinct, Labelled, FrameInv;
    assert forall k :: k in Store(c.packets, s, p) && k != s ==> k in c.packets;
  }

  lemma ResumeKeeps(cfg: Config, c: Core, s: int, p: ParsedPacket)
    requires CoreInv(cfg, c) && Usable(p) && p.seqNo == s % CYCLE && OutcomeOf(c, s).Stored?
    requires Resume(cfg, c.(packets := Store(c.packets, s, p)), s, p).Some?
    ensures var m := Store(c.packets, s, p);
            var r := Resume(cfg, c.(packets := m), s, p).value;
            && WalkInv(cfg, r, s) && s in r.packets && Leq(Bound(c), Bound(r))
            && SubMap(r.packets, m) && SameAbove(r.packets, m, s - 1)
  {
    StoreKeeps(c.packets, s, p);
    if c.lastSeq.Some? {
      StoreAboveKeeps(cfg, c, s, p);
    }
    hide Store, BeginningOfStream;
  }

  lemma BoundReflexive(c: Core)
    ensures Leq(Bound(c), Bound(c))
  {
  }

  lemma SubMapReflexive(m: Packets)
    ensures SubMap(m, m)
  {
  }

  lemma WalkFromResumed(cfg: Config, c: Core, r: Core, m: Packets, s: int)
    requires ValidConfig(cfg) && WalkInv(cfg, r, s) && s in r.packets && Leq(Bound(c), Bound(r))
    requires SubMap(r.packets, m) && SameAbove(r.packets, m, s - 1)
    ensures var (d, es) := Walk(cfg, r, s, SLOTS);
            && CoreInv(cfg, d) && Ordered(cfg, es, Bound(c), Bound(d))
            && SubMap(d.packets, m)
            && d.lastSeq.Some? && d.lastSeq.value in m && SameAbove(d.packets, m, d.lastSeq.value)
  {
    hide Walk, Ordered, CoreInv, WalkInv;
    WalkSettles(cfg, r, s);
    var (d, es) := Walk(cfg, r, s, SLOTS);
    OrderedLower(cfg, es, Bound(c), Bound(r), Bound(d));
  }

  /** Either the packet is only stored, or the walk runs from it; both keep the core invariant. */
  lemma FindFramesKeeps(cfg: Config, c: Core, s: int, p: ParsedPacket)
    requires ValidConfig(cfg) && CoreInv(cfg, c)
    requires Usable(p) && p.seqNo == s % CYCLE && OutcomeOf(c, s).Stored?
    ensures var m := Store(c.packets, s, p);
            var (d, es) := InsertCore(cfg, c, s, p);
            && CoreInv(cfg, d) && Ordered(cfg, es, Bound(c), Bound(d))
            && SubMap(d.packets, m)
            && (d == c.(packets := m) ||
                (d.lastSeq.Some? && d.lastSeq.value in m && SameAbove(d.packets, m, d.lastSeq.value)))
  {
    var c1 := c.(packets := Store(c.packets, s, p));
    assert s in c1.packets && c1.packets[s] == p;
    assert InsertCore(cfg, c, s, p) == FindFrames(cfg, c1, s);
    hide Walk, Ordered, Store, CoreInv, WalkInv, OutcomeOf, Resume, InsertCore, SubMap, SameAbove, Leq, Bound;
    if Resume(cfg, c1, s, p).Some? {
      ResumeKeeps(cfg, c, s, p);
      WalkFromResumed(cfg, c, Resume(cfg, c1, s, p).value, c1.packets, s);
    } else {
      BoundReflexive(c);
      SubMapReflexive(c1.packets);
      OrderedEmpty(cfg, Bound(c), Bound(c));
      StoredKeeps(cfg, c, s, p);
    }
  }

  lemma NewestStored(c: Core, s: int, p: ParsedPacket, latest: Option<int>)
    requires OutcomeOf(c, s).Stored?
    requires latest.None? ==> c.packets == map[] && c.lastSeq.None?
    requires latest.Some? ==> IsNewest(c, latest.value)
    ensures var m := Store(c.packets, s, p);
            var l := Newest(latest, s);
            && l in m && m.Keys <= c.packets.Keys + {s} && (forall k :: k in m ==> k <= l)
            && (c.lastSeq.Some? ==> c.lastSeq.value <= l)
  {
    if latest.Some? && latest.value > s && latest.value in c.packets {
      assert Slot(latest.value) != Slot(s);
    }
  }

  lemma InsertCoreKeeps(cfg: Config, c: Core, s: int, p: ParsedPacket, latest: Option<int>)
    requires ValidConfig(cfg) && CoreInv(cfg, c)
    requires Usable(p) && p.seqNo == s % CYCLE
    requires latest.None? ==> c.packets == map[] && c.lastSeq.None?
    requires latest.Some? ==> IsNewest(c, latest.value)
    ensures var (d, es) := InsertCore(cfg, c, s, p);
            && CoreInv(cfg, d) && Ordered(cfg, es, Bound(c), Bound(d))
            && IsNewest(d, Newest(latest, s))
            && d.packets.Keys <= c.packets.Keys + (if OutcomeOf(c, s).Stored? then {s} else {})
  {
    hide CoreInv, Ordered, Bound, IsNewest, OutcomeOf, Store, SubMap, SameAbove, FindFrames, Newest;
    if OutcomeOf(c, s).Stored? {
      NewestStored(c, s, p, latest);
      FindFramesKeeps(cfg, c, s, p);
      NewestAfter(c, InsertCore(cfg, c, s, p).0, Store(c.packets, s, p), Newest(latest, s));
    } else {
      BoundReflexive(c);
      OrderedEmpty(cfg, Bound(c), Bound(c));
      NewestUnchanged(c, s, latest);
    }
  }

  lemma NewestAfter(c: Core, d: Core, m: Packets, l: int)
    requires l in m && (forall k :: k in m ==> k <= l) && SubMap(d.packets, m)
    requires c.lastSeq.Some? ==> c.lastSeq.value <= l
    requires d == c.(packets := m) ||
             (d.lastSeq.Some? && d.lastSeq.value in m && SameAbove(d.packets, m, d.lastSeq.value))
    ensures IsNewest(d, l)
    ensures d.packets.Keys <= m.Keys
  {
    assert forall k :: k in d.packets.Keys ==> k in m.Keys;
  }

  lemma NewestUnchanged(c: Core, s: int, latest: Option<int>)
    requires !OutcomeOf(c, s).Stored?
    requires latest.None? ==> c.packets == map[] && c.lastSeq.None?
    requires latest.Some? ==> IsNewest(c, latest.value)
    ensures IsNewest(c, Newest(latest, s))
  {
    hide Slot;
  }

  // ---- time and runs ----

  /** An expiry leaves the highest number ever seen as the floor. */
  lemma FlushKeeps(cfg: Config, st: State, now: int)
    requires StateInv(cfg, st)
    ensures StateInv(cfg, Flush(cfg, st, now))
    ensures Leq(Bound(st.core), Bound(Flush(cfg, st, now).core))
    ensures Expired(cfg, st, now) ==>
              && Flush(cfg, st, now).core.packets == map[]
              && Flush(cfg, st, now).core.waiting
              && Flush(cfg, st, now).core.lastSeq == st.latest
    ensures !Expired(cfg, st, now) ==> Flush(cfg, st, now) == st
  {
    if Expired(cfg, st, now) {
      var k :| k in st.arrivals && now - st.arrivals[k] >= cfg.maxWaitMs;
      assert k in st.core.packets.Keys;
      var top := Top(st.core.packets);
      assert top <= st.latest.value;
    }
  }

  lemma InsertKeeps(cfg: Config, st: State, p: ParsedPacket, now: int)
    requires ValidConfig(cfg) && StateInv(cfg, st)
    ensures var (st', es) := Insert(cfg, st, p, now);
            StateInv(cfg, st') && Ordered(cfg, es, Bound(st.core), Bound(st'.core))
  {
    hide CoreInv, Ordered, Flush, InsertCore;
    if Usable(p) {
      FlushKeeps(cfg, st, now);
      var f := Flush(cfg, st, now);
      var s := Unwrap(f.latest, p.seqNo);
      UnwrapIsNearest(f.latest, p.seqNo);
      InsertCoreKeeps(cfg, f.core, s, p, f.latest);
      var (c, es) := InsertCore(cfg, f.core, s, p);
      OrderedLower(cfg, es, Bound(st.core), Bound(f.core), Bound(c));
    } else {
      OrderedEmpty(cfg, Bound(st.core), Bound(st.core));
    }
  }

  lemma InitialInv(cfg: Config)
    ensures StateInv(cfg, INITIAL)
  {
  }

  /**
   Safety of whole runs: whatever arrives and whenever time passes, the invariant
   holds and the access units produced are complete, in increasing order and disjoint.
   */
  lemma {:induction false} RunSafe(cfg: Config, st: State, events: seq<Event>)
    requires ValidConfig(cfg) && StateInv(cfg, st)
    ensures var (st', es) := Run(cfg, st, events);
            StateInv(cfg, st') && Ordered(cfg, es, Bound(st.core), Bound(st'.core))
    decreases |events|
  {
    hide StateInv, Ordered, Flush, Insert;
    OrderedEmpty(cfg, Bound(st.core), Bound(st.core));
    if events != [] {
      var (st1, e1) := Step(cfg, st, events[0]);
      match events[0] {
        case Arrive(p, now) => InsertKeeps(cfg, st, p, now);
        case Tick(now) =>
          FlushKeeps(cfg, st, now);
          OrderedEmpty(cfg, Bound(st.core), Bound(st1.core));
      }
      RunSafe(cfg, st1, events[1..]);
      var (st2, e2) := Run(cfg, st1, events[1..]);
      OrderedConcat(cfg, e1, e2, Bound(st.core), Bound(st1.core), Bound(st2.core));
    }
  }

  /** Nothing at or below the floor left by an expiry is ever produced afterwards. */
  lemma ExpiryFloor(cfg: Config, st: State, now: int, events: seq<Event>)
    requires ValidConfig(cfg) && StateInv(cfg, st) && Expired(cfg, st, now)
    ensures st.latest.Some?
    ensures var es := Run(cfg, Flush(cfg, st, now), events).1;
            forall i :: 0 <= i < |es| ==> es[i].first > st.latest.value
  {
    var k :| k in st.arrivals && now - st.arrivals[k] >= cfg.maxWaitMs;
    assert k in st.core.packets.Keys;
    FlushKeeps(cfg, st, now);
    RunSafe(cfg, Flush(cfg, st, now), events);
  }

  /** The packet numbered `s` restarts the stream instead of waiting for the numbers before it. */
  predicate Restarts(cfg: Config, c: Core, s: int, p: ParsedPacket) {
    && OutcomeOf(c, s).Stored? && BeginningOfStream(cfg, p)
    && (c.lastSeq.None? || ((c.waiting || s != c.lastSeq.value + 1) && c.lastTimestamp != Some(p.timestamp)))
  }

  lemma RestartBound(cfg: Config, c: Core, s: int, p: ParsedPacket)
    requires ValidConfig(cfg) && CoreInv(cfg, c)
    requires Usable(p) && p.seqNo == s % CYCLE && Restarts(cfg, c, s, p)
    ensures var (d, es) := InsertCore(cfg, c, s, p);
            Ordered(cfg, es, Some(s), Bound(d)) && Leq(Some(s), Bound(d))
  {
    var m := Store(c.packets, s, p);
    var c1 := c.(packets := m);
    assert s in m && m[s] == p;
    assert Resume(cfg, c1, s, p) == Some(Recover(c1, s));
    ResumeKeeps(cfg, c, s, p);
    hide Store, OutcomeOf, BeginningOfStream, Walk, Ordered, CoreInv;
    assert Bound(Recover(c1, s)) == Some(s);
    WalkFromResumed(cfg, Recover(c1, s), Recover(c1, s), m, s);
    assert InsertCore(cfg, c, s, p) == FindFrames(cfg, c1, s);
    OrderedLeq(cfg, InsertCore(cfg, c, s, p).1, Some(s), Bound(InsertCore(cfg, c, s, p).0));
  }

  lemma OrderedLeq(cfg: Config, es: seq<Emission>, lo: Option<int>, hi: Option<int>)
    requires Ordered(cfg, es, lo, hi)
    ensures Leq(lo, hi)
  {
  }

  /**
   Why order independence excludes recovery points: one that arrives ahead of its turn
   commits the buffer to it, and nothing numbered below it is produced in any later run.
   */
  lemma RecoveryAbandons(cfg: Config, st: State, p: ParsedPacket, now: int, events: seq<Event>)
    requires ValidConfig(cfg) && StateInv(cfg, st) && Usable(p) && !Expired(cfg, st, now)
    requires Restarts(cfg, st.core, Unwrap(st.latest, p.seqNo), p)
    ensures var (st1, e1) := Insert(cfg, st, p, now);
            var es := e1 + Run(cfg, st1, events).1;
            forall i :: 0 <= i < |es| ==> es[i].first >= Unwrap(st.latest, p.seqNo)
  {
    var s := Unwrap(st.latest, p.seqNo);
    UnwrapIsNearest(st.latest, p.seqNo);
    RestartBound(cfg, st.core, s, p);
    InsertKeeps(cfg, st, p, now);
    var (st1, e1) := Insert(cfg, st, p, now);
    assert (st1.core, e1) == InsertCore(cfg, st.core, s, p);
    hide Restarts, InsertCore, Insert, Unwrap, StateInv, EmissionOk;
    RunSafe(cfg, st1, events);
    var (st2, e2) := Run(cfg, st1, events);
    OrderedConcat(cfg, e1, e2, Some(s), Bound(st1.core), Bound(st2.core));
  }
}
