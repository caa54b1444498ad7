/**
 What the H.264 packet buffer does, on values: a map from extended sequence numbers
 to packets in place of the slot ring, and one recursive walk in place of the loop.
 `Core` is the part that does not depend on time.
 */
module PacketBufferModel {
  import opened Basics
  import opened H264Payload
  import opened AccessUnitAssembly
  import opened SequenceUnwrapper

  const SLOTS: int := 2048

  datatype Config = Config(maxFramePackets: nat, idrOnly: bool, maxWaitMs: nat)

  /** The constructor replaces a zero or oversized frame limit by the ring size. */
  function Normalize(cfg: Config): (c: Config)
    ensures ValidConfig(c)
    ensures ValidConfig(cfg) ==> c == cfg
  {
    if cfg.maxFramePackets == 0 || cfg.maxFramePackets > SLOTS then cfg.(maxFramePackets := SLOTS) else cfg
  }

  predicate ValidConfig(cfg: Config) {
    1 <= cfg.maxFramePackets <= SLOTS
  }

  type Packets = map<int, ParsedPacket>

  datatype Core = Core(
    packets: Packets,
    lastSeq: Option<int>,           // last_continuous_unwrapped_seq_
    lastTimestamp: Option<uint32>,  // last_continuous_timestamp_
    frameStart: Option<int>,        // current_frame_start_
    frameTimestamp: uint32,
    discarding: bool,
    waiting: bool)                  // waiting_for_recovery_

  datatype State = State(core: Core, arrivals: map<int, int>, latest: Option<int>)

  /** A produced access unit with the extended range and the packets it came from. */
  datatype Emission = Emission(first: int, last: int, packets: seq<ParsedPacket>, frame: AccessUnit)

  datatype Outcome = Rejected | Late | Duplicate | Stored(collision: bool)

  const EMPTY := Core(map[], None, None, None, 0, false, false)

  const INITIAL := State(EMPTY, map[], None)

  function Slot(s: int): (i: int)
    ensures 0 <= i < SLOTS
  {
    s % SLOTS
  }

  // ---- packets ----

  function Remove(m: Packets, lo: int, hi: int): Packets {
    map k | k in m && !(lo <= k <= hi) :: m[k]
  }

  function RemoveBefore(m: Packets, s: int): Packets {
    map k | k in m && s <= k :: m[k]
  }

  predicate StartsStream(cfg: Config, u: PayloadUnit) {
    !(u.kind.FuAFragment? && !u.fuStart) && (u.isSps || (cfg.idrOnly && u.isIdr && u.firstSlice))
  }

  predicate BeginningOfStream(cfg: Config, p: ParsedPacket) {
    exists i :: 0 <= i < |p.units| && StartsStream(cfg, p.units[i])
  }

  // ---- assembling one frame ----

  predicate HasWindow(m: Packets, first: int, last: int) {
    forall k :: first <= k <= last ==> k in m
  }

  function Window(m: Packets, first: int, last: int): (w: seq<ParsedPacket>)
    requires first <= last + 1
    requires HasWindow(m, first, last)
    ensures |w| == last - first + 1
    ensures forall i :: 0 <= i < |w| ==> w[i] == m[first + i]
  {
    seq(last - first + 1, i requires 0 <= i < last - first + 1 => m[first + i])
  }

  /** The first slice unit of the list, if any, starts a picture. */
  predicate FirstSliceFlagged(units: seq<PayloadUnit>) {
    units != [] ==>
      if IsSliceType(units[0].nalType) then units[0].firstSlice else FirstSliceFlagged(units[1..])
  }

  predicate SameStream(ps: seq<ParsedPacket>) {
    forall i :: 0 <= i < |ps| ==> ps[i].ssrc == ps[0].ssrc && ps[i].timestamp == ps[0].timestamp
  }

  predicate Any(ps: seq<ParsedPacket>, f: ParsedPacket -> bool) {
    exists i :: 0 <= i < |ps| && f(ps[i])
  }

  function NewestReceiveTime(ps: seq<ParsedPacket>): int {
    if ps == [] then 0 else Max(NewestReceiveTime(ps[..|ps| - 1]), ps[|ps| - 1].receiveTimeMs)
  }

  const HAS_KEY := (p: ParsedPacket) => p.hasKeyNalu
  const HAS_SPS := (p: ParsedPacket) => p.hasSps
  const HAS_PPS := (p: ParsedPacket) => p.hasPps
  const HAS_IDR := (p: ParsedPacket) => p.hasIdr

  /** The conditions under which consecutive packets form a complete access unit. */
  predicate Assembles(cfg: Config, ps: seq<ParsedPacket>) {
    && ps != []
    && SameStream(ps)
    && FirstSliceFlagged(UnitsOf(ps))
    && Join(UnitsOf(ps), NoFu).Some?
    && Join(UnitsOf(ps), NoFu).value.fu.NoFu?
    && Join(UnitsOf(ps), NoFu).value.nalus != []
    && (Any(ps, HAS_IDR) && !cfg.idrOnly ==> Any(ps, HAS_SPS) && Any(ps, HAS_PPS))
  }

  function Frame(cfg: Config, ps: seq<ParsedPacket>, first: int): AccessUnit
    requires Assembles(cfg, ps)
  {
    AccessUnit(ps[0].ssrc, ps[0].timestamp, NewestReceiveTime(ps),
               first % CYCLE, (first + |ps| - 1) % CYCLE, true, false, true,
               Any(ps, HAS_KEY), Any(ps, HAS_SPS), Any(ps, HAS_PPS), Any(ps, HAS_IDR),
               Join(UnitsOf(ps), NoFu).value.nalus)
  }

  /** MaybeAssembleFrame on the stored packets first..last. */
  function Assemble(cfg: Config, m: Packets, first: int, last: int): seq<Emission> {
    if last < first || last - first + 1 > cfg.maxFramePackets || !HasWindow(m, first, last) then []
    else
      var ps := Window(m, first, last);
      if Assembles(cfg, ps) then [Emission(first, last, ps, Frame(cfg, ps, first))] else []
  }

  // ---- one packet of the continuous run ----

  function Drop(c: Core, hi: int): Core {
    var rest := if c.frameStart.Some? then Remove(c.packets, c.frameStart.value, hi) else c.packets;
    c.(packets := rest, frameStart := None, discarding := false)
  }

  /** Moves the cursor to `s`, opening a frame there unless one with its timestamp is open. */
  function Enter(c: Core, s: int): Core
    requires s in c.packets
  {
    var t := c.packets[s].timestamp;
    var moved := c.(lastSeq := Some(s), lastTimestamp := Some(t));
    var kept := if c.frameStart.Some? && c.frameTimestamp != t then Drop(moved, s - 1) else moved;
    if kept.frameStart.None? then kept.(frameStart := Some(s), frameTimestamp := t) else kept
  }

  /** Gives up a frame that has grown past the limit, keeping its identity. */
  function Limit(cfg: Config, c: Core, s: int): Core
    requires c.frameStart.Some?
  {
    if s - c.frameStart.value + 1 > cfg.maxFramePackets then
      var from := if c.discarding then s else c.frameStart.value;
      c.(packets := Remove(c.packets, from, s), discarding := true)
    else c
  }

  /** A marker ends the frame: it is assembled unless given up, and dropped either way. */
  function Close(cfg: Config, c: Core, s: int, marker: bool): (Core, seq<Emission>)
    requires c.frameStart.Some?
  {
    if !marker then (c, [])
    else (Drop(c, s), if c.discarding then [] else Assemble(cfg, c.packets, c.frameStart.value, s))
  }

  /** Processes the packet at `s`, if it is there. */
  function Advance(cfg: Config, c: Core, s: int): (Core, seq<Emission>) {
    if s !in c.packets then (c, [])
    else Close(cfg, Limit(cfg, Enter(c, s), s), s, c.packets[s].marker)
  }

  function Walk(cfg: Config, c: Core, s: int, steps: nat): (Core, seq<Emission>)
    decreases steps
  {
    if steps == 0 || s !in c.packets then (c, [])
    else
      var (c1, e1) := Advance(cfg, c, s);
      var (c2, e2) := Walk(cfg, c1, s + 1, steps - 1);
      (c2, e1 + e2)
  }

  // ---- insertion ----

  function Recover(c: Core, s: int): Core {
    c.(packets := RemoveBefore(c.packets, s), frameStart := None, discarding := false,
       lastSeq := Some(s - 1), waiting := false)
  }

  /** CanAdvanceFrom: None when the walk must not start at `s`. */
  function Resume(cfg: Config, c: Core, s: int, p: ParsedPacket): Option<Core> {
    if c.lastSeq.Some? && s <= c.lastSeq.value then None
    else if c.lastSeq.Some? && !c.waiting && s == c.lastSeq.value + 1 then Some(c)
    else if c.lastSeq.Some? && c.lastTimestamp == Some(p.timestamp) then None
    else if !BeginningOfStream(cfg, p) then None
    else Some(Recover(c, s))
  }

  function FindFrames(cfg: Config, c: Core, s: int): (Core, seq<Emission>) {
    if s !in c.packets || Resume(cfg, c, s, c.packets[s]).None? then (c, [])
    else Walk(cfg, Resume(cfg, c, s, c.packets[s]).value, s, SLOTS)
  }

  predicate SlotTaken(m: Packets, s: int) {
    exists k :: k in m && Slot(k) == Slot(s)
  }

  /** Takes the slot of `s`, evicting its older occupant. */
  function Store(m: Packets, s: int, p: ParsedPacket): Packets {
    (map k | k in m && Slot(k) != Slot(s) :: m[k])[s := p]
  }

  function OutcomeOf(c: Core, s: int): Outcome {
    if c.lastSeq.Some? && s <= c.lastSeq.value then Late
    else if s in c.packets then Duplicate
    else if exists k :: k in c.packets && Slot(k) == Slot(s) && k > s then Late
    else Stored(SlotTaken(c.packets, s))
  }

  function InsertCore(cfg: Config, c: Core, s: int, p: ParsedPacket): (Core, seq<Emission>) {
    if OutcomeOf(c, s).Stored? then FindFrames(cfg, c.(packets := Store(c.packets, s, p)), s)
    else (c, [])
  }

  // ---- time ----

  predicate Expired(cfg: Config, st: State, now: int) {
    exists k :: k in st.arrivals && now - st.arrivals[k] >= cfg.maxWaitMs
  }

  predicate IsTop(m: Packets, k: int) {
    k in m && forall j :: j in m ==> j <= k
  }

  lemma {:induction false} MaximumExists(keys: set<int>)
    requires keys != {}
    ensures exists k :: k in keys && forall j :: j in keys ==> j <= k
  {
    var x := Pick(keys);
    if exists j :: j in keys && j > x {
      var z :| z in keys && z > x;
      assert z in keys - {x};
      MaximumExists(keys - {x});
      var y :| y in keys - {x} && forall j :: j in keys - {x} ==> j <= y;
      assert forall j :: j in keys ==> j == x || j in keys - {x};
      assert z <= y;
    }
  }

  lemma TopExists(m: Packets)
    requires m != map[]
    ensures exists k :: IsTop(m, k)
  {
    assert m.Keys != {};
    MaximumExists(m.Keys);
    var k :| k in m.Keys && forall j :: j in m.Keys ==> j <= k;
    assert IsTop(m, k);
  }

  ghost function Top(m: Packets): (k: int)
    requires m != map[]
    ensures IsTop(m, k)
  {
    TopExists(m);
    var k :| IsTop(m, k);
    k
  }

  /** Discards everything and keeps the highest number seen as a floor. */
  ghost function Abandon(c: Core): Core
    requires c.packets != map[]
  {
    var top := Top(c.packets);
    if c.lastSeq.Some? && top < c.lastSeq.value then
      EMPTY.(lastSeq := c.lastSeq, lastTimestamp := c.lastTimestamp, waiting := true)
    else
      EMPTY.(lastSeq := Some(top), lastTimestamp := Some(c.packets[top].timestamp), waiting := true)
  }

  ghost function Flush(cfg: Config, st: State, now: int): State {
    if Expired(cfg, st, now) && st.core.packets != map[] then State(Abandon(st.core), map[], st.latest) else st
  }

  function FlushCount(cfg: Config, st: State, now: int): nat {
    if Expired(cfg, st, now) then |st.core.packets| else 0
  }

  function Restrict(arrivals: map<int, int>, m: Packets): map<int, int> {
    map k | k in arrivals && k in m :: arrivals[k]
  }

  predicate Usable(p: ParsedPacket) {
    p.valid && !p.malformed
  }

  ghost function Insert(cfg: Config, st: State, p: ParsedPacket, now: int): (State, seq<Emission>) {
    if !Usable(p) then (st, [])
    else
      var f := Flush(cfg, st, now);
      var s := Unwrap(f.latest, p.seqNo);
      var (c, es) := InsertCore(cfg, f.core, s, p);
      var stamped := if OutcomeOf(f.core, s).Stored? then f.arrivals[s := now] else f.arrivals;
      (State(c, Restrict(stamped, c.packets), Some(Newest(f.latest, s))), es)
  }

  // ---- runs ----

  datatype Event = Arrive(p: ParsedPacket, now: int) | Tick(now: int)

  ghost function Step(cfg: Config, st: State, e: Event): (State, seq<Emission>) {
    match e
    case Arrive(p, now) => Insert(cfg, st, p, now)
    case Tick(now) => (Flush(cfg, st, now), [])
  }

  ghost function Run(cfg: Config, st: State, events: seq<Event>): (State, seq<Emission>)
    decreases |events|
  {
    if events == [] then (st, [])
    else
      var (st1, e1) := Step(cfg, st, events[0]);
      var (st2, e2) := Run(cfg, st1, events[1..]);
      (st2, e1 + e2)
  }
}
