/** What the RTP reorder queue does, on values, with a log of what it has delivered. */
module ReorderModel {
  import opened Basics

  const CYCLE: int := 0x1_0000
  const HALF: int := 0x8000

  datatype Config = Config(
    maxGap: nat, maxCache: nat, timeoutMs: nat,
    consecutive: nat, stalledMs: nat, probationMs: nat)

  /** What the constructor insists on; otherwise it throws. */
  predicate ValidConfig(cfg: Config) {
    && 0 < cfg.maxGap <= HALF && cfg.maxCache < HALF
    && (cfg.consecutive != 0 ==> 2 <= cfg.consecutive < HALF && cfg.stalledMs > 0 && cfg.probationMs > 0)
  }

  datatype Buffered<P> = Buffered(packet: P, arrived: int)

  datatype Stats = Stats(
    emitted: nat, lost: int, duplicates: nat, late: nat, outOfWindow: nat,
    timeouts: nat, overflows: nat, resyncAttempts: nat, resyncs: nat)

  datatype Emitted<P> = Emitted(ext: int, wire: uint16, packet: P, now: int)

  /** An out-of-window packet counted towards a forward resynchronisation. */
  datatype Probe = Probe(wire: uint16, now: int)

  datatype State<P> = State(
    started: bool,
    next: int,
    buffer: map<int, Buffered<P>>,
    lastProgress: int,
    resyncCount: nat,
    resyncLast: uint16,
    resyncStarted: int,
    stats: Stats,
    // history
    log: seq<Emitted<P>>,
    probe: seq<Probe>,
    inputs: nat,
    drained: bool)

  const NO_STATS := Stats(0, 0, 0, 0, 0, 0, 0, 0, 0)

  function Initial<P>(): State<P> {
    State(false, 0, map[], 0, 0, 0, 0, NO_STATS, [], [], 0, false)
  }

  function ClearResync<P>(s: State<P>): State<P> {
    s.(resyncCount := 0, probe := [])
  }

  function Emit<P>(s: State<P>, ext: int, packet: P, now: int): State<P> {
    ClearResync(s).(next := ext + 1, lastProgress := now,
                    stats := s.stats.(emitted := s.stats.emitted + 1),
                    log := s.log + [Emitted(ext, ext % CYCLE, packet, now)])
  }

  // ---- the buffer ----

  predicate IsFirst<P>(m: map<int, Buffered<P>>, k: int) {
    k in m && forall j :: j in m ==> k <= j
  }

  lemma {:induction false} MinimumExists(keys: set<int>)
    requires keys != {}
    ensures exists k :: k in keys && forall j :: j in keys ==> k <= j
  {
    var x := Pick(keys);
    if exists j :: j in keys && j < x {
      var z :| z in keys && z < x;
      assert z in keys - {x};
      MinimumExists(keys - {x});
      var y :| y in keys - {x} && forall j :: j in keys - {x} ==> y <= j;
      assert forall j :: j in keys ==> j == x || j in keys - {x};
      assert y <= z;
    }
  }

  lemma FirstExists<P>(m: map<int, Buffered<P>>)
    requires m != map[]
    ensures exists k :: IsFirst(m, k)
  {
    assert m.Keys != {};
    MinimumExists(m.Keys);
    var k :| k in m.Keys && forall j :: j in m.Keys ==> k <= j;
    assert IsFirst(m, k);
  }

  ghost function First<P>(m: map<int, Buffered<P>>): (k: int)
    requires m != map[]
    ensures IsFirst(m, k)
  {
    FirstExists(m);
    var k :| IsFirst(m, k);
    k
  }

  /** Gives up the numbers before the first buffered packet. */
  ghost function SkipToFirst<P>(s: State<P>): State<P>
    requires s.buffer != map[]
  {
    var k := First(s.buffer);
    s.(next := k, stats := s.stats.(lost := s.stats.lost + (k - s.next)))
  }

  /** Delivers the run of buffered packets that starts at `next`. */
  ghost function FlushBuffered<P>(s: State<P>, now: int): (r: State<P>)
    ensures r.buffer.Keys <= s.buffer.Keys
    decreases |s.buffer|
  {
    if s.next in s.buffer then
      var rest := s.buffer - {s.next};
      assert |rest| < |s.buffer| by { assert rest.Keys == s.buffer.Keys - {s.next}; }
      FlushBuffered(Emit(s.(buffer := rest), s.next, s.buffer[s.next].packet, now), now)
    else s
  }

  predicate Expired<P>(cfg: Config, s: State<P>, now: int) {
    exists k :: k in s.buffer && now - s.buffer[k].arrived >= cfg.timeoutMs
  }

  ghost function SkipAndFlush<P>(s: State<P>, now: int): (r: State<P>)
    requires s.buffer != map[]
    ensures |r.buffer| < |s.buffer|
  {
    var t := SkipToFirst(s);
    var r := FlushBuffered(t, now);
    SkipShrinks(t, now);
    r
  }

  lemma SkipShrinks<P>(t: State<P>, now: int)
    requires t.next in t.buffer
    ensures |FlushBuffered(t, now).buffer| < |t.buffer|
  {
    var rest := t.buffer - {t.next};
    assert rest.Keys == t.buffer.Keys - {t.next};
    var e := Emit(t.(buffer := rest), t.next, t.buffer[t.next].packet, now);
    assert FlushBuffered(t, now) == FlushBuffered(e, now);
    FewerKeys(FlushBuffered(e, now).buffer, rest);
  }

  ghost function DrainExpired<P>(cfg: Config, s: State<P>, now: int): State<P>
    decreases |s.buffer|
  {
    if s.buffer != map[] && Expired(cfg, s, now)
    then DrainExpired(cfg, SkipAndFlush(s.(stats := s.stats.(timeouts := s.stats.timeouts + 1)), now), now)
    else s
  }

  predicate ProbationOver<P>(cfg: Config, s: State<P>, now: int) {
    s.resyncCount > 0 && (now < s.resyncStarted || now - s.resyncStarted >= cfg.probationMs)
  }

  ghost function FlushExpired<P>(cfg: Config, s: State<P>, now: int): State<P> {
    DrainExpired(cfg, if ProbationOver(cfg, s, now) then ClearResync(s) else s, now)
  }

  ghost function DrainAll<P>(s: State<P>, now: int): State<P>
    decreases |s.buffer|
  {
    if s.buffer != map[] then DrainAll(SkipAndFlush(s, now), now) else s
  }

  ghost function FlushTimeout<P>(s: State<P>, now: int): State<P> {
    DrainAll(ClearResync(s), now).(drained := true)
  }

  // ---- input ----

  function Delta(seqNo: uint16, next: int): (d: int)
    ensures 0 <= d < CYCLE
  {
    (seqNo - next) % CYCLE
  }

  function Succ16(w: uint16): uint16 {
    (w + 1) % CYCLE
  }

  predicate Stalled<P>(cfg: Config, s: State<P>, now: int) {
    cfg.consecutive != 0 && s.buffer == map[] && now >= s.lastProgress && now - s.lastProgress >= cfg.stalledMs
  }

  /** ConfirmForwardResync: the state after counting the probe. */
  function CountProbe<P>(cfg: Config, s: State<P>, seqNo: uint16, now: int): State<P> {
    if !Stalled(cfg, s, now) then ClearResync(s)
    else if s.resyncCount > 0 && seqNo == s.resyncLast then s
    else if s.resyncCount == 0 || seqNo != Succ16(s.resyncLast) then
      s.(resyncCount := 1, resyncStarted := now, resyncLast := seqNo, probe := [Probe(seqNo, now)],
         stats := s.stats.(resyncAttempts := s.stats.resyncAttempts + 1))
    else s.(resyncCount := s.resyncCount + 1, resyncLast := seqNo, probe := s.probe + [Probe(seqNo, now)])
  }

  predicate Confirms<P>(cfg: Config, s: State<P>, seqNo: uint16, now: int) {
    Stalled(cfg, s, now) && !(s.resyncCount > 0 && seqNo == s.resyncLast)
    && CountProbe(cfg, s, seqNo, now).resyncCount >= cfg.consecutive
  }

  function Beyond<P>(cfg: Config, s: State<P>, seqNo: uint16, packet: P, now: int): State<P> {
    var delta := Delta(seqNo, s.next);
    var t := CountProbe(cfg, s, seqNo, now);
    if Confirms(cfg, s, seqNo, now)
    then Emit(t.(stats := t.stats.(resyncs := t.stats.resyncs + 1, lost := t.stats.lost + delta)), t.next + delta,
        packet, now)
    else t.(stats := t.stats.(outOfWindow := t.stats.outOfWindow + 1))
  }

  /** Makes room when the buffer has grown past its capacity. */
  ghost function Shed<P>(cfg: Config, s: State<P>, now: int): State<P> {
    if |s.buffer| > cfg.maxCache
    then SkipAndFlush(s.(stats := s.stats.(overflows := s.stats.overflows + 1)), now) else s
  }

  ghost function Store<P>(cfg: Config, s: State<P>, ext: int, packet: P, now: int): State<P> {
    if ext in s.buffer then s.(stats := s.stats.(duplicates := s.stats.duplicates + 1))
    else FlushExpired(cfg, Shed(cfg, s.(buffer := s.buffer[ext := Buffered(packet, now)]), now), now)
  }

  ghost function Admit<P>(cfg: Config, s: State<P>, seqNo: uint16, packet: P, now: int): State<P> {
    var delta := Delta(seqNo, s.next);
    if delta == HALF then ClearResync(s).(stats := s.stats.(outOfWindow := s.stats.outOfWindow + 1))
    else if delta > HALF then s.(stats := s.stats.(late := s.stats.late + 1))
    else if delta >= cfg.maxGap then Beyond(cfg, s, seqNo, packet, now)
    else if delta == 0 then FlushBuffered(Emit(ClearResync(s), s.next, packet, now), now)
    else Store(cfg, ClearResync(s), s.next + delta, packet, now)
  }

  ghost function Input<P>(cfg: Config, s: State<P>, seqNo: uint16, packet: P, now: int): State<P> {
    var counted := s.(inputs := s.inputs + 1);
    if !s.started then Emit(counted.(started := true, next := seqNo), seqNo, packet, now)
    else Admit(cfg, FlushExpired(cfg, counted, now), seqNo, packet, now)
  }

  // ---- runs ----

  datatype Event<P> = Packet(seqNo: uint16, packet: P, now: int) | Tick(now: int) | Drain(now: int)

  ghost function Step<P>(cfg: Config, s: State<P>, e: Event<P>): State<P> {
    match e
    case Packet(seqNo, packet, now) => Input(cfg, s, seqNo, packet, now)
    case Tick(now) => FlushExpired(cfg, s, now)
    case Drain(now) => FlushTimeout(s, now)
  }

  ghost function Run<P>(cfg: Config, s: State<P>, events: seq<Event<P>>): State<P>
    decreases |events|
  {
    if events == [] then s else Run(cfg, Step(cfg, s, events[0]), events[1..])
  }
}
