/** What every run of the reorder queue keeps. */
module ReorderSafety {
  import opened Basics
  import opened ReorderModel

  // ---- invariants ----

  /** Buffered packets lie in the window that starts at `next`. */
  predicate InWindow<P>(cfg: Config, s: State<P>) {
    forall k :: k in s.buffer ==> s.next <= k < s.next + cfg.maxGap
  }

  /** Everything delivered so far: in increasing order, each under its own wire number. */
  predicate Delivered<P>(s: State<P>) {
    && |s.log| == s.stats.emitted
    && (forall i :: 0 <= i < |s.log| ==> s.log[i].ext < s.next && s.log[i].wire == s.log[i].ext % CYCLE)
    && (forall i, j :: 0 <= i < j < |s.log| ==> s.log[i].ext < s.log[j].ext)
    && (s.log != [] ==> s.next - s.log[0].ext == s.stats.emitted + s.stats.lost)
    && (s.log != [] ==> s.lastProgress == s.log[|s.log| - 1].now)
    && s.stats.lost >= 0
  }

  /** `number` gives the number each packet was sent under. */
  ghost predicate Labelled<P>(s: State<P>, number: P -> int) {
    && (forall k :: k in s.buffer ==> number(s.buffer[k].packet) == k % CYCLE)
    && (forall i :: 0 <= i < |s.log| ==> number(s.log[i].packet) == s.log[i].wire)
  }

  /** Inputs not yet accounted for. */
  function Unsettled<P>(s: State<P>): int {
    s.inputs - (s.stats.emitted + |s.buffer| + s.stats.duplicates + s.stats.late + s.stats.outOfWindow)
  }

  /** Numbers are given up only by a timeout, an overflow, a resynchronisation or a drain. */
  predicate Lossless<P>(s: State<P>) {
    s.stats.timeouts == 0 && s.stats.overflows == 0 && s.stats.resyncs == 0 && !s.drained ==> s.stats.lost == 0
  }

  /** The probes of an unconfirmed jump. */
  predicate Probing<P>(cfg: Config, s: State<P>) {
    && s.resyncCount == |s.probe|
    && (s.probe != [] ==>
          && |s.probe| < cfg.consecutive && s.buffer == map[]
          && s.resyncLast == s.probe[|s.probe| - 1].wire && s.resyncStarted == s.probe[0].now
          && ProbesOk(cfg, s.probe, s.next, s.lastProgress))
  }

  /** Consecutive numbers, each a gap ahead, seen in one probation window of a stalled stream. */
  predicate ProbesOk(cfg: Config, ps: seq<Probe>, next: int, lastProgress: int) {
    && (forall i :: 0 <= i < |ps| - 1 ==> ps[i + 1].wire == Succ16(ps[i].wire))
    && (forall i :: 0 <= i < |ps| ==>
          && cfg.maxGap <= Delta(ps[i].wire, next) < HALF
          && ps[i].now - lastProgress >= cfg.stalledMs
          && ps[0].now <= ps[i].now < ps[0].now + cfg.probationMs)
  }

  predicate Mid<P>(cfg: Config, s: State<P>) {
    InWindow(cfg, s) && Delivered(s) && s.started && s.log != []
  }

  predicate Quiet<P>(s: State<P>) {
    s.next !in s.buffer
  }

  predicate Steady<P>(cfg: Config, s: State<P>) {
    && Mid(cfg, s) && Quiet(s) && |s.buffer| <= cfg.maxCache
    && Unsettled(s) == 0 && Lossless(s) && Probing(cfg, s)
  }

  ghost predicate Inv<P>(cfg: Config, s: State<P>) {
    if s.started then Steady(cfg, s)
    else s == Initial().(drained := s.drained, resyncLast := s.resyncLast, resyncStarted := s.resyncStarted)
  }

  /** Mid depends only on what has been and what can be delivered. */
  lemma MidFrame<P>(cfg: Config, s: State<P>, t: State<P>)
    requires Mid(cfg, s) && t.started && t.next == s.next && t.buffer == s.buffer && t.log == s.log
    requires t.lastProgress == s.lastProgress && t.stats.emitted == s.stats.emitted && t.stats.lost == s.stats.lost
    ensures Mid(cfg, t)
  {
  }

  // ---- delivering ----

  /** The effect of delivering buffered packets: nothing but the delivered part changes. */
  ghost predicate Flushed<P>(s: State<P>, r: State<P>) {
    && r.stats == s.stats.(emitted := r.stats.emitted)
    && r.stats.emitted + |r.buffer| == s.stats.emitted + |s.buffer|
    && r.inputs == s.inputs && r.drained == s.drained && r.started == s.started && s.next <= r.next
    && (forall k :: k in r.buffer ==> k in s.buffer && r.buffer[k] == s.buffer[k])
    && (r == s || (r.resyncCount == 0 && r.probe == []))
  }

  lemma EmitHead<P>(cfg: Config, s: State<P>, now: int)
    requires Mid(cfg, s) && s.next in s.buffer
    ensures var e := Emit(s.(buffer := s.buffer - {s.next}), s.next, s.buffer[s.next].packet, now);
            Mid(cfg, e) && Flushed(s, e) && |e.buffer| < |s.buffer|
  {
    assert (s.buffer - {s.next}).Keys == s.buffer.Keys - {s.next};
  }

  lemma FlushedTrans<P>(a: State<P>, b: State<P>, c: State<P>)
    requires Flushed(a, b) && Flushed(b, c)
    ensures Flushed(a, c)
  {
  }

  lemma {:induction false} FlushKeeps<P>(cfg: Config, s: State<P>, now: int)
    requires Mid(cfg, s)
    ensures var r := FlushBuffered(s, now);
            Mid(cfg, r) && Quiet(r) && Flushed(s, r)
    decreases |s.buffer|
  {
    if s.next in s.buffer {
      EmitHead(cfg, s, now);
      var e := Emit(s.(buffer := s.buffer - {s.next}), s.next, s.buffer[s.next].packet, now);
      hide Mid, Flushed, Emit;
      FlushKeeps(cfg, e, now);
      FlushedTrans(s, e, FlushBuffered(e, now));
    }
  }

  /** Skipping to the first buffered packet loses exactly the numbers skipped. */
  lemma SkipKeeps<P>(cfg: Config, s: State<P>, now: int)
    requires Mid(cfg, s) && s.buffer != map[]
    ensures var r := SkipAndFlush(s, now);
            && Mid(cfg, r) && Quiet(r) && Unsettled(r) == Unsettled(s)
            && r.stats == s.stats.(emitted := r.stats.emitted, lost := r.stats.lost)
            && r.drained == s.drained && r.resyncCount == 0 && r.probe == []
            && (forall k :: k in r.buffer ==> k in s.buffer && r.buffer[k] == s.buffer[k])
  {
    var t := SkipToFirst(s);
    assert Mid(cfg, t);
    FlushKeeps(cfg, t, now);
    SkipShrinks(t, now);
    hide FlushBuffered, Mid;
  }

  // ---- expiry ----

  /** What an expiry pass keeps of the state it starts from. */
  ghost predicate Drained<P>(s: State<P>, r: State<P>) {
    && Unsettled(r) == Unsettled(s) && |r.buffer| <= |s.buffer| && r.drained == s.drained
    && (Lossless(s) ==> Lossless(r))
    && (r == s || (r.resyncCount == 0 && r.probe == []))
  }

  lemma {:induction false} DrainKeeps<P>(cfg: Config, s: State<P>, now: int)
    requires Mid(cfg, s) && Quiet(s)
    ensures var r := DrainExpired(cfg, s, now);
            Mid(cfg, r) && Quiet(r) && Drained(s, r) && !Expired(cfg, r, now)
    decreases |s.buffer|
  {
    hide Mid, SkipAndFlush, DrainExpired;
    DrainStep(cfg, s, now);
    if s.buffer != map[] && Expired(cfg, s, now) {
      hide Expired;
      StartedMid(cfg, s);
      var t := s.(stats := s.stats.(timeouts := s.stats.timeouts + 1));
      MidFrame(cfg, s, t);
      SkipKeeps(cfg, t, now);
      DrainKeeps(cfg, SkipAndFlush(t, now), now);
    }
  }

  lemma DrainStep<P>(cfg: Config, s: State<P>, now: int)
    ensures DrainExpired(cfg, s, now) ==
            if s.buffer != map[] && Expired(cfg, s, now)
            then DrainExpired(cfg, SkipAndFlush(s.(stats := s.stats.(timeouts := s.stats.timeouts + 1)), now), now)
            else s
  {
    hide SkipAndFlush, Expired;
  }

  lemma FlushExpiredKeeps<P>(cfg: Config, s: State<P>, now: int)
    requires Mid(cfg, s) && Quiet(s) && Probing(cfg, s)
    ensures var r := FlushExpired(cfg, s, now);
            && Mid(cfg, r) && Quiet(r) && Drained(ClearResync(s), ClearResync(r)) && !Expired(cfg, r, now)
            && Probing(cfg, r) && !ProbationOver(cfg, r, now)
  {
    var t := if ProbationOver(cfg, s, now) then ClearResync(s) else s;
    assert Mid(cfg, t) && Probing(cfg, t);
    DrainKeeps(cfg, t, now);
    hide DrainExpired, Mid, Expired, ProbesOk;
  }

  // ---- input ----

  /** The state in which a packet is judged: flushed, and one input ahead. */
  ghost predicate Ready<P>(cfg: Config, s: State<P>, now: int) {
    && Mid(cfg, s) && Quiet(s) && |s.buffer| <= cfg.maxCache
    && Unsettled(s) == 1 && Lossless(s) && Probing(cfg, s)
    && !Expired(cfg, s, now) && !ProbationOver(cfg, s, now)
  }

  lemma ProbesSnoc(cfg: Config, ps: seq<Probe>, p: Probe, next: int, lastProgress: int)
    requires ProbesOk(cfg, ps, next, lastProgress)
    requires ps != [] ==> p.wire == Succ16(ps[|ps| - 1].wire) && ps[0].now <= p.now < ps[0].now + cfg.probationMs
    requires cfg.maxGap <= Delta(p.wire, next) < HALF && p.now - lastProgress >= cfg.stalledMs && cfg.probationMs > 0
    ensures ProbesOk(cfg, ps + [p], next, lastProgress)
  {
    hide Delta;
    var all := ps + [p];
    forall i | 0 <= i < |all| - 1 ensures all[i + 1].wire == Succ16(all[i].wire) {
      if i == |ps| - 1 {
        assert all[i + 1] == p && all[i] == ps[i];
      }
    }
  }

  /** A confirmed or pending record of probes. */
  predicate Recorded<P>(cfg: Config, t: State<P>) {
    && t.resyncCount == |t.probe| && ProbesOk(cfg, t.probe, t.next, t.lastProgress)
    && (t.probe != [] ==>
          t.buffer == map[] && t.resyncLast == t.probe[|t.probe| - 1].wire && t.resyncStarted == t.probe[0].now)
  }

  lemma FirstProbe<P>(cfg: Config, s: State<P>, seqNo: uint16, now: int)
    requires Stalled(cfg, s, now) && cfg.maxGap <= Delta(seqNo, s.next) < HALF && cfg.probationMs > 0
    ensures Recorded(cfg, s.(resyncCount := 1, resyncStarted := now, resyncLast := seqNo, probe := [Probe(seqNo, now)]))
  {
    hide Delta, Succ16;
    ProbesSnoc(cfg, [], Probe(seqNo, now), s.next, s.lastProgress);
    assert [] + [Probe(seqNo, now)] == [Probe(seqNo, now)];
  }

  lemma NextProbe<P>(cfg: Config, s: State<P>, seqNo: uint16, now: int)
    requires Recorded(cfg, s) && s.resyncCount > 0 && Stalled(cfg, s, now) && !ProbationOver(cfg, s, now)
    requires cfg.maxGap <= Delta(seqNo, s.next) < HALF && seqNo == Succ16(s.resyncLast)
    ensures Recorded(cfg, s.(resyncCount := s.resyncCount + 1, resyncLast := seqNo,
            probe := s.probe + [Probe(seqNo, now)]))
  {
    hide Delta, Succ16;
    ProbesSnoc(cfg, s.probe, Probe(seqNo, now), s.next, s.lastProgress);
    hide ProbesOk;
  }

  lemma ProbingRecorded<P>(cfg: Config, s: State<P>)
    requires Probing(cfg, s)
    ensures Recorded(cfg, s)
  {
    hide Delta, Succ16;
  }

  /** Counting a probe keeps the record of consecutive numbers honest. */
  lemma CountKeeps<P>(cfg: Config, s: State<P>, seqNo: uint16, now: int)
    requires ValidConfig(cfg) && Ready(cfg, s, now) && cfg.maxGap <= Delta(seqNo, s.next) < HALF
    ensures var t := CountProbe(cfg, s, seqNo, now);
            && Recorded(cfg, t)
            && (Confirms(cfg, s, seqNo, now) ==>
                  |t.probe| == cfg.consecutive && t.probe[|t.probe| - 1] == Probe(seqNo, now) && t.buffer == map[])
            && (!Confirms(cfg, s, seqNo, now) ==> t.probe != [] ==> |t.probe| < cfg.consecutive)
  {
    ProbingRecorded(cfg, s);
    assert s.probe != [] ==> |s.probe| < cfg.consecutive;
    hide Delta, Mid, Succ16, Probing, Quiet, Expired, ProbationOver, Unsettled, Lossless;
    if Stalled(cfg, s, now) {
      FirstProbe(cfg, s, seqNo, now);
      if s.resyncCount > 0 && seqNo == Succ16(s.resyncLast) {
        NextProbe(cfg, s, seqNo, now);
      }
    } else {
      EmptyRecord(cfg, s);
    }
    hide ProbesOk;
  }

  lemma EmptyRecord<P>(cfg: Config, s: State<P>)
    ensures Recorded(cfg, ClearResync(s))
  {
  }

  /** Counting a probe changes nothing but the record and its statistics. */
  lemma CountShape<P>(cfg: Config, s: State<P>, seqNo: uint16, now: int)
    ensures var t := CountProbe(cfg, s, seqNo, now);
            t == s.(resyncCount := t.resyncCount, resyncStarted := t.resyncStarted, resyncLast := t.resyncLast,
                    probe := t.probe, stats := s.stats.(resyncAttempts := t.stats.resyncAttempts))
  {
    hide Succ16;
  }

  /** A confirmed jump delivers the packet with nothing buffered. */
  lemma JumpKeeps<P>(cfg: Config, t: State<P>, delta: nat, packet: P, now: int)
    requires Mid(cfg, t) && t.buffer == map[] && Unsettled(t) == 1
    ensures var j := Emit(t.(stats := t.stats.(resyncs := t.stats.resyncs + 1, lost := t.stats.lost + delta)),
            t.next + delta, packet, now);
            Steady(cfg, j) && j.started && j.buffer == map[]
  {
  }

  /** An unconfirmed probe is recorded and the packet dropped. */
  lemma ProbeKeeps<P>(cfg: Config, s: State<P>, t: State<P>)
    requires Mid(cfg, s) && Quiet(s) && |s.buffer| <= cfg.maxCache && Unsettled(s) == 1 && Lossless(s)
    requires t == s.(resyncCount := t.resyncCount, resyncStarted := t.resyncStarted, resyncLast := t.resyncLast,
                     probe := t.probe, stats := s.stats.(resyncAttempts := t.stats.resyncAttempts))
    requires Recorded(cfg, t) && (t.probe != [] ==> |t.probe| < cfg.consecutive)
    ensures Steady(cfg, t.(stats := t.stats.(outOfWindow := t.stats.outOfWindow + 1))) && t.started
  {
    StartedMid(cfg, s);
    hide Mid, ProbesOk;
    var r := t.(stats := t.stats.(outOfWindow := t.stats.outOfWindow + 1));
    MidFrame(cfg, s, r);
  }

  lemma BeyondKeeps<P>(cfg: Config, s: State<P>, seqNo: uint16, packet: P, now: int)
    requires ValidConfig(cfg) && Ready(cfg, s, now) && cfg.maxGap <= Delta(seqNo, s.next) < HALF
    ensures Inv(cfg, Beyond(cfg, s, seqNo, packet, now)) && !Expired(cfg, Beyond(cfg, s, seqNo, packet, now), now)
  {
    hide Delta, CountProbe, Mid, Confirms, Recorded, Probing, Steady, Unsettled, Lossless, Quiet, Expired, Emit,
         ProbationOver, ValidConfig;
    CountKeeps(cfg, s, seqNo, now);
    CountShape(cfg, s, seqNo, now);
    StartedMid(cfg, s);
    var t := CountProbe(cfg, s, seqNo, now);
    var r := Beyond(cfg, s, seqNo, packet, now);
    if Confirms(cfg, s, seqNo, now) {
      MidFrame(cfg, s, t);
      SameUnsettled(s, t);
      JumpKeeps(cfg, t, Delta(seqNo, s.next), packet, now);
      EmptyUnexpired(cfg, r, now);
    } else {
      ProbeKeeps(cfg, s, t);
      SameExpiry(cfg, s, r, now);
    }
  }

  lemma SameExpiry<P>(cfg: Config, s: State<P>, r: State<P>, now: int)
    requires r.buffer == s.buffer && !Expired(cfg, s, now)
    ensures !Expired(cfg, r, now)
  {
  }

  lemma EmptyUnexpired<P>(cfg: Config, r: State<P>, now: int)
    requires r.buffer == map[]
    ensures !Expired(cfg, r, now)
  {
  }

  lemma SameUnsettled<P>(s: State<P>, t: State<P>)
    requires t.stats == s.stats.(resyncAttempts := t.stats.resyncAttempts) && t.buffer == s.buffer &&
             t.inputs == s.inputs
    ensures Unsettled(t) == Unsettled(s)
  {
  }

  lemma EmitAtNext<P>(cfg: Config, s: State<P>, packet: P, now: int)
    requires Mid(cfg, s) && Quiet(s)
    ensures var e := Emit(ClearResync(s), s.next, packet, now);
            && Mid(cfg, e) && e.buffer == s.buffer && e.resyncCount == 0 && e.probe == []
            && e.stats == s.stats.(emitted := s.stats.emitted + 1) && e.inputs == s.inputs && e.drained == s.drained
  {
  }

  lemma EmitNextKeeps<P>(cfg: Config, s: State<P>, packet: P, now: int)
    requires Ready(cfg, s, now)
    ensures var r := FlushBuffered(Emit(ClearResync(s), s.next, packet, now), now);
            Inv(cfg, r) && !Expired(cfg, r, now)
  {
    hide FlushBuffered, Emit, Mid;
    EmitAtNext(cfg, s, packet, now);
    var e := Emit(ClearResync(s), s.next, packet, now);
    FlushKeeps(cfg, e, now);
    var r := FlushBuffered(e, now);
    SubBuffer(s.buffer, r.buffer);
  }

  lemma SubBuffer<P>(a: map<int, Buffered<P>>, b: map<int, Buffered<P>>)
    requires forall k :: k in b ==> k in a && b[k] == a[k]
    ensures |b| <= |a|
  {
    assert forall k :: k in b.Keys ==> k in a.Keys;
    FewerKeys(b, a);
  }

  /** Between operations on the buffer, with no probes pending. */
  predicate Settled<P>(cfg: Config, t: State<P>) {
    Mid(cfg, t) && Quiet(t) && Lossless(t) && Unsettled(t) == 0 && t.resyncCount == 0 && t.probe == []
  }

  lemma OverflowKeeps<P>(cfg: Config, t: State<P>, now: int)
    requires Settled(cfg, t) && |t.buffer| <= cfg.maxCache + 1
    ensures Settled(cfg, Shed(cfg, t, now)) && |Shed(cfg, t, now).buffer| <= cfg.maxCache
  {
    if |t.buffer| > cfg.maxCache {
      var o := t.(stats := t.stats.(overflows := t.stats.overflows + 1));
      assert o.buffer != map[];
      hide SkipAndFlush, Mid;
      MidFrame(cfg, t, o);
      SkipKeeps(cfg, o, now);
    }
  }

  lemma InsertKeeps<P>(cfg: Config, s: State<P>, ext: int, b: Buffered<P>)
    requires Mid(cfg, s) && Quiet(s) && Lossless(s) && Unsettled(s) == 1 && s.resyncCount == 0 && s.probe == []
    requires s.next < ext < s.next + cfg.maxGap && ext !in s.buffer
    ensures Settled(cfg, s.(buffer := s.buffer[ext := b]))
  {
  }

  lemma SettledFlush<P>(cfg: Config, u: State<P>, now: int)
    requires Settled(cfg, u) && |u.buffer| <= cfg.maxCache
    ensures Inv(cfg, FlushExpired(cfg, u, now)) && !Expired(cfg, FlushExpired(cfg, u, now), now)
  {
    hide Mid, FlushExpired, Expired;
    assert Mid(cfg, u) && Probing(cfg, u);
    FlushExpiredKeeps(cfg, u, now);
    var r := FlushExpired(cfg, u, now);
    assert r.started by { StartedMid(cfg, r); }
  }

  lemma StartedMid<P>(cfg: Config, s: State<P>)
    requires Mid(cfg, s)
    ensures s.started
  {
  }

  lemma StoreKeeps<P>(cfg: Config, s: State<P>, ext: int, packet: P, now: int)
    requires Ready(cfg, s, now) && s.resyncCount == 0 && s.probe == []
    requires s.next < ext < s.next + cfg.maxGap
    ensures var r := Store(cfg, s, ext, packet, now);
            Inv(cfg, r) && !Expired(cfg, r, now)
  {
    StartedMid(cfg, s);
    hide Mid, Shed, FlushExpired, Settled;
    if ext !in s.buffer {
      hide Inv, Expired;
      var t := s.(buffer := s.buffer[ext := Buffered(packet, now)]);
      InsertKeeps(cfg, s, ext, Buffered(packet, now));
      OverflowKeeps(cfg, t, now);
      SettledFlush(cfg, Shed(cfg, t, now), now);
    } else {
      MidFrame(cfg, s, s.(stats := s.stats.(duplicates := s.stats.duplicates + 1)));
    }
  }

  lemma RefuseKeeps<P>(cfg: Config, s: State<P>, r: State<P>, now: int)
    requires (r.resyncCount == 0 && r.probe == []) || (r.resyncCount == s.resyncCount && r.probe == s.probe)
    requires Ready(cfg, s, now) && r == s.(resyncCount := r.resyncCount, probe := r.probe, stats := r.stats)
    requires r.stats == s.stats.(late := r.stats.late, outOfWindow := r.stats.outOfWindow)
    requires r.stats.late + r.stats.outOfWindow == s.stats.late + s.stats.outOfWindow + 1
    ensures Inv(cfg, r) && !Expired(cfg, r, now)
  {
    StartedMid(cfg, s);
    hide Mid, ProbesOk;
    MidFrame(cfg, s, r);
  }

  lemma AdmitKeeps<P>(cfg: Config, s: State<P>, seqNo: uint16, packet: P, now: int)
    requires ValidConfig(cfg) && Ready(cfg, s, now)
    ensures var r := Admit(cfg, s, seqNo, packet, now);
            Inv(cfg, r) && !Expired(cfg, r, now)
  {
    hide Beyond, Store, FlushBuffered, Emit, Ready, Inv, Expired;
    var delta := Delta(seqNo, s.next);
    if delta >= HALF {
      RefuseKeeps(cfg, s, Admit(cfg, s, seqNo, packet, now), now);
    } else if delta >= cfg.maxGap {
      BeyondKeeps(cfg, s, seqNo, packet, now);
    } else if delta == 0 {
      EmitNextKeeps(cfg, s, packet, now);
    } else {
      ClearKeepsReady(cfg, s, now);
      StoreKeeps(cfg, ClearResync(s), s.next + delta, packet, now);
    }
  }

  lemma ClearKeepsReady<P>(cfg: Config, s: State<P>, now: int)
    requires Ready(cfg, s, now)
    ensures Ready(cfg, ClearResync(s), now)
  {
    StartedMid(cfg, s);
    hide Mid, ProbesOk;
    MidFrame(cfg, s, ClearResync(s));
  }

  lemma FirstInput<P>(cfg: Config, s: State<P>, seqNo: uint16, packet: P, now: int)
    requires Inv(cfg, s) && !s.started
    ensures Inv(cfg, Input(cfg, s, seqNo, packet, now)) && !Expired(cfg, Input(cfg, s, seqNo, packet, now), now)
  {
  }

  /** After every input, at its own time, no buffered packet has reached its deadline. */
  lemma InputKeeps<P>(cfg: Config, s: State<P>, seqNo: uint16, packet: P, now: int)
    requires ValidConfig(cfg) && Inv(cfg, s)
    ensures var r := Input(cfg, s, seqNo, packet, now);
            Inv(cfg, r) && !Expired(cfg, r, now)
  {
    hide Inv, FlushExpired, Admit, Ready, Expired, Emit;
    if s.started {
      FlushedReady(cfg, s, now);
      AdmitKeeps(cfg, FlushExpired(cfg, s.(inputs := s.inputs + 1), now), seqNo, packet, now);
    } else {
      FirstInput(cfg, s, seqNo, packet, now);
    }
  }

  lemma FlushedReady<P>(cfg: Config, s: State<P>, now: int)
    requires Inv(cfg, s) && s.started
    ensures Ready(cfg, FlushExpired(cfg, s.(inputs := s.inputs + 1), now), now)
  {
    hide Mid, FlushExpired, Expired, ProbesOk;
    var c := s.(inputs := s.inputs + 1);
    MidFrame(cfg, s, c);
    assert Probing(cfg, c);
    hide Probing;
    FlushExpiredKeeps(cfg, c, now);
  }

  lemma TickKeeps<P>(cfg: Config, s: State<P>, now: int)
    requires Inv(cfg, s)
    ensures Inv(cfg, FlushExpired(cfg, s, now)) && !Expired(cfg, FlushExpired(cfg, s, now), now)
  {
    if s.started {
      hide Mid, Probing, FlushExpired, Expired;
      FlushExpiredKeeps(cfg, s, now);
      StartedMid(cfg, FlushExpired(cfg, s, now));
    }
  }

  // ---- draining ----

  lemma {:induction false} DrainAllKeeps<P>(cfg: Config, s: State<P>, now: int)
    requires Mid(cfg, s) && Quiet(s) && s.resyncCount == 0 && s.probe == []
    ensures var r := DrainAll(s, now);
            Mid(cfg, r) && r.buffer == map[] && Unsettled(r) == Unsettled(s) && r.resyncCount == 0 && r.probe == []
    decreases |s.buffer|
  {
    if s.buffer != map[] {
      hide Mid, SkipAndFlush;
      SkipKeeps(cfg, s, now);
      DrainAllKeeps(cfg, SkipAndFlush(s, now), now);
    }
  }

  lemma FlushTimeoutKeeps<P>(cfg: Config, s: State<P>, now: int)
    requires Inv(cfg, s)
    ensures Inv(cfg, FlushTimeout(s, now)) && FlushTimeout(s, now).buffer == map[]
  {
    if s.started {
      hide Mid, DrainAll;
      var c := ClearResync(s);
      MidFrame(cfg, s, c);
      DrainAllKeeps(cfg, c, now);
      var r := DrainAll(c, now);
      StartedMid(cfg, r);
      MidFrame(cfg, r, r.(drained := true));
    }
  }

  // ---- runs ----

  lemma StepKeeps<P>(cfg: Config, s: State<P>, e: Event<P>)
    requires ValidConfig(cfg) && Inv(cfg, s)
    ensures Inv(cfg, Step(cfg, s, e))
  {
    hide Inv, Input, FlushExpired, FlushTimeout, Expired;
    match e
    case Packet(seqNo, packet, now) => InputKeeps(cfg, s, seqNo, packet, now);
    case Tick(now) => TickKeeps(cfg, s, now);
    case Drain(now) => FlushTimeoutKeeps(cfg, s, now);
  }

  /** In every run since reset: order, numbering, accounting, window, capacity and loss-freedom. */
  lemma {:induction false} RunKeeps<P>(cfg: Config, s: State<P>, events: seq<Event<P>>)
    requires ValidConfig(cfg) && Inv(cfg, s)
    ensures Inv(cfg, Run(cfg, s, events))
    decreases |events|
  {
    hide Inv, Step;
    if events != [] {
      StepKeeps(cfg, s, events[0]);
      RunKeeps(cfg, Step(cfg, s, events[0]), events[1..]);
    }
  }

  /** Without timeouts, overflows, resynchronisations or drains the output has no gaps. */
  lemma GapFree<P>(cfg: Config, s: State<P>, i: nat)
    requires Inv(cfg, s) && i < |s.log|
    requires s.stats.timeouts == 0 && s.stats.overflows == 0 && s.stats.resyncs == 0 && !s.drained
    ensures s.stats.lost == 0 && s.log[i].ext == s.log[0].ext + i
  {
    assert Delivered(s);
    SpreadOut(s.log, 0, i);
    SpreadOut(s.log, i, |s.log| - 1);
  }

  lemma {:induction false} SpreadOut<P>(log: seq<Emitted<P>>, i: nat, j: nat)
    requires i <= j < |log| && forall a, b :: 0 <= a < b < |log| ==> log[a].ext < log[b].ext
    ensures log[j].ext - log[i].ext >= j - i
    decreases j
  {
    if i < j {
      SpreadOut(log, i, j - 1);
    }
  }

  /**
   A forward jump is taken only on evidence: an empty buffer and the required number of
   consecutive sequence numbers, each at least a gap ahead, all within one probation
   window and all after the stream had stalled since its last delivery.
   */
  lemma ResyncJustified<P>(cfg: Config, f: State<P>, seqNo: uint16, packet: P, now: int)
    requires ValidConfig(cfg) && Ready(cfg, f, now)
    requires Admit(cfg, f, seqNo, packet, now).stats.resyncs > f.stats.resyncs
    ensures var ps := CountProbe(cfg, f, seqNo, now).probe;
            && f.buffer == map[] && f.log != [] && f.lastProgress == f.log[|f.log| - 1].now
            && |ps| == cfg.consecutive && ps != [] && ps[|ps| - 1] == Probe(seqNo, now)
            && ProbesOk(cfg, ps, f.next, f.lastProgress)
            && Admit(cfg, f, seqNo, packet, now).next == f.next + Delta(seqNo, f.next) + 1
  {
    var delta := Delta(seqNo, f.next);
    assert f.log != [] && f.lastProgress == f.log[|f.log| - 1].now;
    hide Mid;
    if cfg.maxGap <= delta < HALF {
      CountKeeps(cfg, f, seqNo, now);
      CountShape(cfg, f, seqNo, now);
      hide CountProbe, Delta, Ready, ProbesOk, Confirms;
    } else {
      NoResyncOtherwise(cfg, f, seqNo, packet, now);
      assert false;
    }
  }

  // Only a confirmed jump counts as a resynchronisation, and only it needs probes.

  predicate ProbesKept<P>(s: State<P>, r: State<P>) {
    r.probe == s.probe || r.probe == []
  }

  lemma {:induction false} FlushResyncs<P>(s: State<P>, now: int)
    ensures FlushBuffered(s, now).stats.resyncs == s.stats.resyncs && ProbesKept(s, FlushBuffered(s, now))
    decreases |s.buffer|
  {
    if s.next in s.buffer {
      var rest := s.buffer - {s.next};
      assert rest.Keys == s.buffer.Keys - {s.next};
      FlushResyncs(Emit(s.(buffer := rest), s.next, s.buffer[s.next].packet, now), now);
    }
  }

  lemma SkipResyncs<P>(s: State<P>, now: int)
    requires s.buffer != map[]
    ensures SkipAndFlush(s, now).stats.resyncs == s.stats.resyncs && ProbesKept(s, SkipAndFlush(s, now))
  {
    FlushResyncs(SkipToFirst(s), now);
  }

  lemma {:induction false} DrainResyncs<P>(cfg: Config, s: State<P>, now: int)
    ensures DrainExpired(cfg, s, now).stats.resyncs == s.stats.resyncs && ProbesKept(s, DrainExpired(cfg, s, now))
    decreases |s.buffer|
  {
    hide SkipAndFlush;
    if s.buffer != map[] && Expired(cfg, s, now) {
      var t := s.(stats := s.stats.(timeouts := s.stats.timeouts + 1));
      SkipResyncs(t, now);
      DrainResyncs(cfg, SkipAndFlush(t, now), now);
    }
  }

  lemma StoreResyncs<P>(cfg: Config, s: State<P>, ext: int, packet: P, now: int)
    ensures Store(cfg, s, ext, packet, now).stats.resyncs == s.stats.resyncs &&
            ProbesKept(s, Store(cfg, s, ext, packet, now))
  {
    hide SkipAndFlush, DrainExpired;
    if ext !in s.buffer {
      var t := s.(buffer := s.buffer[ext := Buffered(packet, now)]);
      var u := Shed(cfg, t, now);
      if |t.buffer| > cfg.maxCache {
        SkipResyncs(t.(stats := t.stats.(overflows := t.stats.overflows + 1)), now);
      }
      DrainResyncs(cfg, if ProbationOver(cfg, u, now) then ClearResync(u) else u, now);
    }
  }

  lemma NoResyncOtherwise<P>(cfg: Config, f: State<P>, seqNo: uint16, packet: P, now: int)
    requires ValidConfig(cfg) && !(cfg.maxGap <= Delta(seqNo, f.next) < HALF)
    ensures Admit(cfg, f, seqNo, packet, now).stats.resyncs == f.stats.resyncs &&
            ProbesKept(f, Admit(cfg, f, seqNo, packet, now))
  {
    hide Store, FlushBuffered;
    FlushResyncs(Emit(ClearResync(f), f.next, packet, now), now);
    StoreResyncs(cfg, ClearResync(f), f.next + Delta(seqNo, f.next), packet, now);
    hide Delta;
  }

  // ---- the same for whole runs ----

  /** Every probe on record is a packet that came in. */
  ghost predicate Seen<P>(s: State<P>, past: seq<Event<P>>) {
    forall i :: 0 <= i < |s.probe| ==> CameIn(s.probe[i], past)
  }

  ghost predicate CameIn<P>(p: Probe, past: seq<Event<P>>) {
    exists j :: 0 <= j < |past| && past[j].Packet? && past[j].seqNo == p.wire && past[j].now == p.now
  }

  lemma CameInBefore<P>(p: Probe, past: seq<Event<P>>, e: Event<P>)
    requires CameIn(p, past)
    ensures CameIn(p, past + [e])
  {
    var j :| 0 <= j < |past| && past[j].Packet? && past[j].seqNo == p.wire && past[j].now == p.now;
    assert (past + [e])[j] == past[j];
  }

  lemma CameInNow<P>(past: seq<Event<P>>, e: Event<P>)
    requires e.Packet?
    ensures CameIn(Probe(e.seqNo, e.now), past + [e])
  {
    assert (past + [e])[|past|] == e;
  }

  lemma ExpiryKeepsProbes<P>(cfg: Config, s: State<P>, now: int)
    ensures FlushExpired(cfg, s, now).stats.resyncs == s.stats.resyncs && ProbesKept(s, FlushExpired(cfg, s, now))
  {
    hide DrainExpired;
    DrainResyncs(cfg, if ProbationOver(cfg, s, now) then ClearResync(s) else s, now);
  }

  lemma {:induction false} DrainAllProbes<P>(s: State<P>, now: int)
    ensures ProbesKept(s, DrainAll(s, now))
    decreases |s.buffer|
  {
    hide SkipAndFlush;
    if s.buffer != map[] {
      SkipResyncs(s, now);
      DrainAllProbes(SkipAndFlush(s, now), now);
    }
  }

  /** A packet adds at most itself to the probes. */
  lemma AdmitProbes<P>(cfg: Config, f: State<P>, seqNo: uint16, packet: P, now: int)
    requires ValidConfig(cfg)
    ensures var r := Admit(cfg, f, seqNo, packet, now);
            ProbesKept(f, r) || r.probe == [Probe(seqNo, now)] || r.probe == f.probe + [Probe(seqNo, now)]
  {
    if cfg.maxGap <= Delta(seqNo, f.next) < HALF {
      hide Delta, Stalled, Confirms;
    } else {
      hide Admit, Delta;
      NoResyncOtherwise(cfg, f, seqNo, packet, now);
    }
  }

  lemma StepSeen<P>(cfg: Config, s: State<P>, past: seq<Event<P>>, e: Event<P>)
    requires ValidConfig(cfg) && Seen(s, past)
    ensures Seen(Step(cfg, s, e), past + [e])
  {
    hide Admit, FlushExpired, DrainAll, CameIn;
    forall i | 0 <= i < |s.probe| ensures CameIn(s.probe[i], past + [e]) {
      CameInBefore(s.probe[i], past, e);
    }
    match e
    case Packet(seqNo, packet, now) =>
      CameInNow(past, e);
      if s.started {
        var c := s.(inputs := s.inputs + 1);
        ExpiryKeepsProbes(cfg, c, now);
        AdmitProbes(cfg, FlushExpired(cfg, c, now), seqNo, packet, now);
      }
    case Tick(now) => ExpiryKeepsProbes(cfg, s, now);
    case Drain(now) => DrainAllProbes(ClearResync(s), now);
  }

  lemma {:induction false} RunSeen<P>(cfg: Config, s: State<P>, past: seq<Event<P>>, events: seq<Event<P>>)
    requires ValidConfig(cfg) && Seen(s, past)
    ensures Seen(Run(cfg, s, events), past + events)
    decreases |events|
  {
    hide Seen, Step;
    if events == [] {
      assert past + events == past;
    } else {
      StepSeen(cfg, s, past, events[0]);
      RunSeen(cfg, Step(cfg, s, events[0]), past + [events[0]], events[1..]);
      assert (past + [events[0]]) + events[1..] == past + events;
    }
  }

  lemma InitialInv<P>(cfg: Config)
    ensures Inv<P>(cfg, Initial())
  {
  }

  /** In every run from the start: no gap in the output while nothing was skipped. */
  lemma RunGapFree<P>(cfg: Config, events: seq<Event<P>>, i: nat)
    requires ValidConfig(cfg)
    ensures var s := Run(cfg, Initial(), events);
            s.stats.timeouts == 0 && s.stats.overflows == 0 && s.stats.resyncs == 0 && !s.drained && i < |s.log| ==>
              s.stats.lost == 0 && s.log[i].ext == s.log[0].ext + i
  {
    hide Inv, Run;
    InitialInv<P>(cfg);
    RunKeeps(cfg, Initial(), events);
    var s := Run(cfg, Initial(), events);
    if s.stats.timeouts == 0 && s.stats.overflows == 0 && s.stats.resyncs == 0 && !s.drained && i < |s.log| {
      GapFree(cfg, s, i);
    }
  }

  /** A delivery just made, or a packet still waiting, rules a jump out. */
  lemma JumpNeedsSilence<P>(cfg: Config, s: State<P>, seqNo: uint16, packet: P, now: int)
    requires ValidConfig(cfg) && Inv(cfg, s) && Input(cfg, s, seqNo, packet, now).stats.resyncs > s.stats.resyncs
    ensures s.started && s.buffer == map[]
    ensures var f := FlushExpired(cfg, s.(inputs := s.inputs + 1), now);
            && Ready(cfg, f, now) && Admit(cfg, f, seqNo, packet, now).stats.resyncs > f.stats.resyncs
            && f.next == s.next && f.lastProgress == s.lastProgress && f.log == s.log && ProbesKept(s, f)
  {
    hide Inv, Ready, Input, Admit, FlushExpired, ProbesKept, ProbesOk, CountProbe, Delta;
    var c := s.(inputs := s.inputs + 1);
    var f := FlushExpired(cfg, c, now);
    FirstDoesNotJump(cfg, s, seqNo, packet, now);
    InputIsAdmit(cfg, s, seqNo, packet, now);
    FlushedReady(cfg, s, now);
    ExpiryKeepsProbes(cfg, c, now);
    ProbesKeptCounting(s, f);
    ResyncJustified(cfg, f, seqNo, packet, now);
    SilentBefore(cfg, c, now);
    StalledAtJump(cfg, f, seqNo, packet, now);
  }

  lemma ProbesKeptCounting<P>(s: State<P>, f: State<P>)
    ensures ProbesKept(s.(inputs := s.inputs + 1), f) <==> ProbesKept(s, f)
  {
  }

  lemma FirstDoesNotJump<P>(cfg: Config, s: State<P>, seqNo: uint16, packet: P, now: int)
    ensures Input(cfg, s, seqNo, packet, now).stats.resyncs > s.stats.resyncs ==> s.started
  {
    hide Admit, FlushExpired;
  }

  lemma StalledAtJump<P>(cfg: Config, f: State<P>, seqNo: uint16, packet: P, now: int)
    requires ValidConfig(cfg) && Admit(cfg, f, seqNo, packet, now).stats.resyncs > f.stats.resyncs
    ensures now > f.lastProgress
  {
    if cfg.maxGap <= Delta(seqNo, f.next) < HALF {
      hide Delta;
    } else {
      NoResyncOtherwise(cfg, f, seqNo, packet, now);
      assert false;
    }
  }

  /** An expiry that delivers something moves the progress time to now. */
  lemma SilentBefore<P>(cfg: Config, c: State<P>, now: int)
    ensures var f := FlushExpired(cfg, c, now);
            f.buffer == map[] && f.lastProgress != now ==>
              c.buffer == map[] && f.next == c.next && f.lastProgress == c.lastProgress && f.log == c.log
  {
    hide SkipAndFlush;
    var d := if ProbationOver(cfg, c, now) then ClearResync(c) else c;
    DrainProgress(cfg, d, now);
  }

  lemma {:induction false} DrainProgress<P>(cfg: Config, s: State<P>, now: int)
    ensures var r := DrainExpired(cfg, s, now); r == s || r.lastProgress == now
    decreases |s.buffer|
  {
    hide SkipAndFlush;
    if s.buffer != map[] && Expired(cfg, s, now) {
      var t := s.(stats := s.stats.(timeouts := s.stats.timeouts + 1));
      SkipProgress(t, now);
      DrainProgress(cfg, SkipAndFlush(t, now), now);
    }
  }

  lemma SkipProgress<P>(s: State<P>, now: int)
    requires s.buffer != map[]
    ensures SkipAndFlush(s, now).lastProgress == now
  {
    var t := SkipToFirst(s);
    assert t.next in t.buffer;
    FlushProgress(t, now);
  }

  lemma {:induction false} FlushProgress<P>(s: State<P>, now: int)
    requires s.next in s.buffer || s.lastProgress == now
    ensures FlushBuffered(s, now).lastProgress == now
    decreases |s.buffer|
  {
    if s.next in s.buffer {
      var rest := s.buffer - {s.next};
      assert rest.Keys == s.buffer.Keys - {s.next};
      FlushProgress(Emit(s.(buffer := rest), s.next, s.buffer[s.next].packet, now), now);
    }
  }

  /** The packets that a jump at this input rests on. */
  ghost predicate Evidence<P>(cfg: Config, s: State<P>, seqNo: uint16, now: int, ps: seq<Probe>, past: seq<Event<P>>) {
    && |ps| == cfg.consecutive && ps != [] && ps[|ps| - 1] == Probe(seqNo, now)
    && ProbesOk(cfg, ps, s.next, s.lastProgress)
    && forall i :: 0 <= i < |ps| - 1 ==> CameIn(ps[i], past)
  }

  /**
   In every run from the start, a packet makes the stream jump ahead only on evidence: the
   buffer is empty, and the packet is the last of the required number of packets with
   consecutive numbers that came in, each at least a gap ahead, within one probation window
   and after the stream had stalled since its last delivery.
   */
  lemma RunResyncJustified<P>(cfg: Config, events: seq<Event<P>>, seqNo: uint16, packet: P, now: int)
    requires ValidConfig(cfg)
    requires var s := Run(cfg, Initial(), events); Input(cfg, s, seqNo, packet, now).stats.resyncs > s.stats.resyncs
    ensures var s := Run(cfg, Initial(), events);
            && s.buffer == map[] && s.log != [] && s.lastProgress == s.log[|s.log| - 1].now
            && (exists ps :: Evidence(cfg, s, seqNo, now, ps, events))
            && Input(cfg, s, seqNo, packet, now).next == s.next + Delta(seqNo, s.next) + 1
  {
    hide Inv, Run, Input, Admit, FlushExpired, Ready, Delta, CameIn, ProbesOk, Confirms;
    InitialInv<P>(cfg);
    RunKeeps(cfg, Initial(), events);
    RunSeen(cfg, Initial(), [], events);
    assert [] + events == events;
    var s := Run(cfg, Initial(), events);
    JumpNeedsSilence(cfg, s, seqNo, packet, now);
    var f := FlushExpired(cfg, s.(inputs := s.inputs + 1), now);
    ResyncJustified(cfg, f, seqNo, packet, now);
    var ps := CountProbe(cfg, f, seqNo, now).probe;
    CountedProbes(cfg, f, seqNo, now);
    assert forall i :: 0 <= i < |ps| - 1 ==> ps[i] in f.probe;
    hide CountProbe;
    assert Evidence(cfg, s, seqNo, now, ps, events);
    InputIsAdmit(cfg, s, seqNo, packet, now);
  }

  lemma CountedProbes<P>(cfg: Config, f: State<P>, seqNo: uint16, now: int)
    ensures var ps := CountProbe(cfg, f, seqNo, now).probe;
            ps == f.probe || ps == [] || ps == [Probe(seqNo, now)] || ps == f.probe + [Probe(seqNo, now)]
  {
    hide Stalled;
  }

  lemma InputIsAdmit<P>(cfg: Config, s: State<P>, seqNo: uint16, packet: P, now: int)
    requires s.started
    ensures Input(cfg, s, seqNo, packet, now) ==
            Admit(cfg, FlushExpired(cfg, s.(inputs := s.inputs + 1), now), seqNo, packet, now)
  {
    hide Admit, FlushExpired;
  }
}
