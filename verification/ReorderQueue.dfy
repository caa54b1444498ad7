/**
 The reorder queue itself, updated in place, with a ghost log of deliveries. Each
 operation is proved to act as the model says.
 */
module ReorderQueue {
  import opened Basics
  import opened ReorderModel
  import opened ReorderSafety

  class RtpPacketReorderQueue<P> {
    const cfg: Config
    var started: bool
    var next: int
    var buffer: map<int, Buffered<P>>
    var lastProgress: int
    var resyncCount: nat
    var resyncLast: uint16
    var resyncStarted: int
    var stats: Stats
    ghost var log: seq<Emitted<P>>
    ghost var probe: seq<Probe>
    ghost var inputs: nat
    ghost var drained: bool

    ghost function View(): State<P>
      reads this
    {
      State(started, next, buffer, lastProgress, resyncCount, resyncLast, resyncStarted, stats, log, probe, inputs,
          drained)
    }

    ghost predicate Valid()
      reads this
    {
      ValidConfig(cfg) && Inv(cfg, View())
    }

    constructor (config: Config)
      requires ValidConfig(config)
      ensures Valid() && View() == Initial() && cfg == config
    {
      cfg := config;
      started, next, buffer, lastProgress := false, 0, map[], 0;
      resyncCount, resyncLast, resyncStarted, stats := 0, 0, 0, NO_STATS;
      log, probe, inputs, drained := [], [], 0, false;
    }

    /** Construction, with null for the configurations that the constructor refuses by an exception. */
    static method Create(config: Config) returns (q: RtpPacketReorderQueue?<P>)
      ensures q == null <==>
              || config.maxGap == 0 || config.maxGap > HALF || config.maxCache >= HALF
              || config.consecutive == 1 || config.consecutive >= HALF
              || (config.consecutive > 1 && (config.stalledMs == 0 || config.probationMs == 0))
      ensures q != null ==> fresh(q) && q.Valid() && q.View() == Initial() && q.cfg == config
    {
      if config.maxGap == 0 || config.maxGap > HALF || config.maxCache >= HALF {
        return null;
      }
      if config.consecutive != 0 &&
         (config.consecutive < 2 || config.consecutive >= HALF || config.stalledMs == 0 || config.probationMs == 0) {
        return null;
      }
      q := new RtpPacketReorderQueue(config);
    }

    method Reset()
      requires ValidConfig(cfg)
      modifies this
      ensures Valid() && View() == Initial().(resyncLast := resyncLast, resyncStarted := resyncStarted)
      ensures resyncLast == old(resyncLast) && resyncStarted == old(resyncStarted)
    {
      hide Steady;
      started, next, buffer, lastProgress := false, 0, map[], 0;
      resyncCount, stats := 0, NO_STATS;
      log, probe, inputs, drained := [], [], 0, false;
    }

    // ---- the buffer ----

    /** buffer_.begin()->first */
    method Begin() returns (k: int)
      requires buffer != map[]
      ensures IsFirst(buffer, k)
    {
      FirstExists(buffer);
      k :| k in buffer && forall j :: j in buffer ==> k <= j;
    }

    method ClearResync()
      modifies this`resyncCount, this`probe
      ensures View() == ReorderModel.ClearResync(old(View()))
    {
      resyncCount := 0;
      probe := [];
    }

    method Emit(ext: int, packet: P, now: int)
      modifies this
      ensures View() == ReorderModel.Emit(old(View()), ext, packet, now)
    {
      next := ext + 1;
      lastProgress := now;
      ClearResync();
      stats := stats.(emitted := stats.emitted + 1);
      log := log + [Emitted(ext, ext % CYCLE, packet, now)];
    }

    method SkipToFirst()
      requires buffer != map[]
      modifies this`stats, this`next
      ensures View() == ReorderModel.SkipToFirst(old(View()))
    {
      var k := Begin();
      FirstUnique(buffer, k, First(buffer));
      stats := stats.(lost := stats.lost + (k - next));
      next := k;
    }

    method FlushBuffered(now: int)
      requires Mid(cfg, View())
      modifies this
      ensures View() == ReorderModel.FlushBuffered(old(View()), now)
      ensures Mid(cfg, View()) && Quiet(View())
    {
      FlushKeeps(cfg, View(), now);
      hide Mid;
      while true
        invariant Mid(cfg, View())
        invariant ReorderModel.FlushBuffered(View(), now) == ReorderModel.FlushBuffered(old(View()), now)
        decreases |buffer|
      {
        if buffer == map[] {
          return;
        }
        var k := Begin();
        BeginIsNext(cfg, View(), k);
        if k != next {
          return;
        }
        var packet := buffer[k].packet;
        EmitHead(cfg, View(), now);
        buffer := buffer - {k};
        Emit(k, packet, now);
      }
    }

    /** The inner loop of flushExpired. */
    method OldestArrival() returns (oldest: int)
      requires buffer != map[]
      ensures exists k :: k in buffer && buffer[k].arrived == oldest
      ensures forall k :: k in buffer ==> oldest <= buffer[k].arrived
    {
      var k := Begin();
      oldest := buffer[k].arrived;
      var rest := buffer.Keys;
      while rest != {}
        invariant rest <= buffer.Keys
        invariant exists k :: k in buffer && buffer[k].arrived == oldest
        invariant forall k :: k in buffer && k !in rest ==> oldest <= buffer[k].arrived
        decreases rest
      {
        ghost var some := Pick(rest);
        var j :| j in rest;
        if buffer[j].arrived < oldest {
          oldest := buffer[j].arrived;
        }
        rest := rest - {j};
      }
    }

    method FlushExpired(now: int)
      requires Mid(cfg, View()) && Quiet(View())
      modifies this
      ensures View() == ReorderModel.FlushExpired(cfg, old(View()), now)
      ensures !Expired(cfg, View(), now)
    {
      hide Mid, DrainExpired, Expired;
      if resyncCount > 0 && (now < resyncStarted || now - resyncStarted >= cfg.probationMs) {
        StartedMid(cfg, View());
        MidFrame(cfg, View(), ReorderModel.ClearResync(View()));
        ClearResync();
      }
      ExpireGaps(now);
    }

    /** flushExpired as its owner calls it from a periodic tick. */
    method Tick(now: int)
      requires Valid()
      modifies this
      ensures Valid() && View() == ReorderModel.FlushExpired(cfg, old(View()), now)
      ensures !Expired(cfg, View(), now)
    {
      hide Expired;
      TickKeeps(cfg, View(), now);
      if started {
        FlushExpired(now);
      } else {
        DrainStep(cfg, View(), now);
      }
    }

    /** The loop of flushExpired. */
    method ExpireGaps(now: int)
      requires Mid(cfg, View()) && Quiet(View())
      modifies this
      ensures View() == DrainExpired(cfg, old(View()), now)
      ensures !Expired(cfg, View(), now)
    {
      hide Mid, DrainExpired, SkipAndFlush, Expired, Quiet;
      while buffer != map[]
        invariant Mid(cfg, View()) && Quiet(View())
        invariant DrainExpired(cfg, View(), now) == DrainExpired(cfg, old(View()), now)
        decreases |buffer|
      {
        DrainStep(cfg, View(), now);
        var oldest := OldestArrival();
        OldestDecides(cfg, View(), now, oldest);
        if now < oldest || now - oldest < cfg.timeoutMs {
          return;
        }
        ghost var t := View().(stats := stats.(timeouts := stats.timeouts + 1));
        StartedMid(cfg, View());
        MidFrame(cfg, View(), t);
        SkipKeeps(cfg, t, now);
        stats := stats.(timeouts := stats.timeouts + 1);
        SkipPass(now);
      }
      DrainStep(cfg, View(), now);
      EmptyNotExpired(cfg, View(), now);
    }

    method FlushTimeout(now: int)
      requires Valid()
      modifies this
      ensures Valid() && View() == ReorderModel.FlushTimeout(old(View()), now) && buffer == map[]
    {
      FlushTimeoutKeeps(cfg, View(), now);
      if !started {
        ClearResync();
        drained := true;
        return;
      }
      ghost var from := ReorderModel.ClearResync(View());
      MidFrame(cfg, View(), from);
      hide Mid, Probing;
      ClearResync();
      while buffer != map[]
        invariant Mid(cfg, View())
        invariant DrainAll(View(), now) == DrainAll(from, now)
        decreases |buffer|
      {
        SkipKeeps(cfg, View(), now);
        SkipMid(cfg, View());
        hide SkipAndFlush;
        SkipPass(now);
      }
      drained := true;
    }

    method SkipPass(now: int)
      requires Mid(cfg, View()) && buffer != map[]
      modifies this
      ensures View() == SkipAndFlush(old(View()), now)
    {
      SkipMid(cfg, View());
      hide Mid;
      SkipToFirst();
      FlushBuffered(now);
    }

    // ---- input ----

    method ConfirmForwardResync(seqNo: uint16, now: int) returns (ok: bool)
      modifies this
      ensures View() == CountProbe(cfg, old(View()), seqNo, now)
      ensures ok == Confirms(cfg, old(View()), seqNo, now)
    {
      hide Succ16;
      if cfg.consecutive == 0 || buffer != map[] || now < lastProgress || now - lastProgress < cfg.stalledMs {
        ClearResync();
        return false;
      }
      if resyncCount > 0 && seqNo == resyncLast {
        return false;
      }
      if resyncCount == 0 || seqNo != Succ16(resyncLast) {
        resyncCount := 1;
        resyncStarted := now;
        stats := stats.(resyncAttempts := stats.resyncAttempts + 1);
        probe := [Probe(seqNo, now)];
      } else {
        resyncCount := resyncCount + 1;
        probe := probe + [Probe(seqNo, now)];
      }
      resyncLast := seqNo;
      return resyncCount >= cfg.consecutive;
    }

    method ShedPackets(now: int)
      requires Settled(cfg, View())
      modifies this
      ensures View() == Shed(cfg, old(View()), now)
    {
      hide Mid, SkipAndFlush, Lossless, Unsettled, Quiet;
      if |buffer| > cfg.maxCache {
        assert buffer != map[];
        ghost var o := View().(stats := stats.(overflows := stats.overflows + 1));
        StartedMid(cfg, View());
        MidFrame(cfg, View(), o);
        stats := stats.(overflows := stats.overflows + 1);
        SkipPass(now);
      }
    }

    /** A packet inside the window but not next: buffered, unless it already is. */
    method StorePacket(ext: int, packet: P, now: int)
      requires Mid(cfg, View()) && Quiet(View()) && Lossless(View()) && Unsettled(View()) == 1
      requires resyncCount == 0 && probe == [] && |buffer| <= cfg.maxCache
      requires next < ext < next + cfg.maxGap
      modifies this
      ensures View() == Store(cfg, old(View()), ext, packet, now)
    {
      hide Mid, ReorderModel.FlushExpired, Lossless, Unsettled, Quiet, Shed;
      if ext in buffer {
        stats := stats.(duplicates := stats.duplicates + 1);
        return;
      }
      ghost var t := View().(buffer := buffer[ext := Buffered(packet, now)]);
      InsertKeeps(cfg, View(), ext, Buffered(packet, now));
      OverflowKeeps(cfg, t, now);
      buffer := buffer[ext := Buffered(packet, now)];
      ShedPackets(now);
      FlushExpired(now);
    }

    /** What happens to a packet once expired gaps have been given up. */
    method AdmitPacket(seqNo: uint16, packet: P, now: int)
      requires ValidConfig(cfg) && Ready(cfg, View(), now)
      modifies this
      ensures View() == Admit(cfg, old(View()), seqNo, packet, now)
    {
      var delta := Delta(seqNo, next);
      hide Delta, Mid, Expired, ProbesOk, CountProbe, Confirms, Store, ReorderModel.FlushBuffered, ReorderModel.Emit;
      if delta == HALF {
        ClearResync();
        stats := stats.(outOfWindow := stats.outOfWindow + 1);
      } else if delta > HALF {
        stats := stats.(late := stats.late + 1);
      } else if delta >= cfg.maxGap {
        var ok := ConfirmForwardResync(seqNo, now);
        if ok {
          stats := stats.(resyncs := stats.resyncs + 1, lost := stats.lost + delta);
          Emit(next + delta, packet, now);
        } else {
          stats := stats.(outOfWindow := stats.outOfWindow + 1);
        }
      } else {
        ClearKeepsReady(cfg, View(), now);
        if delta == 0 {
          EmitAtNext(cfg, View(), packet, now);
          ClearResync();
          Emit(next, packet, now);
          FlushBuffered(now);
        } else {
          ClearResync();
          StorePacket(next + delta, packet, now);
        }
      }
    }

    method InputPacket(seqNo: uint16, packet: P, now: int)
      requires Valid()
      modifies this
      ensures Valid() && View() == Input(cfg, old(View()), seqNo, packet, now)
      ensures !Expired(cfg, View(), now)
    {
      hide Inv, Ready, Admit, Expired, ReorderModel.FlushExpired;
      InputKeeps(cfg, View(), seqNo, packet, now);
      if !started {
        started := true;
        next := seqNo;
        inputs := inputs + 1;
        Emit(next, packet, now);
        return;
      }
      FlushedReady(cfg, View(), now);
      CountedMid(cfg, View());
      inputs := inputs + 1;
      FlushExpired(now);
      AdmitPacket(seqNo, packet, now);
    }
  }

  lemma FirstUnique<P>(m: map<int, Buffered<P>>, a: int, b: int)
    requires IsFirst(m, a) && IsFirst(m, b)
    ensures a == b
  {
  }

  lemma BeginIsNext<P>(cfg: Config, s: State<P>, k: int)
    requires Mid(cfg, s) && IsFirst(s.buffer, k)
    ensures k == s.next <==> s.next in s.buffer
  {
  }

  lemma OldestDecides<P>(cfg: Config, s: State<P>, now: int, oldest: int)
    requires exists k :: k in s.buffer && s.buffer[k].arrived == oldest
    requires forall k :: k in s.buffer ==> oldest <= s.buffer[k].arrived
    ensures Expired(cfg, s, now) <==> now >= oldest && now - oldest >= cfg.timeoutMs
  {
  }

  lemma EmptyNotExpired<P>(cfg: Config, s: State<P>, now: int)
    requires s.buffer == map[]
    ensures !Expired(cfg, s, now)
  {
  }

  lemma SkipMid<P>(cfg: Config, s: State<P>)
    requires Mid(cfg, s) && s.buffer != map[]
    ensures Mid(cfg, SkipToFirst(s))
  {
  }

  lemma CountedMid<P>(cfg: Config, s: State<P>)
    requires Inv(cfg, s) && s.started
    ensures Mid(cfg, s.(inputs := s.inputs + 1)) && Quiet(s.(inputs := s.inputs + 1))
  {
  }
}
