/** Every packet leaves the reorder queue under the number it came in with. */
module ReorderLabels {
  import opened Basics
  import opened ReorderModel
  import opened ReorderSafety

  lemma DeltaLabel(seqNo: uint16, next: int)
    ensures (next + Delta(seqNo, next)) % CYCLE == seqNo
  {
    var d := (seqNo - next) % CYCLE;
    var q := (seqNo - next) / CYCLE;
    assert seqNo - next == q * CYCLE + d;
    assert next + d == seqNo - q * CYCLE;
    assert (seqNo - q * CYCLE) % CYCLE == seqNo;
  }

  lemma LabelledFrame<P>(s: State<P>, t: State<P>, number: P -> int)
    requires Labelled(s, number) && t.buffer == s.buffer && t.log == s.log
    ensures Labelled(t, number)
  {
  }

  lemma EmitLabelled<P>(s: State<P>, ext: int, packet: P, now: int, number: P -> int)
    requires Labelled(s, number) && number(packet) == ext % CYCLE
    ensures Labelled(Emit(s, ext, packet, now), number)
  {
  }

  lemma {:induction false} FlushLabelled<P>(s: State<P>, now: int, number: P -> int)
    requires Labelled(s, number)
    ensures Labelled(FlushBuffered(s, now), number)
    decreases |s.buffer|
  {
    if s.next in s.buffer {
      var rest := s.buffer - {s.next};
      assert rest.Keys == s.buffer.Keys - {s.next};
      var t := s.(buffer := rest);
      EmitLabelled(t, s.next, s.buffer[s.next].packet, now, number);
      hide Emit, Labelled;
      FlushLabelled(Emit(t, s.next, s.buffer[s.next].packet, now), now, number);
    }
  }

  lemma SkipLabelled<P>(s: State<P>, now: int, number: P -> int)
    requires Labelled(s, number) && s.buffer != map[]
    ensures Labelled(SkipAndFlush(s, now), number)
  {
    var t := SkipToFirst(s);
    assert Labelled(t, number);
    hide FlushBuffered;
    FlushLabelled(t, now, number);
  }

  lemma {:induction false} DrainLabelled<P>(cfg: Config, s: State<P>, now: int, number: P -> int)
    requires Labelled(s, number)
    ensures Labelled(DrainExpired(cfg, s, now), number)
    decreases |s.buffer|
  {
    hide SkipAndFlush, DrainExpired;
    DrainStep(cfg, s, now);
    if s.buffer != map[] && Expired(cfg, s, now) {
      var t := s.(stats := s.stats.(timeouts := s.stats.timeouts + 1));
      assert Labelled(t, number);
      SkipLabelled(t, now, number);
      DrainLabelled(cfg, SkipAndFlush(t, now), now, number);
    }
  }

  lemma {:induction false} DrainAllLabelled<P>(s: State<P>, now: int, number: P -> int)
    requires Labelled(s, number)
    ensures Labelled(DrainAll(s, now), number)
    decreases |s.buffer|
  {
    hide SkipAndFlush, Labelled;
    if s.buffer != map[] {
      SkipLabelled(s, now, number);
      DrainAllLabelled(SkipAndFlush(s, now), now, number);
    }
  }

  lemma TickLabelled<P>(cfg: Config, s: State<P>, now: int, number: P -> int)
    requires Labelled(s, number)
    ensures Labelled(FlushExpired(cfg, s, now), number)
  {
    var t := if ProbationOver(cfg, s, now) then ClearResync(s) else s;
    assert Labelled(t, number);
    hide DrainExpired;
    DrainLabelled(cfg, t, now, number);
  }

  lemma InsertLabelled<P>(s: State<P>, ext: int, b: Buffered<P>, number: P -> int)
    requires Labelled(s, number) && number(b.packet) == ext % CYCLE
    ensures Labelled(s.(buffer := s.buffer[ext := b]), number)
  {
  }

  lemma StoreLabelled<P>(cfg: Config, s: State<P>, ext: int, packet: P, now: int, number: P -> int)
    requires Labelled(s, number) && number(packet) == ext % CYCLE
    ensures Labelled(Store(cfg, s, ext, packet, now), number)
  {
    hide SkipAndFlush, FlushExpired, Labelled;
    if ext !in s.buffer {
      var t := s.(buffer := s.buffer[ext := Buffered(packet, now)]);
      InsertLabelled(s, ext, Buffered(packet, now), number);
      if |t.buffer| > cfg.maxCache {
        var o := t.(stats := t.stats.(overflows := t.stats.overflows + 1));
        LabelledFrame(t, o, number);
        SkipLabelled(o, now, number);
      }
      TickLabelled(cfg, Shed(cfg, t, now), now, number);
    } else {
      LabelledFrame(s, Store(cfg, s, ext, packet, now), number);
    }
  }

  lemma BeyondLabelled<P>(cfg: Config, s: State<P>, seqNo: uint16, packet: P, now: int, number: P -> int)
    requires Labelled(s, number) && number(packet) == seqNo
    ensures Labelled(Beyond(cfg, s, seqNo, packet, now), number)
  {
    DeltaLabel(seqNo, s.next);
    CountShape(cfg, s, seqNo, now);
    hide Delta, CountProbe, Confirms;
  }

  lemma AdmitLabelled<P>(cfg: Config, s: State<P>, seqNo: uint16, packet: P, now: int, number: P -> int)
    requires Labelled(s, number) && number(packet) == seqNo
    ensures Labelled(Admit(cfg, s, seqNo, packet, now), number)
  {
    hide Delta, Beyond, Store, FlushBuffered, Emit, Labelled;
    DeltaLabel(seqNo, s.next);
    var c, delta := ClearResync(s), Delta(seqNo, s.next);
    LabelledFrame(s, c, number);
    if delta >= HALF {
      LabelledFrame(s, Admit(cfg, s, seqNo, packet, now), number);
    } else if delta >= cfg.maxGap {
      BeyondLabelled(cfg, s, seqNo, packet, now, number);
    } else if delta == 0 {
      EmitLabelled(c, s.next, packet, now, number);
      FlushLabelled(Emit(c, s.next, packet, now), now, number);
    } else {
      StoreLabelled(cfg, c, s.next + delta, packet, now, number);
    }
  }

  lemma InputLabelled<P>(cfg: Config, s: State<P>, seqNo: uint16, packet: P, now: int, number: P -> int)
    requires Labelled(s, number) && number(packet) == seqNo
    ensures Labelled(Input(cfg, s, seqNo, packet, now), number)
  {
    hide FlushExpired, Admit, Emit, Labelled;
    var c := s.(inputs := s.inputs + 1);
    LabelledFrame(s, c, number);
    if s.started {
      TickLabelled(cfg, c, now, number);
      AdmitLabelled(cfg, FlushExpired(cfg, c, now), seqNo, packet, now, number);
    } else {
      var d := c.(started := true, next := seqNo);
      LabelledFrame(s, d, number);
      EmitLabelled(d, seqNo, packet, now, number);
    }
  }

  lemma StepLabelled<P>(cfg: Config, s: State<P>, e: Event<P>, number: P -> int)
    requires Labelled(s, number) && (e.Packet? ==> number(e.packet) == e.seqNo)
    ensures Labelled(Step(cfg, s, e), number)
  {
    hide Input, FlushExpired, DrainAll, Labelled;
    match e
    case Packet(seqNo, packet, now) => InputLabelled(cfg, s, seqNo, packet, now, number);
    case Tick(now) => TickLabelled(cfg, s, now, number);
    case Drain(now) =>
      LabelledFrame(s, ClearResync(s), number);
      DrainAllLabelled(ClearResync(s), now, number);
      LabelledFrame(DrainAll(ClearResync(s), now), FlushTimeout(s, now), number);
  }

  /** Whatever numbers the packets were sent under, they are delivered under those numbers. */
  lemma {:induction false} RunLabelled<P>(cfg: Config, s: State<P>, events: seq<Event<P>>, number: P -> int)
    requires Labelled(s, number)
    requires forall i :: 0 <= i < |events| && events[i].Packet? ==> number(events[i].packet) == events[i].seqNo
    ensures Labelled(Run(cfg, s, events), number)
    decreases |events|
  {
    hide Step, Labelled;
    if events != [] {
      StepLabelled(cfg, s, events[0], number);
      RunLabelled(cfg, Step(cfg, s, events[0]), events[1..], number);
    }
  }
}
