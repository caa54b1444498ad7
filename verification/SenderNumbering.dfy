/**
 What the outgoing sequence numbers should be, without 16-bit arithmetic, and the proof
 that the sender's rewriting follows it in every run.
 */
module SenderNumbering {
  import opened Basics
  import opened SenderModel

  /**
   The numbering: `last` is the last number sent and `tracked` the one the sender takes for
   its newest; while an epoch is running, source number e goes out as e + offset, and
   `reach` is the source number that `last` stands for. `early` says that padding went out
   after a rejected very first packet: the offset is then fixed modulo 2^16 only, until the
   first media packet goes out.
   */
  datatype Numbering = Numbering(sent: bool, last: int, tracked: int, offset: Option<int>, reach: int, early: bool)

  function Next(n: Numbering, first: int): int {
    if n.sent then n.last + 1 else first
  }

  function OffsetFor(n: Numbering, source: int): int {
    if n.offset.Some? then n.offset.value else Next(n, source) - source
  }

  /** The difference of the least magnitude that a 16-bit difference can stand for. */
  function Nearest(difference: uint16): int {
    if difference < 0x8000 then difference else difference - 0x1_0000
  }

  /** The number that a media packet should get. */
  function NumberOf(n: Numbering, source: int): int {
    if n.early then n.last + Nearest(Wire(source + 1)) else source + OffsetFor(n, source)
  }

  function TrackedAfter(n: Numbering, number: int): int {
    if !n.sent || Wire(number - n.tracked) < 0x8000 then number else n.tracked
  }

  /** A media packet that passed the checks; one that did not go out can still fix the first epoch's offset. */
  function NumberMedia(n: Numbering, source: int, accepted: bool, rebasing: bool): Numbering {
    var number := NumberOf(n, source);
    if accepted then Numbering(true, number, TrackedAfter(n, number), Some(number - source), source, false)
    else if rebasing || n.offset.Some? then n
    else n.(offset := Some(number - source), reach := source - 1)
  }

  function NumberPadding(n: Numbering): Numbering {
    var next := Next(n, 0);
    Numbering(true, next, next, if n.offset.Some? then Some(n.offset.value + 1) else None, n.reach,
              n.early || (n.offset.Some? && !n.sent))
  }

  /** The newest packet was half a cycle or more ahead, so that the sender does not know it. */
  predicate Lags(n: Numbering) {
    n.sent && n.tracked != n.last
  }

  /** The numbering the sender's fields stand for. */
  predicate Follows(s: Sender, n: Numbering) {
    && s.hasSent == n.sent && (n.sent ==> s.lastOutSeq == Wire(n.tracked))
    && (Lags(n) ==> Wire(n.last - n.tracked) >= 0x8000)
    && (n.offset.Some? <==> s.started && !s.rebasePending)
    && (n.offset.Some? ==> s.baseOutSeq == Wire(n.offset.value + s.baseInSeq))
    && (n.offset.Some? && n.sent && !n.early ==> n.last == n.reach + n.offset.value)
    && (n.offset.Some? && !n.sent ==> n.offset.value == 0)
    && (n.early ==> n.sent && n.offset == Some(n.last + 1) && n.tracked == n.last)
    && (s.started ==> s.baseOutTime == s.baseInTime)
  }

  /** Media in source order within an epoch. */
  predicate InOrder(n: Numbering, source: int) {
    n.offset.Some? && n.sent && !n.early ==> source > n.reach
  }

  // ---- 16-bit arithmetic ----

  lemma WireMaps(source: int, base: uint16, offset: int)
    ensures Wire(Wire(offset + base) + Wire(Wire(source) - base)) == Wire(source + offset)
  {
  }

  lemma WireNext(x: int)
    ensures Wire(Wire(x) + 1) == Wire(x + 1)
  {
  }

  lemma WireShift(x: int, base: uint16)
    ensures Wire(Wire(x + base) + 1) == Wire(x + 1 + base)
  {
  }

  lemma WireDifference(x: int, y: int)
    ensures Wire(Wire(x) - Wire(y)) == Wire(x - y)
    ensures Wire(x) == Wire(y) <==> Wire(x - y) == 0
  {
  }

  lemma WireSmall(x: int)
    requires 0 <= x < 0x1_0000
    ensures Wire(x) == x
  {
  }

  lemma Wire32Zero()
    ensures Wire32(0) == 0
  {
  }

  /** The nearest number has the wire number it stands for. */
  lemma NearestFits(last: int, x: int)
    ensures Wire(last + Nearest(Wire(x - last))) == Wire(x)
  {
  }

  lemma TimeKept(base: uint32, time: uint32)
    ensures Wire32(base + Wire32(time - base)) == time
  {
  }

  lemma NextFollows(s: Sender, n: Numbering, first: int)
    requires s.hasSent == n.sent && (n.sent ==> s.lastOutSeq == Wire(n.tracked)) && !Lags(n)
    ensures NextOut(s, Wire(first)) == Wire(Next(n, first))
  {
    hide Wire;
    WireNext(n.last);
  }

  // ---- one step ----

  /** What a packet needs to get the number it should get. */
  predicate Numberable(n: Numbering, source: int) {
    if n.early then Wire(source) < 0x7FFF else n.offset.None? ==> !Lags(n)
  }

  /** Preparing a packet puts the epoch's offset into the base fields. */
  lemma PrepareFollows(s: Sender, n: Numbering, source: int, time: uint32)
    requires Follows(s, n) && (n.offset.None? ==> !Lags(n))
    ensures var p := Prepare(s, Wire(source), time);
            && p.started && p.rebasePending == s.rebasePending && p.hasSent == s.hasSent && p.lastOutSeq == s.lastOutSeq
            && p.baseOutSeq == Wire(OffsetFor(n, source) + p.baseInSeq) && p.baseOutTime == p.baseInTime
  {
    if n.offset.None? {
      NextFollows(s, n, source);
      hide Wire32, SourceTime;
      AnchorFits(Next(n, source), source);
    }
  }

  lemma AnchorFits(next: int, source: int)
    ensures Wire(next) == Wire(next - source + Wire(source))
  {
  }

  /** The number specified is the one the rewriting computes, modulo 2^16. */
  lemma NumberFits(s: Sender, n: Numbering, source: int)
    requires Follows(s, n)
    ensures Wire(NumberOf(n, source)) == Wire(source + OffsetFor(n, source))
  {
    if n.early {
      NearestFits(n.last, source + n.last + 1);
    }
  }

  /** One media packet: its number and its timestamp, whatever the sender did before. */
  lemma MediaFollows(s: Sender, n: Numbering, source: int, time: uint32, accepted: bool)
    requires Follows(s, n) && Passes(s, Wire(source), time) && (accepted ==> Numberable(n, source))
    requires n.offset.None? && !accepted ==> s.rebasePending || !Lags(n)
    ensures var (t, out) := Input(s, Wire(source), time, accepted);
            && Follows(t, NumberMedia(n, source, accepted, s.rebasePending))
            && (if accepted then out == Some(Packet(Wire(NumberOf(n, source)), time)) else out.None?)
  {
    if accepted {
      AcceptedFollows(s, n, source, time);
    } else {
      RejectedFollows(s, n, source, time);
    }
  }

  lemma AcceptedFollows(s: Sender, n: Numbering, source: int, time: uint32)
    requires Follows(s, n) && Passes(s, Wire(source), time) && Numberable(n, source)
    ensures var (t, out) := Input(s, Wire(source), time, true);
            && Follows(t, NumberMedia(n, source, true, s.rebasePending))
            && out == Some(Packet(Wire(NumberOf(n, source)), time))
  {
    hide Passes, Prepare, SourceTime, Wire, Wire32;
    var p := Prepare(s, Wire(source), time);
    PrepareFollows(s, n, source, time);
    var number := NumberOf(n, source);
    NumberFits(s, n, source);
    WireMaps(source, p.baseInSeq, OffsetFor(n, source));
    TimeKept(p.baseInTime, time);
    WireDifference(number, n.tracked);
    BaseFits(number, source, OffsetFor(n, source), p.baseInSeq);
  }

  lemma BaseFits(number: int, source: int, offset: int, base: uint16)
    requires Wire(number) == Wire(source + offset)
    ensures Wire(number - source + base) == Wire(offset + base)
  {
  }

  lemma RejectedFollows(s: Sender, n: Numbering, source: int, time: uint32)
    requires Follows(s, n) && Passes(s, Wire(source), time) && (n.offset.None? ==> s.rebasePending || !Lags(n))
    ensures var (t, out) := Input(s, Wire(source), time, false);
            Follows(t, NumberMedia(n, source, false, s.rebasePending)) && out.None?
  {
    hide Passes, SourceTime, Wire, Wire32, OutTime, OutSeq;
    if n.offset.None? && !s.rebasePending {
      NextFollows(s, n, source);
      AnchorFits(Next(n, source), source);
    }
  }

  lemma PaddingFollows(s: Sender, n: Numbering)
    requires Follows(s, n) && !Lags(n)
    ensures var (t, out) := Pad(s, true);
            Follows(t, NumberPadding(n)) && out == Some(Packet(Wire(NumberPadding(n).last), s.lastOutTime))
  {
    NextFollows(s, n, 0);
    if n.offset.Some? {
      WireShift(n.offset.value, s.baseInSeq);
    }
    assert Wire(0) == 0;
    hide Wire;
  }

  // ---- runs ----

  datatype Event =
    | Media(source: int, time: uint32, accepted: bool)
    | Padding(accepted: bool)
    | Discontinuity

  /** A packet that went out, with the number the specification gives it and the one on the wire. */
  datatype Sent = Sent(media: bool, epoch: nat, source: int, number: int, wire: uint16, time: uint32)

  datatype World = World(sender: Sender, numbering: Numbering, epoch: nat, log: seq<Sent>)

  const START := World(NEW_SENDER, Numbering(false, 0, 0, None, 0, false), 0, [])

  /** Media in source order within an epoch; anything else may happen at any time. */
  predicate Orderly(w: World, e: Event) {
    e.Media? && Passes(w.sender, Wire(e.source), e.time) ==> InOrder(w.numbering, e.source)
  }

  /**
   When a packet that goes out gets the right number. After early padding the first media
   packet must lie in the half cycle ahead of it, and padding and the first media packet of
   an epoch need a sender that knows the newest packet.
   */
  predicate Sound(w: World, e: Event) {
    match e
    case Media(source, time, accepted) => accepted && Passes(w.sender, Wire(source), time) ==>
        Numberable(w.numbering, source)
    case Padding(accepted) => accepted ==> !Lags(w.numbering)
    case Discontinuity => true
  }

  function Step(w: World, e: Event): World {
    match e
    case Media(source, time, accepted) =>
      if !Passes(w.sender, Wire(source), time) then w
      else
        var (t, out) := Input(w.sender, Wire(source), time, accepted);
        var n := NumberMedia(w.numbering, source, accepted, w.sender.rebasePending);
        World(t, n, w.epoch, if out.None? then w.log
            else w.log + [Sent(true, w.epoch, source, n.last, out.value.seqNo, out.value.time)])
    case Padding(accepted) =>
      var (t, out) := Pad(w.sender, accepted);
      if out.None? then w
      else
        var n := NumberPadding(w.numbering);
        World(t, n, w.epoch, w.log + [Sent(false, w.epoch, 0, n.last, out.value.seqNo, out.value.time)])
    case Discontinuity =>
      World(Discontinue(w.sender), w.numbering.(offset := None, early := false), w.epoch + 1, w.log)
  }

  function Run(w: World, events: seq<Event>): World
    decreases |events|
  {
    if events == [] then w else Run(Step(w, events[0]), events[1..])
  }

  // ---- what the log shows ----

  /** Padding packets among log[i..j]. */
  function Pads(log: seq<Sent>, i: nat, j: nat): nat
    requires j <= |log|
    decreases j
  {
    if j <= i then 0 else Pads(log, i, j - 1) + if log[j - 1].media then 0 else 1
  }

  lemma {:induction false} PadsPrefix(log: seq<Sent>, x: Sent, i: nat, j: nat)
    requires j <= |log|
    ensures Pads(log + [x], i, j) == Pads(log, i, j)
    decreases j
  {
    if j > i {
      PadsPrefix(log, x, i, j - 1);
    }
  }

  predicate OnTheWire(log: seq<Sent>) {
    forall i :: 0 <= i < |log| ==> log[i].wire == Wire(log[i].number)
  }

  predicate Increasing(log: seq<Sent>) {
    forall i, j :: 0 <= i < j < |log| ==> log[i].number < log[j].number
  }

  /** Within an epoch, media are as far apart as at the source, plus the padding sent between them. */
  predicate GapsKept(log: seq<Sent>) {
    forall i, j :: 0 <= i < j < |log| && log[i].media && log[j].media && log[i].epoch == log[j].epoch ==>
      log[j].number - log[i].number == log[j].source - log[i].source + Pads(log, i + 1, j)
  }

  predicate FirstMedia(log: seq<Sent>, i: nat) {
    i < |log| && log[i].media && forall j :: 0 <= j < i && log[j].media ==> log[j].epoch != log[i].epoch
  }

  /** The first media packet after a discontinuity continues from the last number sent. */
  predicate ResumesNext(log: seq<Sent>) {
    forall i :: 0 < i < |log| && FirstMedia(log, i) && log[i].epoch > 0 ==> log[i].number == log[i - 1].number + 1
  }

  ghost predicate LogOk(log: seq<Sent>) {
    OnTheWire(log) && Increasing(log) && GapsKept(log) && ResumesNext(log)
  }

  /** How the log and the numbering in force belong together. */
  predicate Matches(w: World) {
    && (w.numbering.sent <==> w.log != [])
    && (w.log != [] ==> w.log[|w.log| - 1].number == w.numbering.last)
    && (forall i :: 0 <= i < |w.log| ==> w.log[i].epoch <= w.epoch)
    && (forall i :: 0 <= i < |w.log| && w.log[i].media && w.log[i].epoch == w.epoch ==>
          w.numbering.offset.Some? && w.numbering.offset.value ==
              w.log[i].number - w.log[i].source + Pads(w.log, i + 1, |w.log|))
    && (w.epoch > 0 && w.numbering.offset.Some? ==>
        exists i :: 0 <= i < |w.log| && w.log[i].media && w.log[i].epoch == w.epoch)
    && (w.epoch > 0 && w.numbering.offset.None? ==> w.sender.rebasePending)
    && (w.numbering.early ==> w.epoch == 0 && forall i :: 0 <= i < |w.log| ==> !w.log[i].media)
    && (w.epoch == 0 ==> !w.sender.rebasePending && !w.sender.hasFloor)
    && (w.epoch == 0 && w.numbering.offset.None? ==> !Lags(w.numbering))
  }

  ghost predicate Good(w: World) {
    Follows(w.sender, w.numbering) && Matches(w) && LogOk(w.log)
  }

  // ---- extending the log ----

  lemma AppendWire(log: seq<Sent>, x: Sent)
    requires OnTheWire(log) && x.wire == Wire(x.number)
    ensures OnTheWire(log + [x])
  {
  }

  lemma AppendIncreasing(log: seq<Sent>, x: Sent)
    requires Increasing(log) && (log != [] ==> log[|log| - 1].number < x.number)
    ensures Increasing(log + [x])
  {
    var l := log + [x];
    forall i, j | 0 <= i < j < |l| ensures l[i].number < l[j].number {
      if j == |log| && i < |log| - 1 {
        assert log[i].number < log[|log| - 1].number;
      }
    }
  }

  lemma AppendGaps(log: seq<Sent>, x: Sent)
    requires GapsKept(log)
    requires x.media ==> forall i :: 0 <= i < |log| && log[i].media && log[i].epoch == x.epoch ==>
               x.number - log[i].number == x.source - log[i].source + Pads(log, i + 1, |log|)
    ensures GapsKept(log + [x])
  {
    var l := log + [x];
    forall i, j | 0 <= i < j < |l| && l[i].media && l[j].media && l[i].epoch == l[j].epoch
      ensures l[j].number - l[i].number == l[j].source - l[i].source + Pads(l, i + 1, j)
    {
      PadsPrefix(log, x, i + 1, j);
    }
  }

  lemma FirstMediaPrefix(log: seq<Sent>, x: Sent, i: nat)
    requires i < |log| && FirstMedia(log + [x], i)
    ensures FirstMedia(log, i)
  {
    var l := log + [x];
    forall j | 0 <= j < i && log[j].media ensures log[j].epoch != log[i].epoch {
      assert l[j] == log[j] && l[i] == log[i];
    }
  }

  lemma AppendResumes(log: seq<Sent>, x: Sent)
    requires ResumesNext(log)
    requires log != [] && x.media && x.epoch > 0 &&
             (forall j :: 0 <= j < |log| && log[j].media ==> log[j].epoch != x.epoch) ==>
               x.number == log[|log| - 1].number + 1
    ensures ResumesNext(log + [x])
  {
    var l := log + [x];
    forall i | 0 < i < |l| && FirstMedia(l, i) && l[i].epoch > 0 ensures l[i].number == l[i - 1].number + 1 {
      if i < |log| {
        FirstMediaPrefix(log, x, i);
      } else {
        forall j | 0 <= j < |log| && log[j].media ensures log[j].epoch != x.epoch {
          assert l[j] == log[j];
        }
      }
    }
  }

  // ---- every step ----

  lemma MediaLog(w: World, x: Sent)
    requires Good(w) && x.media && x.epoch == w.epoch && x.wire == Wire(x.number)
    requires InOrder(w.numbering, x.source) && Numberable(w.numbering, x.source) &&
             x.number == NumberOf(w.numbering, x.source)
    ensures LogOk(w.log + [x])
  {
    hide Follows, OnTheWire, Increasing, GapsKept, ResumesNext, Wire;
    if w.numbering.sent {
      MediaAhead(w, x.source);
    }
    AppendWire(w.log, x);
    AppendIncreasing(w.log, x);
    AppendGaps(w.log, x);
    AppendResumes(w.log, x);
  }

  lemma MediaAhead(w: World, source: int)
    requires Follows(w.sender, w.numbering) && InOrder(w.numbering, source) && Numberable(w.numbering, source) &&
             w.numbering.sent
    ensures w.numbering.last < NumberOf(w.numbering, source)
  {
    if w.numbering.early {
      EarlyAhead(source);
    }
  }

  /** After early padding a media packet is ahead of it exactly if its source number is below 0x7FFF. */
  lemma EarlyAhead(source: int)
    ensures Nearest(Wire(source + 1)) > 0 <==> Wire(source) < 0x7FFF
  {
  }

  lemma {:induction false} PadsAppend(log: seq<Sent>, x: Sent, i: nat)
    requires i < |log|
    ensures Pads(log + [x], i + 1, |log| + 1) == Pads(log, i + 1, |log|) + if x.media then 0 else 1
  {
    PadsPrefix(log, x, i + 1, |log|);
    assert (log + [x])[|log|] == x;
  }

  /** The next packet of the running epoch keeps the log and the offset together. */
  lemma AppendMatches(w: World, t: World, x: Sent)
    requires Matches(w) && t.epoch == w.epoch == x.epoch && t.log == w.log + [x]
    requires t.numbering.sent && t.numbering.last == x.number
    requires w.numbering.offset.Some? && !(w.numbering.early && x.media) ==>
               t.numbering.offset == Some(w.numbering.offset.value + if x.media then 0 else 1)
    requires t.numbering.early ==> !x.media && (w.numbering.early || w.log == []) && w.epoch == 0
    requires t.epoch == 0 ==> !t.sender.rebasePending && !t.sender.hasFloor
    requires t.numbering.offset.None? ==> !Lags(t.numbering)
    requires x.media ==> t.numbering.offset == Some(x.number - x.source)
    requires !x.media && w.numbering.offset.None? ==>
             t.numbering.offset.None? && t.sender.rebasePending == w.sender.rebasePending
    ensures Matches(t)
  {
    forall i | 0 <= i < |w.log| && t.log[i].media && t.log[i].epoch == t.epoch
      ensures t.numbering.offset.Some? &&
              t.numbering.offset.value == t.log[i].number - t.log[i].source + Pads(t.log, i + 1, |t.log|)
    {
      assert t.log[i] == w.log[i];
      PadsAppend(w.log, x, i);
    }
    assert t.log[|w.log|] == x;
    if w.epoch > 0 && w.numbering.offset.Some? {
      var i :| 0 <= i < |w.log| && w.log[i].media && w.log[i].epoch == w.epoch;
      assert t.log[i] == w.log[i];
    }
  }

  lemma MediaGood(w: World, source: int, time: uint32, accepted: bool)
    requires Good(w) && Passes(w.sender, Wire(source), time) && InOrder(w.numbering, source)
    requires accepted ==> Numberable(w.numbering, source)
    ensures Good(Step(w, Media(source, time, accepted)))
  {
    if accepted {
      AcceptedGood(w, source, time);
    } else {
      RejectedGood(w, source, time);
    }
  }

  lemma AcceptedGood(w: World, source: int, time: uint32)
    requires Good(w) && Passes(w.sender, Wire(source), time) && InOrder(w.numbering, source) &&
             Numberable(w.numbering, source)
    ensures Good(Step(w, Media(source, time, true)))
  {
    hide Passes, Follows, LogOk, Wire, Wire32, Input, NumberOf, Numberable;
    var t := Step(w, Media(source, time, true));
    MediaFollows(w.sender, w.numbering, source, time, true);
    InputFlags(w.sender, Wire(source), time);
    OffsetKept(w, source);
    var x := t.log[|w.log|];
    assert t.log == w.log + [x];
    MediaLog(w, x);
    AppendMatches(w, t, x);
  }

  lemma InputFlags(s: Sender, seqNo: uint16, time: uint32)
    requires Passes(s, seqNo, time)
    ensures var t := Input(s, seqNo, time, true).0;
            !t.rebasePending && (!s.rebasePending ==> t.hasFloor == s.hasFloor)
  {
    hide Passes, Wire, Wire32, SourceTime;
  }

  lemma OffsetKept(w: World, source: int)
    ensures w.numbering.offset.Some? && !w.numbering.early ==>
            NumberOf(w.numbering, source) - source == w.numbering.offset.value
  {
  }

  lemma RejectedGood(w: World, source: int, time: uint32)
    requires Good(w) && Passes(w.sender, Wire(source), time)
    ensures Good(Step(w, Media(source, time, false)))
  {
    assert w.numbering.offset.None? ==> w.sender.rebasePending || !Lags(w.numbering);
    hide Follows, LogOk, Passes, Wire;
    MediaFollows(w.sender, w.numbering, source, time, false);
    RejectedMatches(w, source, time);
  }

  lemma RejectedMatches(w: World, source: int, time: uint32)
    requires Good(w) && Passes(w.sender, Wire(source), time)
    ensures Matches(Step(w, Media(source, time, false)))
  {
    hide Passes, LogOk, Wire, Wire32, SourceTime, OutTime, Pads;
  }

  lemma PaddingGood(w: World)
    requires Good(w) && !Lags(w.numbering)
    ensures Good(Step(w, Padding(true)))
  {
    var t := Step(w, Padding(true));
    PaddingFollows(w.sender, w.numbering);
    EarlyIsFirst(w);
    var x := t.log[|w.log|];
    assert t.log == w.log + [x];
    hide Follows, OnTheWire, Increasing, GapsKept, ResumesNext, Wire;
    AppendWire(w.log, x);
    AppendIncreasing(w.log, x);
    AppendGaps(w.log, x);
    AppendResumes(w.log, x);
    AppendMatches(w, t, x);
  }

  /** Nothing went out and yet an offset is fixed: that is the first epoch. */
  lemma EarlyIsFirst(w: World)
    requires Good(w)
    ensures w.numbering.offset.Some? && !w.numbering.sent ==> w.log == [] && w.epoch == 0
  {
    hide LogOk, Pads;
  }

  lemma StepGood(w: World, e: Event)
    requires Good(w) && Orderly(w, e) && Sound(w, e)
    ensures Good(Step(w, e))
  {
    match e
    case Media(source, time, accepted) =>
      if Passes(w.sender, Wire(source), time) {
        MediaGood(w, source, time, accepted);
      }
    case Padding(accepted) =>
      if accepted {
        PaddingGood(w);
      }
    case Discontinuity =>
      hide LogOk, Pads;
  }

  // ---- and otherwise the log is wrong for good ----

  predicate Broken(log: seq<Sent>) {
    !OnTheWire(log) || !Increasing(log)
  }

  lemma BrokenStays(log: seq<Sent>, x: Sent)
    requires Broken(log)
    ensures Broken(log + [x])
  {
    var l := log + [x];
    assert forall i :: 0 <= i < |log| ==> l[i] == log[i];
    if !OnTheWire(log) {
      var i :| 0 <= i < |log| && log[i].wire != Wire(log[i].number);
      assert l[i] == log[i];
    } else {
      var i, j :| 0 <= i < j < |log| && !(log[i].number < log[j].number);
      assert l[i] == log[i] && l[j] == log[j];
    }
  }

  lemma StepLog(w: World, e: Event)
    ensures Step(w, e).log == w.log || (|Step(w, e).log| == |w.log| + 1 && Step(w, e).log[..|w.log|] == w.log)
  {
    hide Input, Pad, NumberMedia, NumberPadding, Passes;
  }

  lemma {:induction false} BrokenForever(w: World, events: seq<Event>)
    requires Broken(w.log)
    ensures Broken(Run(w, events).log)
    decreases |events|
  {
    hide Broken, Step;
    if events != [] {
      StepLog(w, events[0]);
      var t := Step(w, events[0]);
      if t.log != w.log {
        assert t.log == w.log + [t.log[|w.log|]];
        BrokenStays(w.log, t.log[|w.log|]);
      }
      BrokenForever(t, events[1..]);
    }
  }

  lemma LastWrong(log: seq<Sent>, x: Sent)
    requires x.wire != Wire(x.number) || (log != [] && log[|log| - 1].number >= x.number)
    ensures Broken(log + [x])
  {
    var l := log + [x];
    assert l[|log|] == x;
    if x.wire == Wire(x.number) {
      assert l[|log| - 1] == log[|log| - 1];
    }
  }

  lemma LaggingNext(s: Sender, n: Numbering, first: uint16)
    requires Follows(s, n) && Lags(n)
    ensures NextOut(s, first) != Wire(n.last + 1)
  {
    hide Wire;
    WireNext(n.tracked);
    WireDifference(n.last + 1, n.tracked + 1);
  }

  lemma PaddingBreaks(w: World)
    requires Good(w) && Lags(w.numbering)
    ensures Broken(Step(w, Padding(true)).log)
  {
    LaggingNext(w.sender, w.numbering, 0);
    var t := Step(w, Padding(true));
    assert t.log == w.log + [t.log[|w.log|]];
    hide Follows, Matches, LogOk, Wire, Broken;
    LastWrong(w.log, t.log[|w.log|]);
  }

  /** The first media packet of an epoch goes out right behind the packet the sender knows. */
  lemma FirstOfEpoch(s: Sender, seqNo: uint16, time: uint32)
    requires Passes(s, seqNo, time) && (!s.started || s.rebasePending) && s.hasSent
    ensures Input(s, seqNo, time, true).1.Some? && Input(s, seqNo, time, true).1.value.seqNo == NextOut(s, seqNo)
  {
    hide Passes, Wire32, SourceTime, OutTime;
    WireSmall(0);
  }

  lemma MediaBreaks(w: World, source: int, time: uint32)
    requires Good(w) && Passes(w.sender, Wire(source), time) && !Numberable(w.numbering, source)
    ensures Broken(Step(w, Media(source, time, true)).log)
  {
    var t := Step(w, Media(source, time, true));
    assert t.log == w.log + [t.log[|w.log|]];
    if w.numbering.early {
      EarlyAhead(source);
    } else {
      FirstOfEpoch(w.sender, Wire(source), time);
      LaggingNext(w.sender, w.numbering, Wire(source));
    }
    hide Follows, LogOk, Wire, Broken, Passes, Input;
    LastWrong(w.log, t.log[|w.log|]);
  }

  lemma UnsoundBreaks(w: World, e: Event)
    requires Good(w) && !Sound(w, e)
    ensures Broken(Step(w, e).log)
  {
    hide Good, Broken, Step, Numberable;
    match e
    case Media(source, time, accepted) => MediaBreaks(w, source, time);
    case Padding(accepted) => PaddingBreaks(w);
  }

  // ---- runs ----

  predicate OrderlyRun(w: World, events: seq<Event>)
    decreases |events|
  {
    events == [] || (Orderly(w, events[0]) && OrderlyRun(Step(w, events[0]), events[1..]))
  }

  predicate SoundRun(w: World, events: seq<Event>)
    decreases |events|
  {
    events == [] || (Sound(w, events[0]) && SoundRun(Step(w, events[0]), events[1..]))
  }

  lemma {:induction false} RunIff(w: World, events: seq<Event>)
    requires Good(w) && OrderlyRun(w, events)
    ensures LogOk(Run(w, events).log) <==> SoundRun(w, events)
    decreases |events|
  {
    if events == [] {
      hide Follows, Matches, LogOk;
    } else if Sound(w, events[0]) {
      hide Good, Orderly, Sound, Step, LogOk;
      StepGood(w, events[0]);
      RunIff(Step(w, events[0]), events[1..]);
    } else {
      hide Good, Orderly, Sound, Step, OnTheWire, Increasing;
      UnsoundBreaks(w, events[0]);
      BrokenForever(Step(w, events[0]), events[1..]);
    }
  }

  lemma StartGood()
    ensures Good(START)
  {
  }

  /**
   In every run of media in source order, padding and discontinuities, accepted or
   rejected: the numbers on the wire are the specified ones modulo 2^16, they strictly
   increase, gaps within an epoch are the source's plus the padding between, and the first
   packet after a discontinuity is the last one sent plus one, if and only if every packet
   that goes out finds the sender sound.
   */
  lemma SequenceMapping(events: seq<Event>)
    requires OrderlyRun(START, events)
    ensures LogOk(Run(START, events).log) <==> SoundRun(START, events)
  {
    hide Good, LogOk, Run;
    StartGood();
    RunIff(START, events);
  }

  // ---- media less than half a cycle apart ----

  /** Source order as 16-bit numbers can tell it: ahead by less than half a cycle. */
  predicate Close(w: World, e: Event) {
    e.Media? && Passes(w.sender, Wire(e.source), e.time) && w.numbering.offset.Some? && w.numbering.sent &&
        !w.numbering.early ==>
      0 < e.source - w.numbering.reach < 0x8000
  }

  predicate CloseRun(w: World, events: seq<Event>)
    decreases |events|
  {
    events == [] || (Close(w, events[0]) && CloseRun(Step(w, events[0]), events[1..]))
  }

  lemma {:induction false} CloseIsOrderly(w: World, events: seq<Event>)
    requires CloseRun(w, events)
    ensures OrderlyRun(w, events)
    decreases |events|
  {
    hide Step, Passes;
    if events != [] {
      CloseIsOrderly(Step(w, events[0]), events[1..]);
    }
  }

  lemma CloseNeverLags(w: World, e: Event)
    requires Good(w) && Close(w, e) && Sound(w, e) && !Lags(w.numbering)
    ensures !Lags(Step(w, e).numbering)
  {
    hide Matches, LogOk, Passes, Input, Pad;
    if e.Media? && Passes(w.sender, Wire(e.source), e.time) && e.accepted && w.numbering.sent {
      var n := w.numbering;
      if n.early {
        EarlyAhead(e.source);
      }
      assert 0 < NumberOf(n, e.source) - n.last < 0x8000;
      WireSmall(NumberOf(n, e.source) - n.last);
    }
  }

  /** How far the first packets have got: nothing yet, a media packet rejected, padding after it, anything else. */
  datatype Phase = Untouched | Rejected | Padded | Settled

  function NextPhase(phase: Phase, e: Event): Phase {
    match phase
    case Untouched =>
      if e.Media? && !e.accepted then Rejected else if e.Discontinuity? || e.accepted then Settled else Untouched
    case Rejected =>
      if e.Padding? && e.accepted then Padded else if e.Discontinuity? || e.accepted then Settled else Rejected
    case Padded => if e.Discontinuity? || (e.Media? && e.accepted) then Settled else Padded
    case Settled => Settled
  }

  /** The first media packet to go out after early padding must have a source number below 0x7FFF. */
  predicate Anchors(phase: Phase, e: Event) {
    phase.Padded? && e.Media? && e.accepted ==> Wire(e.source) < 0x7FFF
  }

  predicate AnchoredRun(phase: Phase, events: seq<Event>)
    decreases |events|
  {
    events == [] || (Anchors(phase, events[0]) && AnchoredRun(NextPhase(phase, events[0]), events[1..]))
  }

  function PhaseOf(w: World): Phase {
    if w.numbering.early then Padded
    else if w.epoch > 0 || w.numbering.sent then Settled
    else if w.numbering.offset.Some? then Rejected else Untouched
  }

  /** In the first epoch no packet is turned away. */
  lemma FirstEpochPasses(w: World, seqNo: uint16, time: uint32)
    requires Good(w) && w.epoch == 0
    ensures Passes(w.sender, seqNo, time)
  {
    hide LogOk, Follows, Pads;
  }

  lemma PhaseFollows(w: World, e: Event)
    requires Good(w)
    ensures PhaseOf(Step(w, e)) == NextPhase(PhaseOf(w), e)
  {
    if e.Media? && w.epoch == 0 {
      FirstEpochPasses(w, Wire(e.source), e.time);
    }
    EarlyIsFirst(w);
    assert w.numbering.early ==> w.epoch == 0;
    assert w.epoch == 0 ==> !w.sender.rebasePending;
    hide LogOk, Follows, Matches, Passes, Wire, Wire32;
  }

  lemma SoundIffAnchors(w: World, e: Event)
    requires Good(w) && !Lags(w.numbering)
    ensures Sound(w, e) <==> Anchors(PhaseOf(w), e)
  {
    if e.Media? && w.numbering.early {
      FirstEpochPasses(w, Wire(e.source), e.time);
    }
    hide LogOk, Follows, Matches, Passes, Wire;
  }

  lemma {:induction false} AnchoredIff(w: World, events: seq<Event>)
    requires Good(w) && !Lags(w.numbering) && CloseRun(w, events)
    ensures SoundRun(w, events) <==> AnchoredRun(PhaseOf(w), events)
    decreases |events|
  {
    hide Good, Lags, Close, Sound, Anchors, Step, PhaseOf, NextPhase;
    if events != [] {
      SoundIffAnchors(w, events[0]);
      if Sound(w, events[0]) {
        CloseIsOrderly(w, events);
        StepGood(w, events[0]);
        CloseNeverLags(w, events[0]);
        PhaseFollows(w, events[0]);
        AnchoredIff(Step(w, events[0]), events[1..]);
      }
    }
  }

  /**
   For media less than half a cycle apart only one thing can go wrong. If the very first
   media packet is rejected and padding goes out before any media packet, the padding is
   numbered from 0, and all is well if and only if the first media packet that goes out
   then has a source number below 0x7FFF, however many padding packets there were.
   */
  lemma EarlyPaddingIff(events: seq<Event>)
    requires CloseRun(START, events)
    ensures LogOk(Run(START, events).log) <==> AnchoredRun(Untouched, events)
  {
    hide Good, LogOk, Run, SoundRun, AnchoredRun;
    StartGood();
    CloseIsOrderly(START, events);
    SequenceMapping(events);
    AnchoredIff(START, events);
  }

  // ---- runs that go wrong ----

  /**
   The sender takes a packet for its newest exactly when it is less than half the sequence
   space ahead; beyond that, padding is numbered from the older packet.
   */
  lemma NewestTrackedIff(s: Sender, n: Numbering, source: int, time: uint32)
    requires Follows(s, n) && n.sent && !Lags(n) && Passes(s, Wire(source), time)
    ensures var number := source + OffsetFor(n, source);
            Input(s, Wire(source), time, true).0.lastOutSeq == Wire(number) <==> Wire(number - n.last) < 0x8000
  {
    hide Passes, Prepare, SourceTime, Wire, Wire32;
    PrepareFollows(s, n, source, time);
    var p, number := Prepare(s, Wire(source), time), source + OffsetFor(n, source);
    WireMaps(source, p.baseInSeq, OffsetFor(n, source));
    WireDifference(number, n.last);
  }

  const SENT_ZERO := Sender(true, true, false, false, 0, 0, 0, 0, 0, 0, 0, 0, 0)

  lemma FirstSent()
    ensures Input(NEW_SENDER, 0, 0, true) == (SENT_ZERO, Some(Packet(0, 0)))
  {
    hide Wire, Wire32;
    WireSmall(0);
    Wire32Zero();
  }

  lemma HalfAhead()
    ensures Input(SENT_ZERO, 0x8000, 0, true) == (SENT_ZERO, Some(Packet(0x8000, 0)))
  {
    hide Wire, Wire32;
    WireSmall(0x8000);
    Wire32Zero();
    var s := SENT_ZERO;
    assert Prepare(s, 0x8000, 0) == s && SourceTime(s, 0) == 0 && Passes(s, 0x8000, 0);
    assert OutSeq(s, 0x8000) == 0x8000 && OutTime(s, 0) == 0;
  }

  /** A jump of half a cycle, then padding: such a run sends 0, then 0x8000, then 1. */
  lemma HalfCycleCounterexample()
    ensures Input(NEW_SENDER, 0, 0, true) == (SENT_ZERO, Some(Packet(0, 0)))
    ensures Input(SENT_ZERO, 0x8000, 0, true) == (SENT_ZERO, Some(Packet(0x8000, 0)))
    ensures Pad(SENT_ZERO, true).1 == Some(Packet(1, 0))
  {
    hide Input;
    FirstSent();
    HalfAhead();
    WireSmall(1);
  }

  const REJECTED_FIRST := Sender(true, false, false, false, 0x9000, 0x9000, 0, 0, 0, 0, 0, 0, 0)
  const PADDED_FIRST := Sender(true, true, false, false, 0x9000, 0x9001, 0, 0, 0, 0, 0, 0, 0)

  lemma ThenMedia()
    ensures Input(PADDED_FIRST, 0x9001, 0, true) == (PADDED_FIRST, Some(Packet(0x9002, 0)))
  {
    hide Wire, Wire32;
    WireSmall(1);
    WireSmall(0x9002);
    Wire32Zero();
    var s := PADDED_FIRST;
    assert Prepare(s, 0x9001, 0) == s && SourceTime(s, 0) == 0 && Passes(s, 0x9001, 0);
    assert OutSeq(s, 0x9001) == 0x9002 && OutTime(s, 0) == 0;
  }

  lemma FirstRejected()
    ensures Input(NEW_SENDER, 0x9000, 0, false) == (REJECTED_FIRST, None)
  {
    hide Wire, Wire32, OutSeq, OutTime;
  }

  lemma ThenPadding()
    ensures Pad(REJECTED_FIRST, true) == (PADDED_FIRST, Some(Packet(0, 0)))
    ensures Pad(PADDED_FIRST, true).1 == Some(Packet(1, 0))
  {
  }

  /** Such a run sends 0, then 0x9002, then 1. */
  lemma EarlyPaddingCounterexample()
    ensures Input(NEW_SENDER, 0x9000, 0, false) == (REJECTED_FIRST, None)
    ensures Pad(REJECTED_FIRST, true) == (PADDED_FIRST, Some(Packet(0, 0)))
    ensures Input(PADDED_FIRST, 0x9001, 0, true) == (PADDED_FIRST, Some(Packet(0x9002, 0)))
    ensures Pad(PADDED_FIRST, true).1 == Some(Packet(1, 0))
  {
    hide Input, Pad;
    FirstRejected();
    ThenPadding();
    ThenMedia();
  }
}
