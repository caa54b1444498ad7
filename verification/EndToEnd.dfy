/** Parser, packet buffer and reordering together: one access unit, sent and received. */
module EndToEnd {
  import opened Basics
  import opened H264Payload
  import opened PacketBufferModel
  import opened PacketBufferSafety
  import opened PacketBufferOrder
  import opened Packetization
  import opened PayloadParser

  /** The packets of one access unit: one stream, one timestamp, the marker on the last. */
  predicate OneUnit(ps: seq<ParsedPacket>) {
    && ps != [] && SameStream(ps)
    && forall i :: 0 <= i < |ps| ==> (ps[i].marker <==> i == |ps| - 1)
  }

  /** Between frames: nothing stored, no frame open. */
  predicate Idle(c: Core) {
    c.packets == map[] && c.frameStart.None? && !c.discarding
  }

  function FirstPackets(b: Batch, k: nat): Packets
    requires k <= |b.ps|
  {
    map s {:trigger Index(b, s)} | b.base < s <= b.base + k && 0 <= Index(b, s) :: b.ps[Index(b, s)]
  }

  /** The buffer after k packets of the unit, 0 < k. */
  function Opened(b: Batch, k: nat): Core
    requires 0 < k <= |b.ps|
  {
    b.start.(packets := FirstPackets(b, k), lastSeq := Some(b.base + k), lastTimestamp := Some(b.ps[0].timestamp),
             frameStart := Some(b.base + 1), frameTimestamp := b.ps[0].timestamp)
  }

  lemma FeedFirst(b: Batch, d: Core, k: nat)
    requires k < |b.ps| && d.packets == (if k == 0 then map[] else FirstPackets(b, k))
    ensures Fed(b, d, k).packets == FirstPackets(b, k + 1)
  {
    assert Index(b, b.base + 1 + k) == k;
    assert forall s :: Index(b, s) == k ==> s == b.base + 1 + k;
  }

  lemma EnterNext(b: Batch, k: nat, d: Core)
    requires Idle(b.start) && OneUnit(b.ps) && k < |b.ps| <= b.cfg.maxFramePackets
    requires d == if k == 0 then b.start else Opened(b, k)
    ensures b.base + 1 + k in Fed(b, d, k).packets
    ensures Limit(b.cfg, Enter(Fed(b, d, k), b.base + 1 + k), b.base + 1 + k) == Opened(b, k + 1)
  {
    FeedFirst(b, d, k);
  }

  lemma {:induction false} OpenedInOrder(b: Batch, k: nat)
    requires Idle(b.start) && OneUnit(b.ps) && 0 < k < |b.ps| <= b.cfg.maxFramePackets
    ensures InOrder(b, k) == (Opened(b, k), [])
  {
    var d := if k == 1 then b.start else Opened(b, k - 1);
    if k > 1 {
      OpenedInOrder(b, k - 1);
    }
    InOrderStep(b, k - 1);
    assert InOrder(b, 0) == (b.start, []);
    EnterNext(b, k - 1, d);
    hide Limit, Enter, Opened, InOrder;
    assert InOrder(b, k - 1) == (d, []);
    assert Advance(b.cfg, Fed(b, d, k - 1), b.base + k) == (Opened(b, k), []);
  }

  lemma FirstWindow(b: Batch)
    requires b.ps != []
    ensures HasWindow(FirstPackets(b, |b.ps|), b.base + 1, b.base + |b.ps|)
    ensures Window(FirstPackets(b, |b.ps|), b.base + 1, b.base + |b.ps|) == b.ps
  {
    var m, n := FirstPackets(b, |b.ps|), |b.ps|;
    forall s | b.base + 1 <= s <= b.base + n ensures s in m && m[s] == b.ps[s - b.base - 1] {
      assert Index(b, s) == s - b.base - 1;
    }
  }

  /** In-order delivery of one unit produces it if it assembles, and nothing otherwise. */
  lemma UnitInOrder(b: Batch)
    requires Idle(b.start) && OneUnit(b.ps) && |b.ps| <= b.cfg.maxFramePackets
    ensures InOrder(b, |b.ps|).1 ==
            if Assembles(b.cfg, b.ps)
            then [Emission(b.base + 1, b.base + |b.ps|, b.ps, Frame(b.cfg, b.ps, b.base + 1))]
            else []
  {
    hide Assembles, Frame, Limit, Enter, InOrder, Assemble, Opened, FirstPackets;
    var n := |b.ps|;
    var d := if n == 1 then b.start else Opened(b, n - 1);
    InOrderStart(b);
    if n > 1 {
      OpenedInOrder(b, n - 1);
    }
    InOrderStep(b, n - 1);
    EnterNext(b, n - 1, d);
    LastPacketCloses(b, Fed(b, d, n - 1));
    var es := Advance(b.cfg, Fed(b, d, n - 1), b.base + n).1;
    assert [] + es == es;
  }

  lemma LastPacketCloses(b: Batch, fed: Core)
    requires Idle(b.start) && OneUnit(b.ps) && |b.ps| <= b.cfg.maxFramePackets
    requires b.base + |b.ps| in fed.packets && fed.packets[b.base + |b.ps|] == b.ps[|b.ps| - 1]
    requires Limit(b.cfg, Enter(fed, b.base + |b.ps|), b.base + |b.ps|) == Opened(b, |b.ps|)
    ensures Advance(b.cfg, fed, b.base + |b.ps|).1 ==
            if Assembles(b.cfg, b.ps)
            then [Emission(b.base + 1, b.base + |b.ps|, b.ps, Frame(b.cfg, b.ps, b.base + 1))]
            else []
  {
    hide Assembles, Frame, Limit, Enter, FirstPackets;
    FirstWindow(b);
  }

  /**
   End to end. An access unit, cut into packets in any way, sent with consecutive numbers
   and received in any order in which no packet restarts the stream, comes out once and
   with exactly its NAL units, provided its first slice starts a picture and, where
   demanded, its IDR picture comes with both parameter sets; otherwise nothing comes out.
   */
  lemma AccessUnitDelivered(b: Batch, st: State, ds: seq<Delivery>, pieces: seq<Piece>)
    requires StateInv(b.cfg, st) && st.core == b.start && Idle(b.start) && Good(b)
    requires IsPermutation(ds, |b.ps|) && NoRestart(b, {}, ds) && Prompt(b.cfg, st, ds)
    requires PiecesOk(pieces) && pieces != [] && Carries(b.ps, AllPayloads(pieces))
    requires OneUnit(b.ps) && |b.ps| <= b.cfg.maxFramePackets
    ensures var es := Run(b.cfg, st, Arrivals(b.ps, ds)).1;
            var nals := AllNals(pieces);
            if FirstNalFlagged(nals) && (HasNal(nals, 5) && !b.cfg.idrOnly ==> HasNal(nals, 7) && HasNal(nals, 8))
            then |es| == 1 && es[0].frame.nalus == nals
            else es == []
  {
    ArrivalOrderIrrelevant(b, st, ds);
    UnitInOrder(b);
    AccessUnitRoundTrip(b.cfg, pieces, b.ps, b.base + 1);
    hide Assembles, Run, InOrder, FirstNalFlagged, HasNal, AllNals;
  }

  /** The decision on the NAL units alone: what may come out as an access unit. */
  predicate Deliverable(cfg: Config, nals: seq<Bytes>) {
    FirstNalFlagged(nals) && (HasNal(nals, 5) && !cfg.idrOnly ==> HasNal(nals, 7) && HasNal(nals, 8))
  }

  lemma OneTimestamp(ps: seq<ParsedPacket>)
    requires OneUnit(ps)
    ensures forall i :: 0 <= i < |ps| ==> ps[i].timestamp == ps[0].timestamp
  {
  }

  /** Where an IDR needs its parameter sets, only a packet with a sequence parameter set can restart the stream. */
  lemma RestartNeedsSps(cfg: Config, packets: seq<ParsedPacket>, payloads: seq<Bytes>, i: nat)
    requires Carries(packets, payloads) && i < |packets| && !cfg.idrOnly && !packets[i].hasSps
    ensures !BeginningOfStream(cfg, packets[i])
  {
    ParsedConsistent(payloads[i]);
  }

  /**
   Keyframes. A picture whose only sequence parameter set travels in its first packet is
   delivered in every order; it comes out once with exactly its NAL units.
   */
  lemma KeyframeDelivered(b: Batch, st: State, ds: seq<Delivery>, pieces: seq<Piece>)
    requires StateInv(b.cfg, st) && st.core == b.start && Idle(b.start) && Good(b)
    requires IsPermutation(ds, |b.ps|) && Prompt(b.cfg, st, ds)
    requires PiecesOk(pieces) && pieces != [] && Carries(b.ps, AllPayloads(pieces))
    requires OneUnit(b.ps) && |b.ps| <= b.cfg.maxFramePackets
    requires !b.cfg.idrOnly && forall i :: 1 <= i < |b.ps| ==> !b.ps[i].hasSps
    requires var nals := AllNals(pieces);
             FirstNalFlagged(nals) && HasNal(nals, 5) && HasNal(nals, 7) && HasNal(nals, 8)
    ensures var es := Run(b.cfg, st, Arrivals(b.ps, ds)).1;
            |es| == 1 && es[0].frame.nalus == AllNals(pieces)
  {
    forall i | 1 <= i < |b.ps| ensures !BeginningOfStream(b.cfg, b.ps[i]) {
      RestartNeedsSps(b.cfg, b.ps, AllPayloads(pieces), i);
    }
    hide StateInv, Good, Prompt, PiecesOk, Carries, Run, FirstNalFlagged, HasNal, BeginningOfStream, NoRestart, OneUnit;
    FirstIsHarmless(b, ds);
    AccessUnitDelivered(b, st, ds, pieces);
  }

  /** Any picture whose first packet arrives first, the others in any order after it. */
  lemma FirstPacketFirst(b: Batch, st: State, ds: seq<Delivery>, pieces: seq<Piece>)
    requires StateInv(b.cfg, st) && st.core == b.start && Idle(b.start) && Good(b)
    requires IsPermutation(ds, |b.ps|) && Prompt(b.cfg, st, ds) && ds != [] && ds[0].index == 0
    requires PiecesOk(pieces) && pieces != [] && Carries(b.ps, AllPayloads(pieces))
    requires OneUnit(b.ps) && |b.ps| <= b.cfg.maxFramePackets
    ensures var es := Run(b.cfg, st, Arrivals(b.ps, ds)).1;
            if Deliverable(b.cfg, AllNals(pieces)) then |es| == 1 && es[0].frame.nalus == AllNals(pieces) else es == []
  {
    OneTimestamp(b.ps);
    hide StateInv, Good, Prompt, PiecesOk, Carries, Run, FirstNalFlagged, HasNal, BeginningOfStream, NoRestart, OneUnit;
    FirstThenAnyOrder(b, ds);
    AccessUnitDelivered(b, st, ds, pieces);
  }

  /**
   A stream begins, or recovers after an expiry: from a buffer that holds nothing and waits
   for a recovery point, a picture whose first packet is one and arrives first comes out
   once with exactly its NAL units, the other packets in any order.
   */
  lemma StreamBeginsWithPicture(b: Batch, st: State, ds: seq<Delivery>, pieces: seq<Piece>)
    requires StateInv(b.cfg, st) && Begins(b, st) && Good(b) && !b.start.discarding
    requires IsPermutation(ds, |b.ps|) && Prompt(b.cfg, st, ds) && ds[0].index == 0
    requires PiecesOk(pieces) && pieces != [] && Carries(b.ps, AllPayloads(pieces))
    requires OneUnit(b.ps) && |b.ps| <= b.cfg.maxFramePackets
    ensures var es := Run(b.cfg, st, Arrivals(b.ps, ds)).1;
            if Deliverable(b.cfg, AllNals(pieces)) then |es| == 1 && es[0].frame.nalus == AllNals(pieces) else es == []
  {
    OneTimestamp(b.ps);
    BeginsIdle(b, st);
    hide StateInv, Good, Prompt, PiecesOk, Carries, Run, FirstNalFlagged, HasNal, BeginningOfStream, NoRestart, Begins,
         InOrder, Assembles;
    SamePictureHarmless(b, {0}, ds[1..]);
    BeginningOrderIrrelevant(b, st, ds);
    UnitInOrder(b);
    AccessUnitRoundTrip(b.cfg, pieces, b.ps, b.base + 1);
  }

  lemma BeginsIdle(b: Batch, st: State)
    requires Begins(b, st)
    ensures Idle(b.start)
  {
  }
}
