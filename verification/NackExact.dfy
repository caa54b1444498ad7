/** While nothing is cleared, reset or full, the pending list is exactly what is lost. */
module NackExact {
  import opened Basics
  import opened NackModel
  import NackSafety

  /**
   The requester together with unbounded sequence numbers: the first and newest received,
   all those received, those given up, and the time.
   */
  datatype Track = Track(s: State, first: int, newest: int, received: set<int>, gone: set<int>, clock: nat)

  datatype Event =
    | Got(number: int, now: nat, fec: bool)
    | Tick(now: nat)
    | Rtt(ms: nat)
    | GiveUp

  /** The number at most `newest` that a 16-bit number stands for. */
  function Extended(newest: int, k: uint16): int {
    newest - Wire(newest - k)
  }

  /** A number between the first and the newest that neither arrived nor was given up. */
  predicate Lost(t: Track, x: int) {
    t.first < x < t.newest && x !in t.received && x !in t.gone
  }

  /** The losses that are hopeless at this time: too old, asked for often enough, or too late to ask for. */
  function HopelessAt(t: Track, now: nat): set<int> {
    set k | k in t.s.pending && FateOf(t.s, t.s.pending[k], now).Abandoned? :: Extended(t.newest, k)
  }

  function Pending(t: Track): set<int> {
    set k | k in t.s.pending :: Extended(t.newest, k)
  }

  /** A tick gives up what is hopeless, GiveUp everything; nothing else is ever given up. */
  function Step(t: Track, e: Event): Track {
    match e
    case Got(x, now, fec) =>
      var s := Receive(t.s, Wire(x), now, fec);
      if !t.s.initialized then Track(s, x, x, {x}, {}, now)
      else Track(s, t.first, Max(t.newest, x), t.received + {x}, t.gone, now)
    case Tick(now) => t.(s := Process(t.s, now).0, gone := t.gone + HopelessAt(t, now), clock := now)
    case Rtt(ms) => t.(s := t.s.(rtt := ms))
    case GiveUp => t.(s := AbandonPending(t.s), gone := t.gone + Pending(t))
  }

  /**
   The runs covered: the clock does not go back, every packet is within half a cycle of the
   newest, a jump stays within the allowed gap and fits into the list, and no loss is left
   half a cycle behind.
   */
  ghost predicate Trackable(t: Track, e: Event) {
    match e
    case Got(x, now, fec) =>
      t.clock <= now && (t.s.initialized ==>
        && -0x8000 < x - t.newest < 0x8000
        && (x > t.newest ==>
              && x - t.newest <= t.s.config.maxGap
              && |Arrive(t.s, Wire(x), fec).pending| + (x - t.newest - 1) <= t.s.config.maxList
              && forall y :: Lost(t, y) ==> x - y < 0x8000))
    case Tick(now) => t.clock <= now
    case _ => true
  }

  /** A 16-bit number is pending exactly when the number it stands for is lost. */
  predicate PendingIsLost(t: Track) {
    forall k: uint16 :: k in t.s.pending <==> Lost(t, Extended(t.newest, k))
  }

  ghost predicate Exact(t: Track) {
    if !t.s.initialized then t.s.pending == map[]
    else
      && t.s.newest == Wire(t.newest) && t.newest in t.received && t.first <= t.newest
      && (forall x :: x in t.received ==> x <= t.newest) && (forall x :: x in t.gone ==> x < t.newest)
      && (forall x :: Lost(t, x) ==> t.newest - x < 0x8000)
      && PendingIsLost(t)
  }

  // ---- 16-bit numbers ----

  lemma ExtendedOf(newest: int, x: int)
    requires 0 <= newest - x < 0x1_0000
    ensures Extended(newest, Wire(x)) == x
  {
  }

  lemma ExtendedRange(newest: int, k: uint16)
    ensures 0 <= newest - Extended(newest, k) < 0x1_0000 && Wire(Extended(newest, k)) == k
  {
  }

  /** k is one of the numbers from b up to e. */
  predicate InSpan(k: uint16, b: int, e: int) {
    Wire(k - b) < e - b
  }

  lemma SpanStep(k: uint16, b: int, e: int)
    requires 1 <= e - b < 0x1_0000
    ensures InSpan(k, b, e) <==> k == Wire(b) || InSpan(k, b + 1, e)
  {
  }

  lemma EmptySpan(k: uint16, b: int)
    ensures !InSpan(k, b, b)
  {
  }

  lemma WireSucc(b: int)
    ensures Wire(Wire(b) + 1) == Wire(b + 1)
  {
  }

  lemma WireDifferent(b: int, e: int)
    requires 0 <= e - b < 0x1_0000
    ensures Wire(Wire(e) - Wire(b)) == e - b && (Wire(b) == Wire(e) <==> b == e)
  {
  }

  // ---- adding a gap ----

  lemma AddOneSize(s: State, k: uint16, now: nat)
    ensures |AddOne(s, k, now).pending| <= |s.pending| + 1
    ensures forall x :: x in AddOne(s, k, now).pending <==> x in s.pending || x == k
  {
    var t := AddOne(s, k, now);
    if k !in s.pending {
      assert t.pending.Keys == s.pending.Keys + {k};
    }
  }

  /** A gap that fits is added whole. */
  lemma {:induction false} AddMissingAll(s: State, b: int, e: int, now: nat)
    requires 0 <= e - b < 0x1_0000 && |s.pending| + (e - b) <= s.config.maxList
    ensures var t := AddMissing(s, Wire(b), Wire(e), now);
            && (forall k: uint16 :: k in t.pending <==> k in s.pending || InSpan(k, b, e))
            && t.newest == s.newest && t.initialized == s.initialized
    decreases e - b
  {
    WireDifferent(b, e);
    if b == e {
      forall k: uint16 ensures !InSpan(k, b, e) {
        EmptySpan(k, b);
      }
    } else {
      var a := AddOne(s, Wire(b), now);
      AddOneSize(s, Wire(b), now);
      WireSucc(b);
      AddMissingAll(a, b + 1, e, now);
      var t := AddMissing(s, Wire(b), Wire(e), now);
      hide AddOne, Wire;
      assert t == AddMissing(a, Wire(b + 1), Wire(e), now);
      forall k: uint16 ensures k in t.pending <==> k in s.pending || InSpan(k, b, e) {
        SpanStep(k, b, e);
      }
    }
  }

  // ---- a newer packet ----

  /** Where a 16-bit number stands relative to the old and the new newest number. */
  lemma Placement(newest: int, x: int, k: uint16)
    requires 0 < x - newest < 0x8000
    ensures var y := Extended(x, k);
            && (y == x ==> Extended(newest, k) == x - 0x1_0000 && !InSpan(k, newest + 1, x))
            && (newest < y < x ==> InSpan(k, newest + 1, x) && newest - Extended(newest, k) >= 0x8000)
            && (y <= newest ==> Extended(newest, k) == y && !InSpan(k, newest + 1, x))
  {
  }

  lemma NewerNumber(t: Track, x: int)
    requires Exact(t) && t.s.initialized && 0 < x - t.newest < 0x8000
    ensures Wire(x) !in t.s.pending && IsNewer(Wire(x), t.s.newest) && Wire(Wire(x) - t.s.newest) == x - t.newest
    ensures t.s.newest == Wire(t.newest)
  {
    WireDifferent(t.newest, x);
    ExtendedRange(x, Wire(x));
    ExtendedOf(x, x);
    Placement(t.newest, x, Wire(x));
    hide Wire, Extended;
    assert Lost(t, Extended(t.newest, Wire(x))) ==> t.newest - Extended(t.newest, Wire(x)) < 0x8000;
  }

  lemma NewerPlaced(t: Track, u: Track, x: int, k: uint16)
    requires Exact(t) && t.s.initialized && 0 < x - t.newest < 0x8000
    requires u.first == t.first && u.newest == x && u.received == t.received + {x} && u.gone == t.gone
    ensures (k in t.s.pending || InSpan(k, t.newest + 1, x)) <==> Lost(u, Extended(x, k))
  {
    ExtendedRange(x, k);
    Placement(t.newest, x, k);
    hide Wire, InSpan, Extended;
    var y := Extended(x, k);
    assert k in t.s.pending <==> Lost(t, Extended(t.newest, k));
  }

  lemma ReceiveNewer(t: Track, x: int, now: nat, fec: bool)
    requires Exact(t) && t.s.initialized && 0 < x - t.newest < 0x8000 && x - t.newest <= t.s.config.maxGap
    ensures Arrive(t.s, Wire(x), fec) == t.s
    ensures Receive(t.s, Wire(x), now, fec) == AddMissing(t.s, Wire(t.newest + 1), Wire(x), now).(newest := Wire(x))
  {
    hide AddMissing, Wire, IsNewer, Exact;
    NewerNumber(t, x);
    WireSucc(t.newest);
  }

  lemma NewerPending(t: Track, x: int, now: nat, fec: bool)
    requires Exact(t) && t.s.initialized && x > t.newest && Trackable(t, Got(x, now, fec))
    ensures var u := Step(t, Got(x, now, fec));
            u.s.newest == Wire(x) && u.s.initialized && PendingIsLost(u)
  {
    ReceiveNewer(t, x, now, fec);
    AddMissingAll(t.s, t.newest + 1, x, now);
    hide AddMissing, InSpan, Wire, Extended, Receive, Arrive, Exact, Lost;
    var u := Step(t, Got(x, now, fec));
    forall k: uint16 ensures k in u.s.pending <==> Lost(u, Extended(u.newest, k)) {
      NewerPlaced(t, u, x, k);
    }
  }

  lemma NewerExact(t: Track, x: int, now: nat, fec: bool)
    requires Exact(t) && t.s.initialized && x > t.newest && Trackable(t, Got(x, now, fec))
    ensures Exact(Step(t, Got(x, now, fec)))
  {
    hide Receive, PendingIsLost, Wire, Arrive;
    NewerPending(t, x, now, fec);
    var u := Step(t, Got(x, now, fec));
    forall y | Lost(u, y) ensures u.newest - y < 0x8000 {
      if y < t.newest {
        assert Lost(t, y);
      }
    }
  }

  // ---- a late packet ----

  lemma OlderNumber(t: Track, x: int)
    requires t.s.newest == Wire(t.newest) && 0 < t.newest - x < 0x8000
    ensures !IsNewer(Wire(x), t.s.newest) && Extended(t.newest, Wire(x)) == x
  {
    ExtendedOf(t.newest, x);
    WireDifferent(x, t.newest);
    WireBehind(x, t.newest);
  }

  lemma WireBehind(x: int, newest: int)
    requires 0 < newest - x < 0x8000
    ensures Wire(Wire(x) - Wire(newest)) == 0x1_0000 - (newest - x)
  {
  }

  lemma ReceiveOlder(t: Track, x: int, now: nat, fec: bool)
    requires Exact(t) && t.s.initialized && 0 <= t.newest - x < 0x8000
    ensures Receive(t.s, Wire(x), now, fec) == Arrive(t.s, Wire(x), fec) && Extended(t.newest, Wire(x)) == x
  {
    ExtendedOf(t.newest, x);
    if x < t.newest {
      OlderNumber(t, x);
    }
    hide AddMissing, Arrive, Extended, PendingIsLost;
  }

  lemma OlderPending(t: Track, x: int, now: nat, fec: bool)
    requires Exact(t) && t.s.initialized && 0 <= t.newest - x < 0x8000
    ensures var u := Step(t, Got(x, now, fec));
            u.s.newest == t.s.newest && u.s.initialized && PendingIsLost(u)
  {
    ReceiveOlder(t, x, now, fec);
    var u := Step(t, Got(x, now, fec));
    hide Receive, Wire, Extended;
    forall k: uint16 ensures k in u.s.pending <==> Lost(u, Extended(u.newest, k)) {
      OlderPlaced(t, x, k);
    }
  }

  lemma OlderExact(t: Track, x: int, now: nat, fec: bool)
    requires Exact(t) && t.s.initialized && x <= t.newest && Trackable(t, Got(x, now, fec))
    ensures Exact(Step(t, Got(x, now, fec)))
  {
    hide Receive, PendingIsLost, Wire, Arrive;
    OlderPending(t, x, now, fec);
    var u := Step(t, Got(x, now, fec));
    forall y | Lost(u, y) ensures u.newest - y < 0x8000 {
      assert Lost(t, y);
    }
  }

  lemma OlderPlaced(t: Track, x: int, k: uint16)
    requires Extended(t.newest, Wire(x)) == x
    ensures Extended(t.newest, k) == x <==> k == Wire(x)
  {
    ExtendedRange(t.newest, k);
  }

  // ---- ticks ----

  lemma SameFate(s: State, t: State, m: Missing, now: nat)
    requires t.config == s.config && t.rtt == s.rtt
    ensures FateOf(t, m, now) == FateOf(s, m, now)
  {
  }

  /** What one entry's turn does to the list and to the count of abandoned losses. */
  lemma ProcessOneAbandons(s: State, k: uint16, now: nat, batch: seq<uint16>)
    requires NackSafety.Noticed(s, now)
    ensures var r := ProcessOne(s, k, now, batch).0;
            && (forall x :: x in r.pending <==> x in s.pending && !(x == k && FateOf(s, s.pending[k], now).Abandoned?))
            && (forall x :: x in r.pending && x != k ==> r.pending[x] == s.pending[x])
            && (k in r.pending ==> r.pending[k].first == s.pending[k].first)
            && r.stats.abandoned + |r.pending| == s.stats.abandoned + |s.pending|
            && r.newest == s.newest && r.initialized == s.initialized && r.config == s.config && r.rtt == s.rtt
  {
    hide Hopeless, RetryDue;
    if k in s.pending {
      RemovedSize(s.pending, k);
      var m := s.pending[k];
      AddedSize(s.pending, k, m.(last := now, count := m.count + 1));
    }
  }

  /** A tick removes exactly the hopeless entries and counts each of them once. */
  lemma {:induction false} ProcessAbandons(s: State, k: nat, now: nat, batch: seq<uint16>)
    requires k <= 0x1_0000 && NackSafety.Noticed(s, now)
    ensures var r := ProcessFrom(s, k, now, batch).0;
            && (forall x :: x in r.pending <==> x in s.pending && (x < k || !FateOf(s, s.pending[x], now).Abandoned?))
            && r.stats.abandoned + |r.pending| == s.stats.abandoned + |s.pending|
            && r.newest == s.newest && r.initialized == s.initialized && NackSafety.Noticed(r, now)
    decreases 0x1_0000 - k
  {
    hide FateOf, ProcessOne;
    if k < 0x1_0000 {
      ProcessOneAbandons(s, k, now, batch);
      var (t, b) := ProcessOne(s, k, now, batch);
      ProcessAbandons(t, k + 1, now, b);
      forall x | x in t.pending && x > k ensures FateOf(t, t.pending[x], now) == FateOf(s, s.pending[x], now) {
        SameFate(s, t, s.pending[x], now);
      }
    }
  }

  /** The numbers of the entries that have left the list. */
  function GoneBy(t: Track, after: State): set<int> {
    set k | k in t.s.pending && k !in after.pending :: Extended(t.newest, k)
  }

  /** Giving up exactly the entries that leave the list keeps it exact. */
  lemma ShrunkExact(t: Track, after: State, clock: nat)
    requires Exact(t) && after.newest == t.s.newest && after.initialized == t.s.initialized
    requires forall x :: x in after.pending ==> x in t.s.pending
    ensures Exact(t.(s := after, gone := t.gone + GoneBy(t, after), clock := clock))
  {
    var u := t.(s := after, gone := t.gone + GoneBy(t, after), clock := clock);
    if t.s.initialized {
      forall k: uint16 ensures k in after.pending <==> Lost(u, Extended(t.newest, k)) {
        GoneIff(t, after, k);
      }
      hide Extended, Wire;
      forall x | x in u.gone ensures x < t.newest {
        if x !in t.gone {
          var k :| k in t.s.pending && k !in after.pending && x == Extended(t.newest, k);
          assert Lost(t, x);
        }
      }
      forall x | Lost(u, x) ensures t.newest - x < 0x8000 {
        assert Lost(t, x);
      }
    } else {
      assert forall k :: k !in after.pending;
      assert after.pending == map[];
    }
  }

  lemma GoneIff(t: Track, after: State, k: uint16)
    ensures Extended(t.newest, k) in GoneBy(t, after) <==> k in t.s.pending && k !in after.pending
  {
    ExtendedRange(t.newest, k);
    if Extended(t.newest, k) in GoneBy(t, after) {
      var j :| j in t.s.pending && j !in after.pending && Extended(t.newest, j) == Extended(t.newest, k);
      ExtendedRange(t.newest, j);
    }
  }

  // ---- the count of what was given up ----

  function Images(newest: int, keys: set<uint16>): set<int> {
    set k | k in keys :: Extended(newest, k)
  }

  lemma {:induction false} ImagesSize(newest: int, keys: set<uint16>)
    ensures |Images(newest, keys)| == |keys|
    decreases |keys|
  {
    if keys != {} {
      var k := Pick(keys);
      ImagesSize(newest, keys - {k});
      forall j | j in keys - {k} ensures Extended(newest, j) != Extended(newest, k) {
        ExtendedRange(newest, j);
        ExtendedRange(newest, k);
      }
      assert Images(newest, keys) == Images(newest, keys - {k}) + {Extended(newest, k)};
      assert Extended(newest, k) !in Images(newest, keys - {k});
    }
  }

  /** Every number given up was counted as abandoned, once. */
  predicate Counted(t: Track) {
    && NackSafety.Noticed(t.s, t.clock) && |t.gone| == t.s.stats.abandoned
    && (!t.s.initialized ==> t.gone == {})
  }

  lemma RemovedCount(before: set<uint16>, after: set<uint16>)
    requires after <= before
    ensures |before - after| == |before| - |after|
  {
    assert before == (before - after) + after;
  }

  lemma NewlyGone(t: Track, after: State)
    requires Exact(t) && t.s.initialized
    ensures GoneBy(t, after) !! t.gone
  {
    hide Extended, Wire;
    forall x | x in GoneBy(t, after) ensures x !in t.gone {
      var k :| k in t.s.pending && k !in after.pending && x == Extended(t.newest, k);
      assert Lost(t, x);
    }
  }

  lemma ShrunkSize(t: Track, after: State)
    requires Exact(t) && t.s.initialized && forall x :: x in after.pending ==> x in t.s.pending
    ensures |t.gone + GoneBy(t, after)| == |t.gone| + (|t.s.pending| - |after.pending|)
  {
    hide Exact, Extended, Wire;
    var removed := t.s.pending.Keys - after.pending.Keys;
    assert GoneBy(t, after) == Images(t.newest, removed);
    NewlyGone(t, after);
    hide GoneBy, Images;
    ImagesSize(t.newest, removed);
    assert after.pending.Keys <= t.s.pending.Keys;
    RemovedCount(t.s.pending.Keys, after.pending.Keys);
  }

  lemma TickGone(t: Track, now: nat)
    requires Exact(t) && Counted(t) && t.clock <= now
    ensures HopelessAt(t, now) == GoneBy(t, Process(t.s, now).0)
    ensures var s := Process(t.s, now).0;
            && (forall x :: x in s.pending ==> x in t.s.pending)
            && s.newest == t.s.newest && s.initialized == t.s.initialized && NackSafety.Noticed(s, now)
            && s.stats.abandoned + |s.pending| == t.s.stats.abandoned + |t.s.pending|
  {
    hide FateOf, Extended, ProcessFrom, Exact;
    ProcessAbandons(t.s, 0, now, []);
  }

  lemma TickExact(t: Track, now: nat)
    requires Exact(t) && Counted(t) && t.clock <= now
    ensures Exact(Step(t, Tick(now))) && Counted(Step(t, Tick(now)))
  {
    TickGone(t, now);
    hide FateOf, Extended, ProcessFrom, GoneBy, HopelessAt;
    var s := Process(t.s, now).0;
    ShrunkExact(t, s, now);
    if t.s.initialized {
      hide Exact;
      ShrunkSize(t, s);
    } else {
      assert GoneBy(t, s) == {} by {
        NothingGone(t, s);
      }
      assert s.pending == map[];
    }
  }

  lemma NothingGone(t: Track, after: State)
    requires t.s.pending == map[]
    ensures GoneBy(t, after) == {}
  {
  }

  lemma GiveUpExact(t: Track)
    requires Exact(t) && Counted(t)
    ensures Exact(Step(t, GiveUp)) && Counted(Step(t, GiveUp))
  {
    var s := AbandonPending(t.s);
    assert Pending(t) == GoneBy(t, s);
    hide Extended, GoneBy, Pending;
    ShrunkExact(t, s, t.clock);
    if t.s.initialized {
      hide Exact;
      ShrunkSize(t, s);
    } else {
      NothingGone(t, s);
    }
  }

  lemma {:induction false} AddMissingStats(s: State, begin: uint16, end: uint16, now: nat)
    ensures AddMissing(s, begin, end, now).stats.abandoned == s.stats.abandoned
    decreases Wire(end - begin)
  {
    if !(begin == end || |s.pending| >= s.config.maxList) {
      AddMissingStats(AddOne(s, begin, now), Wire(begin + 1), end, now);
    }
  }

  lemma ReceiveNotices(s: State, k: uint16, now: nat, fec: bool)
    requires NackSafety.Noticed(s, now)
    ensures NackSafety.Noticed(Receive(s, k, now, fec), now) &&
            Receive(s, k, now, fec).stats.abandoned == s.stats.abandoned
    ensures Receive(s, k, now, fec).initialized
  {
    hide AddMissing, Wire, IsNewer;
    var a := Arrive(s, k, fec);
    AddMissingStats(a, Wire(s.newest + 1), k, now);
    NackSafety.AddMissingNoticed(a, Wire(s.newest + 1), k, now);
    AddMissingKeeps(a, Wire(s.newest + 1), k, now);
  }

  lemma {:induction false} AddMissingKeeps(s: State, begin: uint16, end: uint16, now: nat)
    ensures AddMissing(s, begin, end, now).initialized == s.initialized
    decreases Wire(end - begin)
  {
    if !(begin == end || |s.pending| >= s.config.maxList) {
      AddMissingKeeps(AddOne(s, begin, now), Wire(begin + 1), end, now);
    }
  }

  lemma GotCounted(t: Track, x: int, now: nat, fec: bool)
    requires Counted(t) && t.clock <= now
    ensures Counted(Step(t, Got(x, now, fec)))
  {
    hide Receive, Wire;
    ReceiveNotices(t.s, Wire(x), now, fec);
  }

  lemma FirstExact(t: Track, x: int, now: nat, fec: bool)
    requires Exact(t) && !t.s.initialized
    ensures Exact(Step(t, Got(x, now, fec)))
  {
    hide Wire, Extended;
  }

  lemma StepExact(t: Track, e: Event)
    requires Exact(t) && Counted(t) && Trackable(t, e)
    ensures Exact(Step(t, e)) && Counted(Step(t, e))
  {
    hide Exact, ProcessFrom, Receive, Extended;
    match e
    case Got(x, now, fec) =>
      GotCounted(t, x, now, fec);
      if !t.s.initialized {
        FirstExact(t, x, now, fec);
      } else if x > t.newest {
        NewerExact(t, x, now, fec);
      } else {
        OlderExact(t, x, now, fec);
      }
    case Tick(now) => TickExact(t, now);
    case Rtt(ms) => RttExact(t, ms);
    case GiveUp => GiveUpExact(t);
  }

  lemma RttExact(t: Track, ms: nat)
    requires Exact(t)
    ensures Exact(t.(s := t.s.(rtt := ms)))
  {
    hide Wire, Extended;
    assert forall x :: Lost(t.(s := t.s.(rtt := ms)), x) <==> Lost(t, x);
  }

  function Run(t: Track, events: seq<Event>): Track
    decreases |events|
  {
    if events == [] then t else Run(Step(t, events[0]), events[1..])
  }

  ghost predicate TrackableRun(t: Track, events: seq<Event>)
    decreases |events|
  {
    events == [] || (Trackable(t, events[0]) && TrackableRun(Step(t, events[0]), events[1..]))
  }

  lemma {:induction false} RunExact(t: Track, events: seq<Event>)
    requires Exact(t) && Counted(t) && TrackableRun(t, events)
    ensures Exact(Run(t, events)) && Counted(Run(t, events))
    decreases |events|
  {
    hide Exact, Counted, Trackable, Step;
    if events != [] {
      StepExact(t, events[0]);
      RunExact(Step(t, events[0]), events[1..]);
    }
  }

  function Fresh(c: Config, hasCallback: bool): Track {
    Track(NewState(c, hasCallback), 0, 0, {}, {}, 0)
  }

  /**
   In such a run the pending list is exactly the numbers between the first and the newest
   that neither arrived nor were given up, and as many were given up as were counted
   abandoned. A number is given up only by a tick at which it is hopeless, or by GiveUp.
   */
  lemma PendingIsExactlyLost(c: Config, hasCallback: bool, events: seq<Event>)
    requires TrackableRun(Fresh(c, hasCallback), events)
    ensures var t := Run(Fresh(c, hasCallback), events);
            && |t.gone| == t.s.stats.abandoned
            && (t.s.initialized ==>
                  && (forall x :: Lost(t, x) ==> Wire(x) in t.s.pending)
                  && (forall k :: k in t.s.pending ==> Lost(t, Extended(t.newest, k))))
  {
    var start := Fresh(c, hasCallback);
    RunExact(start, events);
    var t := Run(start, events);
    hide Run, Extended, Wire, TrackableRun;
    if t.s.initialized {
      forall x | Lost(t, x) ensures Wire(x) in t.s.pending {
        ExtendedOf(t.newest, x);
      }
    }
  }
}
