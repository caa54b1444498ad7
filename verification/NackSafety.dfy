/** What every run of the NACK requester keeps: pacing of requests, limits and accounting. */
module NackSafety {
  import opened Basics
  import opened NackModel

  /** One request that was sent: for which loss, when, its number in order, and the round-trip time then known. */
  datatype Asked = Asked(id: nat, seqNo: uint16, first: nat, time: nat, count: nat, rtt: nat)

  /** The requester with everything it has asked for, and the losses it dropped without counting them. */
  datatype World = World(s: State, log: seq<Asked>, dropped: int)

  datatype Event =
    | Received(k: uint16, now: nat, fec: bool)
    | Tick(now: nat)
    | Rtt(ms: nat)
    | Clear(k: uint16)
    | GiveUp
    | Restart

  function TickOne(w: World, k: uint16, now: nat, batch: seq<uint16>): (World, seq<uint16>) {
    var (t, b) := ProcessOne(w.s, k, now, batch);
    if k !in w.s.pending then (w, b)
    else
      var m := w.s.pending[k];
      var asked := if |b| > |batch| then [Asked(m.id, k, m.first, now, m.count + 1, w.s.rtt)] else [];
      (World(t, w.log + asked, w.dropped + if now < m.first then 1 else 0), b)
  }

  function TickFrom(w: World, k: nat, now: nat, batch: seq<uint16>): (World, seq<uint16>)
    requires k <= 0x1_0000
    decreases 0x1_0000 - k
  {
    if k == 0x1_0000 then (w, batch)
    else
      var (t, b) := TickOne(w, k, now, batch);
      TickFrom(t, k + 1, now, b)
  }

  /** The logged tick is Process. */
  lemma {:induction false} TickIsProcess(w: World, k: nat, now: nat, batch: seq<uint16>)
    requires k <= 0x1_0000
    ensures TickFrom(w, k, now, batch).0.s == ProcessFrom(w.s, k, now, batch).0
    ensures TickFrom(w, k, now, batch).1 == ProcessFrom(w.s, k, now, batch).1
    decreases 0x1_0000 - k
  {
    hide FateOf;
    if k < 0x1_0000 {
      var (t, b) := TickOne(w, k, now, batch);
      TickIsProcess(t, k + 1, now, b);
    }
  }

  /** What a packet too far ahead forgets. */
  function Forgotten(s: State, k: uint16, fec: bool): nat {
    if s.initialized && IsNewer(k, s.newest) && Wire(k - s.newest) > s.config.maxGap then |Arrive(s, k, fec).pending|
        else 0
  }

  function Step(w: World, e: Event): World {
    match e
    case Received(k, now, fec) => World(Receive(w.s, k, now, fec), w.log, w.dropped + Forgotten(w.s, k, fec))
    case Tick(now) => TickFrom(w, 0, now, []).0
    case Rtt(ms) => w.(s := w.s.(rtt := ms))
    case Clear(k) => World(ClearUpTo(w.s, k), w.log, w.dropped + (|w.s.pending| - |ClearUpTo(w.s, k).pending|))
    case GiveUp => w.(s := AbandonPending(w.s))
    case Restart => World(Reset(w.s), w.log, 0)
  }

  function Run(w: World, events: seq<Event>): World
    decreases |events|
  {
    if events == [] then w else Run(Step(w, events[0]), events[1..])
  }

  function Fresh(c: Config, hasCallback: bool): World {
    World(NewState(c, hasCallback), [], 0)
  }

  // ---- pacing ----

  function CountOf(log: seq<Asked>, id: nat): nat {
    if log == [] then 0 else CountOf(log[..|log| - 1], id) + if log[|log| - 1].id == id then 1 else 0
  }

  lemma CountAppend(log: seq<Asked>, a: Asked, id: nat)
    ensures CountOf(log + [a], id) == CountOf(log, id) + if a.id == id then 1 else 0
  {
    assert (log + [a])[..|log|] == log;
  }

  lemma {:induction false} CountNone(log: seq<Asked>, id: nat)
    requires forall i :: 0 <= i < |log| ==> log[i].id != id
    ensures CountOf(log, id) == 0
  {
    if log != [] {
      CountNone(log[..|log| - 1], id);
    }
  }

  /** A request is sent for a loss that has waited, is not too old, and can still be answered in time. */
  predicate Timely(c: Config, a: Asked) {
    && c.reorderWait <= a.time - a.first < c.maxAge
    && (a.rtt == 0 || a.rtt < c.maxAge - (a.time - a.first))
    && 1 <= a.count <= c.maxRetries
  }

  /** Requests for one loss are at least the minimum retry interval apart. */
  predicate Spaced(c: Config, log: seq<Asked>) {
    forall i, j :: 0 <= i < j < |log| && log[i].id == log[j].id ==> log[j].time - log[i].time >= c.minRetry
  }

  ghost predicate LogOk(c: Config, log: seq<Asked>) {
    && (forall i :: 0 <= i < |log| ==> Timely(c, log[i]))
    && Spaced(c, log)
    && (forall id: nat :: CountOf(log, id) <= c.maxRetries)
  }

  /** A pending loss knows how often, and when last, it was asked for. */
  predicate EntryOk(m: Missing, log: seq<Asked>, nextId: nat, maxRetries: nat) {
    && m.id < nextId && m.count == CountOf(log, m.id) <= maxRetries
    && (forall i :: 0 <= i < |log| && log[i].id == m.id ==> log[i].time <= m.last)
  }

  predicate Entries(pending: map<uint16, Missing>, log: seq<Asked>, nextId: nat, maxRetries: nat) {
    && (forall k :: k in pending ==> EntryOk(pending[k], log, nextId, maxRetries))
    && (forall j, k :: j in pending && k in pending && j != k ==> pending[j].id != pending[k].id)
    && (forall i :: 0 <= i < |log| ==> log[i].id < nextId)
  }

  ghost predicate Paced(w: World) {
    && LogOk(w.s.config, w.log) && Entries(w.s.pending, w.log, w.s.nextId, w.s.config.maxRetries)
    && |w.s.pending| <= w.s.config.maxList
  }

  /** Losing entries keeps everything. */
  lemma FewerPaced(w: World, t: World)
    requires Paced(w) && t.log == w.log && t.s.config == w.s.config && t.s.nextId == w.s.nextId
    requires forall k :: k in t.s.pending ==> k in w.s.pending && t.s.pending[k] == w.s.pending[k]
    ensures Paced(t)
  {
    hide LogOk, EntryOk;
    assert t.s.pending.Keys <= w.s.pending.Keys;
    FewerKeys(t.s.pending, w.s.pending);
  }

  /** A new loss gets an identity nobody asked about. */
  lemma AddOnePaced(w: World, k: uint16, now: nat)
    requires Paced(w) && |w.s.pending| < w.s.config.maxList
    ensures Paced(w.(s := AddOne(w.s, k, now)))
  {
    if k !in w.s.pending {
      var t := AddOne(w.s, k, now);
      CountNone(w.log, w.s.nextId);
      AddedSize(w.s.pending, k, t.pending[k]);
      hide LogOk, CountOf;
      forall x | x in t.pending ensures EntryOk(t.pending[x], w.log, t.nextId, t.config.maxRetries) {
        if x != k {
          assert EntryOk(w.s.pending[x], w.log, w.s.nextId, w.s.config.maxRetries);
        }
      }
    }
  }

  lemma {:induction false} AddMissingPaced(w: World, begin: uint16, end: uint16, now: nat)
    requires Paced(w)
    ensures Paced(w.(s := AddMissing(w.s, begin, end, now)))
    decreases Wire(end - begin)
  {
    hide Paced, AddOne;
    if !(begin == end || |w.s.pending| >= w.s.config.maxList) {
      AddOnePaced(w, begin, now);
      AddMissingPaced(w.(s := AddOne(w.s, begin, now)), Wire(begin + 1), end, now);
    }
  }

  // ---- a request ----

  lemma IntervalAtLeastMin(s: State)
    ensures RetryInterval(s) >= s.config.minRetry
  {
  }

  /** What a due entry guarantees about the request. */
  lemma DueIsTimely(s: State, m: Missing, k: uint16, now: nat)
    requires FateOf(s, m, now).Due?
    ensures Timely(s.config, Asked(m.id, k, m.first, now, m.count + 1, s.rtt))
    ensures m.count > 0 ==> now - m.last >= s.config.minRetry
    ensures now >= m.first && m.count < s.config.maxRetries
  {
    IntervalAtLeastMin(s);
  }

  lemma SpacedAppend(c: Config, log: seq<Asked>, a: Asked)
    requires Spaced(c, log)
    requires forall i :: 0 <= i < |log| && log[i].id == a.id ==> a.time - log[i].time >= c.minRetry
    ensures Spaced(c, log + [a])
  {
  }

  lemma RequestLogOk(s: State, m: Missing, k: uint16, now: nat, log: seq<Asked>)
    requires FateOf(s, m, now).Due? && LogOk(s.config, log) && EntryOk(m, log, s.nextId, s.config.maxRetries)
    ensures LogOk(s.config, log + [Asked(m.id, k, m.first, now, m.count + 1, s.rtt)])
  {
    var a := Asked(m.id, k, m.first, now, m.count + 1, s.rtt);
    DueIsTimely(s, m, k, now);
    hide FateOf, Timely;
    forall i | 0 <= i < |log| && log[i].id == a.id ensures a.time - log[i].time >= s.config.minRetry {
      SomeCount(log, i);
    }
    SpacedAppend(s.config, log, a);
    hide Spaced;
    forall id: nat ensures CountOf(log + [a], id) <= s.config.maxRetries {
      CountAppend(log, a, id);
    }
  }

  lemma {:induction false} SomeCount(log: seq<Asked>, i: nat)
    requires i < |log|
    ensures CountOf(log, log[i].id) > 0
  {
    if i < |log| - 1 {
      SomeCount(log[..|log| - 1], i);
    }
  }

  lemma RequestEntries(s: State, k: uint16, now: nat, log: seq<Asked>)
    requires k in s.pending && FateOf(s, s.pending[k], now).Due? &&
             Entries(s.pending, log, s.nextId, s.config.maxRetries)
    ensures var m := s.pending[k];
            Entries(Request(s, k, now).pending, log + [Asked(m.id, k, m.first, now, m.count + 1, s.rtt)], s.nextId,
                s.config.maxRetries)
  {
    hide FateOf, Timely, EntryOk;
    var m, t := s.pending[k], Request(s, k, now);
    var a := Asked(m.id, k, m.first, now, m.count + 1, s.rtt);
    DueIsTimely(s, m, k, now);
    EntryKnown(m, log, s.nextId, s.config.maxRetries);
    forall x | x in t.pending ensures EntryOk(t.pending[x], log + [a], s.nextId, s.config.maxRetries) {
      RequestEntry(s.pending[x], m, a, log, s.nextId, s.config.maxRetries, now);
    }
  }

  lemma EntryKnown(m: Missing, log: seq<Asked>, nextId: nat, maxRetries: nat)
    requires EntryOk(m, log, nextId, maxRetries)
    ensures m.id < nextId
  {
  }

  /** The entry asked for counts the request; every other entry is as before. */
  lemma RequestEntry(x: Missing, m: Missing, a: Asked, log: seq<Asked>, nextId: nat, maxRetries: nat, now: nat)
    requires EntryOk(x, log, nextId, maxRetries) && a.id == m.id && a.time == now
    requires EntryOk(m, log, nextId, maxRetries) && m.count < maxRetries && (m.count > 0 ==> now >= m.last)
    ensures x.id != m.id ==> EntryOk(x, log + [a], nextId, maxRetries)
    ensures EntryOk(m.(last := now, count := m.count + 1), log + [a], nextId, maxRetries)
  {
    CountAppend(log, a, x.id);
    CountAppend(log, a, m.id);
    forall i | 0 <= i < |log| && log[i].id == m.id ensures log[i].time <= now {
      SomeCount(log, i);
    }
    hide CountOf;
  }

  /** The entry is asked for now. */
  predicate Asks(w: World, k: uint16, now: nat, batch: seq<uint16>) {
    k in w.s.pending && FateOf(w.s, w.s.pending[k], now).Due? && w.s.hasCallback && |batch| < w.s.config.maxBatch
  }

  lemma TickAsks(w: World, k: uint16, now: nat, batch: seq<uint16>)
    requires Paced(w) && Asks(w, k, now, batch)
    ensures Paced(TickOne(w, k, now, batch).0)
  {
    hide LogOk, Entries, FateOf;
    var m := w.s.pending[k];
    DueIsTimely(w.s, m, k, now);
    EntryOf(w, k);
    RequestLogOk(w.s, m, k, now, w.log);
    RequestEntries(w.s, k, now, w.log);
    AddedSize(w.s.pending, k, Request(w.s, k, now).pending[k]);
  }

  lemma TickKeeps(w: World, k: uint16, now: nat, batch: seq<uint16>)
    requires Paced(w) && !Asks(w, k, now, batch)
    ensures Paced(TickOne(w, k, now, batch).0)
  {
    hide Paced, FateOf;
    assert w.log + [] == w.log;
    FewerPaced(w, TickOne(w, k, now, batch).0);
  }

  lemma TickOnePaced(w: World, k: uint16, now: nat, batch: seq<uint16>)
    requires Paced(w)
    ensures Paced(TickOne(w, k, now, batch).0)
  {
    hide Paced, Asks, TickOne;
    if Asks(w, k, now, batch) {
      TickAsks(w, k, now, batch);
    } else {
      TickKeeps(w, k, now, batch);
    }
  }

  lemma EntryOf(w: World, k: uint16)
    requires Entries(w.s.pending, w.log, w.s.nextId, w.s.config.maxRetries) && k in w.s.pending
    ensures EntryOk(w.s.pending[k], w.log, w.s.nextId, w.s.config.maxRetries)
  {
  }

  lemma {:induction false} TickFromPaced(w: World, k: nat, now: nat, batch: seq<uint16>)
    requires Paced(w) && k <= 0x1_0000
    ensures Paced(TickFrom(w, k, now, batch).0)
    decreases 0x1_0000 - k
  {
    hide Paced, TickOne;
    if k < 0x1_0000 {
      TickOnePaced(w, k, now, batch);
      var (t, b) := TickOne(w, k, now, batch);
      TickFromPaced(t, k + 1, now, b);
    }
  }

  lemma ReceivePaced(w: World, k: uint16, now: nat, fec: bool)
    requires Paced(w)
    ensures Paced(Step(w, Received(k, now, fec)))
  {
    hide Paced, AddMissing;
    if w.s.initialized {
      var a := w.(s := Arrive(w.s, k, fec));
      FewerPaced(w, a);
      AddMissingPaced(a, Wire(w.s.newest + 1), k, now);
      var t := Step(w, Received(k, now, fec));
      if IsNewer(k, w.s.newest) && Wire(k - w.s.newest) <= w.s.config.maxGap {
        FewerPaced(w.(s := AddMissing(a.s, Wire(w.s.newest + 1), k, now)), t);
      } else {
        FewerPaced(a, t);
      }
    } else {
      FewerPaced(w, Step(w, Received(k, now, fec)));
    }
  }

  lemma StepPaced(w: World, e: Event)
    requires Paced(w)
    ensures Paced(Step(w, e))
  {
    hide Paced, TickFrom;
    match e
    case Received(k, now, fec) => ReceivePaced(w, k, now, fec);
    case Tick(now) => TickFromPaced(w, 0, now, []);
    case Rtt(ms) => FewerPaced(w, Step(w, e));
    case Clear(k) => FewerPaced(w, Step(w, e));
    case GiveUp => FewerPaced(w, Step(w, e));
    case Restart => FewerPaced(w, Step(w, e));
  }

  lemma {:induction false} RunPaced(w: World, events: seq<Event>)
    requires Paced(w)
    ensures Paced(Run(w, events))
    decreases |events|
  {
    hide Paced, Step;
    if events != [] {
      StepPaced(w, events[0]);
      RunPaced(Step(w, events[0]), events[1..]);
    }
  }

  lemma {:induction false} RunConfig(w: World, events: seq<Event>)
    ensures Run(w, events).s.config == w.s.config
    decreases |events|
  {
    hide Step;
    if events != [] {
      StepConfig(w, events[0]);
      RunConfig(Step(w, events[0]), events[1..]);
    }
  }

  lemma StepConfig(w: World, e: Event)
    ensures Step(w, e).s.config == w.s.config
  {
    hide TickFrom, AddMissing;
    match e
    case Received(k, now, fec) => AddMissingConfig(Arrive(w.s, k, fec), Wire(w.s.newest + 1), k, now);
    case Tick(now) => TickConfig(w, 0, now, []);
    case _ =>
  }

  lemma {:induction false} AddMissingConfig(s: State, begin: uint16, end: uint16, now: nat)
    ensures AddMissing(s, begin, end, now).config == s.config
    decreases Wire(end - begin)
  {
    if !(begin == end || |s.pending| >= s.config.maxList) {
      AddMissingConfig(AddOne(s, begin, now), Wire(begin + 1), end, now);
    }
  }

  lemma {:induction false} TickConfig(w: World, k: nat, now: nat, batch: seq<uint16>)
    requires k <= 0x1_0000
    ensures TickFrom(w, k, now, batch).0.s.config == w.s.config
    decreases 0x1_0000 - k
  {
    hide FateOf;
    if k < 0x1_0000 {
      var (t, b) := TickOne(w, k, now, batch);
      TickConfig(t, k + 1, now, b);
    }
  }

  /**
   In every run, no loss is asked for more than the retry limit, before the reorder wait,
   at or past the maximum age, when the answer cannot come in time, or sooner than the
   minimum interval after the request before; and the list stays within its limit.
   */
  lemma RequestsPaced(c: Config, hasCallback: bool, events: seq<Event>)
    ensures var w := Run(Fresh(c, hasCallback), events);
            LogOk(Normalize(c), w.log) && |w.s.pending| <= c.maxList
  {
    var f := Fresh(c, hasCallback);
    assert Paced(f);
    RunPaced(f, events);
    RunConfig(f, events);
  }

  // ---- accounting ----

  /** The caller is told of a recovery exactly when one is counted, and of a reordering likewise. */
  lemma ResultIsCounted(s: State, k: uint16, now: nat, fec: bool)
    ensures var r, t := ResultOf(s, k, now, fec), Receive(s, k, now, fec);
            && t.stats.recovered == s.stats.recovered + (if r.wasMissing && r.recoveredAfterNack then 1 else 0)
            && t.stats.reordered == s.stats.reordered + (if r.wasMissing && !r.recoveredAfterNack then 1 else 0)
            && (r.wasMissing ==> k in s.pending && k !in t.pending)
  {
    if s.initialized {
      var a := Arrive(s, k, fec);
      AddMissingCounts(a, Wire(s.newest + 1), k, now);
    }
    hide AddMissing;
  }

  /** A gap ends before the packet that revealed it. */
  lemma {:induction false} AddMissingCounts(s: State, begin: uint16, end: uint16, now: nat)
    ensures var t := AddMissing(s, begin, end, now);
            && t.stats.recovered == s.stats.recovered && t.stats.reordered == s.stats.reordered
            && (end in t.pending <==> end in s.pending)
    decreases Wire(end - begin)
  {
    if !(begin == end || |s.pending| >= s.config.maxList) {
      AddMissingCounts(AddOne(s, begin, now), Wire(begin + 1), end, now);
    }
  }

  /** Every counted loss is pending, arrived, was given up, or was dropped without a count. */
  predicate Balanced(w: World) {
    var st := w.s.stats;
    w.dropped >= 0 && st.missing == |w.s.pending| + st.reordered + st.recovered + st.abandoned + w.dropped
  }

  lemma ArriveBalanced(w: World, k: uint16, fec: bool)
    requires Balanced(w)
    ensures Balanced(w.(s := Arrive(w.s, k, fec)))
  {
    if k in w.s.pending {
      RemovedSize(w.s.pending, k);
    }
  }

  lemma {:induction false} AddMissingBalanced(w: World, begin: uint16, end: uint16, now: nat)
    requires Balanced(w)
    ensures Balanced(w.(s := AddMissing(w.s, begin, end, now)))
    decreases Wire(end - begin)
  {
    if !(begin == end || |w.s.pending| >= w.s.config.maxList) {
      if begin !in w.s.pending {
        AddedSize(w.s.pending, begin, Missing(now, 0, 0, w.s.nextId));
      }
      AddMissingBalanced(w.(s := AddOne(w.s, begin, now)), Wire(begin + 1), end, now);
    }
  }

  lemma ReceiveBalanced(w: World, k: uint16, now: nat, fec: bool)
    requires Balanced(w)
    ensures Balanced(Step(w, Received(k, now, fec)))
  {
    ArriveBalanced(w, k, fec);
    AddMissingBalanced(w.(s := Arrive(w.s, k, fec)), Wire(w.s.newest + 1), k, now);
    hide AddMissing, Arrive, IsNewer;
  }

  lemma TickOneBalanced(w: World, k: uint16, now: nat, batch: seq<uint16>)
    requires Balanced(w)
    ensures Balanced(TickOne(w, k, now, batch).0)
  {
    if k in w.s.pending {
      var m := w.s.pending[k];
      RemovedSize(w.s.pending, k);
      AddedSize(w.s.pending, k, m.(last := now, count := m.count + 1));
      hide Hopeless, RetryDue;
    }
  }

  lemma {:induction false} TickFromBalanced(w: World, k: nat, now: nat, batch: seq<uint16>)
    requires Balanced(w) && k <= 0x1_0000
    ensures Balanced(TickFrom(w, k, now, batch).0)
    decreases 0x1_0000 - k
  {
    hide Balanced, TickOne;
    if k < 0x1_0000 {
      TickOneBalanced(w, k, now, batch);
      var (t, b) := TickOne(w, k, now, batch);
      TickFromBalanced(t, k + 1, now, b);
    }
  }

  lemma StepBalanced(w: World, e: Event)
    requires Balanced(w)
    ensures Balanced(Step(w, e))
  {
    hide TickFrom, Receive;
    match e
    case Received(k, now, fec) => ReceiveBalanced(w, k, now, fec);
    case Tick(now) => TickFromBalanced(w, 0, now, []);
    case Clear(k) =>
      assert ClearUpTo(w.s, k).pending.Keys <= w.s.pending.Keys;
      FewerKeys(ClearUpTo(w.s, k).pending, w.s.pending);
    case _ =>
  }

  lemma {:induction false} RunBalanced(w: World, events: seq<Event>)
    requires Balanced(w)
    ensures Balanced(Run(w, events))
    decreases |events|
  {
    hide Balanced, Step;
    if events != [] {
      StepBalanced(w, events[0]);
      RunBalanced(Step(w, events[0]), events[1..]);
    }
  }

  /** The losses were all noticed by now. */
  predicate Noticed(s: State, clock: nat) {
    forall k :: k in s.pending ==> s.pending[k].first <= clock
  }

  /** A clock that does not go back, no clearing, and no packet so far ahead that losses are forgotten. */
  predicate Regular(w: World, clock: nat, e: Event) {
    match e
    case Received(k, now, fec) => clock <= now && Forgotten(w.s, k, fec) == 0
    case Tick(now) => clock <= now
    case Clear(_) => false
    case _ => true
  }

  function ClockAfter(clock: nat, e: Event): nat {
    match e
    case Received(_, now, _) => now
    case Tick(now) => now
    case _ => clock
  }

  predicate RegularRun(w: World, clock: nat, events: seq<Event>)
    decreases |events|
  {
    events == [] || (Regular(w, clock, events[0]) &&
        RegularRun(Step(w, events[0]), ClockAfter(clock, events[0]), events[1..]))
  }

  lemma {:induction false} AddMissingNoticed(s: State, begin: uint16, end: uint16, now: nat)
    requires Noticed(s, now)
    ensures Noticed(AddMissing(s, begin, end, now), now)
    decreases Wire(end - begin)
  {
    if !(begin == end || |s.pending| >= s.config.maxList) {
      AddMissingNoticed(AddOne(s, begin, now), Wire(begin + 1), end, now);
    }
  }

  lemma {:induction false} TickNoticed(w: World, k: nat, now: nat, batch: seq<uint16>)
    requires Noticed(w.s, now) && k <= 0x1_0000
    ensures var t := TickFrom(w, k, now, batch).0; Noticed(t.s, now) && t.dropped == w.dropped
    decreases 0x1_0000 - k
  {
    hide Hopeless, RetryDue;
    if k < 0x1_0000 {
      var (t, b) := TickOne(w, k, now, batch);
      TickNoticed(t, k + 1, now, b);
    }
  }

  lemma RegularStep(w: World, clock: nat, e: Event)
    requires Noticed(w.s, clock) && Regular(w, clock, e) && w.dropped == 0
    ensures var t := Step(w, e); Noticed(t.s, ClockAfter(clock, e)) && t.dropped == 0
  {
    hide TickFrom, AddMissing;
    match e
    case Received(k, now, fec) => AddMissingNoticed(Arrive(w.s, k, fec), Wire(w.s.newest + 1), k, now);
    case Tick(now) => TickNoticed(w, 0, now, []);
    case _ =>
  }

  lemma {:induction false} RegularRunDropsNothing(w: World, clock: nat, events: seq<Event>)
    requires Noticed(w.s, clock) && RegularRun(w, clock, events) && w.dropped == 0
    ensures Run(w, events).dropped == 0
    decreases |events|
  {
    hide Noticed, Regular, Step;
    if events != [] {
      RegularStep(w, clock, events[0]);
      RegularRunDropsNothing(Step(w, events[0]), ClockAfter(clock, events[0]), events[1..]);
    }
  }

  /** In a regular run the losses counted are the pending, reordered, recovered and abandoned ones. */
  lemma LossesAddUp(c: Config, hasCallback: bool, clock: nat, events: seq<Event>)
    requires RegularRun(Fresh(c, hasCallback), clock, events)
    ensures var s := Run(Fresh(c, hasCallback), events).s;
            s.stats.missing == |s.pending| + s.stats.reordered + s.stats.recovered + s.stats.abandoned
  {
    var f := Fresh(c, hasCallback);
    RunBalanced(f, events);
    RegularRunDropsNothing(f, clock, events);
  }
}
