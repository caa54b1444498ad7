/**
 The NACK requester on values. The pending losses are kept in ascending order of their
 16-bit numbers, as the ordered map of the source does; each carries an identity, so
 that requests for one loss can be told from those for a later loss of the same number.
 */
module NackModel {
  import opened Basics

  datatype Config = Config(
    reorderWait: nat, retryInterval: nat, maxAge: nat, maxRetries: nat, maxList: nat,
    maxBatch: nat, maxGap: nat, minRetry: nat, maxRetry: nat)

  function Normalize(c: Config): Config {
    c.(maxBatch := Max(1, c.maxBatch), maxRetry := Max(c.minRetry, c.maxRetry))
  }

  datatype Missing = Missing(first: nat, last: nat, count: nat, id: nat)

  datatype Stats = Stats(missing: nat, reordered: nat, recovered: nat, requests: nat, abandoned: nat, resets: nat)

  const NO_STATS := Stats(0, 0, 0, 0, 0, 0)

  datatype State = State(
    config: Config, hasCallback: bool, initialized: bool, newest: uint16, pending: map<uint16, Missing>,
    rtt: nat, stats: Stats, nextId: nat)

  function NewState(c: Config, hasCallback: bool): State {
    State(Normalize(c), hasCallback, false, 0, map[], 0, NO_STATS, 0)
  }

  predicate IsNewer(seqNo: uint16, reference: uint16) {
    seqNo != reference && Wire(seqNo - reference) < 0x8000
  }

  // ---- receiving ----

  function Remove(s: State, k: uint16): State {
    s.(pending := s.pending - {k})
  }

  /** A pending loss that arrives: recovered if it was requested or rebuilt, reordered otherwise. */
  function Arrive(s: State, k: uint16, fec: bool): State {
    if k !in s.pending then s
    else if s.pending[k].count > 0 || fec then Remove(s, k).(stats := s.stats.(recovered := s.stats.recovered + 1))
    else Remove(s, k).(stats := s.stats.(reordered := s.stats.reordered + 1))
  }

  /** What OnReceivedPacket tells its caller about the number. */
  datatype PacketResult = PacketResult(wasMissing: bool, recoveredAfterNack: bool, timesNacked: nat, recoveryTime: nat)

  const NOT_MISSING := PacketResult(false, false, 0, 0)

  function ResultOf(s: State, k: uint16, now: nat, fec: bool): PacketResult {
    if !s.initialized || k !in s.pending then NOT_MISSING
    else
      var m := s.pending[k];
      PacketResult(true, m.count > 0 || fec, m.count, if now >= m.first then now - m.first else 0)
  }

  function AddOne(s: State, k: uint16, now: nat): State {
    if k in s.pending then s
    else s.(pending := s.pending[k := Missing(now, 0, 0, s.nextId)], nextId := s.nextId + 1,
            stats := s.stats.(missing := s.stats.missing + 1))
  }

  /** AddMissingPackets: from begin up to end, until the list is full. */
  function AddMissing(s: State, begin: uint16, end: uint16, now: nat): State
    decreases Wire(end - begin)
  {
    if begin == end || |s.pending| >= s.config.maxList then s
    else AddMissing(AddOne(s, begin, now), Wire(begin + 1), end, now)
  }

  function Receive(s: State, k: uint16, now: nat, fec: bool): State {
    if !s.initialized then s.(initialized := true, newest := k)
    else
      var a := Arrive(s, k, fec);
      if !IsNewer(k, s.newest) then a
      else if Wire(k - s.newest) > s.config.maxGap then
        a.(pending := map[], newest := k, stats := a.stats.(resets := a.stats.resets + 1))
      else AddMissing(a, Wire(s.newest + 1), k, now).(newest := k)
  }

  // ---- requesting ----

  function RetryInterval(s: State): nat {
    var c := s.config;
    if s.rtt == 0 then Max(c.minRetry, Min(c.retryInterval, c.maxRetry)) else Max(c.minRetry, s.rtt)
  }

  predicate RetryDue(s: State, m: Missing, now: nat) {
    m.count == 0 || (now >= m.last && now - m.last >= RetryInterval(s))
  }

  predicate Hopeless(s: State, m: Missing, now: nat)
    requires now >= m.first
  {
    var age := now - m.first;
    || age >= s.config.maxAge
    || (m.count >= s.config.maxRetries && RetryDue(s, m, now))
    || (RetryDue(s, m, now) && s.rtt != 0 && s.rtt >= s.config.maxAge - age)
  }

  datatype Fate = Backwards | Abandoned | Waiting | Due

  function FateOf(s: State, m: Missing, now: nat): Fate {
    if now < m.first then Backwards
    else if Hopeless(s, m, now) then Abandoned
    else if now - m.first < s.config.reorderWait || !RetryDue(s, m, now) then Waiting
    else Due
  }

  function Abandon(s: State, k: uint16): State {
    Remove(s, k).(stats := s.stats.(abandoned := s.stats.abandoned + 1))
  }

  function Request(s: State, k: uint16, now: nat): State
    requires k in s.pending
  {
    var m := s.pending[k];
    s.(pending := s.pending[k := m.(last := now, count := m.count + 1)],
        stats := s.stats.(requests := s.stats.requests + 1))
  }

  /** What Process does with one entry; `batch` holds the numbers requested so far. */
  function ProcessOne(s: State, k: uint16, now: nat, batch: seq<uint16>): (State, seq<uint16>) {
    if k !in s.pending then (s, batch)
    else
      match FateOf(s, s.pending[k], now)
      case Backwards => (Remove(s, k), batch)
      case Abandoned => (Abandon(s, k), batch)
      case Waiting => (s, batch)
      case Due => if s.hasCallback && |batch| < s.config.maxBatch then (Request(s, k, now), batch + [k]) else (s, batch)
  }

  function ProcessFrom(s: State, k: nat, now: nat, batch: seq<uint16>): (State, seq<uint16>)
    requires k <= 0x1_0000
    decreases 0x1_0000 - k
  {
    if k == 0x1_0000 then (s, batch)
    else
      var (t, b) := ProcessOne(s, k, now, batch);
      ProcessFrom(t, k + 1, now, b)
  }

  function Process(s: State, now: nat): (State, seq<uint16>) {
    ProcessFrom(s, 0, now, [])
  }

  // ---- the other calls ----

  function ClearUpTo(s: State, k: uint16): State {
    s.(pending := map x | x in s.pending && IsNewer(x, k) :: s.pending[x])
  }

  function AbandonPending(s: State): State {
    s.(pending := map[], stats := s.stats.(abandoned := s.stats.abandoned + |s.pending|))
  }

  function Reset(s: State): State {
    s.(initialized := false, newest := 0, rtt := 0, pending := map[], stats := NO_STATS)
  }
}
