/** The memory pool's guarantees, for every interleaving of its steps. */
module PoolTheorems {
  import opened Basics
  import opened SizeClasses
  import opened PoolModel
  import opened PoolSafety
  import opened PoolAccounting
  import opened PoolRuns
  import opened PoolOperations

  // ---- leases never overlap ----

  function PayloadStart(p: Pool, block: Block): nat
    requires block.slab in p.slabs
  {
    block.slab + SLAB + Times(block.index, p.slabs[block.slab].stride) + HEADER
  }

  function PayloadEnd(p: Pool, block: Block): nat
    requires block.slab in p.slabs
  {
    PayloadStart(p, block) + p.slabs[block.slab].capacity
  }

  lemma StrideHolds(capacity: nat)
    ensures HEADER + capacity <= Stride(capacity) < HEADER + capacity + ALIGN && Stride(capacity) % ALIGN == 0
  {
  }

  lemma TimesMonotone(i: nat, j: nat, x: nat)
    requires i < j
    ensures Times(i, x) + x <= Times(j, x)
  {
    Scale(i + 1, j, x);
  }

  /** A payload lies inside its slab and is large enough for its request. */
  lemma PayloadInside(p: Pool, block: Block)
    requires Owned(p) && Leased(p, block)
    ensures block.slab + SLAB + HEADER <= PayloadStart(p, block)
    ensures PayloadEnd(p, block) <= block.slab + p.slabs[block.slab].bytes
    ensures p.slabs[block.slab].requests[block.index] <= p.slabs[block.slab].capacity
  {
    var s := p.slabs[block.slab];
    assert SlabOk(s);
    TimesMonotone(block.index, s.count, s.stride);
    StrideHolds(s.capacity);
  }

  /** Two leases never share a byte. */
  lemma LeasesDisjoint(p: Pool, x: Block, y: Block)
    requires Inv(p) && Leased(p, x) && Leased(p, y) && x != y
    ensures PayloadEnd(p, x) <= PayloadStart(p, y) || PayloadEnd(p, y) <= PayloadStart(p, x)
  {
    hide Listed, Counted, LargeBusy;
    PayloadInside(p, x);
    PayloadInside(p, y);
    if x.slab == y.slab {
      var s := p.slabs[x.slab];
      assert SlabOk(s);
      StrideHolds(s.capacity);
      hide Owned, Apart;
      if x.index < y.index {
        TimesMonotone(x.index, y.index, s.stride);
      } else {
        TimesMonotone(y.index, x.index, s.stride);
      }
    } else {
      hide Owned, PayloadStart;
      assert ApartFrom(x.slab, p.slabs[x.slab].bytes, y.slab, p.slabs[y.slab].bytes);
    }
  }

  // ---- every interleaving ----

  /**
   One critical section, together with what its thread does to its own lists around it:
   any order of these, by any threads, is a run.
   */
  datatype Step =
    | FetchStep(k: Key, count: nat, mem: Option<nat>)
    | ActivateStep(k: Key, size: nat)
    | FlushStep(k: Key)
    | TrimStep
    | ReleaseStep(block: Block)
    | LargeStep(size: nat, mem: Option<nat>)
    | LimitsStep(maxCommitted: nat, maxCached: nat)

  /** Malloc answers with memory the pool does not hold. */
  predicate Honest(p: Pool, k: Key, count: nat, mem: Option<nat>)
    requires |p.lists| == LARGE + 1
  {
    NoFree(p, k.classIndex) ==> FreshAnswer(p, ClassSize(k.classIndex), count, mem)
  }

  /** What the callers respect: a thread activates the head of its own list, a holder releases its lease. */
  predicate Allowed(p: Pool, st: Step) {
    && |p.lists| == LARGE + 1
    && match st
       case FetchStep(k, count, mem) => k.classIndex < LARGE && count >= 1 && Honest(p, k, count, mem)
       case ActivateStep(k, size) => CacheOf(p, k) != [] && CacheOf(p, k)[0].slab in p.slabs && k.classIndex < LARGE &&
           size <= ClassSize(k.classIndex)
       case FlushStep(_) => true
       case TrimStep => true
       case ReleaseStep(block) => Leased(p, block)
       case LargeStep(size, mem) => FreshAnswer(p, size, 1, mem)
       case LimitsStep(_, _) => true
  }

  function Apply(p: Pool, st: Step): Pool
    requires Allowed(p, st)
  {
    match st
    case FetchStep(k, count, mem) => Fetch(p, k, count, mem)
    case ActivateStep(k, size) => Activate(p, k, size)
    case FlushStep(k) => FlushList(p, k)
    case TrimStep => TrimLocked(p, true)
    case ReleaseStep(block) => Release(p, block)
    case LargeStep(size, mem) => AllocateLarge(p, size, mem).0
    case LimitsStep(maxCommitted, maxCached) => SetLimits(p, maxCommitted, maxCached).0
  }

  lemma StepKeeps(p: Pool, st: Step)
    requires Inv(p) && Allowed(p, st)
    ensures Inv(Apply(p, st))
  {
    hide Inv, Idle, FreshAnswer, NoFree, TrimLocked;
    match st
    case FetchStep(k, count, mem) => FetchKeeps(p, k, count, mem);
    case ActivateStep(k, size) => ActivateInv(p, k, size);
    case FlushStep(k) => FlushListKeeps(p, k);
    case TrimStep => TrimKeeps(p, true);
    case ReleaseStep(block) => ReleaseKeeps(p, block);
    case LargeStep(size, mem) => AllocateLargeKeeps(p, size, mem);
    case LimitsStep(maxCommitted, maxCached) => SetLimitsKeeps(p, maxCommitted, maxCached);
  }

  predicate Reaches(p: Pool, steps: seq<Step>, q: Pool)
    decreases |steps|
  {
    if steps == [] then q == p
    else Allowed(p, steps[0]) && Reaches(Apply(p, steps[0]), steps[1..], q)
  }

  lemma {:induction false} RunKeeps(p: Pool, steps: seq<Step>, q: Pool)
    requires Inv(p) && Reaches(p, steps, q)
    ensures Inv(q)
    decreases |steps|
  {
    hide Inv, Allowed, Apply;
    if steps != [] {
      StepKeeps(p, steps[0]);
      RunKeeps(Apply(p, steps[0]), steps[1..], q);
    }
  }

  lemma EmptySum(f: Slab -> nat)
    ensures SumOf(map[], f) == 0
  {
    assert MapOf(map[], f) == map[];
    Sums.SumEmpty<nat>();
  }

  lemma NewPoolCounted(maxCommitted: nat, maxCached: nat)
    ensures Counted(NewPool(maxCommitted, maxCached))
  {
    hide SumOf;
    EmptySum(BYTES);
    EmptySum(RESERVED);
    EmptySum(CAPACITY);
    EmptySum(LIVE);
    EmptySum(IN_USE);
  }

  lemma NewPoolInv(maxCommitted: nat, maxCached: nat)
    ensures Inv(NewPool(maxCommitted, maxCached))
  {
    NewPoolCounted(maxCommitted, maxCached);
    hide Counted;
  }

  /** No unsigned counter, and no difference the code forms of them, is negative. */
  predicate NothingUnderflows(p: Pool) {
    && 0 <= p.stats.inUseBytes <= p.stats.inUseCapacity <= p.stats.inUseReserved <= p.stats.committed <= p.maxCommitted
    && 0 <= p.stats.live && 0 <= p.stats.slabCount
  }

  lemma SumOfMonotone(slabs: map<nat, Slab>, f: Slab -> nat, g: Slab -> nat)
    requires forall b :: b in slabs ==> f(slabs[b]) <= g(slabs[b])
    ensures SumOf(slabs, f) <= SumOf(slabs, g)
  {
    assert MapOf(slabs, f).Keys == MapOf(slabs, g).Keys;
    Sums.SumMonotone(MapOf(slabs, f), MapOf(slabs, g));
  }

  lemma {:induction false} RequestsWithin(requests: map<nat, nat>, capacity: nat)
    requires forall i :: i in requests ==> requests[i] <= capacity
    ensures Sums.Sum(requests) <= Times(|requests|, capacity)
    decreases |requests|
  {
    if requests.Keys == {} {
      assert requests == map[];
      Sums.SumEmpty<nat>();
    } else {
      var i := Pick(requests.Keys);
      Sums.SumRemove(requests, i);
      RemovedSize(requests, i);
      RequestsWithin(requests - {i}, capacity);
      OneMore(|requests - {i}|, capacity);
    }
  }

  lemma TimesWider(n: nat, x: nat, y: nat)
    requires x <= y
    ensures Times(n, x) <= Times(n, y)
  {
    assert n * x <= n * y;
  }

  lemma CapacityWithinReserved(s: Slab)
    requires SlabOk(s)
    ensures IN_USE(s) <= CAPACITY(s) <= RESERVED(s)
  {
    hide Times, Stride, Sums.Sum;
    RequestsWithin(s.requests, s.capacity);
    StrideHolds(s.capacity);
    hide SlabOk;
    TimesWider(|s.requests|, s.capacity, s.stride);
  }

  lemma CountersSound(p: Pool)
    requires Inv(p)
    ensures NothingUnderflows(p)
  {
    hide Listed, Apart, LargeBusy, SumOf;
    ReservedWithinCommitted(p);
    forall b | b in p.slabs ensures IN_USE(p.slabs[b]) <= CAPACITY(p.slabs[b]) <= RESERVED(p.slabs[b]) {
      CapacityWithinReserved(p.slabs[b]);
    }
    hide Owned;
    SumOfMonotone(p.slabs, IN_USE, CAPACITY);
    SumOfMonotone(p.slabs, CAPACITY, RESERVED);
  }

  ghost predicate NoOverlap(q: Pool) {
    forall x, y :: Leased(q, x) && Leased(q, y) && x != y ==>
      PayloadEnd(q, x) <= PayloadStart(q, y) || PayloadEnd(q, y) <= PayloadStart(q, x)
  }

  lemma InvNoOverlap(q: Pool)
    requires Inv(q)
    ensures NoOverlap(q)
  {
    hide Inv, PayloadStart, PayloadEnd;
    forall x, y | Leased(q, x) && Leased(q, y) && x != y
      ensures PayloadEnd(q, x) <= PayloadStart(q, y) || PayloadEnd(q, y) <= PayloadStart(q, x)
    {
      LeasesDisjoint(q, x, y);
    }
  }

  /**
   In every run, every block of every slab is free, cached by one thread under its own
   class, or leased, and never two of these; the committed bytes are the sum of the slab
   sizes, within the limit; no counter underflows; and leases never overlap.
   */
  lemma PoolAlwaysSound(maxCommitted: nat, maxCached: nat, steps: seq<Step>, q: Pool)
    requires Reaches(NewPool(maxCommitted, maxCached), steps, q)
    ensures Partitioned(q) && Held(q)
    ensures q.stats.committed == SumOf(q.slabs, BYTES) <= q.maxCommitted
    ensures NothingUnderflows(q) && NoOverlap(q)
  {
    hide NothingUnderflows, NoOverlap, SumOf, Partitioned, Held, Shaped, Listed, Apart, LargeBusy, NewPool, Reaches;
    NewPoolInv(maxCommitted, maxCached);
    RunKeeps(NewPool(maxCommitted, maxCached), steps, q);
    CountersSound(q);
    InvNoOverlap(q);
  }

  // ---- a slab is freed only when none of its blocks is out ----

  predicate Out(p: Pool, block: Block) {
    block in p.holder || Leased(p, block)
  }

  /** The blocks that a step gives back to their slabs. */
  function GivenBack(p: Pool, st: Step): set<Block> {
    match st
    case FlushStep(k) => set j | 0 <= j < |CacheOf(p, k)| :: CacheOf(p, k)[j]
    case ReleaseStep(block) => {block}
    case _ => {}
  }

  /** Every block of slab b that is out is among `back`. */
  ghost predicate OnlyOut(p: Pool, b: nat, back: set<Block>) {
    forall x :: Out(p, x) && x.slab == b ==> x in back
  }

  lemma ThinnedWasIdle(p: Pool, q: Pool, b: nat)
    requires Owned(p) && Thinner(p, q) && b in p.slabs && b !in q.slabs
    ensures OnlyOut(p, b, {})
  {
    IdleHasNothingOut(p, b);
  }

  lemma {:induction false} TakeManyKeepsSlabs(p: Pool, b: nat, k: Key, n: nat)
    ensures TakeMany(p, b, k, n).slabs.Keys == p.slabs.Keys
    decreases n
  {
    if !(n == 0 || b !in p.slabs || p.slabs[b].free == []) {
      TakeManyKeepsSlabs(TakeFree(p, b, k), b, k, n - 1);
      assert TakeFree(p, b, k).slabs.Keys == p.slabs.Keys;
    }
  }

  lemma AllocateFreesIdle(p: Pool, capacity: nat, count: nat, c: nat, mem: Option<nat>, b: nat)
    requires Inv(p) && |p.lists| == LARGE + 1 && c <= LARGE
    requires b in p.slabs && b !in AllocateSlab(p, capacity, count, c, mem).0.slabs
    ensures OnlyOut(p, b, {})
  {
    hide Listed, Apart, Counted, LargeBusy, Idle, OnlyOut, NewSlab, Owned, MakeRoom;
    if Representable(capacity) {
      MakeRoomKeeps(p, capacity);
      ThinnedWasIdle(p, MakeRoom(p, capacity), b);
    } else {
      assert false;
    }
  }

  lemma {:induction false} ReturnAllGives(p: Pool, k: Key)
    requires Inv(p)
    ensures var m := ReturnAll(p, k);
            m.slabs.Keys == p.slabs.Keys && forall x :: Out(p, x) && x !in CacheOf(p, k) ==> Out(m, x)
    decreases |CacheOf(p, k)|
  {
    hide Inv;
    if CacheOf(p, k) != [] {
      ReturnHeadInv(p, k);
      var h := ReturnHead(p, k);
      ReturnAllGives(h, k);
      var list := CacheOf(p, k);
      assert h.slabs.Keys == p.slabs.Keys;
      assert CacheOf(h, k) == list[1..];
      assert list == [list[0]] + list[1..];
      forall x | Out(p, x) && x !in list ensures Out(h, x) && x !in CacheOf(h, k) {
        OutAfterReturn(p, k, x);
      }
    }
  }

  lemma OutAfterReturn(p: Pool, k: Key, x: Block)
    requires CacheOf(p, k) != [] && CacheOf(p, k)[0].slab in p.slabs && Out(p, x) && x != CacheOf(p, k)[0]
    ensures Out(ReturnHead(p, k), x)
  {
  }

  lemma FlushFreesIdle(p: Pool, k: Key, b: nat)
    requires Inv(p) && |p.lists| == LARGE + 1 && b in p.slabs && b !in FlushList(p, k).slabs
    ensures OnlyOut(p, b, GivenBack(p, FlushStep(k)))
  {
    hide Listed, Apart, Counted, LargeBusy, Idle, Thinner, Owned, TrimLocked;
    ReturnAllGives(p, k);
    ReturnAllKeeps(p, k);
    var m := ReturnAll(p, k);
    TrimKeeps(m, false);
    assert b in m.slabs.Keys;
    ThinnedWasIdle(m, TrimLocked(m, false), b);
    hide Out, ReturnAll;
    forall x | Out(p, x) && x.slab == b ensures x in GivenBack(p, FlushStep(k)) {
      assert x in CacheOf(p, k);
    }
  }

  lemma OutAfterRelease(p: Pool, block: Block, x: Block)
    requires Leased(p, block) && Out(p, x) && x != block
    ensures Out(Deactivate(p, block), x)
  {
  }

  lemma OnlyReleased(p: Pool, block: Block, b: nat)
    requires Leased(p, block) && OnlyOut(Deactivate(p, block), b, {})
    ensures OnlyOut(p, b, {block})
  {
    hide Out, Deactivate;
    forall x | Out(p, x) && x.slab == b ensures x in {block} {
      if x != block {
        OutAfterRelease(p, block, x);
        assert false;
      }
    }
  }

  lemma DeactivateKeepsSlabs(p: Pool, block: Block)
    requires Leased(p, block)
    ensures Deactivate(p, block).slabs.Keys == p.slabs.Keys
  {
  }

  lemma LargeReleaseFrees(p: Pool, block: Block, b: nat)
    requires Inv(p) && |p.lists| == LARGE + 1 && Leased(p, block) && p.slabs[block.slab].classIndex == LARGE
    requires b in p.slabs && b !in Release(p, block).slabs
    ensures OnlyOut(Deactivate(p, block), b, {})
  {
    hide Owned, Listed, Apart, Counted, LargeBusy, LargeBusyBut, Deactivate, Idle, OnlyOut;
    LargeListed(p, block);
    DeactivateCore(p, block);
    DeactivateKeepsSlabs(p, block);
    LargeReleaseIdles(p, block);
    var q := Deactivate(p, block);
    assert b in q.slabs.Keys;
    assert b == block.slab;
    IdleNothingOut(q, b);
  }

  lemma PooledReleaseFrees(p: Pool, block: Block, b: nat)
    requires Inv(p) && |p.lists| == LARGE + 1 && Leased(p, block) && p.slabs[block.slab].classIndex != LARGE
    requires b in p.slabs && b !in Release(p, block).slabs
    ensures OnlyOut(Deactivate(p, block), b, {})
  {
    hide Owned, Listed, Apart, Counted, LargeBusy, TrimLocked, Deactivate, Thinner, OnlyOut, Idle;
    LargeListed(p, block);
    DeactivateCore(p, block);
    DeactivateKeepsSlabs(p, block);
    DeactivateBusy(p, block);
    var q := Deactivate(p, block);
    assert b in q.slabs.Keys;
    TrimKeeps(q, false);
    ThinnedWasIdle(q, TrimLocked(q, false), b);
  }

  lemma ReleaseFreesIdle(p: Pool, block: Block, b: nat)
    requires Inv(p) && |p.lists| == LARGE + 1 && Leased(p, block) && b in p.slabs && b !in Release(p, block).slabs
    ensures OnlyOut(p, b, {block})
  {
    hide Inv, Release, Deactivate, OnlyOut;
    if p.slabs[block.slab].classIndex == LARGE {
      LargeReleaseFrees(p, block, b);
    } else {
      PooledReleaseFrees(p, block, b);
    }
    OnlyReleased(p, block, b);
  }

  lemma IdleNothingOut(q: Pool, b: nat)
    requires Owned(q) && b in q.slabs && Idle(q.slabs[b])
    ensures OnlyOut(q, b, {})
  {
    IdleHasNothingOut(q, b);
  }

  /** Whatever step frees a slab, the blocks of that slab that were out are the ones the step itself gave back. */
  lemma FreedOnlyWhenNothingOut(p: Pool, st: Step, b: nat)
    requires Inv(p) && Allowed(p, st) && b in p.slabs && b !in Apply(p, st).slabs
    ensures OnlyOut(p, b, GivenBack(p, st))
  {
    hide Core, LargeBusy, Idle, OnlyOut, Thinner, TrimLocked, AllocateSlab, TakeMany, Release, FlushList;
    match st
    case FetchStep(k, count, mem) => FetchFreesIdle(p, k, count, mem, b);
    case ActivateStep(k, size) =>
    case FlushStep(k) => FlushFreesIdle(p, k, b);
    case TrimStep => TrimFreesIdle(p, b);
    case ReleaseStep(block) => ReleaseFreesIdle(p, block, b);
    case LargeStep(size, mem) => LargeFreesIdle(p, size, mem, b);
    case LimitsStep(_, _) => TrimFreesIdle(p, b);
  }

  lemma TrimFreesIdle(p: Pool, b: nat)
    requires Inv(p) && |p.lists| == LARGE + 1 && b in p.slabs && b !in TrimLocked(p, true).slabs
    ensures OnlyOut(p, b, {})
  {
    hide Owned, Listed, Apart, Counted, LargeBusy, Idle, OnlyOut, Thinner, TrimLocked;
    TrimKeeps(p, true);
    ThinnedWasIdle(p, TrimLocked(p, true), b);
  }

  lemma FetchFreesIdle(p: Pool, k: Key, count: nat, mem: Option<nat>, b: nat)
    requires Inv(p) && |p.lists| == LARGE + 1 && k.classIndex < LARGE && b in p.slabs &&
             b !in Fetch(p, k, count, mem).slabs
    ensures OnlyOut(p, b, {})
  {
    hide Inv, OnlyOut, AllocateSlab, TakeMany, FirstFree;
    assert b in p.slabs.Keys;
    match FirstFree(p, p.lists[k.classIndex])
    case Some(x) =>
      TakeManyKeepsSlabs(p, x, k, count);
    case None =>
      var (q, x) := AllocateSlab(p, ClassSize(k.classIndex), count, k.classIndex, mem);
      if x.Some? {
        TakeManyKeepsSlabs(q, x.value, k, count);
        assert b !in TakeMany(q, x.value, k, count).slabs.Keys;
      }
      assert b !in q.slabs;
      AllocateFreesIdle(p, ClassSize(k.classIndex), count, k.classIndex, mem, b);
  }

  lemma LargeFreesIdle(p: Pool, size: nat, mem: Option<nat>, b: nat)
    requires Inv(p) && |p.lists| == LARGE + 1 && b in p.slabs && b !in AllocateLarge(p, size, mem).0.slabs
    ensures OnlyOut(p, b, {})
  {
    hide Inv, OnlyOut, AllocateSlab;
    AllocateFreesIdle(p, size, 1, LARGE, mem, b);
  }
}
