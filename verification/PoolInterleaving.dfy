/**
 One allocation while other threads use the pool. The lock is released between the steps
 of an allocation, so any steps of other threads may come in between.
 */
module PoolInterleaving {
  import opened Basics
  import opened SizeClasses
  import opened PoolModel
  import opened PoolAccounting
  import opened PoolRuns
  import opened PoolOperations
  import opened PoolTheorems
  import opened PoolAllocation

  // ---- the model ----

  /** A step of another thread; releases, trims and new limits may come from anyone. */
  predicate Foreign(st: Step, thread: nat) {
    match st
    case FetchStep(k, _, _) => k.thread != thread
    case ActivateStep(k, _) => k.thread != thread
    case FlushStep(k) => k.thread != thread
    case _ => true
  }

  /** Where an allocation stands; once done, with the pool at the time of its last step. */
  datatype Phase =
    | Asking
    | Flushing(c: nat)
    | AskingAgain
    | Taking
    | Done(block: Option<Block>, at: Pool, answered: bool)

  datatype Attempt = Attempt(p: Pool, phase: Phase)

  /** The allocating thread moves on, with the system allocator's answer, or another thread does something. */
  datatype Move = Own(mem: Option<nat>) | Other(st: Step)

  function KeyFor(thread: nat, size: nat): Key {
    Key(thread, ClassOf(size))
  }

  function Begin(p: Pool, size: nat): Attempt {
    Attempt(p, if size == 0 then Done(None, p, true) else if size > MAX_POOLED then Flushing(0) else Asking)
  }

  /** The system allocator answers with memory the pool does not hold; the others keep to their leases. */
  predicate MayMove(a: Attempt, thread: nat, size: nat, m: Move) {
    && |a.p.lists| == LARGE + 1
    && match m
       case Other(st) => Foreign(st, thread) && Allowed(a.p, st)
       case Own(mem) =>
         match a.phase
         case Asking => CacheOf(a.p, KeyFor(thread, size)) == [] ==>
             Honest(a.p, KeyFor(thread, size), BatchCount(ClassOf(size)), mem)
         case Flushing(c) => c >= NUM_CLASSES && size > MAX_POOLED ==> FreshAnswer(a.p, size, 1, mem)
         case AskingAgain => Honest(a.p, KeyFor(thread, size), 1, mem)
         case _ => true
  }

  function AfterFetch(q: Pool, k: Key, otherwise: Phase): Attempt {
    Attempt(q, if CacheOf(q, k) == [] then otherwise else Taking)
  }

  function Take(p: Pool, k: Key, size: nat): Attempt {
    if CacheOf(p, k) == [] || CacheOf(p, k)[0].slab !in p.slabs then Attempt(p, Done(None, p, false))
    else var q := Activate(p, k, size); Attempt(q, Done(Some(CacheOf(p, k)[0]), q, true))
  }

  function OwnMove(a: Attempt, thread: nat, size: nat, mem: Option<nat>): Attempt
    requires |a.p.lists| == LARGE + 1
  {
    var k := KeyFor(thread, size);
    match a.phase
    case Asking =>
      AfterFetch(if k.classIndex < LARGE then FetchInto(a.p, k, BatchCount(k.classIndex), mem) else a.p, k, Flushing(0))
    case Flushing(c) =>
      if c < NUM_CLASSES then Attempt(FlushList(a.p, Key(thread, c)), Flushing(c + 1))
      else if size > MAX_POOLED then
        var (q, block) := AllocateLarge(a.p, size, mem);
        Attempt(q, Done(block, q, mem.Some?))
      else Attempt(TrimLocked(a.p, true), AskingAgain)
    case AskingAgain =>
      var q := if k.classIndex < LARGE then Fetch(a.p, k, 1, mem) else a.p;
      AfterFetch(q, k, Done(None, q, mem.Some?))
    case Taking => Take(a.p, k, size)
    case Done(_, _, _) => a
  }

  function MoveOn(a: Attempt, thread: nat, size: nat, m: Move): Attempt
    requires MayMove(a, thread, size, m)
  {
    match m
    case Own(mem) => OwnMove(a, thread, size, mem)
    case Other(st) => a.(p := Apply(a.p, st))
  }

  predicate Interleaves(a: Attempt, thread: nat, size: nat, moves: seq<Move>, z: Attempt)
    decreases |moves|
  {
    if moves == [] then z == a
    else
      && MayMove(a, thread, size, moves[0])
      && Interleaves(MoveOn(a, thread, size, moves[0]), thread, size, moves[1..], z)
  }

  // ---- what the others cannot touch ----

  lemma {:induction false} TakeManyOthers(p: Pool, b: nat, k: Key, n: nat, x: Key)
    requires x != k
    ensures CacheOf(TakeMany(p, b, k, n), x) == CacheOf(p, x)
    decreases n
  {
    if !(n == 0 || b !in p.slabs || p.slabs[b].free == []) {
      TakeManyOthers(TakeFree(p, b, k), b, k, n - 1, x);
    }
  }

  lemma SlabKeepsCaches(p: Pool, capacity: nat, count: nat, c: nat, mem: Option<nat>)
    requires Inv(p) && |p.lists| == LARGE + 1 && c <= LARGE
    ensures AllocateSlab(p, capacity, count, c, mem).0.caches == p.caches
  {
    hide Inv, Idle, TrimLocked, Stride, Representable, NothingIdle;
    TrimKeeps(p, true);
  }

  lemma FetchOthers(p: Pool, k: Key, n: nat, mem: Option<nat>, x: Key)
    requires Inv(p) && |p.lists| == LARGE + 1 && k.classIndex < LARGE && x != k
    ensures CacheOf(Fetch(p, k, n, mem), x) == CacheOf(p, x)
  {
    hide Inv, FirstFree, TakeMany, AllocateSlab;
    SlabKeepsCaches(p, ClassSize(k.classIndex), n, k.classIndex, mem);
    match FirstFree(p, p.lists[k.classIndex])
    case Some(b) => TakeManyOthers(p, b, k, n, x);
    case None =>
      var (q, b) := AllocateSlab(p, ClassSize(k.classIndex), n, k.classIndex, mem);
      if b.Some? {
        TakeManyOthers(q, b.value, k, n, x);
      }
  }

  lemma ReleaseKeepsCaches(p: Pool, block: Block)
    requires Inv(p) && Leased(p, block) && |p.lists| == LARGE + 1
    ensures Release(p, block).caches == p.caches
  {
    LargeListed(p, block);
    DeactivateCore(p, block);
    if p.slabs[block.slab].classIndex != LARGE {
      DeactivateBusy(p, block);
      assert Deactivate(p, block).caches == p.caches;
      hide Core, LargeBusy, TrimLocked, Deactivate, Idle, NothingIdle;
      TrimKeeps(Deactivate(p, block), false);
    }
  }

  lemma LargeKeepsCaches(p: Pool, size: nat, mem: Option<nat>)
    requires Inv(p) && |p.lists| == LARGE + 1
    ensures AllocateLarge(p, size, mem).0.caches == p.caches
  {
    hide Inv, AllocateSlab;
    SlabKeepsCaches(p, size, 1, LARGE, mem);
  }

  /** No step of another thread changes this thread's lists. */
  lemma ForeignKeepsList(p: Pool, st: Step, thread: nat, x: Key)
    requires Inv(p) && Allowed(p, st) && Foreign(st, thread) && x.thread == thread
    ensures CacheOf(Apply(p, st), x) == CacheOf(p, x)
  {
    hide Inv, Fetch, FlushList, Release, AllocateLarge, TrimLocked, FreshAnswer, NoFree, Idle, NothingIdle;
    match st
    case FetchStep(k, count, mem) => FetchOthers(p, k, count, mem, x);
    case ActivateStep(k, size) =>
    case FlushStep(k) => FlushListOthers(p, k, x);
    case TrimStep => TrimKeeps(p, true);
    case ReleaseStep(block) => ReleaseKeepsCaches(p, block);
    case LargeStep(size, mem) => LargeKeepsCaches(p, size, mem);
    case LimitsStep(_, _) => TrimKeeps(p, true);
  }

  // ---- the invariant of an allocation ----

  predicate EmptyBelow(p: Pool, thread: nat, n: nat) {
    forall c :: 0 <= c < n ==> CacheOf(p, Key(thread, c)) == []
  }

  /** What an allocation promises when it ends. */
  predicate Outcome(thread: nat, size: nat, block: Option<Block>, at: Pool, answered: bool) {
    && (block.Some? ==> size > 0 && LeaseOf(at, block.value, size))
    && (block.None? && size > 0 && answered && Representable(size) ==>
          Exhausted(at, CapacityFor(size), ClassOf(size)) && NothingCached(at, thread))
  }

  predicate PhaseOk(a: Attempt, thread: nat, size: nat) {
    match a.phase
    case Asking => 0 < size <= MAX_POOLED
    case Flushing(c) => 0 < size && c <= NUM_CLASSES && EmptyBelow(a.p, thread, c)
    case AskingAgain => 0 < size <= MAX_POOLED && EmptyBelow(a.p, thread, NUM_CLASSES)
    case Taking => 0 < size <= MAX_POOLED && CacheOf(a.p, KeyFor(thread, size)) != []
    case Done(block, at, answered) => Outcome(thread, size, block, at, answered)
  }

  lemma OtherKeepsPhase(a: Attempt, thread: nat, size: nat, st: Step)
    requires Inv(a.p) && PhaseOk(a, thread, size) && Allowed(a.p, st) && Foreign(st, thread)
    ensures Inv(Apply(a.p, st)) && PhaseOk(a.(p := Apply(a.p, st)), thread, size)
  {
    hide Inv, Apply, Allowed, Outcome, CacheOf, Foreign;
    StepKeeps(a.p, st);
    forall x: Key | x.thread == thread ensures CacheOf(Apply(a.p, st), x) == CacheOf(a.p, x) {
      ForeignKeepsList(a.p, st, thread, x);
    }
  }

  lemma FlushMove(p: Pool, thread: nat, c: nat)
    requires Inv(p) && |p.lists| == LARGE + 1 && EmptyBelow(p, thread, c)
    ensures Inv(FlushList(p, Key(thread, c))) && EmptyBelow(FlushList(p, Key(thread, c)), thread, c + 1)
  {
    hide Inv, FlushList, CacheOf;
    FlushListKeeps(p, Key(thread, c));
    forall x | 0 <= x < c ensures CacheOf(FlushList(p, Key(thread, c)), Key(thread, x)) == [] {
      FlushListOthers(p, Key(thread, c), Key(thread, x));
    }
  }

  lemma TrimMove(p: Pool, thread: nat)
    requires Inv(p) && |p.lists| == LARGE + 1 && EmptyBelow(p, thread, NUM_CLASSES)
    ensures Inv(TrimLocked(p, true)) && EmptyBelow(TrimLocked(p, true), thread, NUM_CLASSES)
  {
    hide Inv, TrimLocked, Idle, NothingIdle;
    TrimKeeps(p, true);
  }

  lemma LargeMove(p: Pool, thread: nat, size: nat, mem: Option<nat>)
    requires Inv(p) && |p.lists| == LARGE + 1 && EmptyBelow(p, thread, NUM_CLASSES) && size > MAX_POOLED &&
             FreshAnswer(p, size, 1, mem)
    ensures var (q, block) := AllocateLarge(p, size, mem); Inv(q) && Outcome(thread, size, block, q, mem.Some?)
  {
    PooledHasClass(ClassOf(size), size);
    hide Inv, FreshAnswer, AllocateLarge, LeaseOf, Exhausted, Representable;
    AllocateLargeKeeps(p, size, mem);
    LargeCaches(p, size, mem);
  }

  lemma LastMove(p: Pool, thread: nat, size: nat, mem: Option<nat>)
    requires Inv(p) && |p.lists| == LARGE + 1 && EmptyBelow(p, thread, NUM_CLASSES) && 0 < size <= MAX_POOLED
    requires ClassOf(size) < LARGE && Honest(p, KeyFor(thread, size), 1, mem)
    ensures var q := Fetch(p, KeyFor(thread, size), 1, mem);
            Inv(q) && (CacheOf(q, KeyFor(thread, size)) == [] ==> Outcome(thread, size, None, q, mem.Some?))
  {
    hide Inv, Fetch, Honest, LeaseOf, Exhausted, Representable;
    LastFetch(p, KeyFor(thread, size), mem);
  }

  lemma ClassFits(size: nat)
    ensures size <= MAX_POOLED <==> ClassOf(size) < LARGE
    ensures size <= MAX_POOLED ==> size <= ClassSize(ClassOf(size))
  {
    PooledHasClass(ClassOf(size), size);
  }

  lemma TakeMove(p: Pool, thread: nat, size: nat)
    requires Inv(p) && 0 < size <= MAX_POOLED && CacheOf(p, KeyFor(thread, size)) != []
    ensures Inv(Take(p, KeyFor(thread, size), size).p) && PhaseOk(Take(p, KeyFor(thread, size), size), thread, size)
  {
    hide Inv, CacheOf, Activate, LeaseOf, Exhausted, Representable, NothingCached, CapacityFor, ClassOf, ClassSize,
         EmptyBelow;
    ClassFits(size);
    ActivateLeases(p, KeyFor(thread, size), size);
  }

  lemma OwnKeepsPhase(a: Attempt, thread: nat, size: nat, mem: Option<nat>)
    requires Inv(a.p) && PhaseOk(a, thread, size) && MayMove(a, thread, size, Own(mem))
    ensures Inv(OwnMove(a, thread, size, mem).p) && PhaseOk(OwnMove(a, thread, size, mem), thread, size)
  {
    hide Inv, CacheOf, FetchInto, Fetch, FlushList, AllocateLarge, TrimLocked, Honest, FreshAnswer, Outcome, Take,
         ClassOf, EmptyBelow;
    ClassFits(size);
    var k := KeyFor(thread, size);
    match a.phase
    case Asking =>
      FetchIntoKeeps(a.p, k, BatchCount(k.classIndex), mem);
      NoneBelow(FetchInto(a.p, k, BatchCount(k.classIndex), mem), thread);
    case Flushing(c) =>
      if c < NUM_CLASSES {
        FlushMove(a.p, thread, c);
      } else if size > MAX_POOLED {
        LargeMove(a.p, thread, size, mem);
      } else {
        TrimMove(a.p, thread);
      }
    case AskingAgain => LastMove(a.p, thread, size, mem);
    case Taking => TakeMove(a.p, thread, size);
    case Done(_, _, _) =>
  }

  lemma NoneBelow(p: Pool, thread: nat)
    ensures EmptyBelow(p, thread, 0)
  {
  }

  lemma {:induction false} InterleavingKeeps(a: Attempt, thread: nat, size: nat, moves: seq<Move>, z: Attempt)
    requires Inv(a.p) && PhaseOk(a, thread, size) && Interleaves(a, thread, size, moves, z)
    ensures Inv(z.p) && PhaseOk(z, thread, size)
    decreases |moves|
  {
    hide Inv, PhaseOk, OwnMove, Apply, Allowed, Foreign;
    if moves != [] {
      match moves[0] {
        case Own(mem) => OwnKeepsPhase(a, thread, size, mem);
        case Other(st) => OtherKeepsPhase(a, thread, size, st);
      }
      InterleavingKeeps(MoveOn(a, thread, size, moves[0]), thread, size, moves[1..], z);
    }
  }

  /**
   Whatever the other threads do between its steps, an allocation that ends has leased a
   block of the requested size, or has found, at its last step, the pool exhausted and its
   own lists empty, or the system allocator without memory.
   */
  lemma AllocationUnderInterleaving(p: Pool, thread: nat, size: nat, moves: seq<Move>, z: Attempt)
    requires Inv(p) && Interleaves(Begin(p, size), thread, size, moves, z)
    ensures Inv(z.p)
    ensures z.phase.Done? && z.phase.block.Some? ==> size > 0 && LeaseOf(z.phase.at, z.phase.block.value, size)
    ensures z.phase.Done? && z.phase.block.None? && size > 0 && z.phase.answered && Representable(size) ==>
              Exhausted(z.phase.at, CapacityFor(size), ClassOf(size)) && NothingCached(z.phase.at, thread)
  {
    hide Inv, Interleaves, Exhausted, Representable, LeaseOf;
    InterleavingKeeps(Begin(p, size), thread, size, moves, z);
  }

  // ---- a thread on its own ----

  ghost predicate CanReach(a: Attempt, thread: nat, size: nat, z: Attempt) {
    exists moves :: Interleaves(a, thread, size, moves, z)
  }

  lemma {:induction false} InterleavesAppend(a: Attempt, thread: nat, size: nat, moves: seq<Move>, z: Attempt, m: Move)
    requires Interleaves(a, thread, size, moves, z) && MayMove(z, thread, size, m)
    ensures Interleaves(a, thread, size, moves + [m], MoveOn(z, thread, size, m))
    decreases |moves|
  {
    hide MayMove, MoveOn;
    if moves == [] {
      assert (moves + [m])[1..] == [];
    } else {
      InterleavesAppend(MoveOn(a, thread, size, moves[0]), thread, size, moves[1..], z, m);
      assert (moves + [m])[1..] == moves[1..] + [m];
    }
  }

  lemma ReachBegin(a: Attempt, thread: nat, size: nat)
    ensures CanReach(a, thread, size, a)
  {
    assert Interleaves(a, thread, size, [], a);
  }

  lemma ReachOwn(a: Attempt, thread: nat, size: nat, z: Attempt, mem: Option<nat>)
    requires CanReach(a, thread, size, z) && MayMove(z, thread, size, Own(mem))
    ensures CanReach(a, thread, size, OwnMove(z, thread, size, mem))
  {
    hide Interleaves, OwnMove;
    var moves :| Interleaves(a, thread, size, moves, z);
    InterleavesAppend(a, thread, size, moves, z, Own(mem));
  }

  lemma {:induction false} ReachFlushes(a: Attempt, thread: nat, size: nat, p: Pool, n: nat)
    requires CanReach(a, thread, size, Attempt(p, Flushing(0))) && |p.lists| == LARGE + 1 && n <= NUM_CLASSES
    ensures CanReach(a, thread, size, Attempt(FlushUpTo(p, thread, n), Flushing(n)))
  {
    hide CanReach, FlushList;
    if n > 0 {
      ReachFlushes(a, thread, size, p, n - 1);
      ReachOwn(a, thread, size, Attempt(FlushUpTo(p, thread, n - 1), Flushing(n - 1)), None);
    }
  }

  /** The attempt ends like this. */
  ghost predicate CanEnd(a: Attempt, thread: nat, size: nat, r: (Pool, Option<Block>)) {
    exists answered :: CanReach(a, thread, size, Attempt(r.0, Done(r.1, r.0, answered)))
  }

  lemma EndsTaking(a: Attempt, thread: nat, size: nat, q: Pool)
    requires CanReach(a, thread, size, Attempt(q, Taking)) && |q.lists| == LARGE + 1
    ensures var k := KeyFor(thread, size);
            CanEnd(a, thread, size, if CacheOf(q, k) == [] || CacheOf(q, k)[0].slab !in q.slabs then (q, None)
                                    else (Activate(q, k, size), Some(CacheOf(q, k)[0])))
  {
    hide CanReach, Activate;
    ReachOwn(a, thread, size, Attempt(q, Taking), None);
    var z := Take(q, KeyFor(thread, size), size);
    assert CanReach(a, thread, size, Attempt(z.p, Done(z.phase.block, z.p, z.phase.answered)));
  }

  lemma RetryAlone(a: Attempt, thread: nat, size: nat, m: Pool, second: Option<nat>)
    requires CanReach(a, thread, size, Attempt(m, Flushing(0))) && |m.lists| == LARGE + 1
    requires 0 < size <= MAX_POOLED && ClassOf(size) < LARGE && Inv(m)
    requires Honest(Retried(m, KeyFor(thread, size)), KeyFor(thread, size), 1, second)
    ensures var q := Fetch(Retried(m, KeyFor(thread, size)), KeyFor(thread, size), 1, second);
            var k := KeyFor(thread, size);
            CanEnd(a, thread, size, if CacheOf(q, k) == [] || CacheOf(q, k)[0].slab !in q.slabs then (q, None)
                                    else (Activate(q, k, size), Some(CacheOf(q, k)[0])))
  {
    hide CanReach, CanEnd, Inv, Fetch, TrimLocked, FlushUpTo, Activate, Honest, NoFree, FreshAnswer;
    var k := KeyFor(thread, size);
    ReachFlushes(a, thread, size, m, NUM_CLASSES);
    var f := FlushThread(m, thread);
    ReachOwn(a, thread, size, Attempt(f, Flushing(NUM_CLASSES)), None);
    ReachOwn(a, thread, size, Attempt(TrimLocked(f, true), AskingAgain), second);
    var q := Fetch(Retried(m, k), k, 1, second);
    RetriedKeeps(m, k);
    hide Retried;
    FetchInv(Retried(m, k), k, second);
    if CacheOf(q, k) == [] {
      EndsAt(a, thread, size, q, second.Some?);
    } else {
      EndsTaking(a, thread, size, q);
    }
  }

  lemma FetchInv(p: Pool, k: Key, mem: Option<nat>)
    requires Inv(p) && k.classIndex < LARGE && |p.lists| == LARGE + 1 && Honest(p, k, 1, mem)
    ensures |Fetch(p, k, 1, mem).lists| == LARGE + 1
  {
    hide Inv, Fetch, FreshAnswer, NoFree, Exhausted;
    FetchKeeps(p, k, 1, mem);
    InvLists(Fetch(p, k, 1, mem));
  }

  lemma EndsAt(a: Attempt, thread: nat, size: nat, q: Pool, answered: bool)
    requires CanReach(a, thread, size, Attempt(q, Done(None, q, answered)))
    ensures CanEnd(a, thread, size, (q, None))
  {
  }

  lemma LargeAlone(p: Pool, thread: nat, size: nat, first: Option<nat>)
    requires Inv(p) && |p.lists| == LARGE + 1 && size > MAX_POOLED &&
             FreshAnswer(FlushThread(p, thread), size, 1, first)
    ensures CanEnd(Begin(p, size), thread, size, AllocateLarge(FlushThread(p, thread), size, first))
  {
    hide CanReach, Inv, FlushUpTo, AllocateLarge, FreshAnswer;
    var a := Begin(p, size);
    ReachBegin(a, thread, size);
    ReachFlushes(a, thread, size, p, NUM_CLASSES);
    ReachOwn(a, thread, size, Attempt(FlushThread(p, thread), Flushing(NUM_CLASSES)), first);
    var r := AllocateLarge(FlushThread(p, thread), size, first);
    assert CanReach(a, thread, size, Attempt(r.0, Done(r.1, r.0, first.Some?)));
  }

  lemma PooledAlone(p: Pool, thread: nat, size: nat, first: Option<nat>, second: Option<nat>)
    requires Inv(p) && |p.lists| == LARGE + 1 && 0 < size <= MAX_POOLED && ClassOf(size) < LARGE
    requires HonestAllocate(p, KeyFor(thread, size), first, second)
    ensures CanEnd(Begin(p, size), thread, size, ThreadAllocate(p, KeyFor(thread, size), size, first, second))
  {
    hide CanReach, CanEnd, Inv, Fetch, FetchInto, Retried, Activate, Honest;
    var a, k := Begin(p, size), KeyFor(thread, size);
    ReachBegin(a, thread, size);
    ReachOwn(a, thread, size, a, first);
    var m := FetchInto(p, k, BatchCount(k.classIndex), first);
    FetchIntoKeeps(p, k, BatchCount(k.classIndex), first);
    InvLists(m);
    if CacheOf(m, k) == [] {
      RetryAlone(a, thread, size, m, second);
    } else {
      EndsTaking(a, thread, size, m);
    }
  }

  /** The allocation of a thread that nobody interrupts is one of the interleavings. */
  lemma UninterruptedAllocation(p: Pool, thread: nat, size: nat, first: Option<nat>, second: Option<nat>)
    requires Inv(p) && |p.lists| == LARGE + 1 && HonestTry(p, thread, size, first, second)
    ensures CanEnd(Begin(p, size), thread, size, TryAllocate(p, thread, size, first, second))
  {
    PooledHasClass(ClassOf(size), size);
    hide CanReach, CanEnd, Inv, HonestAllocate, ThreadAllocate, AllocateLarge, FlushThread, FreshAnswer;
    if size == 0 {
      ReachBegin(Begin(p, size), thread, size);
      EndsAt(Begin(p, size), thread, size, p, true);
    } else if size > MAX_POOLED {
      LargeAlone(p, thread, size, first);
    } else {
      PooledAlone(p, thread, size, first, second);
    }
  }
}
