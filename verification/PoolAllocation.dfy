/** Allocation through a thread's cache: when it succeeds, what it returns, why it fails. */
module PoolAllocation {
  import opened Basics
  import opened SizeClasses
  import opened PoolModel
  import opened PoolSafety
  import opened PoolAccounting
  import opened PoolRuns
  import opened PoolOperations
  import opened PoolTheorems

  // ---- the model ----

  /** Flush of a thread's lists below class n. */
  function FlushUpTo(p: Pool, thread: nat, n: nat): (r: Pool)
    requires |p.lists| == LARGE + 1
    ensures |r.lists| == LARGE + 1
  {
    if n == 0 then p else FlushNext(FlushUpTo(p, thread, n - 1), Key(thread, n - 1))
  }

  function FlushNext(p: Pool, k: Key): (r: Pool)
    requires |p.lists| == LARGE + 1
    ensures |r.lists| == LARGE + 1
  {
    FlushList(p, k)
  }

  function FlushThread(p: Pool, thread: nat): (r: Pool)
    requires |p.lists| == LARGE + 1
    ensures |r.lists| == LARGE + 1
  {
    FlushUpTo(p, thread, NUM_CLASSES)
  }

  function FetchInto(p: Pool, k: Key, n: nat, mem: Option<nat>): (r: Pool)
    requires |p.lists| == LARGE + 1 && k.classIndex < LARGE
  {
    if CacheOf(p, k) == [] then Fetch(p, k, n, mem) else p
  }

  /** The retry: give back all of this thread's lists, trim, and ask for a single block. */
  function Retried(p: Pool, k: Key): (r: Pool)
    requires |p.lists| == LARGE + 1
    ensures |r.lists| == LARGE + 1
  {
    TrimLocked(FlushThread(p, k.thread), true)
  }

  function Obtain(p: Pool, k: Key, first: Option<nat>, second: Option<nat>): Pool
    requires |p.lists| == LARGE + 1 && k.classIndex < LARGE
  {
    var q := FetchInto(p, k, BatchCount(k.classIndex), first);
    if CacheOf(q, k) == [] && |q.lists| == LARGE + 1 then Fetch(Retried(q, k), k, 1, second) else q
  }

  /** ThreadCache::Allocate; `first` and `second` are the system allocator's answers. */
  function ThreadAllocate(p: Pool, k: Key, size: nat, first: Option<nat>, second: Option<nat>): (Pool, Option<Block>)
    requires |p.lists| == LARGE + 1 && k.classIndex < LARGE
  {
    var q := Obtain(p, k, first, second);
    if CacheOf(q, k) == [] || CacheOf(q, k)[0].slab !in q.slabs then (q, None)
    else (Activate(q, k, size), Some(CacheOf(q, k)[0]))
  }

  /** MemoryPool::TryAllocate by one thread. */
  function TryAllocate(p: Pool, thread: nat, size: nat, first: Option<nat>, second: Option<nat>): (Pool, Option<Block>)
    requires |p.lists| == LARGE + 1
  {
    if size == 0 then (p, None)
    else if size > MAX_POOLED then AllocateLarge(FlushThread(p, thread), size, first)
    else
      PooledHasClass(ClassOf(size), size);
      ThreadAllocate(p, Key(thread, ClassOf(size)), size, first, second)
  }

  // ---- flushing ----

  lemma {:induction false} ReturnAllOthers(p: Pool, k: Key, x: Key)
    requires x != k
    ensures CacheOf(ReturnAll(p, k), x) == CacheOf(p, x)
    decreases |CacheOf(p, k)|
  {
    if !(CacheOf(p, k) == [] || CacheOf(p, k)[0].slab !in p.slabs) {
      ReturnAllOthers(ReturnHead(p, k), k, x);
    }
  }

  lemma FlushListOthers(p: Pool, k: Key, x: Key)
    requires Inv(p) && |p.lists| == LARGE + 1 && x != k
    ensures CacheOf(FlushList(p, k), x) == CacheOf(p, x)
  {
    hide Inv, TrimLocked, ReturnAll, Idle;
    if CacheOf(p, k) != [] {
      ReturnAllKeeps(p, k);
      TrimKeeps(ReturnAll(p, k), false);
      ReturnAllOthers(p, k, x);
    }
  }

  lemma {:induction false} FlushUpToKeeps(p: Pool, thread: nat, n: nat)
    requires Inv(p) && |p.lists| == LARGE + 1
    ensures Inv(FlushUpTo(p, thread, n))
    ensures forall c :: 0 <= c < n ==> CacheOf(FlushUpTo(p, thread, n), Key(thread, c)) == []
  {
    hide Inv, FlushList;
    if n > 0 {
      FlushUpToKeeps(p, thread, n - 1);
      var q, k := FlushUpTo(p, thread, n - 1), Key(thread, n - 1);
      FlushListKeeps(q, k);
      forall c | 0 <= c < n - 1 ensures CacheOf(FlushList(q, k), Key(thread, c)) == [] {
        FlushListOthers(q, k, Key(thread, c));
      }
    }
  }

  predicate NothingCached(p: Pool, thread: nat) {
    forall c :: 0 <= c < NUM_CLASSES ==> CacheOf(p, Key(thread, c)) == []
  }

  lemma FlushThreadKeeps(p: Pool, thread: nat)
    requires Inv(p) && |p.lists| == LARGE + 1
    ensures Inv(FlushThread(p, thread)) && NothingCached(FlushThread(p, thread), thread)
  {
    hide Inv;
    FlushUpToKeeps(p, thread, NUM_CLASSES);
  }

  lemma RetriedKeeps(p: Pool, k: Key)
    requires Inv(p) && |p.lists| == LARGE + 1
    ensures Inv(Retried(p, k)) && NothingCached(Retried(p, k), k.thread)
  {
    hide Inv, FlushThread, TrimLocked, Idle;
    FlushThreadKeeps(p, k.thread);
    TrimKeeps(FlushThread(p, k.thread), true);
  }

  // ---- fetching ----

  lemma InvLists(p: Pool)
    requires Inv(p)
    ensures |p.lists| == LARGE + 1
  {
  }

  /** A fetch that comes back empty has changed no thread's list. */
  lemma EmptyFetchKeepsCaches(p: Pool, k: Key, n: nat, mem: Option<nat>)
    requires Inv(p) && k.classIndex < LARGE && n >= 1 && |p.lists| == LARGE + 1 && Honest(p, k, n, mem)
    requires CacheOf(Fetch(p, k, n, mem), k) == []
    ensures Fetch(p, k, n, mem).caches == p.caches
  {
    var c := k.classIndex;
    hide Inv, FirstFree, NoFree, AllocateSlab, TakeMany, FreshAnswer, Idle, Carved, Thinner;
    FirstFreeListed(p, c);
    match FirstFree(p, p.lists[c])
    case Some(b) =>
      TakeManyKeeps(p, b, k, n);
    case None =>
      AllocateSlabKeeps(p, ClassSize(c), n, c, mem);
      FetchCarves(p, k, n, mem);
      var (q, b) := AllocateSlab(p, ClassSize(c), n, c, mem);
      if b.None? {
        assert Fetch(p, k, n, mem) == q;
      }
  }

  /** What every answer of the system allocator along the way must satisfy. */
  predicate HonestAllocate(p: Pool, k: Key, first: Option<nat>, second: Option<nat>)
    requires |p.lists| == LARGE + 1 && k.classIndex < LARGE
  {
    && (CacheOf(p, k) == [] ==> Honest(p, k, BatchCount(k.classIndex), first))
    && var q := FetchInto(p, k, BatchCount(k.classIndex), first);
       CacheOf(q, k) == [] && |q.lists| == LARGE + 1 ==> Honest(Retried(q, k), k, 1, second)
  }

  lemma FetchIntoKeeps(p: Pool, k: Key, n: nat, mem: Option<nat>)
    requires Inv(p) && k.classIndex < LARGE && n >= 1 && |p.lists| == LARGE + 1
    requires CacheOf(p, k) == [] ==> Honest(p, k, n, mem)
    ensures Inv(FetchInto(p, k, n, mem))
  {
    hide Inv, Fetch, FreshAnswer, NoFree, Exhausted;
    if CacheOf(p, k) == [] {
      FetchKeeps(p, k, n, mem);
    }
  }

  lemma ObtainKeeps(p: Pool, k: Key, first: Option<nat>, second: Option<nat>)
    requires Inv(p) && k.classIndex < LARGE && |p.lists| == LARGE + 1 && HonestAllocate(p, k, first, second)
    ensures var q := Obtain(p, k, first, second);
            && Inv(q)
            && (CacheOf(q, k) == [] && second.Some? ==>
                Exhausted(q, ClassSize(k.classIndex), k.classIndex) && NothingCached(q, k.thread))
  {
    hide Inv, Fetch, FetchInto, Retried, Honest, Exhausted;
    FetchIntoKeeps(p, k, BatchCount(k.classIndex), first);
    var m := FetchInto(p, k, BatchCount(k.classIndex), first);
    InvLists(m);
    if CacheOf(m, k) == [] {
      RetriedKeeps(m, k);
      LastFetch(Retried(m, k), k, second);
    }
  }

  lemma LastFetch(p: Pool, k: Key, mem: Option<nat>)
    requires Inv(p) && k.classIndex < LARGE && |p.lists| == LARGE + 1 && Honest(p, k, 1, mem) &&
             NothingCached(p, k.thread)
    ensures var q := Fetch(p, k, 1, mem);
            && Inv(q)
            && (CacheOf(q, k) == [] && mem.Some? ==>
                Exhausted(q, ClassSize(k.classIndex), k.classIndex) && NothingCached(q, k.thread))
  {
    hide Inv, Fetch, FreshAnswer, NoFree, Exhausted;
    FetchKeeps(p, k, 1, mem);
    if CacheOf(Fetch(p, k, 1, mem), k) == [] {
      EmptyFetchKeepsCaches(p, k, 1, mem);
    }
  }

  // ---- allocating ----

  /** The block is leased to its request, with room for it. */
  predicate LeaseOf(p: Pool, block: Block, size: nat) {
    Leased(p, block) && p.slabs[block.slab].requests[block.index] == size <= p.slabs[block.slab].capacity
  }

  lemma ActivateLeases(p: Pool, k: Key, size: nat)
    requires Inv(p) && CacheOf(p, k) != [] && k.classIndex < LARGE && size <= ClassSize(k.classIndex)
    ensures CacheOf(p, k)[0].slab in p.slabs
    ensures Inv(Activate(p, k, size)) && LeaseOf(Activate(p, k, size), CacheOf(p, k)[0], size)
  {
    hide Listed, Apart, Counted, LargeBusy;
    ActivateInv(p, k, size);
    HeadExists(p, k);
    assert SlabOk(p.slabs[CacheOf(p, k)[0].slab]);
  }

  lemma ThreadAllocateKeeps(p: Pool, k: Key, size: nat, first: Option<nat>, second: Option<nat>)
    requires Inv(p) && k.classIndex < LARGE && |p.lists| == LARGE + 1 && size <= ClassSize(k.classIndex)
    requires HonestAllocate(p, k, first, second)
    ensures var (q, block) := ThreadAllocate(p, k, size, first, second);
            && Inv(q)
            && (block.Some? ==> LeaseOf(q, block.value, size))
            && (block.None? && second.Some? ==>
                Exhausted(q, ClassSize(k.classIndex), k.classIndex) && NothingCached(q, k.thread))
  {
    hide Inv, Obtain, Exhausted, HonestAllocate, LeaseOf, NothingCached;
    ObtainKeeps(p, k, first, second);
    var q := Obtain(p, k, first, second);
    if CacheOf(q, k) != [] {
      ActivateLeases(q, k, size);
    }
  }

  predicate HonestTry(p: Pool, thread: nat, size: nat, first: Option<nat>, second: Option<nat>)
    requires |p.lists| == LARGE + 1
  {
    if size == 0 then true
    else if size > MAX_POOLED then FreshAnswer(FlushThread(p, thread), size, 1, first)
    else
      PooledHasClass(ClassOf(size), size);
      HonestAllocate(p, Key(thread, ClassOf(size)), first, second)
  }

  /** The capacity a block for `size` is carved with. */
  function CapacityFor(size: nat): nat {
    if size > MAX_POOLED then size else ClassSize(ClassOf(size))
  }

  /**
   Allocation fails only when it must: with an honest system allocator that has memory,
   a null answer to a representable request means that no idle slab is left, that the
   request's class has no free central block, that the thread's own lists are empty, and
   that the budget cannot hold one more slab with one block. Any other answer is a lease
   of the requested size.
   */
  lemma AllocationFailsOnlyWhenItMust(p: Pool, thread: nat, size: nat, first: Option<nat>, second: Option<nat>)
    requires Inv(p) && |p.lists| == LARGE + 1 && HonestTry(p, thread, size, first, second)
    ensures var (q, block) := TryAllocate(p, thread, size, first, second);
            && Inv(q)
            && (block.Some? ==> size > 0 && LeaseOf(q, block.value, size))
            && (block.None? && size > 0 && first.Some? && second.Some? && Representable(size) ==>
                  Exhausted(q, CapacityFor(size), ClassOf(size)) && NothingCached(q, thread))
  {
    if size > MAX_POOLED {
      PooledHasClass(ClassOf(size), size);
      LargeFailsOnlyWhenItMust(p, thread, size, first);
    } else if size > 0 {
      PooledHasClass(ClassOf(size), size);
      hide Inv, HonestAllocate, ThreadAllocate, LeaseOf, NothingCached, Exhausted, Representable;
      ThreadAllocateKeeps(p, Key(thread, ClassOf(size)), size, first, second);
    }
  }

  lemma LargeCaches(p: Pool, size: nat, mem: Option<nat>)
    requires Inv(p) && |p.lists| == LARGE + 1 && FreshAnswer(p, size, 1, mem)
    ensures AllocateLarge(p, size, mem).0.caches == p.caches
    ensures AllocateLarge(p, size, mem).1.Some? ==>
            LeaseOf(AllocateLarge(p, size, mem).0, AllocateLarge(p, size, mem).1.value, size)
  {
    hide Inv, FreshAnswer, AllocateSlab, Stride, Core, LargeBusyBut, Idle, Representable, Thinner;
    AllocateSlabKeeps(p, size, 1, LARGE, mem);
  }

  lemma LargeFailsOnlyWhenItMust(p: Pool, thread: nat, size: nat, first: Option<nat>)
    requires Inv(p) && |p.lists| == LARGE + 1 && FreshAnswer(FlushThread(p, thread), size, 1, first)
    ensures var (q, block) := AllocateLarge(FlushThread(p, thread), size, first);
            && Inv(q)
            && (block.Some? ==> LeaseOf(q, block.value, size))
            && (block.None? && first.Some? && Representable(size) ==>
                Exhausted(q, size, LARGE) && NothingCached(q, thread))
  {
    hide Inv, FreshAnswer, FlushThread, AllocateLarge, LeaseOf, Exhausted, Representable;
    FlushThreadKeeps(p, thread);
    AllocateLargeKeeps(FlushThread(p, thread), size, first);
    LargeCaches(FlushThread(p, thread), size, first);
  }

  /** A fetch is answered exactly when the class has a free block or a full trim leaves budget for one. */
  lemma FetchSucceedsIff(p: Pool, k: Key, n: nat, b: nat)
    requires Inv(p) && k.classIndex < LARGE && n >= 1 && |p.lists| == LARGE + 1 && CacheOf(p, k) == []
    requires Honest(p, k, n, Some(b))
    ensures CacheOf(Fetch(p, k, n, Some(b)), k) != [] <==>
            !NoFree(p, k.classIndex) || HasRoom(TrimLocked(p, true), ClassSize(k.classIndex))
  {
    var c := k.classIndex;
    hide Inv, FirstFree, NoFree, TakeMany, FreshAnswer, Idle, Stride, TrimLocked, Representable;
    FirstFreeListed(p, c);
    TrimKeeps(p, true);
    match FirstFree(p, p.lists[c])
    case Some(x) =>
      TakeManyKeeps(p, x, k, n);
    case None =>
      ClassRepresentable(c);
      FetchCarves(p, k, n, Some(b));
      var (q, x) := AllocateSlab(p, ClassSize(c), n, c, Some(b));
      AllocateSlabKeeps(p, ClassSize(c), n, c, Some(b));
      assert Fetch(p, k, n, Some(b)) == if x.None? then q else TakeMany(q, x.value, k, n);
      assert x.Some? <==> HasRoom(MakeRoom(p, ClassSize(c)), ClassSize(c));
  }
}
