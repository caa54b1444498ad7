/**
 The memory pool as it is written: slab lists, slab headers, counters and the threads'
 lists updated in place. Every method is proved to do what the model does. The calls to
 the system allocator are answered by the `mem` parameters.
 */
module MemoryPools {
  import opened Basics
  import opened SizeClasses
  import opened PoolModel
  import opened PoolAccounting
  import opened PoolRuns
  import opened PoolOperations
  import opened PoolTheorems
  import opened PoolAllocation

  /** The carving loop: each new block is pushed on the free list. */
  method Carve(count: nat) returns (free: seq<nat>)
    ensures free == Descending(count)
  {
    free := [];
    var i := 0;
    while i < count
      invariant i <= count && free == Descending(i)
    {
      free := [i] + free;
      i := i + 1;
    }
  }

  class MemoryPool {
    var maxCommitted: nat
    var maxCached: nat
    var slabs: map<nat, Slab>
    var lists: seq<seq<nat>>
    var stats: Stats
    var caches: map<Key, seq<Block>>
    ghost var holder: map<Block, Key>

    ghost function Model(): Pool
      reads this
    {
      Pool(maxCommitted, maxCached, slabs, lists, stats, caches, holder)
    }

    constructor (maxCommitted: nat, maxCached: nat)
      ensures Model() == NewPool(maxCommitted, maxCached) && Inv(Model())
    {
      hide Inv;
      this.maxCommitted, this.maxCached := maxCommitted, maxCached;
      slabs, lists, stats, caches, holder := map[], seq(LARGE + 1, _ => []), EMPTY_STATS, map[], map[];
      new;
      NewPoolInv(maxCommitted, maxCached);
    }

    // ---- slabs ----

    method DropSlab(c: nat, k: nat)
      requires c < |lists| && k < |lists[c]| && lists[c][k] in slabs
      modifies this
      ensures Model() == FreeSlab(old(Model()), c, k)
    {
      var b := lists[c][k];
      lists := lists[c := lists[c][..k] + lists[c][k + 1..]];
      stats := stats.(committed := stats.committed - slabs[b].bytes, slabCount := stats.slabCount - 1);
      slabs := slabs - {b};
    }

    /** The inner loop of TrimLocked; `stopped` says that the cached bytes reached their limit. */
    method TrimClass(c: nat, all: bool) returns (stopped: bool)
      requires Inv(Model()) && c < |lists|
      modifies this
      ensures (Model(), stopped) == TrimList(old(Model()), c, 0, all)
      ensures Inv(Model()) && |lists| == |old(lists)|
    {
      hide Inv, Idle;
      ghost var start := Model();
      var k := 0;
      while k < |lists[c]|
        invariant Inv(Model()) && |lists| == |start.lists| && k <= |lists[c]|
        invariant TrimList(Model(), c, k, all) == TrimList(start, c, 0, all)
        decreases |lists[c]| - k
      {
        if !all && stats.committed - stats.inUseReserved <= maxCached {
          return true;
        }
        ListedExists(Model(), c, k);
        var b := lists[c][k];
        if IsIdle(slabs[b]) {
          FreeSlabThinner(Model(), c, k);
          DropSlab(c, k);
        } else {
          k := k + 1;
        }
      }
      stopped := false;
    }

    predicate IsIdle(s: Slab)
      ensures IsIdle(s) == Idle(s)
    {
      s.freeCount == s.count
    }

    /** Frees idle slabs, the largest classes first; returns the bytes given back. */
    method Trim(all: bool) returns (freed: nat)
      requires Inv(Model())
      modifies this
      ensures Model() == TrimLocked(old(Model()), all) && Inv(Model())
      ensures freed == old(stats.committed) - stats.committed
    {
      hide Inv, Idle, TrimList;
      InvLists(Model());
      TrimKeeps(Model(), all);
      ghost var start := Model();
      var before := stats.committed;
      var i: nat := NUM_CLASSES;
      var stopped := false;
      while i > 0 && !stopped
        invariant i <= NUM_CLASSES && Inv(Model()) && |lists| == LARGE + 1
        invariant if stopped then Model() == TrimLocked(start, all)
                  else TrimFrom(Model(), i, all) == TrimLocked(start, all)
        decreases i, !stopped
      {
        i := i - 1;
        stopped := TrimClass(i, all);
      }
      freed := before - stats.committed;
    }

    /** Frees idle slabs when the budget is tight. */
    method EnsureRoom(capacity: nat)
      requires Inv(Model()) && |lists| == LARGE + 1
      modifies this
      ensures Model() == MakeRoom(old(Model()), capacity) && Inv(Model()) && |lists| == LARGE + 1
    {
      if maxCommitted - stats.committed < SLAB + Stride(capacity) {
        var _ := Trim(true);
      }
    }

    method LinkSlab(b: nat, s: Slab)
      requires s.classIndex < |lists|
      modifies this
      ensures Model() == AddSlab(old(Model()), b, s)
    {
      slabs := slabs[b := s];
      lists := lists[s.classIndex := [b] + lists[s.classIndex]];
      stats := stats.(committed := stats.committed + s.bytes, slabCount := stats.slabCount + 1);
    }

    method MakeSlab(capacity: nat, count: nat, c: nat, mem: Option<nat>) returns (b: Option<nat>)
      requires Inv(Model()) && |lists| == LARGE + 1 && c <= LARGE
      modifies this
      ensures (Model(), b) == AllocateSlab(old(Model()), capacity, count, c, mem)
    {
      hide Inv, MakeRoom, Idle;
      if capacity > SIZE_MAX - HEADER - (ALIGN - 1) || Stride(capacity) > SIZE_MAX - SLAB {
        return None;
      }
      EnsureRoom(capacity);
      var available := maxCommitted - stats.committed;
      if available < SLAB + Stride(capacity) || mem.None? {
        return None;
      }
      var n := Min(count, (available - SLAB) / StridePositive(capacity));
      var free := Carve(n);
      LinkSlab(mem.value, Slab(capacity, Stride(capacity), n, SLAB + n * Stride(capacity), c, free, n, map[]));
      b := mem;
    }

    // ---- blocks ----

    method FindFree(c: nat) returns (b: Option<nat>)
      requires Inv(Model()) && c < |lists|
      ensures b == FirstFree(Model(), lists[c])
    {
      hide Inv;
      var i, list := 0, lists[c];
      b := None;
      while i < |list|
        invariant i <= |list| && FirstFree(Model(), list[i..]) == FirstFree(Model(), list)
      {
        ListedExists(Model(), c, i);
        if slabs[list[i]].free != [] {
          return Some(list[i]);
        }
        assert list[i..][1..] == list[i + 1..];
        i := i + 1;
      }
    }

    /** Pops up to n blocks of slab b onto a thread's list. */
    method PopFree(b: nat, k: Key, n: nat)
      requires b in slabs
      modifies this
      ensures Model() == TakeMany(old(Model()), b, k, n)
    {
      ghost var start := Model();
      var left: nat := n;
      while left > 0 && slabs[b].free != []
        invariant left <= n && b in slabs && TakeMany(Model(), b, k, left) == TakeMany(start, b, k, n)
        decreases left
      {
        var s := slabs[b];
        var block := Block(b, s.free[0]);
        slabs := slabs[b := s.(free := s.free[1..], freeCount := s.freeCount - 1)];
        caches := caches[k := [block] + if k in caches then caches[k] else []];
        holder := holder[block := k];
        left := left - 1;
      }
    }

    method FetchBatch(k: Key, n: nat, mem: Option<nat>)
      requires Inv(Model()) && |lists| == LARGE + 1 && k.classIndex < LARGE && n >= 1 && Honest(Model(), k, n, mem)
      modifies this
      ensures Model() == Fetch(old(Model()), k, n, mem) && Inv(Model())
    {
      hide Inv, AllocateSlab, FirstFree, NoFree, FreshAnswer, Carved, TakeMany, Exhausted, Idle, Thinner;
      FetchKeeps(Model(), k, n, mem);
      FirstFreeListed(Model(), k.classIndex);
      var b := FindFree(k.classIndex);
      if b.None? {
        AllocateSlabKeeps(Model(), ClassSize(k.classIndex), n, k.classIndex, mem);
        b := MakeSlab(ClassSize(k.classIndex), n, k.classIndex, mem);
        if b.None? {
          return;
        }
        CarvedGives(Model(), b.value, k, n);
      }
      PopFree(b.value, k, n);
    }

    /** Marks a block used. */
    method MarkUsed(block: Block, size: nat)
      requires block.slab in slabs
      modifies this
      ensures Model() == AddRequest(old(Model()), block.slab, block.index, size)
    {
      var s := slabs[block.slab];
      slabs := slabs[block.slab := s.(requests := s.requests[block.index := size])];
      stats := stats.(inUseBytes := stats.inUseBytes + size, inUseCapacity := stats.inUseCapacity + s.capacity,
                      inUseReserved := stats.inUseReserved + s.stride, live := stats.live + 1);
    }

    method PopAndActivate(k: Key, size: nat) returns (block: Block)
      requires Inv(Model()) && CacheOf(Model(), k) != [] && k.classIndex < LARGE && size <= ClassSize(k.classIndex)
      modifies this
      ensures CacheOf(old(Model()), k)[0].slab in old(slabs)
      ensures Model() == Activate(old(Model()), k, size) && Inv(Model()) && block == CacheOf(old(Model()), k)[0]
    {
      hide Inv;
      ActivateInv(Model(), k, size);
      block := caches[k][0];
      caches := caches[k := caches[k][1..]];
      holder := holder - {block};
      MarkUsed(block, size);
    }

    method PushBack(block: Block)
      requires block.slab in slabs
      modifies this
      ensures Model() == PushFree(old(Model()), block.slab, block.index)
    {
      var s := slabs[block.slab];
      slabs := slabs[block.slab := s.(free := [block.index] + s.free, freeCount := s.freeCount + 1)];
    }

    method ReturnList(k: Key)
      requires Inv(Model())
      modifies this
      ensures Model() == ReturnAll(old(Model()), k) && Inv(Model())
    {
      hide Inv;
      ghost var start := Model();
      while k in caches && caches[k] != []
        invariant Inv(Model()) && ReturnAll(Model(), k) == ReturnAll(start, k)
        decreases |CacheOf(Model(), k)|
      {
        ReturnHeadInv(Model(), k);
        var block := caches[k][0];
        caches := caches[k := caches[k][1..]];
        holder := holder - {block};
        PushBack(block);
      }
    }

    method ReleaseBatch(k: Key)
      requires Inv(Model()) && CacheOf(Model(), k) != [] && |lists| == LARGE + 1
      modifies this
      ensures Model() == FlushList(old(Model()), k) && Inv(Model())
    {
      hide Inv, ReturnAll, TrimLocked;
      ReturnList(k);
      var _ := Trim(false);
    }

    method Unlink(b: nat) returns (k: nat)
      requires |lists| == LARGE + 1 && b in lists[LARGE]
      ensures k == IndexIn(lists[LARGE], b)
    {
      k := 0;
      ghost var list := lists[LARGE];
      while lists[LARGE][k] != b
        invariant k < |list| && b in list[k..] && IndexIn(list, b) == k + IndexIn(list[k..], b)
        decreases |list| - k
      {
        assert list[k..][0] != b && list[k..][1..] == list[k + 1..];
        k := k + 1;
      }
    }

    method MarkFree(block: Block)
      requires Leased(Model(), block)
      modifies this
      ensures Model() == Deactivate(old(Model()), block)
    {
      var s := slabs[block.slab];
      stats := stats.(inUseBytes := stats.inUseBytes - s.requests[block.index],
          inUseCapacity := stats.inUseCapacity - s.capacity,
                      inUseReserved := stats.inUseReserved - s.stride, live := stats.live - 1);
      slabs := slabs[block.slab := s.(requests := s.requests - {block.index})];
      PushBack(block);
    }

    method ReleaseBlock(block: Block)
      requires Inv(Model()) && Leased(Model(), block) && |lists| == LARGE + 1
      modifies this
      ensures Model() == Release(old(Model()), block) && Inv(Model())
    {
      hide Inv, Idle, Deactivate;
      ReleaseKeeps(Model(), block);
      LeasedListed(Model(), block);
      var c := slabs[block.slab].classIndex;
      if c != LARGE {
        PooledReleaseInv(Model(), block);
      }
      MarkFree(block);
      if c == LARGE {
        var k := Unlink(block.slab);
        DropSlab(c, k);
      } else {
        var _ := Trim(false);
      }
    }

    method AllocateWhole(size: nat, mem: Option<nat>) returns (block: Option<Block>)
      requires Inv(Model()) && |lists| == LARGE + 1 && FreshAnswer(Model(), size, 1, mem)
      modifies this
      ensures (Model(), block) == AllocateLarge(old(Model()), size, mem) && Inv(Model())
    {
      hide Inv, AllocateSlab, FreshAnswer, Exhausted, Representable, Core, LargeBusyBut, NewSlab, Idle, Thinner;
      AllocateLargeKeeps(Model(), size, mem);
      AllocateSlabKeeps(Model(), size, 1, LARGE, mem);
      var b := MakeSlab(size, 1, LARGE, mem);
      if b.None? {
        return None;
      }
      slabs := slabs[b.value := slabs[b.value].(free := [], freeCount := 0)];
      MarkUsed(Block(b.value, 0), size);
      block := Some(Block(b.value, 0));
    }

    method ChangeLimits(committed: nat, cached: nat) returns (ok: bool)
      requires Inv(Model()) && |lists| == LARGE + 1
      modifies this
      ensures (Model(), ok) == SetLimits(old(Model()), committed, cached) && Inv(Model())
    {
      hide Inv, TrimLocked;
      SetLimitsKeeps(Model(), committed, cached);
      var _ := Trim(true);
      if committed < stats.committed {
        return false;
      }
      maxCommitted, maxCached := committed, cached;
      ok := true;
    }

    // ---- a thread's cache ----

    method Flush(thread: nat)
      requires Inv(Model()) && |lists| == LARGE + 1
      modifies this
      ensures Model() == FlushThread(old(Model()), thread) && Inv(Model()) && |lists| == LARGE + 1
    {
      hide Inv, FlushList;
      ghost var start := Model();
      var c := 0;
      while c < NUM_CLASSES
        invariant c <= NUM_CLASSES && Inv(Model()) && |lists| == LARGE + 1
        invariant Model() == FlushUpTo(start, thread, c)
      {
        var k := Key(thread, c);
        FlushEmpty(Model(), k);
        FlushListKeeps(Model(), k);
        if k in caches && caches[k] != [] {
          ReleaseBatch(k);
        }
        InvLists(Model());
        c := c + 1;
      }
    }

    method AllocateCached(thread: nat, c: nat, size: nat, first: Option<nat>, second: Option<nat>)
        returns (block: Option<Block>)
      requires Inv(Model()) && |lists| == LARGE + 1 && c < LARGE && size <= ClassSize(c)
      requires HonestAllocate(Model(), Key(thread, c), first, second)
      modifies this
      ensures (Model(), block) == ThreadAllocate(old(Model()), Key(thread, c), size, first, second) && Inv(Model())
    {
      hide Inv, Fetch, TrimLocked, FlushThread, Honest, Exhausted, Idle, Thinner, Activate;
      var k := Key(thread, c);
      if k !in caches || caches[k] == [] {
        FetchBatch(k, BatchCount(c), first);
      }
      InvLists(Model());
      if k !in caches || caches[k] == [] {
        Flush(thread);
        var _ := Trim(true);
        InvLists(Model());
        FetchBatch(k, 1, second);
      }
      if k !in caches || caches[k] == [] {
        return None;
      }
      var x := PopAndActivate(k, size);
      block := Some(x);
    }

    /** TryAllocate: a lease of the requested size, or nothing when the pool is exhausted. */
    method TryAllocate(thread: nat, size: nat, first: Option<nat>, second: Option<nat>) returns (block: Option<Block>)
      requires Inv(Model()) && |lists| == LARGE + 1 && HonestTry(Model(), thread, size, first, second)
      modifies this
      ensures (Model(), block) == PoolAllocation.TryAllocate(old(Model()), thread, size, first, second)
      ensures Inv(Model())
      ensures block.Some? ==> size > 0 && LeaseOf(Model(), block.value, size)
      ensures block.None? && size > 0 && first.Some? && second.Some? && Representable(size) ==>
                Exhausted(Model(), CapacityFor(size), ClassOf(size)) && NothingCached(Model(), thread)
    {
      hide Inv, ThreadAllocate, AllocateLarge, FlushThread, HonestAllocate, FreshAnswer, Exhausted, LeaseOf,
           NothingCached, Representable;
      AllocationFailsOnlyWhenItMust(Model(), thread, size, first, second);
      if size == 0 {
        return None;
      }
      if size > MAX_POOLED {
        Flush(thread);
        block := AllocateWhole(size, first);
      } else {
        var c := GetSizeClassIndex(size);
        PooledHasClass(c, size);
        ClassIsUnique(c, ClassOf(size), size);
        block := AllocateCached(thread, c, size, first, second);
      }
    }
  }

  lemma LeasedListed(p: Pool, block: Block)
    requires Inv(p) && Leased(p, block)
    ensures |p.lists| == LARGE + 1 && p.slabs[block.slab].classIndex <= LARGE
    ensures block.slab in p.lists[p.slabs[block.slab].classIndex]
    ensures Deactivate(p, block).lists == p.lists && block.slab in Deactivate(p, block).slabs
  {
  }

  lemma PooledReleaseInv(p: Pool, block: Block)
    requires Inv(p) && Leased(p, block) && p.slabs[block.slab].classIndex != LARGE
    ensures Inv(Deactivate(p, block))
  {
    hide Core, Deactivate, LargeBusy;
    assert Core(p) && LargeBusy(p);
    DeactivateCore(p, block);
    DeactivateBusy(p, block);
  }

  lemma FlushEmpty(p: Pool, k: Key)
    requires |p.lists| == LARGE + 1
    ensures CacheOf(p, k) == [] ==> FlushList(p, k) == p
  {
  }
}
