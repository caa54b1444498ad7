/**
 The memory pool on values. Slabs are named by their address, blocks by slab and index;
 a slab's free list and a thread's cached lists are sequences with the head first. A
 block's header lives in its slab: `requests` holds the request sizes of the blocks
 that are marked used.
 */
module PoolModel {
  import opened Basics
  import opened SizeClasses

  const ALIGN: nat := 16
  const HEADER: nat := 32          // sizeof(BlockHeader)
  const SLAB: nat := 64            // sizeof(PoolSlab)
  const SIZE_MAX: nat := 0xFFFF_FFFF_FFFF_FFFF
  const LARGE: nat := NUM_CLASSES  // the list of slabs too large for a class

  datatype Slab = Slab(
    capacity: nat, stride: nat, count: nat, bytes: nat, classIndex: nat,
    free: seq<nat>, freeCount: int, requests: map<nat, nat>)

  datatype Block = Block(slab: nat, index: nat)

  /** A thread's list for one size class. */
  datatype Key = Key(thread: nat, classIndex: nat)

  datatype Stats = Stats(
    committed: int, inUseBytes: int, inUseCapacity: int, inUseReserved: int, live: int, slabCount: int)

  datatype Pool = Pool(
    maxCommitted: nat,
    maxCached: nat,
    slabs: map<nat, Slab>,
    lists: seq<seq<nat>>,
    stats: Stats,
    caches: map<Key, seq<Block>>,
    holder: map<Block, Key>)     // which list a cached block is in

  function CacheOf(p: Pool, k: Key): seq<Block> {
    if k in p.caches then p.caches[k] else []
  }

  // ---- slabs ----

  function Stride(capacity: nat): nat {
    (HEADER + capacity + ALIGN - 1) / ALIGN * ALIGN
  }

  /** The sizes that fit into a size_t with their header, alignment and slab header. */
  predicate Representable(capacity: nat) {
    capacity <= SIZE_MAX - HEADER - (ALIGN - 1) && Stride(capacity) <= SIZE_MAX - SLAB
  }

  function Descending(n: nat): (s: seq<nat>)
    ensures |s| == n && forall i :: 0 <= i < n ==> s[i] == n - 1 - i
  {
    if n == 0 then [] else [n - 1] + Descending(n - 1)
  }

  function NewSlab(capacity: nat, count: nat, classIndex: nat): Slab {
    Slab(capacity, Stride(capacity), count, SLAB + count * Stride(capacity), classIndex,
         Descending(count), count, map[])
  }

  predicate Idle(s: Slab) {
    s.freeCount == s.count
  }

  function RemoveAt(list: seq<nat>, k: nat): seq<nat>
    requires k < |list|
  {
    list[..k] + list[k + 1..]
  }

  function FreeSlab(p: Pool, c: nat, k: nat): Pool
    requires c < |p.lists| && k < |p.lists[c]| && p.lists[c][k] in p.slabs
  {
    var b := p.lists[c][k];
    p.(slabs := p.slabs - {b}, lists := p.lists[c := RemoveAt(p.lists[c], k)],
       stats := p.stats.(committed := p.stats.committed - p.slabs[b].bytes, slabCount := p.stats.slabCount - 1))
  }

  /** Every listed slab exists; needed to follow the lists at all. */
  predicate Linked(p: Pool) {
    |p.lists| == LARGE + 1 &&
    forall c, k :: 0 <= c < |p.lists| && 0 <= k < |p.lists[c]| ==>
        p.lists[c][k] in p.slabs && p.slabs[p.lists[c][k]].classIndex == c
  }

  // ---- trimming ----

  predicate Enough(p: Pool, all: bool) {
    !all && p.stats.committed - p.stats.inUseReserved <= p.maxCached
  }

  /** Walks one list from position k; the flag says that the target was reached. */
  function TrimList(p: Pool, c: nat, k: nat, all: bool): (r: (Pool, bool))
    requires c < |p.lists| && k <= |p.lists[c]|
    ensures |r.0.lists| == |p.lists|
    decreases |p.lists[c]| - k
  {
    if k == |p.lists[c]| then (p, false)
    else if Enough(p, all) then (p, true)
    else
      var b := p.lists[c][k];
      if b in p.slabs && Idle(p.slabs[b]) then TrimList(FreeSlab(p, c, k), c, k, all) else TrimList(p, c, k + 1, all)
  }

  /** Walks the lists below `n`, largest class first. */
  function TrimFrom(p: Pool, n: nat, all: bool): (r: Pool)
    requires n <= |p.lists|
    ensures |r.lists| == |p.lists|
    decreases n
  {
    if n == 0 then p
    else
      var (q, stopped) := TrimList(p, n - 1, 0, all);
      if stopped then q else TrimFrom(q, n - 1, all)
  }

  function TrimLocked(p: Pool, all: bool): (r: Pool)
    requires |p.lists| == LARGE + 1
    ensures |r.lists| == LARGE + 1
  {
    TrimFrom(p, NUM_CLASSES, all)
  }

  // ---- allocating a slab ----

  function Available(p: Pool): int {
    p.maxCommitted - p.stats.committed
  }

  /** The pool after the trim that a tight budget triggers. */
  function MakeRoom(p: Pool, capacity: nat): (r: Pool)
    requires |p.lists| == LARGE + 1
    ensures |r.lists| == LARGE + 1
  {
    if Available(p) < SLAB + Stride(capacity) then TrimLocked(p, true) else p
  }

  predicate HasRoom(p: Pool, capacity: nat) {
    Available(p) >= SLAB + Stride(capacity)
  }

  function StridePositive(capacity: nat): (s: nat)
    ensures s == Stride(capacity) && s >= HEADER + capacity && s % ALIGN == 0
  {
    Stride(capacity)
  }

  function FittingCount(p: Pool, capacity: nat, count: nat): nat
    requires HasRoom(p, capacity)
  {
    Min(count, (Available(p) - SLAB) / StridePositive(capacity))
  }

  /** AllocateSlab; `mem` is what the system allocator answers. */
  function AllocateSlab(p: Pool, capacity: nat, count: nat, c: nat, mem: Option<nat>): (Pool, Option<nat>)
    requires |p.lists| == LARGE + 1 && c <= LARGE
  {
    if !Representable(capacity) then (p, None)
    else
      var q := MakeRoom(p, capacity);
      if !HasRoom(q, capacity) || mem.None? then (q, None)
      else (AddSlab(q, mem.value, NewSlab(capacity, FittingCount(q, capacity, count), c)), mem)
  }

  function AddSlab(q: Pool, b: nat, s: Slab): Pool
    requires s.classIndex < |q.lists|
  {
    q.(slabs := q.slabs[b := s], lists := q.lists[s.classIndex := [b] + q.lists[s.classIndex]],
       stats := q.stats.(committed := q.stats.committed + s.bytes, slabCount := q.stats.slabCount + 1))
  }

  // ---- blocks ----

  /** Moves the head of a slab's free list to the front of a thread's list. */
  function TakeFree(p: Pool, b: nat, k: Key): Pool
    requires b in p.slabs && p.slabs[b].free != []
  {
    var s := p.slabs[b];
    var block := Block(b, s.free[0]);
    p.(slabs := p.slabs[b := s.(free := s.free[1..], freeCount := s.freeCount - 1)],
       caches := p.caches[k := [block] + CacheOf(p, k)], holder := p.holder[block := k])
  }

  function TakeMany(p: Pool, b: nat, k: Key, n: nat): Pool
    decreases n
  {
    if n == 0 || b !in p.slabs || p.slabs[b].free == [] then p else TakeMany(TakeFree(p, b, k), b, k, n - 1)
  }

  function FirstFree(p: Pool, list: seq<nat>): Option<nat> {
    if list == [] then None
    else if list[0] in p.slabs && p.slabs[list[0]].free != [] then Some(list[0])
    else FirstFree(p, list[1..])
  }

  /** FetchBatch, with the result put into the (empty) list it was fetched for. */
  function Fetch(p: Pool, k: Key, n: nat, mem: Option<nat>): Pool
    requires |p.lists| == LARGE + 1 && k.classIndex < LARGE
  {
    match FirstFree(p, p.lists[k.classIndex])
    case Some(b) => TakeMany(p, b, k, n)
    case None =>
      var (q, b) := AllocateSlab(p, ClassSize(k.classIndex), n, k.classIndex, mem);
      if b.None? then q else TakeMany(q, b.value, k, n)
  }

  function AddRequest(p: Pool, b: nat, i: nat, size: nat): Pool
    requires b in p.slabs
  {
    var s := p.slabs[b];
    p.(slabs := p.slabs[b := s.(requests := s.requests[i := size])],
       stats := p.stats.(inUseBytes := p.stats.inUseBytes + size, inUseCapacity := p.stats.inUseCapacity + s.capacity,
                         inUseReserved := p.stats.inUseReserved + s.stride, live := p.stats.live + 1))
  }

  /** Pops the head of a thread's list and activates it. */
  function Activate(p: Pool, k: Key, size: nat): Pool
    requires CacheOf(p, k) != [] && CacheOf(p, k)[0].slab in p.slabs
  {
    var block := CacheOf(p, k)[0];
    AddRequest(p.(caches := p.caches[k := CacheOf(p, k)[1..]], holder := p.holder - {block}), block.slab, block.index,
        size)
  }

  function PushFree(p: Pool, b: nat, i: nat): Pool
    requires b in p.slabs
  {
    var s := p.slabs[b];
    p.(slabs := p.slabs[b := s.(free := [i] + s.free, freeCount := s.freeCount + 1)])
  }

  /** Returns the head of a thread's list to its slab. */
  function ReturnHead(p: Pool, k: Key): Pool
    requires CacheOf(p, k) != [] && CacheOf(p, k)[0].slab in p.slabs
  {
    var block := CacheOf(p, k)[0];
    PushFree(p.(caches := p.caches[k := CacheOf(p, k)[1..]], holder := p.holder - {block}), block.slab, block.index)
  }

  function ReturnAll(p: Pool, k: Key): (r: Pool)
    ensures r.lists == p.lists
    decreases |CacheOf(p, k)|
  {
    if CacheOf(p, k) == [] || CacheOf(p, k)[0].slab !in p.slabs then p else ReturnAll(ReturnHead(p, k), k)
  }

  /** ReleaseBatch of one of a thread's lists. */
  function FlushList(p: Pool, k: Key): Pool
    requires |p.lists| == LARGE + 1
  {
    if CacheOf(p, k) == [] then p else TrimLocked(ReturnAll(p, k), false)
  }

  /** The part of Release that gives the block back to its slab. */
  function Deactivate(p: Pool, block: Block): Pool
    requires block.slab in p.slabs && block.index in p.slabs[block.slab].requests
  {
    var s := p.slabs[block.slab];
    var size := s.requests[block.index];
    PushFree(p.(slabs := p.slabs[block.slab := s.(requests := s.requests - {block.index})],
                stats := p.stats.(inUseBytes := p.stats.inUseBytes - size,
                    inUseCapacity := p.stats.inUseCapacity - s.capacity,
                                  inUseReserved := p.stats.inUseReserved - s.stride, live := p.stats.live - 1)),
             block.slab, block.index)
  }

  function IndexIn(list: seq<nat>, b: nat): (k: nat)
    requires b in list
    ensures k < |list| && list[k] == b
  {
    if list[0] == b then 0 else 1 + IndexIn(list[1..], b)
  }

  predicate Leased(p: Pool, block: Block) {
    block.slab in p.slabs && block.index in p.slabs[block.slab].requests
  }

  function Release(p: Pool, block: Block): Pool
    requires Leased(p, block) && |p.lists| == LARGE + 1
  {
    var c := p.slabs[block.slab].classIndex;
    var q := Deactivate(p, block);
    if c == LARGE then
      if block.slab in q.lists[c] then FreeSlab(q, c, IndexIn(q.lists[c], block.slab)) else q
    else TrimLocked(q, false)
  }

  /** AllocateLarge: a slab of its own, whose only block is used at once. */
  function AllocateLarge(p: Pool, size: nat, mem: Option<nat>): (Pool, Option<Block>)
    requires |p.lists| == LARGE + 1
  {
    var (q, b) := AllocateSlab(p, size, 1, LARGE, mem);
    if b.None? || b.value !in q.slabs then (q, None)
    else
      var s := q.slabs[b.value];
      (AddRequest(q.(slabs := q.slabs[b.value := s.(free := [], freeCount := 0)]), b.value, 0, size),
          Some(Block(b.value, 0)))
  }

  function SetLimits(p: Pool, maxCommitted: nat, maxCached: nat): (Pool, bool)
    requires |p.lists| == LARGE + 1
  {
    var q := TrimLocked(p, true);
    if maxCommitted < q.stats.committed then (q, false)
    else (q.(maxCommitted := maxCommitted, maxCached := maxCached), true)
  }

  const EMPTY_STATS := Stats(0, 0, 0, 0, 0, 0)

  function NewPool(maxCommitted: nat, maxCached: nat): Pool {
    Pool(maxCommitted, maxCached, map[], seq(LARGE + 1, _ => []), EMPTY_STATS, map[], map[])
  }
}
