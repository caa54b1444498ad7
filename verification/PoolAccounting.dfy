/** The slab lists, the address ranges and the counters of the memory pool. */
module PoolAccounting {
  import opened Basics
  import opened Sums
  import opened PoolModel
  import opened PoolSafety

  // ---- lists and addresses ----

  predicate Listed(p: Pool) {
    && Linked(p)
    && (forall c :: 0 <= c < |p.lists| ==> Distinct(p.lists[c]))
    && (forall b :: b in p.slabs ==> p.slabs[b].classIndex <= LARGE && b in p.lists[p.slabs[b].classIndex])
  }

  predicate ApartFrom(b: nat, bytes: nat, c: nat, bytes': nat) {
    b + bytes <= c || c + bytes' <= b
  }

  predicate Apart(p: Pool) {
    forall b, c :: b in p.slabs && c in p.slabs && b != c ==> ApartFrom(b, p.slabs[b].bytes, c, p.slabs[c].bytes)
  }

  /** A large slab holds one block, which is leased. */
  predicate LargeBusy(p: Pool) {
    forall b :: b in p.slabs && p.slabs[b].classIndex == LARGE ==> p.slabs[b].count == 1 && 0 in p.slabs[b].requests
  }

  /** The same slabs, differing at most in their free lists and headers. */
  predicate SameSlabs(p: Pool, q: Pool) {
    && q.lists == p.lists && q.slabs.Keys == p.slabs.Keys
    && forall b :: b in p.slabs ==>
        q.slabs[b].bytes == p.slabs[b].bytes && q.slabs[b].classIndex == p.slabs[b].classIndex
  }

  lemma StructureFrame(p: Pool, q: Pool)
    requires SameSlabs(p, q) && Listed(p) && Apart(p)
    ensures Listed(q) && Apart(q)
  {
    assert forall b :: b in q.slabs ==> b in q.slabs.Keys;
    assert forall b :: b in p.slabs ==> b in p.slabs.Keys;
  }

  // ---- counters ----

  function MapOf(slabs: map<nat, Slab>, f: Slab -> nat): map<nat, nat> {
    map b | b in slabs :: f(slabs[b])
  }

  ghost function SumOf(slabs: map<nat, Slab>, f: Slab -> nat): nat {
    Sum(MapOf(slabs, f))
  }

  lemma SumOfUpdate(slabs: map<nat, Slab>, b: nat, s: Slab, f: Slab -> nat)
    requires b in slabs
    ensures SumOf(slabs[b := s], f) == SumOf(slabs, f) - f(slabs[b]) + f(s)
  {
    assert MapOf(slabs[b := s], f) == MapOf(slabs, f)[b := f(s)];
    SumUpdate(MapOf(slabs, f), b, f(s));
  }

  lemma SumOfAdd(slabs: map<nat, Slab>, b: nat, s: Slab, f: Slab -> nat)
    requires b !in slabs
    ensures SumOf(slabs[b := s], f) == SumOf(slabs, f) + f(s)
  {
    assert MapOf(slabs[b := s], f) == MapOf(slabs, f)[b := f(s)];
    SumAdd(MapOf(slabs, f), b, f(s));
  }

  lemma SumOfRemove(slabs: map<nat, Slab>, b: nat, f: Slab -> nat)
    requires b in slabs
    ensures SumOf(slabs - {b}, f) == SumOf(slabs, f) - f(slabs[b])
  {
    assert MapOf(slabs - {b}, f) == MapOf(slabs, f) - {b};
    SumRemove(MapOf(slabs, f), b);
  }

  function Times(n: nat, x: nat): nat {
    n * x
  }

  lemma OneMore(n: nat, x: nat)
    ensures Times(n + 1, x) == Times(n, x) + x && Times(0, x) == 0
  {
  }

  const BYTES: Slab -> nat := (s: Slab) => s.bytes
  const RESERVED: Slab -> nat := (s: Slab) => Times(|s.requests|, s.stride)
  const CAPACITY: Slab -> nat := (s: Slab) => Times(|s.requests|, s.capacity)
  const LIVE: Slab -> nat := (s: Slab) => |s.requests|
  ghost const IN_USE: Slab -> nat := (s: Slab) => Sum(s.requests)

  /** Every counter is the total, over the slabs, of what it counts. */
  ghost predicate Counted(p: Pool) {
    && p.stats.committed == SumOf(p.slabs, BYTES)
    && p.stats.inUseReserved == SumOf(p.slabs, RESERVED)
    && p.stats.inUseCapacity == SumOf(p.slabs, CAPACITY)
    && p.stats.live == SumOf(p.slabs, LIVE)
    && p.stats.inUseBytes == SumOf(p.slabs, IN_USE)
    && p.stats.slabCount == |p.slabs|
  }

  /** Replacing a slab changes each total by the difference it makes. */
  lemma Replaced(p: Pool, b: nat, s: Slab)
    requires Counted(p) && b in p.slabs
    ensures var q := p.slabs[b := s];
            && SumOf(q, BYTES) == p.stats.committed - p.slabs[b].bytes + s.bytes
            && SumOf(q, RESERVED) == p.stats.inUseReserved - Times(|p.slabs[b].requests|,
                p.slabs[b].stride) + Times(|s.requests|, s.stride)
            && SumOf(q, CAPACITY) == p.stats.inUseCapacity - Times(|p.slabs[b].requests|,
                p.slabs[b].capacity) + Times(|s.requests|, s.capacity)
            && SumOf(q, LIVE) == p.stats.live - |p.slabs[b].requests| + |s.requests|
            && SumOf(q, IN_USE) == p.stats.inUseBytes - Sum(p.slabs[b].requests) + Sum(s.requests)
            && |q| == p.stats.slabCount
  {
    hide SumOf, Sum, Times;
    SumOfUpdate(p.slabs, b, s, BYTES);
    SumOfUpdate(p.slabs, b, s, RESERVED);
    SumOfUpdate(p.slabs, b, s, CAPACITY);
    SumOfUpdate(p.slabs, b, s, LIVE);
    SumOfUpdate(p.slabs, b, s, IN_USE);
    AddedSize(p.slabs, b, s);
  }

  /** A change to a free list alone leaves every counter right. */
  lemma FreeListCounted(p: Pool, q: Pool, b: nat, s: Slab)
    requires Counted(p) && b in p.slabs && q.slabs == p.slabs[b := s] && q.stats == p.stats
    requires s == p.slabs[b].(free := s.free, freeCount := s.freeCount)
    ensures Counted(q)
  {
    hide SumOf, Sum, Times;
    Replaced(p, b, s);
  }

  lemma AddRequestCounted(p: Pool, b: nat, i: nat, size: nat)
    requires Counted(p) && b in p.slabs && i !in p.slabs[b].requests
    ensures Counted(AddRequest(p, b, i, size))
  {
    hide SumOf, Sum, Times, BYTES, RESERVED, CAPACITY, LIVE, IN_USE;
    var s := p.slabs[b];
    var t := s.(requests := s.requests[i := size]);
    Replaced(p, b, t);
    SumAdd(s.requests, i, size);
    assert |t.requests| == |s.requests| + 1;
    OneMore(|s.requests|, s.stride);
    OneMore(|s.requests|, s.capacity);
  }

  /** Deactivate replaces one slab and subtracts what it stood for. */
  lemma DeactivateSlab(p: Pool, block: Block)
    requires Leased(p, block)
    ensures block.slab in Deactivate(p, block).slabs
    ensures var s, q := p.slabs[block.slab], Deactivate(p, block);
            var t := q.slabs[block.slab];
            && q.slabs == p.slabs[block.slab := t]
            && t.requests == s.requests - {block.index} && t.bytes == s.bytes && t.stride == s.stride &&
                t.capacity == s.capacity
            && q.stats == Stats(p.stats.committed, p.stats.inUseBytes - s.requests[block.index],
                p.stats.inUseCapacity - s.capacity,
                                p.stats.inUseReserved - s.stride, p.stats.live - 1, p.stats.slabCount)
  {
  }

  lemma OneRequestLess(s: Slab, t: Slab, i: nat)
    requires i in s.requests && t.requests == s.requests - {i} && t.stride == s.stride && t.capacity == s.capacity
    ensures |s.requests| == |t.requests| + 1 && Sum(s.requests) == Sum(t.requests) + s.requests[i]
    ensures Times(|s.requests|, s.stride) == Times(|t.requests|, t.stride) + s.stride
    ensures Times(|s.requests|, s.capacity) == Times(|t.requests|, t.capacity) + s.capacity
  {
    hide Times;
    SumRemove(s.requests, i);
    RemovedSize(s.requests, i);
    OneMore(|t.requests|, s.stride);
    OneMore(|t.requests|, s.capacity);
  }

  lemma DeactivateCounted(p: Pool, block: Block)
    requires Counted(p) && Leased(p, block)
    ensures Counted(Deactivate(p, block))
  {
    hide SumOf, Sum, Times, Deactivate, BYTES, RESERVED, CAPACITY, LIVE, IN_USE;
    DeactivateSlab(p, block);
    var s, q := p.slabs[block.slab], Deactivate(p, block);
    var t := q.slabs[block.slab];
    OneRequestLess(s, t, block.index);
    Replaced(p, block.slab, t);
    assert SumOf(q.slabs, BYTES) == q.stats.committed;
    assert SumOf(q.slabs, RESERVED) == q.stats.inUseReserved;
    assert SumOf(q.slabs, CAPACITY) == q.stats.inUseCapacity;
  }

  lemma Unused(s: Slab)
    requires s.requests == map[]
    ensures BYTES(s) == s.bytes && RESERVED(s) == 0 && CAPACITY(s) == 0 && LIVE(s) == 0 && IN_USE(s) == 0
  {
    SumEmpty<nat>();
    OneMore(0, s.stride);
    OneMore(0, s.capacity);
  }

  lemma AddSlabCounted(p: Pool, b: nat, s: Slab)
    requires Counted(p) && b !in p.slabs && s.requests == map[] && s.classIndex < |p.lists|
    ensures Counted(AddSlab(p, b, s))
  {
    hide SumOf, Sum, Times;
    Unused(s);
    hide BYTES, RESERVED, CAPACITY, LIVE, IN_USE;
    SumOfAdd(p.slabs, b, s, BYTES);
    SumOfAdd(p.slabs, b, s, RESERVED);
    SumOfAdd(p.slabs, b, s, CAPACITY);
    SumOfAdd(p.slabs, b, s, LIVE);
    SumOfAdd(p.slabs, b, s, IN_USE);
    AddedSize(p.slabs, b, s);
  }

  lemma FreeSlabCounted(p: Pool, c: nat, k: nat)
    requires Counted(p) && c < |p.lists| && k < |p.lists[c]| && p.lists[c][k] in p.slabs
    requires p.slabs[p.lists[c][k]].requests == map[]
    ensures Counted(FreeSlab(p, c, k))
  {
    hide SumOf, Sum, Times, RemoveAt;
    var b := p.lists[c][k];
    Unused(p.slabs[b]);
    hide BYTES, RESERVED, CAPACITY, LIVE, IN_USE;
    SumOfRemove(p.slabs, b, BYTES);
    SumOfRemove(p.slabs, b, RESERVED);
    SumOfRemove(p.slabs, b, CAPACITY);
    SumOfRemove(p.slabs, b, LIVE);
    SumOfRemove(p.slabs, b, IN_USE);
    RemovedSize(p.slabs, b);
  }

  lemma {:induction false} RequestsFit(s: Slab)
    requires SlabOk(s)
    ensures |s.requests| <= s.count
  {
    var range := Range(s.count);
    assert s.requests.Keys <= range;
    SubsetSize(s.requests.Keys, range);
  }

  lemma Scale(a: nat, b: nat, x: nat)
    requires a <= b
    ensures a * x <= b * x
  {
  }

  /** What is in use never exceeds what is committed, so cached bytes never underflow. */
  lemma ReservedWithinCommitted(p: Pool)
    requires Owned(p) && Counted(p)
    ensures 0 <= p.stats.inUseReserved <= p.stats.committed
  {
    var r, b := MapOf(p.slabs, RESERVED), MapOf(p.slabs, BYTES);
    forall k | k in r ensures r[k] <= b[k] {
      assert SlabOk(p.slabs[k]);
      RequestsFit(p.slabs[k]);
      Scale(|p.slabs[k].requests|, p.slabs[k].count, p.slabs[k].stride);
      assert r[k] == Times(|p.slabs[k].requests|, p.slabs[k].stride);
    }
    assert r.Keys == b.Keys;
    SumMonotone(r, b);
  }
}
