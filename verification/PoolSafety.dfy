/** Ownership, structure and accounting of the memory pool, kept by every step. */
module PoolSafety {
  import opened SizeClasses
  import opened PoolModel

  // ---- ownership: every block is in exactly one place ----

  predicate Distinct<T(==)>(s: seq<T>) {
    forall i, j :: 0 <= i < j < |s| ==> s[i] != s[j]
  }

  predicate SlabOk(s: Slab) {
    && 1 <= s.count && s.stride == Stride(s.capacity) && s.bytes == SLAB + s.count * s.stride
    && s.freeCount == |s.free| && Distinct(s.free)
    && (forall j :: 0 <= j < |s.free| ==> s.free[j] < s.count)
    && (forall i :: i in s.requests ==> i < s.count && s.requests[i] <= s.capacity)
    && (s.classIndex < LARGE ==> s.capacity == ClassSize(s.classIndex))
  }

  predicate Shaped(p: Pool) {
    forall b :: b in p.slabs ==> SlabOk(p.slabs[b])
  }

  /** Block i of slab b is free, cached by one thread, or leased; never two of these. */
  predicate OnePlace(p: Pool, b: nat, i: nat)
    requires b in p.slabs
  {
    var s := p.slabs[b];
    var free, cached, leased := i in s.free, Block(b, i) in p.holder, i in s.requests;
    (free || cached || leased) && !(free && cached) && !(free && leased) && !(cached && leased)
  }

  predicate Partitioned(p: Pool) {
    forall b, i :: b in p.slabs && 0 <= i < p.slabs[b].count ==> OnePlace(p, b, i)
  }

  /** A cached block is in the list of its own size class, and in no other. */
  predicate HolderOk(p: Pool, block: Block)
    requires block in p.holder
  {
    && block.slab in p.slabs && block.index < p.slabs[block.slab].count
    && p.slabs[block.slab].classIndex == p.holder[block].classIndex < LARGE
    && block in CacheOf(p, p.holder[block])
  }

  predicate ListHeld(p: Pool, k: Key) {
    Distinct(CacheOf(p, k)) &&
    forall j :: 0 <= j < |CacheOf(p, k)| ==> CacheOf(p, k)[j] in p.holder && p.holder[CacheOf(p, k)[j]] == k
  }

  ghost predicate Held(p: Pool) {
    (forall block :: block in p.holder ==> HolderOk(p, block)) && (forall k :: ListHeld(p, k))
  }

  ghost predicate Owned(p: Pool) {
    Shaped(p) && Partitioned(p) && Held(p)
  }

  // ---- moving one block ----

  lemma TakeFreeOwned(p: Pool, b: nat, k: Key)
    requires Owned(p) && b in p.slabs && p.slabs[b].free != [] && p.slabs[b].classIndex == k.classIndex < LARGE
    ensures Owned(TakeFree(p, b, k))
  {
    var s, q := p.slabs[b], TakeFree(p, b, k);
    var i := s.free[0];
    var block := Block(b, i);
    assert OnePlace(p, b, i);
    TakeFreeShaped(p, b, k);
    TakeFreePartitioned(p, b, k);
    TakeFreeHeld(p, b, k);
  }

  lemma HeadTail(free: seq<nat>)
    requires free != [] && Distinct(free)
    ensures Distinct(free[1..]) && free[0] !in free[1..]
    ensures forall x :: x != free[0] ==> (x in free <==> x in free[1..])
  {
    assert free == [free[0]] + free[1..];
  }

  lemma TakeFreeShaped(p: Pool, b: nat, k: Key)
    requires Shaped(p) && b in p.slabs && p.slabs[b].free != []
    ensures Shaped(TakeFree(p, b, k))
  {
    HeadTail(p.slabs[b].free);
  }

  lemma TakeFreePartitioned(p: Pool, b: nat, k: Key)
    requires Owned(p) && b in p.slabs && p.slabs[b].free != []
    ensures Partitioned(TakeFree(p, b, k))
  {
    var q := TakeFree(p, b, k);
    HeadTail(p.slabs[b].free);
    forall c, j | c in q.slabs && 0 <= j < q.slabs[c].count ensures OnePlace(q, c, j) {
      assert OnePlace(p, c, j);
    }
  }

  /** Puts a block at the head of a list. */
  function Push(p: Pool, k: Key, block: Block): Pool {
    p.(caches := p.caches[k := [block] + CacheOf(p, k)], holder := p.holder[block := k])
  }

  lemma PushListHeld(p: Pool, k: Key, block: Block, x: Key)
    requires ListHeld(p, x) && block !in p.holder
    ensures ListHeld(Push(p, k, block), x)
  {
  }

  lemma PushHeld(p: Pool, k: Key, block: Block)
    requires Held(p) && block !in p.holder && block.slab in p.slabs && block.index < p.slabs[block.slab].count
    requires p.slabs[block.slab].classIndex == k.classIndex < LARGE
    ensures Held(Push(p, k, block))
  {
    var q := Push(p, k, block);
    forall x ensures ListHeld(q, x) {
      PushListHeld(p, k, block, x);
    }
    hide ListHeld;
    forall x | x in q.holder ensures HolderOk(q, x) {
      if x != block {
        assert HolderOk(p, x);
      }
    }
  }

  lemma TakeFreeHeld(p: Pool, b: nat, k: Key)
    requires Owned(p) && b in p.slabs && p.slabs[b].free != [] && p.slabs[b].classIndex == k.classIndex < LARGE
    ensures Held(TakeFree(p, b, k))
  {
    var block := Block(b, p.slabs[b].free[0]);
    assert SlabOk(p.slabs[b]);
    assert OnePlace(p, b, block.index);
    hide Held, SlabOk, Partitioned;
    PushHeld(p, k, block);
    HeldFrame(Push(p, k, block), TakeFree(p, b, k));
  }

  function Pop(p: Pool, k: Key): Pool
    requires CacheOf(p, k) != []
  {
    p.(caches := p.caches[k := CacheOf(p, k)[1..]], holder := p.holder - {CacheOf(p, k)[0]})
  }

  lemma PopHeld(p: Pool, k: Key)
    requires Held(p) && CacheOf(p, k) != []
    ensures Held(Pop(p, k))
    ensures var block := CacheOf(p, k)[0];
            block in p.holder && p.holder[block] == k && HolderOk(p, block)
  {
    var q := Pop(p, k);
    var list := CacheOf(p, k);
    var block := list[0];
    assert ListHeld(p, k);
    forall x | x in q.holder ensures HolderOk(q, x) {
      assert HolderOk(p, x);
      if p.holder[x] == k {
        assert list == [block] + list[1..];
      }
    }
    forall x ensures ListHeld(q, x) {
      assert ListHeld(p, x);
      PopListHeld(p, k, x);
    }
  }

  lemma PopListHeld(p: Pool, k: Key, x: Key)
    requires ListHeld(p, x) && ListHeld(p, k) && CacheOf(p, k) != []
    ensures ListHeld(Pop(p, k), x)
  {
    var q, list := Pop(p, k), CacheOf(p, x);
    if x == k {
      assert CacheOf(q, k) == list[1..];
      forall j | 0 <= j < |list[1..]| ensures list[1..][j] in q.holder && q.holder[list[1..][j]] == k {
        assert list[1..][j] == list[j + 1];
      }
    } else {
      assert CacheOf(q, x) == list;
    }
  }

  /** Held depends on the slabs only through which exist, their counts and classes. */
  lemma HeldFrame(p: Pool, q: Pool)
    requires Held(p) && q.caches == p.caches && q.holder == p.holder
    requires forall b :: b in p.slabs ==>
             b in q.slabs && q.slabs[b].count == p.slabs[b].count && q.slabs[b].classIndex == p.slabs[b].classIndex
    ensures Held(q)
  {
    forall x | x in q.holder ensures HolderOk(q, x) {
      assert HolderOk(p, x);
    }
    forall k ensures ListHeld(q, k) {
      assert ListHeld(p, k);
    }
  }

  /** A step that moves one block of one slab, and leaves that block in one place. */
  lemma MovedOnly(p: Pool, q: Pool, block: Block)
    requires Partitioned(p) && block.slab in p.slabs
    requires block.slab in q.slabs && q.slabs == p.slabs[block.slab := q.slabs[block.slab]] &&
             q.slabs[block.slab].count == p.slabs[block.slab].count
    requires forall x :: x != block ==> (x in q.holder <==> x in p.holder)
    requires forall i :: i != block.index ==> (i in q.slabs[block.slab].free <==> i in p.slabs[block.slab].free)
    requires forall i :: i != block.index ==> (i in q.slabs[block.slab].requests <==> i in p.slabs[block.slab].requests)
    requires OnePlace(q, block.slab, block.index)
    ensures Partitioned(q)
  {
    forall c, j | c in q.slabs && 0 <= j < q.slabs[c].count ensures OnePlace(q, c, j) {
      assert OnePlace(p, c, j);
    }
  }

  lemma ActivateOwned(p: Pool, k: Key, size: nat)
    requires Owned(p) && CacheOf(p, k) != [] && k.classIndex < LARGE && size <= ClassSize(k.classIndex)
    ensures CacheOf(p, k)[0].slab in p.slabs
    ensures Owned(Activate(p, k, size))
  {
    PopHeld(p, k);
    var block := CacheOf(p, k)[0];
    var q := Activate(p, k, size);
    HeldFrame(Pop(p, k), q);
    hide Held;
    assert SlabOk(p.slabs[block.slab]);
    assert OnePlace(p, block.slab, block.index);
    hide SlabOk;
    MovedOnly(p, q, block);
  }

  lemma PushFreeOk(s: Slab, i: nat)
    requires SlabOk(s) && i < s.count && i !in s.free
    ensures SlabOk(s.(free := [i] + s.free, freeCount := s.freeCount + 1))
  {
  }

  lemma ReturnHeadOwned(p: Pool, k: Key)
    requires Owned(p) && CacheOf(p, k) != []
    ensures CacheOf(p, k)[0].slab in p.slabs
    ensures Owned(ReturnHead(p, k))
  {
    PopHeld(p, k);
    var block := CacheOf(p, k)[0];
    var q := ReturnHead(p, k);
    HeldFrame(Pop(p, k), q);
    hide Held;
    assert OnePlace(p, block.slab, block.index);
    PushFreeOk(p.slabs[block.slab], block.index);
    hide SlabOk;
    MovedOnly(p, q, block);
  }

  lemma DeactivateOwned(p: Pool, block: Block)
    requires Owned(p) && Leased(p, block)
    ensures Owned(Deactivate(p, block))
  {
    var s, q := p.slabs[block.slab], Deactivate(p, block);
    HeldFrame(p, q);
    hide Held;
    assert SlabOk(s) && OnePlace(p, block.slab, block.index);
    PushFreeOk(s.(requests := s.requests - {block.index}), block.index);
    hide SlabOk;
    MovedOnly(p, q, block);
  }

  // ---- adding and freeing slabs ----

  lemma AllFree(s: Slab)
    requires SlabOk(s) && Idle(s)
    ensures forall i :: 0 <= i < s.count ==> i in s.free
  {
    FullRange(s.free, s.count);
  }

  function Elems(s: seq<nat>): set<nat> {
    set x | x in s
  }

  function Range(n: nat): (r: set<nat>)
    ensures |r| == n && forall i: nat :: i in r <==> i < n
  {
    if n == 0 then {} else Range(n - 1) + {n - 1}
  }

  /** Distinct numbers below n, n of them, are all of them. */
  lemma FullRange(free: seq<nat>, n: nat)
    requires Distinct(free) && |free| == n && forall j :: 0 <= j < n ==> free[j] < n
    ensures forall i :: 0 <= i < n ==> i in free
  {
    var a, b := Elems(free), Range(n);
    ElemsSize(free);
    assert a <= b;
    assert |b - a| == |b| - |b * a| && b * a == a;
    assert b - a == {};
    forall i | 0 <= i < n ensures i in free {
      assert i in b;
      assert i !in b - a;
    }
  }

  lemma {:induction false} ElemsSize(s: seq<nat>)
    requires Distinct(s)
    ensures |Elems(s)| == |s|
  {
    if s != [] {
      var t, x := s[..|s| - 1], s[|s| - 1];
      assert s == t + [x];
      ElemsSize(t);
      assert Elems(s) == Elems(t) + {x};
    }
  }

  /** A slab is freed only when none of its blocks is out. */
  lemma IdleHasNothingOut(p: Pool, b: nat)
    requires Owned(p) && b in p.slabs && Idle(p.slabs[b])
    ensures p.slabs[b].requests == map[]
    ensures forall block :: block in p.holder ==> block.slab != b
  {
    var s := p.slabs[b];
    assert SlabOk(s);
    AllFree(s);
    forall i | 0 <= i < s.count ensures i !in s.requests && Block(b, i) !in p.holder {
      assert OnePlace(p, b, i);
    }
    assert s.requests.Keys == {};
    forall block | block in p.holder ensures block.slab != b {
      assert HolderOk(p, block);
      assert block == Block(block.slab, block.index);
    }
  }

  lemma FreeSlabOwned(p: Pool, c: nat, k: nat)
    requires Owned(p) && c < |p.lists| && k < |p.lists[c]| && p.lists[c][k] in p.slabs && Idle(p.slabs[p.lists[c][k]])
    ensures Owned(FreeSlab(p, c, k))
  {
    var b, q := p.lists[c][k], FreeSlab(p, c, k);
    IdleHasNothingOut(p, b);
    hide SlabOk, Idle;
    forall d, j | d in q.slabs && 0 <= j < q.slabs[d].count ensures OnePlace(q, d, j) {
      assert OnePlace(p, d, j);
    }
    forall x | x in q.holder ensures HolderOk(q, x) {
      assert HolderOk(p, x);
    }
    forall x ensures ListHeld(q, x) {
      assert ListHeld(p, x);
    }
  }

  lemma NewSlabOk(capacity: nat, count: nat, c: nat)
    requires count >= 1 && (c < LARGE ==> capacity == ClassSize(c))
    ensures SlabOk(NewSlab(capacity, count, c)) && forall i :: 0 <= i < count ==> i in NewSlab(capacity, count, c).free
  {
    var s := NewSlab(capacity, count, c);
    forall i | 0 <= i < count ensures i in s.free {
      assert s.free[count - 1 - i] == i;
    }
  }

  lemma AddSlabOwned(p: Pool, b: nat, s: Slab)
    requires Owned(p) && b !in p.slabs && s.classIndex < |p.lists|
    requires SlabOk(s) && s.requests == map[] && forall i :: 0 <= i < s.count ==> i in s.free
    ensures Owned(AddSlab(p, b, s))
  {
    var q := AddSlab(p, b, s);
    HeldFrame(p, q);
    forall x | x in p.holder ensures x.slab != b {
      assert HolderOk(p, x);
    }
    hide Held, SlabOk;
    forall d, j | d in q.slabs && 0 <= j < q.slabs[d].count ensures OnePlace(q, d, j) {
      if d != b {
        assert OnePlace(p, d, j);
      }
    }
  }
}
