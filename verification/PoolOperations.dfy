/** What the pool's operations keep, and when an allocation may fail. */
module PoolOperations {
  import opened Basics
  import opened SizeClasses
  import opened PoolModel
  import opened PoolSafety
  import opened PoolAccounting
  import opened PoolRuns

  // ---- a new slab ----

  /** The system allocator answers with memory that no slab overlaps. */
  predicate Fresh(p: Pool, b: nat, bytes: nat) {
    b !in p.slabs && forall c :: c in p.slabs ==> ApartFrom(b, bytes, c, p.slabs[c].bytes)
  }

  predicate FreshAnswer(p: Pool, capacity: nat, count: nat, mem: Option<nat>)
    requires |p.lists| == LARGE + 1
  {
    var q := MakeRoom(p, capacity);
    mem.Some? && HasRoom(q, capacity) ==>
        Fresh(q, mem.value, SLAB + FittingCount(q, capacity, count) * Stride(capacity))
  }

  lemma AddSlabStructure(p: Pool, b: nat, s: Slab)
    requires Listed(p) && Apart(p) && Fresh(p, b, s.bytes) && s.classIndex < |p.lists|
    ensures Listed(AddSlab(p, b, s)) && Apart(AddSlab(p, b, s))
  {
    AddSlabListed(p, b, s);
    AddSlabApart(p, b, s);
  }

  lemma AddSlabListed(p: Pool, b: nat, s: Slab)
    requires Listed(p) && b !in p.slabs && s.classIndex < |p.lists|
    ensures Listed(AddSlab(p, b, s))
  {
    var q, c := AddSlab(p, b, s), s.classIndex;
    assert q.lists[c] == [b] + p.lists[c];
    forall d | 0 <= d < |q.lists| ensures Distinct(q.lists[d]) {
      assert Distinct(p.lists[d]);
    }
    forall x | x in q.slabs ensures q.slabs[x].classIndex <= LARGE && x in q.lists[q.slabs[x].classIndex] {
      if x == b {
        assert q.lists[c][0] == b;
      }
    }
  }

  lemma AddSlabApart(p: Pool, b: nat, s: Slab)
    requires Apart(p) && Fresh(p, b, s.bytes) && s.classIndex < |p.lists|
    ensures Apart(AddSlab(p, b, s))
  {
  }

  lemma AddSlabCore(p: Pool, b: nat, s: Slab)
    requires Core(p) && Fresh(p, b, s.bytes) && s.classIndex < |p.lists|
    requires SlabOk(s) && s.requests == map[] && (forall i :: 0 <= i < s.count ==> i in s.free)
    requires p.stats.committed + s.bytes <= p.maxCommitted
    ensures Core(AddSlab(p, b, s))
  {
    hide Owned, Listed, Apart, Counted, SlabOk;
    ListsLength(p);
    AddSlabOwned(p, b, s);
    AddSlabStructure(p, b, s);
    AddSlabCounted(p, b, s);
  }

  lemma ListsLength(p: Pool)
    requires Listed(p)
    ensures |p.lists| == LARGE + 1
  {
  }

  lemma AddSlabBusy(p: Pool, b: nat, s: Slab)
    requires LargeBusy(p) && b !in p.slabs && s.classIndex < |p.lists| && s.classIndex != LARGE
    ensures LargeBusy(AddSlab(p, b, s))
  {
  }

  /** The carved blocks fit into what is left of the budget. */
  lemma FittingCountFits(p: Pool, capacity: nat, count: nat)
    requires HasRoom(p, capacity) && count >= 1
    ensures 1 <= FittingCount(p, capacity, count) <= count
    ensures SLAB + FittingCount(p, capacity, count) * Stride(capacity) <= Available(p)
  {
    var s, room := StridePositive(capacity), Available(p) - SLAB;
    var n, f := room / s, FittingCount(p, capacity, count);
    hide Stride;
    DivideBack(room, s);
    if f != n {
      Scale(f, n, s);
    }
  }

  lemma DivideBack(room: nat, s: nat)
    requires s >= 1
    ensures room / s * s <= room && (room >= s ==> room / s >= 1)
  {
  }

  lemma MakeRoomKeeps(p: Pool, capacity: nat)
    requires Inv(p) && |p.lists| == LARGE + 1
    ensures Inv(MakeRoom(p, capacity)) && Thinner(p, MakeRoom(p, capacity))
    ensures !HasRoom(MakeRoom(p, capacity), capacity) ==> NothingIdle(MakeRoom(p, capacity))
  {
    hide Inv, NothingIdle, Idle, TrimLocked, Stride;
    TrimKeeps(p, true);
  }

  /** A new slab carved by AllocateSlab. */
  predicate Carved(q: Pool, b: nat, capacity: nat, count: nat, c: nat) {
    b in q.slabs && exists n :: 1 <= n <= count && q.slabs[b] == NewSlab(capacity, n, c)
  }

  /** Every large slab but b holds its leased block. */
  predicate LargeBusyBut(p: Pool, b: nat) {
    forall x :: x in p.slabs && p.slabs[x].classIndex == LARGE && x != b ==>
        p.slabs[x].count == 1 && 0 in p.slabs[x].requests
  }

  ghost predicate GotSlab(q: Pool, b: nat, capacity: nat, count: nat, c: nat) {
    Core(q) && (c < LARGE ==> Inv(q)) && Carved(q, b, capacity, count, c) && LargeBusyBut(q, b)
  }

  ghost predicate NoSlab(p: Pool, q: Pool, capacity: nat, mem: Option<nat>) {
    Inv(q) && Thinner(p, q) && (mem.Some? && Representable(capacity) ==> NothingIdle(q) && !HasRoom(q, capacity))
  }

  /**
   AllocateSlab keeps the invariant. It answers with a fresh, fully free slab, or, when
   the system allocator had memory, only after freeing every idle slab left less budget
   than one slab header and one block.
   */
  lemma AllocateSlabKeeps(p: Pool, capacity: nat, count: nat, c: nat, mem: Option<nat>)
    requires Inv(p) && count >= 1 && c <= LARGE && (c < LARGE ==> capacity == ClassSize(c))
    requires |p.lists| == LARGE + 1 && FreshAnswer(p, capacity, count, mem)
    ensures var (q, b) := AllocateSlab(p, capacity, count, c, mem);
            && q.caches == p.caches
            && if b.None? then NoSlab(p, q, capacity, mem) else GotSlab(q, b.value, capacity, count, c)
  {
    if Representable(capacity) {
      MakeRoomKeeps(p, capacity);
      var q := MakeRoom(p, capacity);
      if HasRoom(q, capacity) && mem.Some? {
        hide MakeRoom, Inv, Idle, GotSlab, Representable, HasRoom, NewSlab;
        AllocateWithRoom(q, capacity, count, c, mem.value);
      } else {
        hide Inv, NothingIdle, MakeRoom, Idle, Stride;
      }
    } else {
      hide Inv, Stride, Representable;
    }
  }

  lemma AddSlabBusyBut(p: Pool, b: nat, s: Slab)
    requires LargeBusy(p) && s.classIndex < |p.lists|
    ensures LargeBusyBut(AddSlab(p, b, s), b)
  {
  }

  lemma NewSlabAdded(q: Pool, capacity: nat, n: nat, count: nat, c: nat, b: nat)
    requires Inv(q) && 1 <= n <= count && c <= LARGE && (c < LARGE ==> capacity == ClassSize(c)) &&
             |q.lists| == LARGE + 1
    requires Fresh(q, b, NewSlab(capacity, n, c).bytes) &&
             q.stats.committed + NewSlab(capacity, n, c).bytes <= q.maxCommitted
    ensures GotSlab(AddSlab(q, b, NewSlab(capacity, n, c)), b, capacity, count, c)
  {
    hide Owned, Listed, Apart, Counted, SlabOk, Fresh, LargeBusy, LargeBusyBut;
    var s := NewSlab(capacity, n, c);
    NewSlabOk(capacity, n, c);
    assert s.classIndex == c && s.requests == map[] && s.count == n;
    hide NewSlab;
    FreshMeansNew(q, b, s.bytes);
    AddSlabCore(q, b, s);
    AddSlabBusyBut(q, b, s);
    if c < LARGE {
      AddSlabBusy(q, b, s);
    }
  }

  lemma AllocateWithRoom(q: Pool, capacity: nat, count: nat, c: nat, b: nat)
    requires Inv(q) && count >= 1 && c <= LARGE && (c < LARGE ==> capacity == ClassSize(c)) && |q.lists| == LARGE + 1
    requires HasRoom(q, capacity) && Fresh(q, b, SLAB + FittingCount(q, capacity, count) * Stride(capacity))
    ensures GotSlab(AddSlab(q, b, NewSlab(capacity, FittingCount(q, capacity, count), c)), b, capacity, count, c)
  {
    hide Inv, Fresh, Stride, GotSlab, AddSlab, Descending;
    FittingCountFits(q, capacity, count);
    var n := FittingCount(q, capacity, count);
    hide FittingCount, HasRoom;
    NewSlabAdded(q, capacity, n, count, c, b);
  }

  lemma FreshMeansNew(p: Pool, b: nat, bytes: nat)
    requires Fresh(p, b, bytes)
    ensures b !in p.slabs
  {
  }

  // ---- fetching and returning blocks ----

  /** Taking blocks from one slab: the list grows by exactly what the slab can give. */
  lemma {:induction false} TakeManyKeeps(p: Pool, b: nat, k: Key, n: nat)
    requires Inv(p) && b in p.slabs && p.slabs[b].classIndex == k.classIndex < LARGE
    ensures Inv(TakeMany(p, b, k, n))
    ensures |CacheOf(TakeMany(p, b, k, n), k)| == |CacheOf(p, k)| + Min(n, |p.slabs[b].free|)
    ensures TakeMany(p, b, k, n).lists == p.lists
    decreases n
  {
    hide Inv;
    if n > 0 && p.slabs[b].free != [] {
      TakeFreeInv(p, b, k);
      TakeManyKeeps(TakeFree(p, b, k), b, k, n - 1);
    }
  }

  lemma {:induction false} FirstFreeFinds(p: Pool, list: seq<nat>)
    ensures match FirstFree(p, list)
            case Some(b) => b in list && b in p.slabs && p.slabs[b].free != []
            case None => forall j :: 0 <= j < |list| && list[j] in p.slabs ==> p.slabs[list[j]].free == []
  {
    if list != [] && !(list[0] in p.slabs && p.slabs[list[0]].free != []) {
      FirstFreeFinds(p, list[1..]);
      forall j | 0 <= j < |list| && list[j] in p.slabs && FirstFree(p, list).None? ensures p.slabs[list[j]].free == [] {
        if j > 0 {
          assert list[j] == list[1..][j - 1];
        }
      }
    }
  }

  /** No central free block of class c is left. */
  predicate NoFree(p: Pool, c: nat) {
    forall b :: b in p.slabs && p.slabs[b].classIndex == c ==> p.slabs[b].free == []
  }

  lemma NoFreeIff(p: Pool, c: nat)
    requires Listed(p) && c <= LARGE
    ensures FirstFree(p, p.lists[c]).None? <==> NoFree(p, c)
  {
    FirstFreeFinds(p, p.lists[c]);
  }

  lemma ThinnerNoFree(p: Pool, q: Pool, c: nat)
    requires Thinner(p, q) && NoFree(p, c)
    ensures NoFree(q, c)
  {
  }

  /** Why an allocation may fail: nothing idle, no free block of the class, no budget for one. */
  predicate Exhausted(p: Pool, capacity: nat, c: nat) {
    NothingIdle(p) && (c < LARGE ==> NoFree(p, c)) && Available(p) < SLAB + Stride(capacity)
  }

  lemma ClassRepresentable(c: nat)
    requires c < LARGE
    ensures Representable(ClassSize(c))
  {
    LargestClass();
    if c < LARGE - 1 {
      ClassSizesGrow(c, LARGE - 1);
    }
  }

  lemma FirstFreeListed(p: Pool, c: nat)
    requires Inv(p) && c <= LARGE && |p.lists| == LARGE + 1
    ensures FirstFree(p, p.lists[c]).None? <==> NoFree(p, c)
    ensures FirstFree(p, p.lists[c]).Some? ==>
              var b := FirstFree(p, p.lists[c]).value;
              b in p.slabs && p.slabs[b].classIndex == c && p.slabs[b].free != []
  {
    NoFreeIff(p, c);
    FirstFreeFinds(p, p.lists[c]);
  }

  lemma CarvedGives(q: Pool, b: nat, k: Key, count: nat)
    requires Carved(q, b, ClassSize(k.classIndex), count, k.classIndex) && k.classIndex < LARGE
    ensures b in q.slabs && q.slabs[b].classIndex == k.classIndex && q.slabs[b].free != []
  {
    hide Stride;
  }

  lemma NoSlabExhausted(p: Pool, q: Pool, c: nat, mem: Option<nat>)
    requires NoSlab(p, q, ClassSize(c), mem) && c < LARGE && NoFree(p, c) && mem.Some?
    ensures Exhausted(q, ClassSize(c), c)
  {
    hide Inv, NothingIdle, NoFree, Stride, Representable, Thinner;
    ClassRepresentable(c);
    ThinnerNoFree(p, q, c);
  }

  /** The fetch that has to carve a new slab. */
  lemma FetchCarves(p: Pool, k: Key, n: nat, mem: Option<nat>)
    requires Inv(p) && k.classIndex < LARGE && n >= 1 && |p.lists| == LARGE + 1
    requires NoFree(p, k.classIndex) && FreshAnswer(p, ClassSize(k.classIndex), n, mem)
    ensures var (q, b) := AllocateSlab(p, ClassSize(k.classIndex), n, k.classIndex, mem);
            if b.Some? then Inv(TakeMany(q, b.value, k, n)) && CacheOf(TakeMany(q, b.value, k, n), k) != []
            else Inv(q) && (mem.Some? ==> Exhausted(q, ClassSize(k.classIndex), k.classIndex))
  {
    var c := k.classIndex;
    hide Inv, NoFree, FreshAnswer, Stride, AllocateSlab, Representable, Carved, Exhausted, NothingIdle, LargeBusyBut,
         Thinner;
    AllocateSlabKeeps(p, ClassSize(c), n, c, mem);
    var (q, b) := AllocateSlab(p, ClassSize(c), n, c, mem);
    if b.Some? {
      CarvedGives(q, b.value, k, n);
      TakeManyKeeps(q, b.value, k, n);
    } else if mem.Some? {
      NoSlabExhausted(p, q, c, mem);
    }
  }

  /** A fetch that finds no memory leaves the pool exhausted; any other fetch gives at least one block. */
  lemma FetchKeeps(p: Pool, k: Key, n: nat, mem: Option<nat>)
    requires Inv(p) && k.classIndex < LARGE && n >= 1 && |p.lists| == LARGE + 1
    requires NoFree(p, k.classIndex) ==> FreshAnswer(p, ClassSize(k.classIndex), n, mem)
    ensures Inv(Fetch(p, k, n, mem))
    ensures mem.Some? && CacheOf(Fetch(p, k, n, mem), k) == [] ==>
            Exhausted(Fetch(p, k, n, mem), ClassSize(k.classIndex), k.classIndex)
  {
    hide Inv, NoFree, FreshAnswer, Stride, AllocateSlab, Exhausted, FirstFree;
    FirstFreeListed(p, k.classIndex);
    match FirstFree(p, p.lists[k.classIndex])
    case Some(b) => TakeManyKeeps(p, b, k, n);
    case None =>
      FetchCarves(p, k, n, mem);
      var (q, b) := AllocateSlab(p, ClassSize(k.classIndex), n, k.classIndex, mem);
      assert Fetch(p, k, n, mem) == if b.None? then q else TakeMany(q, b.value, k, n);
  }

  lemma {:induction false} ReturnAllKeeps(p: Pool, k: Key)
    requires Inv(p)
    ensures Inv(ReturnAll(p, k)) && CacheOf(ReturnAll(p, k), k) == []
    decreases |CacheOf(p, k)|
  {
    hide Inv;
    if CacheOf(p, k) != [] {
      ReturnHeadInv(p, k);
      ReturnAllKeeps(ReturnHead(p, k), k);
    }
  }

  lemma FlushListKeeps(p: Pool, k: Key)
    requires Inv(p) && |p.lists| == LARGE + 1
    ensures Inv(FlushList(p, k)) && CacheOf(FlushList(p, k), k) == []
  {
    hide Inv, Idle, TrimLocked;
    if CacheOf(p, k) != [] {
      ReturnAllKeeps(p, k);
      TrimKeeps(ReturnAll(p, k), false);
    }
  }

  // ---- releasing ----

  /** The block of a large slab is its only one, so releasing it idles the slab. */
  lemma LargeReleaseIdles(p: Pool, block: Block)
    requires Owned(p) && LargeBusy(p) && Leased(p, block) && p.slabs[block.slab].classIndex == LARGE
    ensures var q := Deactivate(p, block);
            block.slab in q.slabs && Idle(q.slabs[block.slab]) && LargeBusyBut(q, block.slab)
  {
    var s := p.slabs[block.slab];
    assert SlabOk(s) && OnePlace(p, block.slab, block.index);
    OnlyZero(s.free);
  }

  lemma OnlyZero(free: seq<nat>)
    requires forall j :: 0 <= j < |free| ==> free[j] < 1
    ensures free != [] ==> 0 in free
  {
    if free != [] {
      assert free[0] == 0;
    }
  }

  lemma FreeLargeBusy(q: Pool, c: nat, k: nat)
    requires c < |q.lists| && k < |q.lists[c]| && q.lists[c][k] in q.slabs && LargeBusyBut(q, q.lists[c][k])
    ensures LargeBusy(FreeSlab(q, c, k))
  {
  }

  lemma DeactivateBusy(p: Pool, block: Block)
    requires LargeBusy(p) && Leased(p, block) && p.slabs[block.slab].classIndex != LARGE
    ensures LargeBusy(Deactivate(p, block))
  {
  }

  lemma LargeListed(p: Pool, block: Block)
    requires Core(p) && Leased(p, block)
    ensures |p.lists| == LARGE + 1 && p.slabs[block.slab].classIndex <= LARGE
    ensures block.slab in p.lists[p.slabs[block.slab].classIndex]
    ensures Deactivate(p, block).lists == p.lists
  {
  }

  predicate SameLease(p: Pool, q: Pool, x: Block) {
    Leased(q, x) && Leased(p, x) && q.slabs[x.slab].requests[x.index] == p.slabs[x.slab].requests[x.index]
  }

  /** The leases of q are those of p but one. */
  ghost predicate LeasesBut(p: Pool, block: Block, q: Pool) {
    && !Leased(q, block)
    && (forall x :: Leased(p, x) && x != block ==> SameLease(p, q, x))
    && (forall x :: Leased(q, x) ==> Leased(p, x))
  }

  lemma DeactivateLeases(p: Pool, block: Block)
    requires Leased(p, block)
    ensures var q := Deactivate(p, block);
            LeasesBut(p, block, q) && block.slab in q.slabs && block.index in q.slabs[block.slab].free
  {
  }

  /** Freeing idle slabs ends no lease. */
  lemma ThinnerLeases(p: Pool, block: Block, q: Pool, r: Pool)
    requires LeasesBut(p, block, q) && Owned(q) && Thinner(q, r)
    ensures LeasesBut(p, block, r)
  {
    hide Owned, Idle;
    forall x | Leased(q, x) ensures Leased(r, x) {
      if x.slab !in r.slabs {
        IdleHasNothingOut(q, x.slab);
        assert false;
      }
    }
  }

  lemma FreeIdleThins(q: Pool, c: nat, k: nat)
    requires c < |q.lists| && k < |q.lists[c]| && q.lists[c][k] in q.slabs && Idle(q.slabs[q.lists[c][k]])
    ensures Thinner(q, FreeSlab(q, c, k)) && q.lists[c][k] !in FreeSlab(q, c, k).slabs
  {
  }

  /**
   Releasing a block ends its lease and no other. A large slab goes back to the system at
   once. A pooled block is free again in its slab, if the trim that follows keeps the slab;
   that trim ends within the limit on cached bytes, or with no idle slab left.
   */
  lemma ReleaseKeeps(p: Pool, block: Block)
    requires Inv(p) && Leased(p, block) && |p.lists| == LARGE + 1
    ensures var r := Release(p, block);
            && Inv(r) && LeasesBut(p, block, r)
            && (p.slabs[block.slab].classIndex == LARGE ==> block.slab !in r.slabs)
            && (p.slabs[block.slab].classIndex != LARGE ==>
                  && (block.slab in r.slabs ==> block.index in r.slabs[block.slab].free)
                  && (Enough(r, false) || NothingIdle(r)))
  {
    LargeListed(p, block);
    DeactivateCore(p, block);
    DeactivateLeases(p, block);
    hide LeasesBut, Idle;
    if p.slabs[block.slab].classIndex == LARGE {
      LargeReleaseIdles(p, block);
      hide Owned, Listed, Apart, Counted, LargeBusy, LargeBusyBut, Deactivate, Leased;
      LargeReleased(p, block);
    } else {
      DeactivateBusy(p, block);
      hide Core, LargeBusy, TrimLocked, Deactivate, Leased;
      PooledReleased(p, block);
    }
  }

  lemma LargeReleased(p: Pool, block: Block)
    requires Leased(p, block) && p.slabs[block.slab].classIndex == LARGE
    requires var q := Deactivate(p, block);
             && Core(q) && |q.lists| == LARGE + 1 && block.slab in q.lists[LARGE] && LeasesBut(p, block, q)
             && block.slab in q.slabs && Idle(q.slabs[block.slab]) && LargeBusyBut(q, block.slab)
    ensures var q := Deactivate(p, block);
            var r := FreeSlab(q, LARGE, IndexIn(q.lists[LARGE], block.slab));
            Inv(r) && LeasesBut(p, block, r) && block.slab !in r.slabs
  {
    hide Owned, Listed, Apart, Counted, LargeBusy, LargeBusyBut, Deactivate, Idle, LeasesBut, Thinner;
    var q := Deactivate(p, block);
    var k := IndexIn(q.lists[LARGE], block.slab);
    FreeSlabCore(q, LARGE, k);
    FreeLargeBusy(q, LARGE, k);
    FreeIdleThins(q, LARGE, k);
    ThinnerLeases(p, block, q, FreeSlab(q, LARGE, k));
  }

  lemma PooledReleased(p: Pool, block: Block)
    requires Leased(p, block) && Inv(Deactivate(p, block)) && |Deactivate(p, block).lists| == LARGE + 1
    requires var q := Deactivate(p, block);
             LeasesBut(p, block, q) && block.slab in q.slabs && block.index in q.slabs[block.slab].free
    ensures var r := TrimLocked(Deactivate(p, block), false);
            && Inv(r) && LeasesBut(p, block, r) && (Enough(r, false) || NothingIdle(r))
            && (block.slab in r.slabs ==> block.index in r.slabs[block.slab].free)
  {
    hide Owned, Listed, Apart, Counted, LargeBusy, Deactivate, Idle, LeasesBut, TrimLocked, NothingIdle, Enough;
    var q := Deactivate(p, block);
    TrimKeeps(q, false);
    ThinnerLeases(p, block, q, TrimLocked(q, false));
  }

  // ---- large allocations ----

  /** Hands out the only block of a fresh slab. */
  function LeaseWhole(q: Pool, b: nat, size: nat): Pool
    requires b in q.slabs
  {
    AddRequest(q.(slabs := q.slabs[b := q.slabs[b].(free := [], freeCount := 0)]), b, 0, size)
  }

  lemma LeaseWholeOwned(q: Pool, b: nat, size: nat)
    requires Owned(q) && b in q.slabs && q.slabs[b] == NewSlab(size, 1, LARGE)
    ensures Owned(LeaseWhole(q, b, size))
  {
    var r := LeaseWhole(q, b, size);
    HeldFrame(q, r);
    assert SlabOk(q.slabs[b]);
    assert r.slabs[b].count == 1 && r.slabs[b].requests == map[0 := size];
    assert OnePlace(q, b, 0) by {
      assert q.slabs[b].count == 1;
    }
    assert q.slabs[b].free == [0];
    hide Held, Stride;
    MovedOnly(q, r, Block(b, 0));
  }

  lemma LeaseWholeCounted(q: Pool, b: nat, size: nat)
    requires Counted(q) && b in q.slabs && q.slabs[b] == NewSlab(size, 1, LARGE)
    ensures Counted(LeaseWhole(q, b, size))
  {
    hide Counted, Stride;
    var s := q.slabs[b].(free := [], freeCount := 0);
    var m := q.(slabs := q.slabs[b := s]);
    FreeListCounted(q, m, b, s);
    AddRequestCounted(m, b, 0, size);
  }

  lemma LeaseWholeInv(q: Pool, b: nat, size: nat)
    requires Core(q) && b in q.slabs && q.slabs[b] == NewSlab(size, 1, LARGE) && LargeBusyBut(q, b)
    ensures Inv(LeaseWhole(q, b, size))
  {
    hide Owned, Listed, Apart, Counted, Stride;
    LeaseWholeOwned(q, b, size);
    LeaseWholeCounted(q, b, size);
    var r := LeaseWhole(q, b, size);
    assert r.slabs == q.slabs[b := r.slabs[b]];
    SlabUpdateStructure(q, r, b, r.slabs[b]);
  }

  /** A large allocation leases a slab of its own, or leaves the pool exhausted. */
  lemma AllocateLargeKeeps(p: Pool, size: nat, mem: Option<nat>)
    requires Inv(p) && |p.lists| == LARGE + 1 && FreshAnswer(p, size, 1, mem)
    ensures var (q, block) := AllocateLarge(p, size, mem);
            && Inv(q)
            && (block.Some? ==> Leased(q, block.value) && q.slabs[block.value.slab].capacity == size)
            && (block.None? && mem.Some? && Representable(size) ==> Exhausted(q, size, LARGE))
  {
    hide Inv, FreshAnswer, AllocateSlab, Stride, Representable, LargeBusyBut, Core;
    AllocateSlabKeeps(p, size, 1, LARGE, mem);
    var (q, b) := AllocateSlab(p, size, 1, LARGE, mem);
    if b.Some? {
      LeaseWholeInv(q, b.value, size);
    }
  }

  lemma SetLimitsKeeps(p: Pool, maxCommitted: nat, maxCached: nat)
    requires Inv(p) && |p.lists| == LARGE + 1
    ensures Inv(SetLimits(p, maxCommitted, maxCached).0)
    ensures SetLimits(p, maxCommitted, maxCached).1 <==> TrimLocked(p, true).stats.committed <= maxCommitted
  {
    hide Inv, Idle, TrimLocked;
    TrimKeeps(p, true);
    var q := TrimLocked(p, true);
    if q.stats.committed <= maxCommitted {
      LimitsFrame(q, maxCommitted, maxCached);
    }
  }

  lemma LimitsFrame(q: Pool, maxCommitted: nat, maxCached: nat)
    requires Inv(q) && q.stats.committed <= maxCommitted
    ensures Inv(q.(maxCommitted := maxCommitted, maxCached := maxCached))
  {
    hide Owned, Counted, SumOf, Listed, Apart;
    var r := q.(maxCommitted := maxCommitted, maxCached := maxCached);
    LimitsOwned(q, r);
    LimitsCounted(q, r);
    StructureFrame(q, r);
  }

  lemma LimitsCounted(q: Pool, r: Pool)
    requires Counted(q) && r.slabs == q.slabs && r.stats == q.stats
    ensures Counted(r)
  {
    hide SumOf;
  }

  lemma LimitsOwned(q: Pool, r: Pool)
    requires Owned(q) && r.slabs == q.slabs && r.caches == q.caches && r.holder == q.holder
    ensures Owned(r)
  {
    HeldFrame(q, r);
    hide Held, SlabOk;
    forall d, j | d in r.slabs && 0 <= j < r.slabs[d].count ensures OnePlace(r, d, j) {
      assert OnePlace(q, d, j);
    }
  }
}
