/** The pool's operations and every interleaving of them. */
module PoolRuns {
  import opened SizeClasses
  import opened PoolModel
  import opened PoolSafety
  import opened PoolAccounting

  ghost predicate Core(p: Pool) {
    Owned(p) && Listed(p) && Apart(p) && Counted(p) && p.stats.committed <= p.maxCommitted
  }

  ghost predicate Inv(p: Pool) {
    Core(p) && LargeBusy(p)
  }

  // ---- moving one block ----

  lemma SlabUpdateSame(p: Pool, q: Pool, b: nat, s: Slab)
    requires b in p.slabs && q.slabs == p.slabs[b := s] && q.lists == p.lists
    requires s.bytes == p.slabs[b].bytes && s.classIndex == p.slabs[b].classIndex
    ensures SameSlabs(p, q)
  {
    assert q.slabs.Keys == p.slabs.Keys;
  }

  /** A step on one slab's blocks keeps lists and addresses. */
  lemma SlabUpdateStructure(p: Pool, q: Pool, b: nat, s: Slab)
    requires Listed(p) && Apart(p)
    requires b in p.slabs && q.slabs == p.slabs[b := s] && q.lists == p.lists
    requires s.bytes == p.slabs[b].bytes && s.classIndex == p.slabs[b].classIndex
    ensures Listed(q) && Apart(q)
  {
    hide Listed, Apart;
    SlabUpdateSame(p, q, b, s);
    StructureFrame(p, q);
  }

  lemma SlabUpdateBusy(p: Pool, q: Pool, b: nat, s: Slab)
    requires LargeBusy(p)
    requires b in p.slabs && q.slabs == p.slabs[b := s]
    requires s.count == p.slabs[b].count && s.classIndex == p.slabs[b].classIndex &&
             p.slabs[b].requests.Keys <= s.requests.Keys
    ensures LargeBusy(q)
  {
  }

  lemma TakeFreeInv(p: Pool, b: nat, k: Key)
    requires Inv(p) && b in p.slabs && p.slabs[b].free != [] && p.slabs[b].classIndex == k.classIndex < LARGE
    ensures Inv(TakeFree(p, b, k))
  {
    hide Owned, Listed, Apart, Counted, LargeBusy;
    var q := TakeFree(p, b, k);
    TakeFreeOwned(p, b, k);
    SlabUpdateStructure(p, q, b, q.slabs[b]);
    FreeListCounted(p, q, b, q.slabs[b]);
    SlabUpdateBusy(p, q, b, q.slabs[b]);
  }

  lemma HeadExists(p: Pool, k: Key)
    requires Owned(p) && CacheOf(p, k) != []
    ensures var block := CacheOf(p, k)[0];
            && block.slab in p.slabs && p.slabs[block.slab].classIndex == k.classIndex < LARGE
            && block.index !in p.slabs[block.slab].requests
  {
    PopHeld(p, k);
    var block := CacheOf(p, k)[0];
    assert OnePlace(p, block.slab, block.index);
  }

  lemma ReturnHeadInv(p: Pool, k: Key)
    requires Inv(p) && CacheOf(p, k) != []
    ensures CacheOf(p, k)[0].slab in p.slabs
    ensures Inv(ReturnHead(p, k))
  {
    hide Owned, Listed, Apart, Counted, LargeBusy;
    HeadExists(p, k);
    ReturnHeadOwned(p, k);
    var b, q := CacheOf(p, k)[0].slab, ReturnHead(p, k);
    SlabUpdateStructure(p, q, b, q.slabs[b]);
    FreeListCounted(p, q, b, q.slabs[b]);
    SlabUpdateBusy(p, q, b, q.slabs[b]);
  }

  lemma PopCounted(p: Pool, k: Key)
    requires Counted(p) && CacheOf(p, k) != []
    ensures Counted(Pop(p, k))
  {
    hide SumOf;
  }

  lemma ActivateCounted(p: Pool, k: Key, size: nat)
    requires Owned(p) && Counted(p) && CacheOf(p, k) != []
    ensures CacheOf(p, k)[0].slab in p.slabs
    ensures Counted(Activate(p, k, size))
  {
    hide Owned, Counted;
    HeadExists(p, k);
    var block := CacheOf(p, k)[0];
    PopCounted(p, k);
    AddRequestCounted(Pop(p, k), block.slab, block.index, size);
  }

  lemma ActivateInv(p: Pool, k: Key, size: nat)
    requires Inv(p) && CacheOf(p, k) != [] && k.classIndex < LARGE && size <= ClassSize(k.classIndex)
    ensures CacheOf(p, k)[0].slab in p.slabs
    ensures Inv(Activate(p, k, size))
  {
    hide Owned, Listed, Apart, Counted, LargeBusy;
    HeadExists(p, k);
    ActivateOwned(p, k, size);
    ActivateCounted(p, k, size);
    var b, q := CacheOf(p, k)[0].slab, Activate(p, k, size);
    SlabUpdateStructure(p, q, b, q.slabs[b]);
    SlabUpdateBusy(p, q, b, q.slabs[b]);
  }

  lemma DeactivateCore(p: Pool, block: Block)
    requires Core(p) && Leased(p, block)
    ensures Core(Deactivate(p, block))
  {
    hide Owned, Listed, Apart, Counted;
    DeactivateOwned(p, block);
    DeactivateCounted(p, block);
    var b, q := block.slab, Deactivate(p, block);
    assert q.slabs == p.slabs[b := q.slabs[b]];
    SlabUpdateStructure(p, q, b, q.slabs[b]);
  }

  // ---- freeing slabs ----

  lemma RemoveAtElems(list: seq<nat>, k: nat)
    requires k < |list| && Distinct(list)
    ensures Distinct(RemoveAt(list, k))
    ensures forall x :: x in RemoveAt(list, k) <==> x in list && x != list[k]
    ensures forall j :: 0 <= j < |RemoveAt(list, k)| ==> RemoveAt(list, k)[j] == if j < k then list[j] else list[j + 1]
  {
    var r := RemoveAt(list, k);
    forall x | x in list && x != list[k] ensures x in r {
      var j :| 0 <= j < |list| && list[j] == x;
      assert r[if j < k then j else j - 1] == x;
    }
  }

  lemma FreeSlabStructure(p: Pool, c: nat, k: nat)
    requires Listed(p) && Apart(p) && c < |p.lists| && k < |p.lists[c]|
    ensures Listed(FreeSlab(p, c, k)) && Apart(FreeSlab(p, c, k))
  {
    var q, b := FreeSlab(p, c, k), p.lists[c][k];
    RemoveAtElems(p.lists[c], k);
    forall d, j | 0 <= d < |q.lists| && 0 <= j < |q.lists[d]|
      ensures q.lists[d][j] in q.slabs && q.slabs[q.lists[d][j]].classIndex == d
    {
      if d != c {
        assert p.lists[d][j] in p.slabs;
      }
    }
  }

  lemma FreeSlabCore(p: Pool, c: nat, k: nat)
    requires Core(p) && c < |p.lists| && k < |p.lists[c]| && p.lists[c][k] in p.slabs && Idle(p.slabs[p.lists[c][k]])
    ensures Core(FreeSlab(p, c, k))
    ensures FreeSlab(p, c, k).stats.committed <= p.stats.committed
  {
    hide Owned, Listed, Apart, Counted, RemoveAt, Idle;
    IdleHasNothingOut(p, p.lists[c][k]);
    FreeSlabOwned(p, c, k);
    FreeSlabStructure(p, c, k);
    FreeSlabCounted(p, c, k);
  }

  lemma FreeSlabBusy(p: Pool, c: nat, k: nat)
    requires LargeBusy(p) && c < |p.lists| && k < |p.lists[c]| && p.lists[c][k] in p.slabs
    ensures LargeBusy(FreeSlab(p, c, k))
  {
  }

  // ---- trimming ----

  /** Some idle slabs are gone and nothing else has changed. */
  predicate Thinner(p: Pool, q: Pool) {
    && (forall b :: b in q.slabs ==> b in p.slabs && q.slabs[b] == p.slabs[b])
    && (forall b :: b in p.slabs && b !in q.slabs ==> Idle(p.slabs[b]))
    && q.caches == p.caches && q.holder == p.holder && q.maxCommitted == p.maxCommitted && q.maxCached == p.maxCached
    && q.stats.inUseReserved == p.stats.inUseReserved && q.stats.committed <= p.stats.committed
  }

  predicate NoIdle(p: Pool, c: nat) {
    forall b :: b in p.slabs && p.slabs[b].classIndex == c ==> !Idle(p.slabs[b])
  }

  /** No idle slab in list c from position k on. */
  predicate NoIdleFrom(p: Pool, c: nat, k: nat) {
    c < |p.lists| && forall j :: k <= j < |p.lists[c]| ==> p.lists[c][j] in p.slabs && !Idle(p.slabs[p.lists[c][j]])
  }

  lemma FreeSlabThinner(p: Pool, c: nat, k: nat)
    requires Inv(p) && c < |p.lists| && k < |p.lists[c]| && p.lists[c][k] in p.slabs && Idle(p.slabs[p.lists[c][k]])
    ensures Inv(FreeSlab(p, c, k)) && Thinner(p, FreeSlab(p, c, k))
    ensures FreeSlab(p, c, k).lists[c][..k] == p.lists[c][..k]
  {
    hide Owned, Listed, Apart, Counted, LargeBusy, Idle;
    FreeSlabCore(p, c, k);
    FreeSlabBusy(p, c, k);
  }

  lemma ThinnerTransitive(p: Pool, q: Pool, r: Pool)
    requires Thinner(p, q) && Thinner(q, r)
    ensures Thinner(p, r)
  {
    hide Idle;
  }

  lemma ThinnerNoIdle(p: Pool, q: Pool, c: nat)
    requires Thinner(p, q) && NoIdle(p, c)
    ensures NoIdle(q, c)
  {
    hide Idle;
  }

  /** What trimming list c from position k on has done, and why it stopped. */
  ghost predicate TrimmedFrom(p: Pool, q: Pool, stopped: bool, c: nat, k: nat, all: bool) {
    && Inv(q) && Thinner(p, q) && c < |p.lists| && k <= |p.lists[c]| && c < |q.lists| && k <= |q.lists[c]|
    && q.lists[c][..k] == p.lists[c][..k]
    && if stopped then Enough(q, all) else NoIdleFrom(q, c, k)
  }

  lemma ListedExists(p: Pool, c: nat, k: nat)
    requires Inv(p) && c < |p.lists| && k < |p.lists[c]|
    ensures p.lists[c][k] in p.slabs
  {
  }

  lemma TrimmedAfterFree(p: Pool, f: Pool, q: Pool, stopped: bool, c: nat, k: nat, all: bool)
    requires TrimmedFrom(f, q, stopped, c, k, all) && Thinner(p, f)
    requires c < |p.lists| && k <= |p.lists[c]| && f.lists[c][..k] == p.lists[c][..k]
    ensures TrimmedFrom(p, q, stopped, c, k, all)
  {
    hide Inv, Thinner, NoIdleFrom;
    ThinnerTransitive(p, f, q);
  }

  lemma TrimmedAfterSkip(p: Pool, q: Pool, stopped: bool, c: nat, k: nat, all: bool)
    requires TrimmedFrom(p, q, stopped, c, k + 1, all) && k < |p.lists[c]|
    requires p.lists[c][k] in p.slabs && !Idle(p.slabs[p.lists[c][k]])
    ensures TrimmedFrom(p, q, stopped, c, k, all)
  {
    SameHead(q.lists[c], p.lists[c], k);
    ListedExists(q, c, k);
    hide Inv, Idle;
  }

  lemma {:induction false} TrimListKeeps(p: Pool, c: nat, k: nat, all: bool)
    requires Inv(p) && c < |p.lists| && k <= |p.lists[c]|
    ensures TrimmedFrom(p, TrimList(p, c, k, all).0, TrimList(p, c, k, all).1, c, k, all)
    decreases |p.lists[c]| - k
  {
    hide Inv, Idle;
    if k < |p.lists[c]| && !Enough(p, all) {
      hide TrimmedFrom, Thinner;
      ListedExists(p, c, k);
      if Idle(p.slabs[p.lists[c][k]]) {
        FreeSlabThinner(p, c, k);
        var f := FreeSlab(p, c, k);
        TrimListKeeps(f, c, k, all);
        var (q, stopped) := TrimList(f, c, k, all);
        TrimmedAfterFree(p, f, q, stopped, c, k, all);
      } else {
        TrimListKeeps(p, c, k + 1, all);
        var (q, stopped) := TrimList(p, c, k + 1, all);
        TrimmedAfterSkip(p, q, stopped, c, k, all);
      }
    }
  }

  lemma SameHead(s: seq<nat>, t: seq<nat>, k: nat)
    requires k < |s| && k < |t| && s[..k + 1] == t[..k + 1]
    ensures s[..k] == t[..k] && s[k] == t[k]
  {
    assert s[..k] == s[..k + 1][..k] && s[k] == s[..k + 1][k];
    assert t[..k] == t[..k + 1][..k] && t[k] == t[..k + 1][k];
  }

  lemma ListNoIdle(p: Pool, c: nat)
    requires Inv(p) && NoIdleFrom(p, c, 0)
    ensures NoIdle(p, c)
  {
  }

  lemma {:induction false} TrimFromKeeps(p: Pool, n: nat, all: bool)
    requires Inv(p) && n <= |p.lists|
    ensures var r := TrimFrom(p, n, all);
            Inv(r) && Thinner(p, r) && (Enough(r, all) || forall c :: 0 <= c < n ==> NoIdle(r, c))
    decreases n
  {
    if n == 0 {
      hide Inv, NoIdle;
    } else {
      hide Inv, Thinner, NoIdle, NoIdleFrom;
      TrimListKeeps(p, n - 1, 0, all);
      var (q, stopped) := TrimList(p, n - 1, 0, all);
      if !stopped {
        ListNoIdle(q, n - 1);
        TrimFromKeeps(q, n - 1, all);
        var r := TrimFrom(q, n - 1, all);
        ThinnerTransitive(p, q, r);
        ThinnerNoIdle(q, r, n - 1);
      }
    }
  }

  lemma LargeNotIdle(p: Pool)
    requires Owned(p) && LargeBusy(p)
    ensures NoIdle(p, LARGE)
  {
    forall b | b in p.slabs && p.slabs[b].classIndex == LARGE ensures !Idle(p.slabs[b]) {
      if Idle(p.slabs[b]) {
        IdleHasNothingOut(p, b);
        assert false;
      }
    }
  }

  /** No slab is idle. */
  predicate NothingIdle(p: Pool) {
    forall b :: b in p.slabs ==> !Idle(p.slabs[b])
  }

  /**
   A trim keeps the invariant and frees idle slabs only. A full trim leaves no idle
   slab; the trim after a release leaves none either, or has brought the cached bytes
   down to their limit.
   */
  lemma TrimKeeps(p: Pool, all: bool)
    requires Inv(p)
    ensures Inv(TrimLocked(p, all)) && Thinner(p, TrimLocked(p, all))
    ensures Enough(TrimLocked(p, all), all) || NothingIdle(TrimLocked(p, all))
    ensures all ==> NothingIdle(TrimLocked(p, all))
  {
    hide Thinner, Apart, Counted, Idle;
    TrimFromKeeps(p, NUM_CLASSES, all);
    var r := TrimLocked(p, all);
    LargeNotIdle(r);
    hide Owned, LargeBusy;
    if !Enough(r, all) {
      assert forall c :: 0 <= c <= LARGE ==> NoIdle(r, c);
      forall b | b in r.slabs ensures !Idle(r.slabs[b]) {
        assert NoIdle(r, r.slabs[b].classIndex);
      }
    }
  }
}
