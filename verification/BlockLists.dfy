/**
 The block lists as they are in memory: headers linked through their `next` pointers, one
 list of free blocks per slab and one list per thread and class. Popping a batch and
 returning one are proved to do to these lists what the pool's model does to sequences.
 */
module BlockLists {
  import opened PoolModel

  class PoolSlab {
    const id: nat
    var free: BlockHeader?
    var freeCount: nat
    ghost var chain: seq<BlockHeader>   // the list that starts at `free`

    constructor (id: nat)
      ensures Valid() && this.id == id && chain == []
    {
      this.id := id;
      free, freeCount, chain := null, 0, [];
    }

    ghost predicate Valid()
      reads this, chain
    {
      IsList(free, chain) && freeCount == |chain| && forall b :: b in chain ==> b.slab == this
    }
  }

  class BlockHeader {
    const slab: PoolSlab
    const index: nat
    var next: BlockHeader?

    constructor (slab: PoolSlab, index: nat)
      ensures this.slab == slab && this.index == index && next == null
    {
      this.slab, this.index, next := slab, index, null;
    }
  }

  /** Following `next` from `head` visits exactly these headers, none twice, and stops. */
  ghost predicate IsList(head: BlockHeader?, xs: seq<BlockHeader>)
    reads xs
  {
    if xs == [] then head == null
    else head == xs[0] && xs[0] !in xs[1..] && IsList(xs[0].next, xs[1..])
  }

  ghost function Indices(xs: seq<BlockHeader>): seq<nat> {
    seq(|xs|, i requires 0 <= i < |xs| => xs[i].index)
  }

  ghost function Blocks(xs: seq<BlockHeader>): seq<Block> {
    seq(|xs|, i requires 0 <= i < |xs| => Block(xs[i].slab.id, xs[i].index))
  }

  /** The free lists of these slabs are the free sequences of the model. */
  ghost predicate Represents(p: Pool, slabs: set<PoolSlab>)
    reads slabs, set s, i | s in slabs && 0 <= i < |s.chain| :: s.chain[i]
  {
    && (forall s :: s in slabs ==> s.Valid() && s.id in p.slabs)
    && (forall s :: s in slabs ==> p.slabs[s.id].free == Indices(s.chain) && p.slabs[s.id].freeCount == s.freeCount)
    && (forall s, t :: s in slabs && t in slabs && s.id == t.id ==> s == t)
  }

  /** The carving loop: each new header is pushed on the free list. */
  method Carve(slab: PoolSlab, count: nat)
    requires slab.Valid() && slab.chain == []
    modifies slab
    ensures slab.Valid() && Indices(slab.chain) == Descending(count)
    ensures forall b :: b in slab.chain ==> fresh(b)
  {
    var i := 0;
    while i < count
      invariant i <= count && slab.Valid() && Indices(slab.chain) == Descending(i)
      invariant forall b :: b in slab.chain ==> fresh(b)
    {
      var block := new BlockHeader(slab, i);
      PushBlock(slab, block);
      i := i + 1;
    }
  }

  lemma IndicesPush(block: BlockHeader, xs: seq<BlockHeader>)
    ensures Indices([block] + xs) == [block.index] + Indices(xs)
    ensures Blocks([block] + xs) == [Block(block.slab.id, block.index)] + Blocks(xs)
  {
  }

  lemma IndicesPop(xs: seq<BlockHeader>)
    requires xs != []
    ensures Indices(xs) == [xs[0].index] + Indices(xs[1..])
    ensures Blocks(xs) == [Block(xs[0].slab.id, xs[0].index)] + Blocks(xs[1..])
  {
    assert xs == [xs[0]] + xs[1..];
    IndicesPush(xs[0], xs[1..]);
  }

  method LinkBefore(block: BlockHeader, rest: BlockHeader?, ghost xs: seq<BlockHeader>)
    requires IsList(rest, xs) && block !in xs
    modifies block
    ensures IsList(block, [block] + xs)
  {
    block.next := rest;
    assert ([block] + xs)[1..] == xs;
  }

  /** Links a block in front of its slab's free list. */
  method PushBlock(slab: PoolSlab, block: BlockHeader)
    requires slab.Valid() && block.slab == slab && block !in slab.chain
    modifies slab, block
    ensures slab.Valid() && slab.chain == [block] + old(slab.chain)
    ensures Indices(slab.chain) == [block.index] + old(Indices(slab.chain))
  {
    LinkBefore(block, slab.free, slab.chain);
    IndicesPush(block, slab.chain);
    slab.free := block;
    slab.freeCount := slab.freeCount + 1;
    slab.chain := [block] + slab.chain;
  }

  method PopBlock(slab: PoolSlab) returns (block: BlockHeader)
    requires slab.Valid() && slab.free != null
    modifies slab
    ensures slab.Valid() && old(slab.chain) == [block] + slab.chain && block !in slab.chain && block.slab == slab
    ensures old(Indices(slab.chain)) == [block.index] + Indices(slab.chain)
  {
    IndicesPop(slab.chain);
    block := slab.free;
    slab.free := block.next;
    slab.freeCount := slab.freeCount - 1;
    slab.chain := slab.chain[1..];
  }

  /** One turn of the loop of FetchBatch. */
  method MoveBlock(slab: PoolSlab, result: BlockHeader?, ghost list: seq<BlockHeader>, ghost q: Pool, ghost k: Key,
      ghost slabs: set<PoolSlab>)
    returns (block: BlockHeader)
    requires Represents(q, slabs) && slab in slabs && slab.free != null && q.slabs[slab.id].free != []
    requires IsList(result, list) && Blocks(list) == CacheOf(q, k) && forall b :: b in list ==> b !in slab.chain
    modifies slab, slab.free
    ensures Represents(TakeFree(q, slab.id, k), slabs) && old(slab.chain) == [block] + slab.chain &&
            block !in slab.chain
    ensures IsList(block, [block] + list) && Blocks([block] + list) == CacheOf(TakeFree(q, slab.id, k), k)
  {
    block := PopBlock(slab);
    LinkBefore(block, result, list);
    IndicesPush(block, list);
  }

  /** The loop of FetchBatch: moves up to `count` blocks from the free list to a new list. */
  method PopBatch(slab: PoolSlab, count: nat, ghost p: Pool, ghost k: Key, ghost slabs: set<PoolSlab>)
    returns (result: BlockHeader?, ghost list: seq<BlockHeader>)
    requires Represents(p, slabs) && slab in slabs && CacheOf(p, k) == []
    modifies slab, slab.chain
    ensures Represents(TakeMany(p, slab.id, k, count), slabs)
    ensures IsList(result, list) && Blocks(list) == CacheOf(TakeMany(p, slab.id, k, count), k)
  {
    hide Represents, IsList, Blocks, CacheOf, TakeFree, TakeMany;
    var left := count;
    result, list := null, [];
    NoBlocks();
    ghost var q := p;
    while left > 0 && slab.free != null
      invariant 0 <= left <= count && Represents(q, slabs) && IsList(result, list)
      invariant Blocks(list) == CacheOf(q, k) && TakeMany(q, slab.id, k, left) == TakeMany(p, slab.id, k, count)
      invariant forall b :: b in list ==> b !in slab.chain
      invariant forall b :: b in list || b in slab.chain ==> b in old(slab.chain)
      decreases left
    {
      FreeWhileLinked(q, slab, slabs);
      TakeStep(q, slab.id, k, left);
      ghost var before := slab.chain;
      var block := MoveBlock(slab, result, list, q, k, slabs);
      assert block == before[0] && slab.chain == before[1..];
      q := TakeFree(q, slab.id, k);
      result, list, left := block, [block] + list, left - 1;
    }
    FreeWhileLinked(q, slab, slabs);
    TakeStep(q, slab.id, k, left);
  }

  lemma NoBlocks()
    ensures Blocks([]) == [] && IsList(null, [])
  {
  }

  lemma FreeWhileLinked(q: Pool, slab: PoolSlab, slabs: set<PoolSlab>)
    requires Represents(q, slabs) && slab in slabs
    ensures slab.id in q.slabs && (slab.free != null <==> q.slabs[slab.id].free != [])
    ensures slab.free != null ==> slab.free in slab.chain
  {
  }

  lemma TakeStep(q: Pool, b: nat, k: Key, n: nat)
    requires b in q.slabs
    ensures TakeMany(q, b, k, n) == if n == 0 || q.slabs[b].free == [] then q
            else TakeMany(TakeFree(q, b, k), b, k, n - 1)
  {
  }

  /** The loop of ReleaseBatch: every block of the list goes back to its own slab. */
  method ReturnBatch(head: BlockHeader?, ghost list: seq<BlockHeader>, ghost p: Pool, ghost k: Key,
      ghost slabs: set<PoolSlab>)
    requires Represents(p, slabs) && IsList(head, list) && Blocks(list) == CacheOf(p, k)
    requires forall b :: b in list ==> b.slab in slabs && b !in b.slab.chain
    modifies slabs, list
    ensures Represents(ReturnAll(p, k), slabs)
  {
    var rest := head;
    ghost var left := list;
    ghost var q := p;
    while rest != null
      invariant IsList(rest, left) && Represents(q, slabs)
      invariant Blocks(left) == CacheOf(q, k) && ReturnAll(q, k) == ReturnAll(p, k)
      invariant forall b :: b in left ==> b in list && b.slab in slabs && b !in b.slab.chain
      decreases |left|
    {
      var block := rest;
      rest := block.next;
      IndicesPop(left);
      ReturnStep(q, k);
      q := ReturnHead(q, k);
      left := left[1..];
      PushBlock(block.slab, block);
    }
  }

  lemma ReturnStep(q: Pool, k: Key)
    requires CacheOf(q, k) != [] && CacheOf(q, k)[0].slab in q.slabs
    ensures ReturnAll(q, k) == ReturnAll(ReturnHead(q, k), k)
  {
  }
}
