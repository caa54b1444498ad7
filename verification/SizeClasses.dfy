/** Size classes of the memory pool: powers of two from 64 bytes to 1 MiB. */
module SizeClasses {

  const NUM_CLASSES: nat := 15
  const MAX_POOLED: nat := 1024 * 1024

  /** 64 << index */
  function ClassSize(index: nat): (size: nat)
    ensures size >= 64
  {
    if index == 0 then 64 else 2 * ClassSize(index - 1)
  }

  function Quotient(total: nat, size: nat): (n: nat)
    requires size >= 64
    ensures n * size <= total
  {
    total / size
  }

  function BatchCount(index: nat): (n: nat)
    ensures 1 <= n <= 64
  {
    var n := Quotient(4096, ClassSize(index));
    BatchBound(n, ClassSize(index));
    if n == 0 then 1 else n
  }

  lemma BatchBound(n: nat, size: nat)
    requires size >= 64 && n * size <= 4096
    ensures n <= 64
  {
    assert n * 64 <= n * size;
  }

  /** The smallest class that holds `size`, or NUM_CLASSES when none does. */
  predicate IsClassOf(index: nat, size: nat) {
    && index <= NUM_CLASSES
    && (index < NUM_CLASSES ==> size <= ClassSize(index))
    && (index > 0 ==> ClassSize(index - 1) < size)
  }

  function ClassFrom(index: nat, size: nat): (c: nat)
    requires index <= NUM_CLASSES && (index > 0 ==> ClassSize(index - 1) < size)
    ensures IsClassOf(c, size)
    decreases NUM_CLASSES - index
  {
    if index == NUM_CLASSES || size <= ClassSize(index) then index else ClassFrom(index + 1, size)
  }

  function ClassOf(size: nat): (c: nat)
    ensures IsClassOf(c, size)
  {
    ClassFrom(0, size)
  }

  lemma {:induction false} ClassSizesGrow(i: nat, j: nat)
    requires i < j
    ensures ClassSize(i) < ClassSize(j)
    decreases j
  {
    if i < j - 1 {
      ClassSizesGrow(i, j - 1);
    }
  }

  lemma ClassIsUnique(i: nat, j: nat, size: nat)
    requires IsClassOf(i, size) && IsClassOf(j, size)
    ensures i == j
  {
    if i < j - 1 {
      ClassSizesGrow(i, j - 1);
    } else if j < i - 1 {
      ClassSizesGrow(j, i - 1);
    }
  }

  lemma LargestClass()
    ensures ClassSize(NUM_CLASSES - 1) == MAX_POOLED
  {
    assert ClassSize(4) == 1024;
    assert ClassSize(8) == 16 * 1024;
    assert ClassSize(12) == 256 * 1024;
  }

  method GetSizeClassIndex(size: nat) returns (index: nat)
    ensures IsClassOf(index, size)
  {
    index := 0;
    var capacity := 64;
    while capacity < size && index < NUM_CLASSES
      invariant index <= NUM_CLASSES && capacity == ClassSize(index)
      invariant index > 0 ==> ClassSize(index - 1) < size
      decreases NUM_CLASSES - index
    {
      capacity := capacity * 2;
      index := index + 1;
    }
  }

  /** Pooled sizes have a class; larger ones do not. */
  lemma PooledHasClass(index: nat, size: nat)
    requires IsClassOf(index, size)
    ensures size <= MAX_POOLED <==> index < NUM_CLASSES
  {
    LargestClass();
    if index < NUM_CLASSES - 1 {
      ClassSizesGrow(index, NUM_CLASSES - 1);
    }
  }
}
