/**
 * LazyBatchCollection: the node range [0, nodeCount) cut into contiguous
 * batches of `batchSize` ids (the last one shorter), each handed to a
 * supplier when an iterator reaches it; optionally the produced batches
 * are cached and later iterations replay the cache.
 */
module LazyBatches {
  import opened Wrappers
  import opened Numbers

  /** Number of batches of `batchSize` ids needed for `elementCount` ids: the ceiling of their quotient. */
  function ThreadCount(batchSize: int, elementCount: int): (r: nat)
    requires batchSize > 0 && elementCount >= 0
    ensures r * batchSize >= elementCount
    ensures r == 0 || (r - 1) * batchSize < elementCount
    ensures r == 0 <==> elementCount == 0
  {
    var q := (elementCount + batchSize - 1) / batchSize;
    var rem := (elementCount + batchSize - 1) % batchSize;
    assert elementCount + batchSize - 1 == q * batchSize + rem;
    assert (q - 1) * batchSize == q * batchSize - batchSize;
    q
  }

  /** The `i`-th batch: it starts at `i * batchSize` and holds at most `batchSize` ids, none at or past `nodeCount`. */
  function Batch(batchSize: int, nodeCount: int, i: nat): (int, int) {
    (i * batchSize, Min(batchSize, nodeCount - i * batchSize))
  }

  /** The (start, length) of every batch, in iteration order. */
  function Batches(batchSize: int, nodeCount: int): seq<(int, int)>
    requires batchSize > 0 && nodeCount >= 0
  {
    seq(ThreadCount(batchSize, nodeCount), i requires 0 <= i => Batch(batchSize, nodeCount, i))
  }

  /** What the supplier returns for each of `batches`, in order. */
  function Produced<T>(supplier: (int, int) -> T, batches: seq<(int, int)>): seq<T> {
    seq(|batches|, k requires 0 <= k < |batches| => supplier(batches[k].0, batches[k].1))
  }

  // ---------------------------------------------------------------------------
  // The partition

  lemma MulMonotonic(i: int, j: int, batchSize: int)
    requires 0 <= i <= j && batchSize > 0
    ensures i * batchSize <= j * batchSize
  {
    assert j * batchSize == i * batchSize + (j - i) * batchSize;
  }

  /** Every batch holds between 1 and `batchSize` ids, and all but the last exactly `batchSize`. */
  lemma BatchLengths(batchSize: int, nodeCount: int, i: nat)
    requires batchSize > 0 && nodeCount >= 0
    requires i < ThreadCount(batchSize, nodeCount)
    ensures 1 <= Batch(batchSize, nodeCount, i).1 <= batchSize
    ensures i + 1 < ThreadCount(batchSize, nodeCount) ==> Batch(batchSize, nodeCount, i).1 == batchSize
  {
    var n := ThreadCount(batchSize, nodeCount);
    MulMonotonic(i, n - 1, batchSize);
    if i + 1 < n {
      MulMonotonic(i + 1, n - 1, batchSize);
      assert (i + 1) * batchSize == i * batchSize + batchSize;
    }
  }

  /** Batches are contiguous: the first starts at 0, each ends where the next starts, and the last ends at `nodeCount`. */
  lemma BatchesContiguous(batchSize: int, nodeCount: int, i: nat)
    requires batchSize > 0 && nodeCount >= 0
    requires i < ThreadCount(batchSize, nodeCount)
    ensures i == 0 ==> Batch(batchSize, nodeCount, i).0 == 0
    ensures i + 1 < ThreadCount(batchSize, nodeCount) ==>
      Batch(batchSize, nodeCount, i).0 + Batch(batchSize, nodeCount, i).1 == Batch(batchSize, nodeCount, i + 1).0
    ensures i + 1 == ThreadCount(batchSize, nodeCount) ==>
      Batch(batchSize, nodeCount, i).0 + Batch(batchSize, nodeCount, i).1 == nodeCount
  {
    BatchLengths(batchSize, nodeCount, i);
    assert (i + 1) * batchSize == i * batchSize + batchSize;
  }

  /** Distinct batches share no id. */
  lemma BatchesDisjoint(batchSize: int, nodeCount: int, i: nat, j: nat, x: int)
    requires batchSize > 0 && nodeCount >= 0
    requires i < j < ThreadCount(batchSize, nodeCount)
    requires InBatch(batchSize, nodeCount, i, x)
    ensures !InBatch(batchSize, nodeCount, j, x)
  {
    assert (i + 1) * batchSize == i * batchSize + batchSize;
    MulMonotonic(i + 1, j, batchSize);
  }

  /** Id `x` lies in the `i`-th batch. */
  predicate InBatch(batchSize: int, nodeCount: int, i: nat, x: int) {
    Batch(batchSize, nodeCount, i).0 <= x < Batch(batchSize, nodeCount, i).0 + Batch(batchSize, nodeCount, i).1
  }

  /** An id of [0, nodeCount) lies in batch number `x / batchSize`. */
  lemma BatchOf(batchSize: int, nodeCount: int, x: int)
    requires batchSize > 0 && 0 <= x < nodeCount
    ensures x / batchSize < ThreadCount(batchSize, nodeCount)
    ensures InBatch(batchSize, nodeCount, x / batchSize, x)
  {
    var n := ThreadCount(batchSize, nodeCount);
    var i := x / batchSize;
    assert i * batchSize <= x < i * batchSize + batchSize by {
      assert x == i * batchSize + x % batchSize;
    }
    if i >= n {
      MulMonotonic(n, i, batchSize);
      assert false;
    }
  }

  /** Every id of a batch lies in [0, nodeCount). */
  lemma InBatchInRange(batchSize: int, nodeCount: int, i: nat, x: int)
    requires batchSize > 0 && InBatch(batchSize, nodeCount, i, x)
    ensures 0 <= x < nodeCount
  {
    MulMonotonic(0, i, batchSize);
  }

  /** The batches cover exactly [0, nodeCount). */
  lemma BatchesCover(batchSize: int, nodeCount: int, x: int)
    requires batchSize > 0 && nodeCount >= 0
    ensures 0 <= x < nodeCount <==> exists i: nat | i < ThreadCount(batchSize, nodeCount) :: InBatch(batchSize, nodeCount, i, x)
  {
    if 0 <= x < nodeCount {
      BatchOf(batchSize, nodeCount, x);
    }
    if exists i: nat | i < ThreadCount(batchSize, nodeCount) :: InBatch(batchSize, nodeCount, i, x) {
      var i: nat :| i < ThreadCount(batchSize, nodeCount) && InBatch(batchSize, nodeCount, i, x);
      InBatchInRange(batchSize, nodeCount, i, x);
    }
  }

  /** Ten ids in batches of three: (0,3), (3,3), (6,3), (9,1). */
  lemma TenByThree()
    ensures Batches(3, 10) == [(0, 3), (3, 3), (6, 3), (9, 1)]
  {
    assert ThreadCount(3, 10) == 4;
  }

  // ---------------------------------------------------------------------------
  // The collection and its iterator

  class LazyBatchCollection<T> {
    const saveResults: bool
    const supplier: (int, int) -> T
    const nodeCount: int
    const batchSize: int
    const numberOfBatches: nat
    /** The cache of produced batches; `None` is a Java `null`. */
    var batches: Option<seq<T>>
    /** Every (start, length) the supplier was called with, in call order. */
    ghost var supplierCalls: seq<(int, int)>

    /** The cache, when there is one, holds what the supplier made for a prefix of the batches. */
    ghost predicate Valid()
      reads this
    {
      && batchSize > 0 && nodeCount >= 0
      && numberOfBatches == ThreadCount(batchSize, nodeCount)
      && (!saveResults ==> batches.None?)
      && (batches.Some? ==>
            |batches.value| <= numberOfBatches
            && batches.value == Produced(supplier, Batches(batchSize, nodeCount)[..|batches.value|]))
    }

    constructor (batchSize: int, nodeCount: int, saveResults: bool, supplier: (int, int) -> T)
      requires batchSize > 0 && nodeCount >= 0
      ensures Valid()
      ensures this.batchSize == batchSize && this.nodeCount == nodeCount
      ensures this.saveResults == saveResults && this.supplier == supplier
      ensures numberOfBatches == ThreadCount(batchSize, nodeCount)
      ensures batches.None? && supplierCalls == []
    {
      this.saveResults := saveResults;
      this.supplier := supplier;
      this.nodeCount := nodeCount;
      this.batchSize := batchSize;
      this.numberOfBatches := ThreadCount(batchSize, nodeCount);
      this.batches := None;
      this.supplierCalls := [];
    }

    /** The public factory: a collection that never caches, so every iteration calls the supplier again. */
    static method Of(nodeCount: int, batchSize: int, supplier: (int, int) -> T) returns (r: LazyBatchCollection<T>)
      requires batchSize > 0 && nodeCount >= 0
      ensures fresh(r) && r.Valid()
      ensures !r.saveResults && r.batches.None? && r.supplierCalls == []
      ensures r.batchSize == batchSize && r.nodeCount == nodeCount && r.supplier == supplier
    {
      r := new LazyBatchCollection(batchSize, nodeCount, false, supplier);
    }

    /**
     * A replay of the cache when there is one; otherwise a fresh iterator
     * over the batches, after creating an empty cache in saving mode.
     */
    method Iterator() returns (it: BatchIterator<T>)
      requires Valid()
      modifies this
      ensures Valid() && fresh(it) && it.Valid() && it.owner == this && it.i == 0
      ensures supplierCalls == old(supplierCalls)
      ensures old(batches).Some? ==> batches == old(batches) && it.replay == old(batches)
      ensures old(batches).None? ==> it.replay.None? && batches == (if saveResults then Some([]) else None)
    {
      if batches.Some? {
        it := new BatchIterator(this, batches);
        return;
      }
      if saveResults {
        batches := Some([]);
      }
      it := new BatchIterator(this, None);
    }

    /** The cache size when there is a cache, the number of batches otherwise. */
    function Size(): (r: int)
      reads this
      requires Valid()
      ensures 0 <= r <= ThreadCount(batchSize, nodeCount)
      ensures batches.None? ==> r == ThreadCount(batchSize, nodeCount)
      ensures !saveResults ==> r == ThreadCount(batchSize, nodeCount)
      ensures batches.Some? ==> r == |batches.value|
    {
      if batches.Some? then |batches.value| else numberOfBatches
    }

    /**
     * Runs a fresh iterator to its end and returns what it yields (how a
     * consumer of the collection sees it).
     */
    method Elements() returns (elements: seq<T>)
      requires Valid() && batches.None?
      modifies this
      ensures Valid()
      ensures elements == Produced(supplier, Batches(batchSize, nodeCount))
      ensures supplierCalls == old(supplierCalls) + Batches(batchSize, nodeCount)
      ensures batches == if saveResults then Some(elements) else None
    {
      var it := Iterator();
      elements := [];
      var next := it.Fetch();
      while next.Some?
        invariant Valid() && it.Valid() && it.owner == this && it.replay.None?
        invariant it.i <= numberOfBatches + 1
        invariant next.Some? ==> 1 <= it.i <= numberOfBatches
        invariant next.None? ==> it.i == numberOfBatches + 1
        invariant elements + (if next.Some? then [next.value] else []) == Produced(supplier, Batches(batchSize, nodeCount)[..Min(it.i, numberOfBatches)])
        invariant supplierCalls == old(supplierCalls) + Batches(batchSize, nodeCount)[..Min(it.i, numberOfBatches)]
        invariant batches == if saveResults then Some(elements + (if next.Some? then [next.value] else [])) else None
        decreases numberOfBatches + 1 - it.i
      {
        elements := elements + [next.value];
        next := it.Fetch();
      }
      assert Batches(batchSize, nodeCount)[..numberOfBatches] == Batches(batchSize, nodeCount);
    }
  }

  class BatchIterator<T> {
    const owner: LazyBatchCollection<T>
    /** The cache being replayed, or `None` for an iterator that calls the supplier. */
    const replay: Option<seq<T>>
    var i: nat
    var start: int

    /**
     * A fetching iterator has made `min(i, numberOfBatches)` batches and
     * `start` is where the next one begins; when its collection caches,
     * the cache holds exactly the batches it made.
     */
    ghost predicate Valid()
      reads this, owner
    {
      && owner.Valid()
      && (replay.None? ==>
            && start == Min(i, owner.numberOfBatches) * owner.batchSize
            && (owner.saveResults ==> owner.batches.Some? && |owner.batches.value| == Min(i, owner.numberOfBatches)))
    }

    constructor (owner: LazyBatchCollection<T>, replay: Option<seq<T>>)
      requires owner.Valid()
      requires replay.None? && owner.saveResults ==> owner.batches == Some([])
      ensures this.owner == owner && this.replay == replay && i == 0 && start == 0
      ensures Valid()
    {
      this.owner := owner;
      this.replay := replay;
      this.i := 0;
      this.start := 0;
    }

    /**
     * The next batch, or `None` once all are handed out.  A fetching
     * iterator calls the supplier with the `i`-th batch's (start, length)
     * and appends the result to the cache when there is one; `i` advances
     * on every call.
     */
    method Fetch() returns (r: Option<T>)
      requires Valid()
      modifies this, owner`batches, owner`supplierCalls
      ensures Valid()
      ensures i == old(i) + 1
      ensures replay.Some? ==> r == (if old(i) < |replay.value| then Some(replay.value[old(i)]) else None)
      ensures replay.Some? || old(i) >= owner.numberOfBatches ==> unchanged(owner)
      ensures replay.None? && old(i) < owner.numberOfBatches ==>
        && r == Some(owner.supplier(Batch(owner.batchSize, owner.nodeCount, old(i)).0, Batch(owner.batchSize, owner.nodeCount, old(i)).1))
        && owner.supplierCalls == old(owner.supplierCalls) + [Batch(owner.batchSize, owner.nodeCount, old(i))]
        && owner.batches == if old(owner.batches).Some? then Some(old(owner.batches).value + [r.value]) else None
      ensures replay.None? && old(i) >= owner.numberOfBatches ==> r.None?
    {
      var current := i;
      i := i + 1;
      if replay.Some? {
        if current < |replay.value| {
          return Some(replay.value[current]);
        }
        return None;
      }
      if current >= owner.numberOfBatches {
        return None;
      }
      var batchStart := start;
      start := start + owner.batchSize;
      assert (current + 1) * owner.batchSize == current * owner.batchSize + owner.batchSize;
      var length := Min(owner.batchSize, owner.nodeCount - batchStart);
      var t := owner.supplier(batchStart, length);
      owner.supplierCalls := owner.supplierCalls + [(batchStart, length)];
      if owner.batches.Some? {
        owner.batches := Some(owner.batches.value + [t]);
        assert Batches(owner.batchSize, owner.nodeCount)[..current + 1] == Batches(owner.batchSize, owner.nodeCount)[..current] + [(batchStart, length)];
      }
      return Some(t);
    }
  }
}
