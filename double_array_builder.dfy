/**
 * DoubleArrayNodePropertiesBuilder: array-valued node properties are written
 * by native (store) node id into a paged sparse array, and are later either
 * exposed directly by native id (`BuildDirect`) or drained into a fresh sparse
 * array keyed by dense (mapped) node id (`Build`).
 *
 * The element type `E` stands for `double`; values are `seq<E>` and the
 * comparison with the default is element-wise equality, as `Arrays.equals`.
 */
module DoubleArrayNodeProperties {
  import opened Wrappers
  import opened SparseArrays
  import opened Numbers

  /**
   * The identifier-mapping service: `toMappedNodeId` answers the dense id of
   * a native id, or `None` for NOT_FOUND; `highestNeoId` is the largest native
   * id it knows (-1 when it knows none).
   */
  datatype IdMap = IdMap(toMappedNodeId: nat -> Option<nat>, highestNeoId: int)

  /** No two native ids are mapped to the same dense id. */
  ghost predicate InjectiveOnFound(idMap: IdMap) {
    forall n1: nat, n2: nat
      | idMap.toMappedNodeId(n1).Some? && idMap.toMappedNodeId(n1) == idMap.toMappedNodeId(n2)
      :: n1 == n2
  }

  /** A configured default is compared element-wise; a null default matches nothing. */
  predicate IsDefault<E(==)>(value: seq<E>, defaultValue: Option<seq<E>>) {
    defaultValue.Some? && value == defaultValue.value
  }

  /**
   * One iteration of the inner drain loop, for native id `neoId` holding the
   * raw slot `value`: skipped when the id is not mapped, when the slot was
   * never written, or when it holds the default; otherwise copied to the
   * mapped id.
   */
  function CopySlot<E(==)>(dense: SparseArray<seq<E>>, neoId: nat, value: Option<seq<E>>,
                           idMap: IdMap, defaultValue: Option<seq<E>>): (r: SparseArray<seq<E>>)
    requires dense.Valid()
    ensures r.Valid() && r.defaultValue == dense.defaultValue
  {
    match idMap.toMappedNodeId(neoId)
    case None => dense
    case Some(mappedId) =>
      if value.None? || IsDefault(value.value, defaultValue) then dense
      else dense.Set(mappedId, value.value)
  }

  /** The first `count` slots of a page starting at native id `offset`, drained in order. */
  function DrainPrefix<E(==)>(dense: SparseArray<seq<E>>, page: seq<Option<seq<E>>>, offset: nat,
                              count: nat, idMap: IdMap, defaultValue: Option<seq<E>>): (r: SparseArray<seq<E>>)
    requires dense.Valid() && count <= |page|
    ensures r.Valid() && r.defaultValue == dense.defaultValue
    decreases count
  {
    if count == 0 then dense
    else
      var before := DrainPrefix(dense, page, offset, count - 1, idMap, defaultValue);
      CopySlot(before, offset + count - 1, page[count - 1], idMap, defaultValue)
  }

  /** Number of slots of a page at `offset` that lie at or below the highest known native id (may be negative). */
  function PageEnd(offset: int, pageLength: int, highestNeoId: int): int {
    Min(offset + pageLength, highestNeoId + 1) - offset
  }

  /** Drains one allocated page of the native store into `dense`. */
  function DrainPage<E(==)>(dense: SparseArray<seq<E>>, native: SparseArray<seq<E>>,
                            pageIndex: nat, idMap: IdMap): (r: SparseArray<seq<E>>)
    requires dense.Valid() && native.Valid() && pageIndex in native.pages
    ensures r.Valid() && r.defaultValue == dense.defaultValue
  {
    var page := native.pages[pageIndex];
    var offset := pageIndex * PAGE_SIZE;
    var end := PageEnd(offset, |page|, idMap.highestNeoId);
    if end <= 0 then dense
    else DrainPrefix(dense, page, offset, end, idMap, native.defaultValue)
  }

  /** Drains the pages listed in `order`, first to last. */
  function DrainPages<E(==)>(dense: SparseArray<seq<E>>, native: SparseArray<seq<E>>,
                             order: seq<nat>, idMap: IdMap): (r: SparseArray<seq<E>>)
    requires dense.Valid() && native.Valid()
    requires forall k | 0 <= k < |order| :: order[k] in native.pages
    ensures r.Valid() && r.defaultValue == dense.defaultValue
    decreases |order|
  {
    if order == [] then dense
    else DrainPage(DrainPages(dense, native, order[..|order| - 1], idMap), native, order[|order| - 1], idMap)
  }

  /**
   * `order` is one way the worker tasks may claim the allocated pages of
   * `native`: every allocated page exactly once.
   */
  predicate IsPageOrder<V>(order: seq<nat>, native: SparseArray<V>) {
    && (forall k | 0 <= k < |order| :: order[k] in native.pages)
    && (forall p | p in native.pages :: p in order)
    && (forall j, k | 0 <= j < k < |order| :: order[j] != order[k])
  }

  /** The result of a build: the values by node id, and the reported size. */
  datatype DoubleArrayStoreNodeProperties<E> = DoubleArrayStoreNodeProperties(propertyValues: SparseArray<seq<E>>, size: nat)
  {
    /** The value of a node: what was stored for it, else the store's default (`None` for a null default). */
    function DoubleArrayValue(nodeId: nat): (r: Option<seq<E>>)
      requires propertyValues.Valid()
      ensures propertyValues.Slot(nodeId).Some? ==> r == propertyValues.Slot(nodeId)
      ensures propertyValues.Slot(nodeId).None? ==> r == propertyValues.defaultValue
    {
      propertyValues.Get(nodeId)
    }

    /** The node count given when the properties were built, whatever the stored values. */
    function Size(): (r: nat)
      ensures r == size
    {
      size
    }
  }

  /** The body of one worker task for one claimed page: the inner `for pageIndex` loop of the drain. */
  method DrainBatch<E(==)>(dense: SparseArray<seq<E>>, native: SparseArray<seq<E>>, pageIndex: nat, idMap: IdMap)
    returns (r: SparseArray<seq<E>>)
    requires dense.Valid() && native.Valid() && pageIndex in native.pages
    ensures r == DrainPage(dense, native, pageIndex, idMap)
  {
    var page := native.pages[pageIndex];
    var offset := pageIndex * PAGE_SIZE;
    var end := Min(offset + |page|, idMap.highestNeoId + 1) - offset;
    r := dense;
    var i := 0;
    while i < end
      invariant 0 <= i <= |page|
      invariant if end > 0 then i <= end else i == 0
      invariant r.Valid()
      invariant r == DrainPrefix(dense, page, offset, i, idMap, native.defaultValue)
    {
      var neoId := offset + i;
      var mappedId := idMap.toMappedNodeId(neoId);
      if mappedId.Some? {
        var value := page[i];
        if !(value.None? || (native.defaultValue.Some? && value.value == native.defaultValue.value)) {
          r := r.Set(mappedId.value, value.value);
        }
      }
      i := i + 1;
    }
    assert end == PageEnd(offset, |page|, idMap.highestNeoId);
  }

  class DoubleArrayNodePropertiesBuilder<E(==,!new)> {
    var builder: SparseArray<seq<E>>
    const defaultValue: Option<seq<E>>

    ghost predicate Valid()
      reads this
    {
      builder.Valid() && builder.defaultValue == defaultValue
    }

    /** The sparse store starts empty and carries the configured default. */
    constructor (defaultValue: Option<seq<E>>)
      ensures Valid() && this.defaultValue == defaultValue
      ensures forall n: nat :: builder.Slot(n).None?
    {
      this.defaultValue := defaultValue;
      builder := Empty(defaultValue);
    }

    /** Stores `value` at native id `neoNodeId`; every other slot is unchanged. */
    method Set(neoNodeId: nat, value: seq<E>)
      requires Valid()
      modifies this
      ensures Valid()
      ensures builder.Slot(neoNodeId) == Some(value)
      ensures forall n: nat | n != neoNodeId :: builder.Slot(n) == old(builder).Slot(n)
    {
      builder := builder.Set(neoNodeId, value);
    }

    /** A view addressed by native id: what was written there, or the default. */
    method BuildDirect(size: nat) returns (p: DoubleArrayStoreNodeProperties<E>)
      requires Valid()
      ensures p.Size() == size && p.propertyValues.Valid()
      ensures forall n: nat :: p.DoubleArrayValue(n) == if builder.Slot(n).Some? then builder.Slot(n) else defaultValue
    {
      p := DoubleArrayStoreNodeProperties(builder, size);
    }

    /**
     * The drain pass.  The worker tasks claim the allocated native pages one
     * at a time; `order` is the order in which they are claimed, so the loop
     * below is one serialisation of the parallel pass.
     */
    method Build(size: nat, idMap: IdMap, order: seq<nat>) returns (p: DoubleArrayStoreNodeProperties<E>)
      requires Valid() && IsPageOrder(order, builder)
      ensures p.Size() == size
      ensures p.propertyValues.Valid() && p.propertyValues.defaultValue == defaultValue
      ensures p.propertyValues == DrainPages(Empty(defaultValue), builder, order, idMap)
      ensures IsDrainOf(p.propertyValues, builder, idMap)
    {
      var propertiesByNeoIds := builder;
      var propertiesByMappedIdsBuilder := Empty(defaultValue);
      var k := 0;
      while k < |order|
        invariant 0 <= k <= |order|
        invariant propertiesByMappedIdsBuilder == DrainPages(Empty(defaultValue), propertiesByNeoIds, order[..k], idMap)
      {
        ghost var before := propertiesByMappedIdsBuilder;
        propertiesByMappedIdsBuilder := DrainBatch(propertiesByMappedIdsBuilder, propertiesByNeoIds, order[k], idMap);
        assert order[..k + 1][..k] == order[..k];
        assert propertiesByMappedIdsBuilder == DrainPage(before, propertiesByNeoIds, order[k], idMap);
        k := k + 1;
      }
      assert order[..k] == order;
      DrainCharacterization(propertiesByNeoIds, idMap, order);
      p := DoubleArrayStoreNodeProperties(propertiesByMappedIdsBuilder, size);
    }
  }

  // ---------------------------------------------------------------------------
  // What the drain produces, independent of page order.

  /** Native id `n` holds `v`, lies at or below the highest known id, is not the default and maps to `d`. */
  ghost predicate Copies<E(!new)>(native: SparseArray<seq<E>>, idMap: IdMap, n: nat, d: nat, v: seq<E>)
    requires native.Valid()
  {
    && n as int <= idMap.highestNeoId
    && native.Slot(n) == Some(v)
    && !IsDefault(v, native.defaultValue)
    && idMap.toMappedNodeId(n) == Some(d)
  }

  /**
   * `dense` is the outcome of draining the native ids in `done`: every dense
   * value came from a copyable id in `done`, every copyable id in `done` has
   * left a value at its dense id, and (with an injective id map) exactly its own.
   */
  ghost predicate DrainedFrom<E(!new)>(dense: SparseArray<seq<E>>, native: SparseArray<seq<E>>, idMap: IdMap, done: iset<nat>)
    requires dense.Valid() && native.Valid()
  {
    && (forall d: nat | dense.Slot(d).Some? :: exists n: nat | n in done :: Copies(native, idMap, n, d, dense.Slot(d).value))
    && (forall n: nat, d: nat, v: seq<E> | n in done && Copies(native, idMap, n, d, v) :: dense.Slot(d).Some?)
    && (InjectiveOnFound(idMap) ==>
          forall n: nat, d: nat, v: seq<E> | n in done && Copies(native, idMap, n, d, v) :: dense.Slot(d) == Some(v))
  }

  lemma CopySlotDrains<E(!new)>(dense: SparseArray<seq<E>>, native: SparseArray<seq<E>>, idMap: IdMap,
                               done: iset<nat>, n: nat)
    requires dense.Valid() && native.Valid()
    requires DrainedFrom(dense, native, idMap, done) && n !in done
    requires n as int <= idMap.highestNeoId
    ensures DrainedFrom(CopySlot(dense, n, native.Slot(n), idMap, native.defaultValue), native, idMap, done + iset{n})
  {
    var r := CopySlot(dense, n, native.Slot(n), idMap, native.defaultValue);
    var done' := done + iset{n};
    var mapped := idMap.toMappedNodeId(n);
    var value := native.Slot(n);
    if mapped.Some? && value.Some? && !IsDefault(value.value, native.defaultValue) {
      var d0, v0 := mapped.value, value.value;
      assert Copies(native, idMap, n, d0, v0);
      assert r == dense.Set(d0, v0);
      forall d: nat | r.Slot(d).Some?
        ensures exists m: nat | m in done' :: Copies(native, idMap, m, d, r.Slot(d).value)
      {
        if d != d0 {
          var m: nat :| m in done && Copies(native, idMap, m, d, dense.Slot(d).value);
          assert m in done';
        }
      }
      if InjectiveOnFound(idMap) {
        forall m: nat, d: nat, v: seq<E> | m in done' && Copies(native, idMap, m, d, v)
          ensures r.Slot(d) == Some(v)
        {
          if m != n {
            assert d != d0;
          }
        }
      }
    } else {
      assert r == dense;
      forall m: nat, d: nat, v: seq<E> | m in done' && Copies(native, idMap, m, d, v)
        ensures m in done
      {
      }
    }
  }

  /** Native id `n` is one of the slots `from .. to - 1` of page `p`. */
  ghost predicate InPage(n: nat, p: nat, from: int, to: int) {
    p * PAGE_SIZE + from <= n < p * PAGE_SIZE + to
  }

  /** Native ids `offset .. offset + count - 1` of page `p`. */
  ghost function PageSpan(p: nat, count: nat): iset<nat> {
    iset n: nat | InPage(n, p, 0, count)
  }

  /** All native ids whose page is listed in `pageIndices`. */
  ghost function PagesIds(pageIndices: seq<nat>): iset<nat> {
    iset n: nat | n / PAGE_SIZE in pageIndices
  }

  /** Ids that cannot be copied may be added to the drained set. */
  lemma DrainedFromWiden<E(!new)>(dense: SparseArray<seq<E>>, native: SparseArray<seq<E>>, idMap: IdMap,
                                   done: iset<nat>, extra: iset<nat>)
    requires dense.Valid() && native.Valid()
    requires DrainedFrom(dense, native, idMap, done)
    requires forall n: nat, d: nat, v: seq<E> | n in extra :: !Copies(native, idMap, n, d, v)
    ensures DrainedFrom(dense, native, idMap, done + extra)
  {
    forall d: nat | dense.Slot(d).Some?
      ensures exists n: nat | n in done + extra :: Copies(native, idMap, n, d, dense.Slot(d).value)
    {
      var n: nat :| n in done && Copies(native, idMap, n, d, dense.Slot(d).value);
      assert n in done + extra;
    }
  }

  lemma {:induction false} DrainPrefixDrains<E(!new)>(dense: SparseArray<seq<E>>, native: SparseArray<seq<E>>,
                                                       idMap: IdMap, done: iset<nat>, p: nat, count: nat)
    requires dense.Valid() && native.Valid() && p in native.pages
    requires count <= PAGE_SIZE && (count == 0 || p * PAGE_SIZE + count <= idMap.highestNeoId + 1)
    requires DrainedFrom(dense, native, idMap, done)
    requires forall n: nat | n in PageSpan(p, count) :: n !in done
    ensures DrainedFrom(DrainPrefix(dense, native.pages[p], p * PAGE_SIZE, count, idMap, native.defaultValue),
                        native, idMap, done + PageSpan(p, count))
    decreases count
  {
    var page := native.pages[p];
    if count == 0 {
      assert done + PageSpan(p, count) == done;
    } else {
      var before := DrainPrefix(dense, page, p * PAGE_SIZE, count - 1, idMap, native.defaultValue);
      DrainPrefixDrains(dense, native, idMap, done, p, count - 1);
      var n: nat := p * PAGE_SIZE + count - 1;
      assert n / PAGE_SIZE == p && n % PAGE_SIZE == count - 1;
      assert native.Slot(n) == page[count - 1];
      assert n in PageSpan(p, count);
      CopySlotDrains(before, native, idMap, done + PageSpan(p, count - 1), n);
      assert done + PageSpan(p, count - 1) + iset{n} == done + PageSpan(p, count);
    }
  }

  lemma DrainPageDrains<E(!new)>(dense: SparseArray<seq<E>>, native: SparseArray<seq<E>>,
                                  idMap: IdMap, done: iset<nat>, p: nat)
    requires dense.Valid() && native.Valid() && p in native.pages
    requires DrainedFrom(dense, native, idMap, done)
    requires forall n: nat | n / PAGE_SIZE == p :: n !in done
    ensures DrainedFrom(DrainPage(dense, native, p, idMap), native, idMap, done + PagesIds([p]))
  {
    assert |native.pages[p]| == PAGE_SIZE;
    var end := PageEnd(p * PAGE_SIZE, PAGE_SIZE, idMap.highestNeoId);
    var count: nat := if end <= 0 then 0 else end;
    DrainPrefixDrains(dense, native, idMap, done, p, count);
    var rest := iset n: nat | InPage(n, p, count, PAGE_SIZE);
    DrainedFromWiden(DrainPage(dense, native, p, idMap), native, idMap, done + PageSpan(p, count), rest);
    assert done + PageSpan(p, count) + rest == done + PagesIds([p]);
  }

  lemma {:induction false} DrainPagesDrains<E(!new)>(native: SparseArray<seq<E>>, idMap: IdMap, order: seq<nat>)
    requires native.Valid()
    requires forall k | 0 <= k < |order| :: order[k] in native.pages
    requires forall j, k | 0 <= j < k < |order| :: order[j] != order[k]
    ensures DrainedFrom(DrainPages(Empty(native.defaultValue), native, order, idMap), native, idMap, PagesIds(order))
    decreases |order|
  {
    if order == [] {
    } else {
      var front, last := order[..|order| - 1], order[|order| - 1];
      DrainPagesDrains(native, idMap, front);
      var before := DrainPages(Empty(native.defaultValue), native, front, idMap);
      DrainPageDrains(before, native, idMap, PagesIds(front), last);
      assert PagesIds(front) + PagesIds([last]) == PagesIds(order);
    }
  }

  /**
   * What a full drain leaves in the dense store, whatever the page order:
   * every dense value was copied from a native id at or below the highest
   * known id, written with a non-default value and mapped (not NOT_FOUND) to
   * that dense id; every such native id has left a value at its dense id; and
   * when the id map is injective that value is exactly its own.
   */
  ghost predicate IsDrainOf<E(!new)>(dense: SparseArray<seq<E>>, native: SparseArray<seq<E>>, idMap: IdMap)
    requires dense.Valid() && native.Valid()
  {
    && (forall d: nat | dense.Slot(d).Some? :: exists n: nat :: Copies(native, idMap, n, d, dense.Slot(d).value))
    && (forall n: nat, d: nat, v: seq<E> | Copies(native, idMap, n, d, v) :: dense.Slot(d).Some?)
    && (InjectiveOnFound(idMap) ==>
          forall n: nat, d: nat, v: seq<E> | Copies(native, idMap, n, d, v) :: dense.Slot(d) == Some(v))
  }

  lemma DrainCharacterization<E(!new)>(native: SparseArray<seq<E>>, idMap: IdMap, order: seq<nat>)
    requires native.Valid() && IsPageOrder(order, native)
    ensures IsDrainOf(DrainPages(Empty(native.defaultValue), native, order, idMap), native, idMap)
  {
    var dense := DrainPages(Empty(native.defaultValue), native, order, idMap);
    DrainPagesDrains(native, idMap, order);
    forall n: nat, d: nat, v: seq<E> | Copies(native, idMap, n, d, v)
      ensures n in PagesIds(order)
    {
      assert n / PAGE_SIZE in native.pages;
    }
    forall d: nat | dense.Slot(d).Some?
      ensures exists n: nat :: Copies(native, idMap, n, d, dense.Slot(d).value)
    {
      var n: nat :| n in PagesIds(order) && Copies(native, idMap, n, d, dense.Slot(d).value);
    }
  }

  /**
   * With an injective id map, the dense contents do not depend on the order
   * in which the worker tasks claim the native pages.
   */
  lemma DrainOrderIrrelevant<E(!new)>(native: SparseArray<seq<E>>, idMap: IdMap, order1: seq<nat>, order2: seq<nat>)
    requires native.Valid() && IsPageOrder(order1, native) && IsPageOrder(order2, native)
    requires InjectiveOnFound(idMap)
    ensures forall d: nat ::
      DrainPages(Empty(native.defaultValue), native, order1, idMap).Slot(d)
        == DrainPages(Empty(native.defaultValue), native, order2, idMap).Slot(d)
  {
    var dense1 := DrainPages(Empty(native.defaultValue), native, order1, idMap);
    var dense2 := DrainPages(Empty(native.defaultValue), native, order2, idMap);
    DrainCharacterization(native, idMap, order1);
    DrainCharacterization(native, idMap, order2);
    forall d: nat
      ensures dense1.Slot(d) == dense2.Slot(d)
    {
      if dense1.Slot(d).Some? {
        var n: nat :| Copies(native, idMap, n, d, dense1.Slot(d).value);
      }
    }
  }

  /** Native ids 5, 7 and 9 hold 1, 2 and the default 0; no other id holds anything. */
  function ScenarioNative(): (r: SparseArray<seq<int>>)
    ensures r.Valid() && r.defaultValue == Some([0])
    ensures r.Slot(5) == Some([1]) && r.Slot(7) == Some([2]) && r.Slot(9) == Some([0])
    ensures forall n: nat | n != 5 && n != 7 && n != 9 :: r.Slot(n).None?
  {
    Empty(Some([0])).Set(5, [1]).Set(7, [2]).Set(9, [0])
  }

  /** The id map sends 5 to 0, 7 to 1 and 9 nowhere. */
  function ScenarioIdMap(): (r: IdMap)
    ensures r.highestNeoId == 9
    ensures r.toMappedNodeId(5) == Some(0) && r.toMappedNodeId(7) == Some(1)
    ensures forall n: nat | n != 5 && n != 7 :: r.toMappedNodeId(n).None?
    ensures InjectiveOnFound(r)
  {
    IdMap(n => if n == 5 then Some(0) else if n == 7 then Some(1) else None, 9)
  }

  /**
   * Draining the scenario store, whatever the page order, leaves 1 at dense
   * id 0, 2 at dense id 1, and nothing else: 9 is not mapped.
   */
  lemma DrainScenario(order: seq<nat>)
    requires IsPageOrder(order, ScenarioNative())
    ensures var dense := DrainPages(Empty(Some([0])), ScenarioNative(), order, ScenarioIdMap());
      && dense.Slot(0) == Some([1]) && dense.Slot(1) == Some([2])
      && forall d: nat | d >= 2 :: dense.Slot(d).None?
  {
    var native, idMap := ScenarioNative(), ScenarioIdMap();
    var dense := DrainPages(Empty(native.defaultValue), native, order, idMap);
    DrainCharacterization(native, idMap, order);
    assert Copies(native, idMap, 5, 0, [1]);
    assert Copies(native, idMap, 7, 1, [2]);
  }
}
