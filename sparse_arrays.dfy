/**
 * A paged sparse array addressed by a non-negative id, standing in for the
 * collection the property builders store their values in.  Pages are
 * allocated lazily, the first time an id inside them is written; a slot that
 * was never written holds `None` (a Java `null`).  Reading an unwritten slot
 * yields the array's default value.
 */
module SparseArrays {
  import opened Wrappers

  /** Number of slots per page. */
  const PAGE_SIZE: nat := 4096

  datatype SparseArray<V> = SparseArray(pages: map<nat, seq<Option<V>>>, defaultValue: Option<V>)
  {
    /** Every allocated page has exactly PAGE_SIZE slots. */
    ghost predicate Valid() {
      forall p | p in pages :: |pages[p]| == PAGE_SIZE
    }

    /** The raw slot at `id`: the value written there, or `None` when nothing was. */
    function Slot(id: nat): Option<V>
      requires Valid()
    {
      if id / PAGE_SIZE in pages then pages[id / PAGE_SIZE][id % PAGE_SIZE] else None
    }

    /** The value a reader sees at `id`: the written value, else the default. */
    function Get(id: nat): (r: Option<V>)
      requires Valid()
      ensures Slot(id).Some? ==> r == Slot(id)
      ensures Slot(id).None? ==> r == defaultValue
    {
      match Slot(id)
      case Some(v) => Some(v)
      case None => defaultValue
    }

    /** Writes `v` at `id`, allocating the page on first touch. */
    function Set(id: nat, v: V): (r: SparseArray<V>)
      requires Valid()
      ensures r.Valid() && r.defaultValue == defaultValue
      ensures r.Slot(id) == Some(v)
      ensures forall j: nat | j != id :: r.Slot(j) == Slot(j)
      ensures r.pages.Keys == pages.Keys + {id / PAGE_SIZE}
    {
      var p := id / PAGE_SIZE;
      var page := if p in pages then pages[p] else seq(PAGE_SIZE, _ => None);
      SparseArray(pages[p := page[id % PAGE_SIZE := Some(v)]], defaultValue)
    }
  }

  /** A sparse array with no page allocated. */
  function Empty<V>(defaultValue: Option<V>): (r: SparseArray<V>)
    ensures r.Valid() && r.defaultValue == defaultValue
    ensures forall id: nat :: r.Slot(id).None?
  {
    SparseArray(map[], defaultValue)
  }
}
