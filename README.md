# Node-property loading in open-gds, modelled in Dafny

This project models the path by which the open-gds graph loader copies node
properties out of a Neo4j store. It has three parts.

- **The importer** (`NativeNodePropertyImporter`) is built from a
  label -> property-mapping specification. It creates one property builder per
  (label, mapping). It resolves each label to its token id and each mapping's
  store key to its property token id. It then files every builder in a route
  index keyed by (label id, property id). For each node scanned, every
  property value the store cursor yields is handed to the builders routed
  under the node's label ids. Each value is then handed once more to the
  builders registered under the `ANY_LABEL` id.
- **The array-valued builder** (`DoubleArrayNodePropertiesBuilder`) collects
  values by native node id in a paged sparse array. It can expose that array
  directly, by native id. It can instead drain it page by page into a second
  sparse array keyed by dense (mapped) node id. The drain skips unmapped ids,
  unwritten slots, values equal to the default, and ids above the highest
  native id the id map knows.
- **The batch collection** (`LazyBatchCollection`) cuts `[0, nodeCount)`
  into contiguous batches of `batchSize` ids. It hands each batch's
  (start, length) to a supplier when an iterator reaches it. In saving mode it
  caches the produced batches, and later iterators replay the cache.

Modules:

- `Wrappers` (`wrappers.dfy`): `Option` and `Result`.
- `Numbers` (`numbers.dfy`): `Min`, as `Math.min`.
- `SparseArrays` (`sparse_arrays.dfy`): the paged sparse array. Each slot is
  `Some(value)` or `None` for a hole, and the array carries an optional default.
- `PropertyRoutes` (`property_routes.dfy`): the four nested helper classes of
  the importer, and the specification functions their construction is
  proved against.
- `NodePropertyImporter` (`node_property_importer.dfy`): the importer. A
  builder's `set(neoNodeId, value)` call is recorded as a `Write`, and the
  scanning methods return the writes they perform, in order.
- `DoubleArrayNodeProperties` (`double_array_builder.dfy`): the builder, the
  drain, and what a drain leaves behind whatever the page order.
- `LazyBatches` (`lazy_batches.dfy`): the partition, the collection and its
  iterator.

Hash-map iteration order is not fixed in the source. Wherever the source
iterates a hash map, the model picks the next key by nondeterministic
choice (`:|`). The contracts therefore hold for every iteration order. The
parallel drain is modelled as a sequential loop over a page order given as
a parameter. Every order that claims each allocated page once is allowed.

Two behaviours of the code are easy to misread, and the model follows the code in both:

- **Dense values after a drain.** The dense slot `d` does not always hold `v`
  when native id `n` holds a non-default `v` and maps to `d`. The code
  also requires `n <= highestNeoId()`. When two native ids map to the same
  dense id, the last `set` to that dense id wins, whether the two ids are on
  one page or on pages drained by different tasks.
  `IsDrainOf` states the exact guarantee: the value is the one written at
  `n` when the id map is injective. Without injectivity it is some copyable
  value mapped to `d`.
- **Batch caching.** Saving mode does not materialise all batches eagerly,
  and the non-saving mode is not single-pass. The cache is filled lazily, by the first iterator as it fetches. The public
  `of` factory never caches. A non-caching collection can be iterated again,
  and each iteration calls the supplier again.

## Model

| member | source | states |
|---|---|---|
| NodePropertyImporter.NativeNodePropertyImporter.constructor | core/src/main/java/org/neo4j/gds/core/loading/NativeNodePropertyImporter.java:61-68 | keeps both tables; `containsAnyLabelProjection` is fixed to whether the route index has an `ANY_LABEL` entry (`Valid`) |
| NodePropertyImporter.NativeNodePropertyImporter.Build | core/src/main/java/org/neo4j/gds/core/loading/NativeNodePropertyImporter.java:168-181 | fails exactly when a projected label has no label id or a projected store key has no property id; on success the builders are `Registered(spec)`, labels resolve to ids they are listed under, the route index holds exactly the registered builders under their (label id, property id), no list repeats a builder, its keys are exactly the ids of the projected labels, and `containsAnyLabelProjection` holds iff some projected label resolves to `ANY_LABEL` |
| NodePropertyImporter.NativeNodePropertyImporter.SetPropertyValue | core/src/main/java/org/neo4j/gds/core/loading/NativeNodePropertyImporter.java:123-142 | one `set(neoNodeId, value)` per listed builder, in list order; the count is the list length; no list gives no write and 0 |
| NodePropertyImporter.NativeNodePropertyImporter.ImportProperty | core/src/main/java/org/neo4j/gds/core/loading/NativeNodePropertyImporter.java:91-121 | the writes are the per-label writes for the node's label ids (sentinels and unrouted ids skipped) followed by the any-label writes; the count equals the number of writes |
| NodePropertyImporter.NativeNodePropertyImporter.ImportProperties | core/src/main/java/org/neo4j/gds/core/loading/NativeNodePropertyImporter.java:71-85 | the writes are those of every cursor property in cursor order; the result is the sum of the per-property counts |
| NodePropertyImporter.NativeNodePropertyImporter.Result | core/src/main/java/org/neo4j/gds/core/loading/NativeNodePropertyImporter.java:87-89 | the same labels and mappings as the registered builders, each mapped to what its builder builds |
| NodePropertyImporter.CountIsWrites | core/src/main/java/org/neo4j/gds/core/loading/NativeNodePropertyImporter.java:79-83 | the total returned for a node is the number of `set` calls made for it |
| NodePropertyImporter.SentinelsNeverLookedUp | core/src/main/java/org/neo4j/gds/core/loading/NativeNodePropertyImporter.java:95-98 | the per-label writes do not depend on the index entries under `IGNORE` and `ANY_LABEL` |
| NodePropertyImporter.ListWritesMembership | core/src/main/java/org/neo4j/gds/core/loading/NativeNodePropertyImporter.java:131-139 | a write is made for a builder iff it is in the list, and it carries the node id and the value |
| NodePropertyImporter.LabelWritesMembership | core/src/main/java/org/neo4j/gds/core/loading/NativeNodePropertyImporter.java:95-109 | a per-label write reaches a builder iff it is routed for the property under one of the node's non-sentinel label ids |
| NodePropertyImporter.PropertyWritesMembership | core/src/main/java/org/neo4j/gds/core/loading/NativeNodePropertyImporter.java:95-118 | a write reaches a builder iff it is routed for the property under a non-sentinel label id of the node or under `ANY_LABEL`; unregistered label ids and property ids without a list produce nothing |
| NodePropertyImporter.ListWritesCount | core/src/main/java/org/neo4j/gds/core/loading/NativeNodePropertyImporter.java:135-138 | a builder is written once per occurrence in the list |
| NodePropertyImporter.LabelWritesCount | core/src/main/java/org/neo4j/gds/core/loading/NativeNodePropertyImporter.java:95-109 | a builder routed under one label id only is written once per occurrence of that id among the node's label ids, and never for a sentinel |
| NodePropertyImporter.PropertyWritesCount | core/src/main/java/org/neo4j/gds/core/loading/NativeNodePropertyImporter.java:111-118 | an any-label builder gets exactly one write per scanned property, whatever the node's labels (none included); another builder gets one per occurrence of its label id |
| NodePropertyImporter.RoutedOnlyUnderItsLabel | core/src/main/java/org/neo4j/gds/core/loading/NativeNodePropertyImporter.java:244-250 | in a built index the builder of (label, mapping) is routed for the mapping's property id under its label's id and under no other |
| NodePropertyImporter.ImportedOncePerLabelOccurrence | core/src/main/java/org/neo4j/gds/core/loading/NativeNodePropertyImporter.java:91-121 | end to end: in a built importer, the builder of (label, mapping) gets one write per occurrence of the label's id among the node's label ids, or exactly one when the label resolves to `ANY_LABEL` |
| NodePropertyImporter.ResultMatchesSpecification | core/src/main/java/org/neo4j/gds/core/loading/NativeNodePropertyImporter.java:220-231 | the result has exactly the labels with a mapping and, per label, exactly its mappings, each built by the builder made at the mapping's first listing; an empty specification gives an empty result |
| PropertyRoutes.Registered | core/src/main/java/org/neo4j/gds/core/loading/NativeNodePropertyImporter.java:186-214 | the registered table: every label with a mapping, every mapping of it, and for a repeated mapping the builder of its first occurrence |
| PropertyRoutes.LabelBuildersStep | core/src/main/java/org/neo4j/gds/core/loading/NativeNodePropertyImporter.java:210-214 | registering one more mapping adds its builder unless the mapping is already registered, in which case the earlier builder stays |
| PropertyRoutes.PutNextMapping | core/src/main/java/org/neo4j/gds/core/loading/NativeNodePropertyImporter.java:193-198 | one `put` of the inner loop extends the label's table by the next mapping |
| PropertyRoutes.RegisteredBuildersDistinct | core/src/main/java/org/neo4j/gds/core/loading/NativeNodePropertyImporter.java:193-198 | distinct (label, mapping) registrations never share a builder |
| PropertyRoutes.BuildersByLabel.constructor | core/src/main/java/org/neo4j/gds/core/loading/NativeNodePropertyImporter.java:206-208 | the table starts empty |
| PropertyRoutes.BuildersByLabel.Put | core/src/main/java/org/neo4j/gds/core/loading/NativeNodePropertyImporter.java:210-214 | registers the builder for (label, mapping) unless one is already there; the first builder wins |
| PropertyRoutes.BuildersByLabel.Create | core/src/main/java/org/neo4j/gds/core/loading/NativeNodePropertyImporter.java:186-202 | whatever the label iteration order, the table built is `Registered(spec)` |
| PropertyRoutes.BuildersByLabel.Build | core/src/main/java/org/neo4j/gds/core/loading/NativeNodePropertyImporter.java:220-231 | the same label keys and mapping keys, each builder replaced by what it builds |
| PropertyRoutes.LabelIdByLabel.constructor | core/src/main/java/org/neo4j/gds/core/loading/NativeNodePropertyImporter.java:314-316 | the label -> id table starts empty |
| PropertyRoutes.LabelIdByLabel.Get | core/src/main/java/org/neo4j/gds/core/loading/NativeNodePropertyImporter.java:310-312 | the id of a resolved label; for an unknown label the model returns `None` where the source's `get` throws (it unboxes a null `Integer`), and `BuildersByLabelIdAndPropertyId.Create` turns that into `Failure(MissingLabelId)` |
| PropertyRoutes.LabelIdByLabel.Create | core/src/main/java/org/neo4j/gds/core/loading/NativeNodePropertyImporter.java:298-306 | inverts the id -> labels table: exactly the listed labels resolve, each to an id it is listed under |
| PropertyRoutes.BuildersByPropertyId.Get | core/src/main/java/org/neo4j/gds/core/loading/NativeNodePropertyImporter.java:280-282 | the builder list of a property id, or `None` (a Java null) when none was added |
| PropertyRoutes.BuildersByPropertyId.Add | core/src/main/java/org/neo4j/gds/core/loading/NativeNodePropertyImporter.java:284-289 | appends to the property's list, creating it when absent; other lists unchanged |
| PropertyRoutes.AddRoute | core/src/main/java/org/neo4j/gds/core/loading/NativeNodePropertyImporter.java:265-270 | filing one more registration keeps the index exact, and free of repeated builders when builders are distinct |
| PropertyRoutes.LabelIdsOfStep | core/src/main/java/org/neo4j/gds/core/loading/NativeNodePropertyImporter.java:265-268 | filing one more pair adds exactly its label's id to the index keys |
| PropertyRoutes.FileStep | core/src/main/java/org/neo4j/gds/core/loading/NativeNodePropertyImporter.java:246-249 | filing one more mapping of the visited label keeps the index exact, keyed by the filed labels' ids, and free of repeats |
| PropertyRoutes.BuildersByLabelIdAndPropertyId.PutMapping | core/src/main/java/org/neo4j/gds/core/loading/NativeNodePropertyImporter.java:247-248 | one iteration of the inner loop: the mapping's builder is filed under (label id, property id) and the index stays filed |
| NodePropertyImporter.AnyLabelKey | core/src/main/java/org/neo4j/gds/core/loading/NativeNodePropertyImporter.java:257-259 | the built route index has an `ANY_LABEL` key iff some projected label resolves to `ANY_LABEL` |
| PropertyRoutes.NothingMissing | core/src/main/java/org/neo4j/gds/core/loading/NativeNodePropertyImporter.java:244-250 | once every label and every store key resolved, no id is missing |
| PropertyRoutes.BuildersByLabelIdAndPropertyId.constructor | core/src/main/java/org/neo4j/gds/core/loading/NativeNodePropertyImporter.java:272-274 | the route index starts empty |
| PropertyRoutes.BuildersByLabelIdAndPropertyId.ContainsAnyLabelProjection | core/src/main/java/org/neo4j/gds/core/loading/NativeNodePropertyImporter.java:257-259 | true iff the index has a per-property table under `ANY_LABEL` |
| PropertyRoutes.BuildersByLabelIdAndPropertyId.Get | core/src/main/java/org/neo4j/gds/core/loading/NativeNodePropertyImporter.java:261-263 | the per-property table of a label id, or `None` (a Java null) |
| PropertyRoutes.BuildersByLabelIdAndPropertyId.Put | core/src/main/java/org/neo4j/gds/core/loading/NativeNodePropertyImporter.java:265-270 | appends the builder to the (label id, property id) list, creating levels as needed; every other list unchanged; lists only grow |
| PropertyRoutes.BuildersByLabelIdAndPropertyId.PutLabel | core/src/main/java/org/neo4j/gds/core/loading/NativeNodePropertyImporter.java:246-249 | files every mapping of one label under its property id, or reports a store key with no property id |
| PropertyRoutes.BuildersByLabelIdAndPropertyId.Create | core/src/main/java/org/neo4j/gds/core/loading/NativeNodePropertyImporter.java:236-253 | fails exactly when some registered label or store key has no id (naming it); otherwise routes exactly the registered builders under their (label id, property id), each at most once per list, and has a key exactly for the id of each label with at least one mapping |
| DoubleArrayNodeProperties.DoubleArrayNodePropertiesBuilder.constructor | core/src/main/java/org/neo4j/gds/core/loading/nodeproperties/DoubleArrayNodePropertiesBuilder.java:42-51 | the native store starts with no written slot and carries the configured default |
| DoubleArrayNodeProperties.DoubleArrayNodePropertiesBuilder.Set | core/src/main/java/org/neo4j/gds/core/loading/nodeproperties/DoubleArrayNodePropertiesBuilder.java:53-55 | the value is stored at the native id; every other slot unchanged |
| DoubleArrayNodeProperties.DoubleArrayNodePropertiesBuilder.BuildDirect | core/src/main/java/org/neo4j/gds/core/loading/nodeproperties/DoubleArrayNodePropertiesBuilder.java:67-70 | reads by native id give what `set` wrote there, else the default; the size is the argument |
| DoubleArrayNodeProperties.DoubleArrayNodePropertiesBuilder.Build | core/src/main/java/org/neo4j/gds/core/loading/nodeproperties/DoubleArrayNodePropertiesBuilder.java:72-109 | the size is the argument; the dense store has the native default; its contents are the drain of the native store in the given page order, characterised by `IsDrainOf` |
| DoubleArrayNodeProperties.DrainBatch | core/src/main/java/org/neo4j/gds/core/loading/nodeproperties/DoubleArrayNodePropertiesBuilder.java:85-101 | the inner loop over one page computes `DrainPage`: ids past `end` untouched, unmapped ids, holes and defaults skipped |
| DoubleArrayNodeProperties.CopySlotDrains | core/src/main/java/org/neo4j/gds/core/loading/nodeproperties/DoubleArrayNodePropertiesBuilder.java:91-100 | one iteration of the inner loop keeps the drained-from invariant, with one more native id drained |
| DoubleArrayNodeProperties.DrainPrefixDrains | core/src/main/java/org/neo4j/gds/core/loading/nodeproperties/DoubleArrayNodePropertiesBuilder.java:90-101 | the first `count` slots of a page, drained in order, keep the invariant for those ids |
| DoubleArrayNodeProperties.DrainPageDrains | core/src/main/java/org/neo4j/gds/core/loading/nodeproperties/DoubleArrayNodePropertiesBuilder.java:85-101 | draining a page accounts for all its ids; those past `highestNeoId` (also when `end` is negative) cannot be copied |
| DoubleArrayNodeProperties.DrainPagesDrains | core/src/main/java/org/neo4j/gds/core/loading/nodeproperties/DoubleArrayNodePropertiesBuilder.java:80-104 | draining the pages of an order accounts for every id on those pages |
| DoubleArrayNodeProperties.DrainCharacterization | core/src/main/java/org/neo4j/gds/core/loading/nodeproperties/DoubleArrayNodePropertiesBuilder.java:80-104 | after a full drain: every dense value came from a native id at or below `highestNeoId`, written, non-default and mapped to it; every such id left a value; with an injective id map exactly its own; unmapped ids affect nothing |
| DoubleArrayNodeProperties.DrainOrderIrrelevant | core/src/main/java/org/neo4j/gds/core/loading/nodeproperties/DoubleArrayNodePropertiesBuilder.java:80-104 | with an injective id map the dense contents are the same for every page order |
| DoubleArrayNodeProperties.DrainScenario | core/src/main/java/org/neo4j/gds/core/loading/nodeproperties/DoubleArrayNodePropertiesBuilder.java:85-101 | native {5: 1, 7: 2, 9: default} under {5 -> 0, 7 -> 1, 9 unmapped} drains to exactly {0: 1, 1: 2} |
| DoubleArrayNodeProperties.DoubleArrayStoreNodeProperties.DoubleArrayValue | core/src/main/java/org/neo4j/gds/core/loading/nodeproperties/DoubleArrayNodePropertiesBuilder.java:123-126 | the value stored for the node id, else the store's default (`None` for a null default) |
| DoubleArrayNodeProperties.DoubleArrayStoreNodeProperties.Size | core/src/main/java/org/neo4j/gds/core/loading/nodeproperties/DoubleArrayNodePropertiesBuilder.java:128-131 | the size given at build time, independent of how many values were stored |
| SparseArrays.SparseArray.Get | core/src/main/java/org/neo4j/gds/core/loading/nodeproperties/DoubleArrayNodePropertiesBuilder.java:125 | stand-in for `HugeSparseDoubleArrayArray.get`, which is not part of this model: a written slot's value, else the default |
| SparseArrays.SparseArray.Set | core/src/main/java/org/neo4j/gds/core/loading/nodeproperties/DoubleArrayNodePropertiesBuilder.java:53-55 | the slot holds the value, every other slot and the default unchanged, the page allocated |
| SparseArrays.Empty | core/src/main/java/org/neo4j/gds/core/loading/nodeproperties/DoubleArrayNodePropertiesBuilder.java:76-78 | a fresh store has no written slot and the given default |
| LazyBatches.ThreadCount | core/src/main/java/org/neo4j/gds/core/utils/LazyBatchCollection.java:61 | the least number of `batchSize` batches covering `nodeCount` ids; zero iff there are no ids |
| LazyBatches.BatchLengths | core/src/main/java/org/neo4j/gds/core/utils/LazyBatchCollection.java:82-84 | every batch holds 1 to `batchSize` ids, and all but the last exactly `batchSize` |
| LazyBatches.BatchesContiguous | core/src/main/java/org/neo4j/gds/core/utils/LazyBatchCollection.java:82-84 | the first batch starts at 0, each ends where the next starts, the last ends at `nodeCount` |
| LazyBatches.BatchesDisjoint | core/src/main/java/org/neo4j/gds/core/utils/LazyBatchCollection.java:82-84 | two different batches share no id |
| LazyBatches.BatchesCover | core/src/main/java/org/neo4j/gds/core/utils/LazyBatchCollection.java:82-84 | an id lies in some batch iff it lies in `[0, nodeCount)` |
| LazyBatches.TenByThree | core/src/main/java/org/neo4j/gds/core/utils/LazyBatchCollection.java:82-84 | ten ids in batches of three are (0,3), (3,3), (6,3), (9,1) |
| LazyBatches.LazyBatchCollection.constructor | core/src/main/java/org/neo4j/gds/core/utils/LazyBatchCollection.java:52-62 | keeps the parameters, computes the number of batches, starts with no cache and no supplier call |
| LazyBatches.LazyBatchCollection.Of | core/src/main/java/org/neo4j/gds/core/utils/LazyBatchCollection.java:37-42 | a fresh collection in non-saving mode, which never gets a cache |
| LazyBatches.LazyBatchCollection.Iterator | core/src/main/java/org/neo4j/gds/core/utils/LazyBatchCollection.java:64-92 | with a cache, an iterator replaying it and no supplier call; otherwise a fresh iterator, after an empty cache is created in saving mode |
| LazyBatches.LazyBatchCollection.Size | core/src/main/java/org/neo4j/gds/core/utils/LazyBatchCollection.java:94-100 | the number of batches while there is no cache (so always in non-saving mode), the cache size otherwise |
| LazyBatches.LazyBatchCollection.Elements | core/src/main/java/org/neo4j/gds/core/utils/LazyBatchCollection.java:64-92 | a fresh iterator run to its end yields the supplier's result for every batch in order, calls the supplier once per batch in increasing start order, and in saving mode leaves exactly those results cached |
| LazyBatches.BatchIterator.constructor | core/src/main/java/org/neo4j/gds/core/utils/LazyBatchCollection.java:72-74 | starts at batch 0, start 0 |
| LazyBatches.BatchIterator.Fetch | core/src/main/java/org/neo4j/gds/core/utils/LazyBatchCollection.java:77-90 | `i` always advances; the `i`-th call returns the supplier's result for batch `i`, recorded as a supplier call and appended to the cache, or done once all batches are handed out; a replaying iterator returns the cached batches |

## Left out

- The store cursor and kernel transaction (`NativeNodePropertyImporter.java:77-78`): the cursor is a finite sequence of (property token id, value) pairs given to `ImportProperties`.
- Value conversion (`Neo4jValueConversion.getDoubleArray`, `DoubleArrayNodePropertiesBuilder.java:62-65`) and builder dispatch (`NodePropertiesFromStoreBuilder.of`, `NativeNodePropertyImporter.java:194-197`) are not part of this model. Values arrive already typed. A builder is identified by a `BuilderRef` (its label and its position in the label's mapping list), and the importer records its `set` calls as `Write`s instead of applying them.
- `NodePropertyImporter.NativeNodePropertyImporter.Build`: a missing label id or property id is a `Failure` in the model. In the source it is a `NullPointerException` from unboxing `null`.
- Concurrency (`ParallelUtil.run`, `Pools.DEFAULT`, the shared draining iterator): the drain is a sequential loop over a page order passed as a parameter. The builder's `concurrency` setting is therefore not modelled.
- `HugeSparseDoubleArrayArray` is not part of this model. It is modelled as pages of 4096 optional slots with an optional default, and `build()` of its builder returns the same store.
- `ParallelUtil.threadCount` is not part of this model. `LazyBatches.ThreadCount` is ceiling division and requires `batchSize > 0` and `nodeCount >= 0`.
- `IGNORE` and `ANY_LABEL` come from `GraphDimensions`, which is not part of this model. Their values are taken as -4 and -1.
- Integer widths: counts and ids are unbounded. `Math.toIntExact` overflow and `int` counter overflow are not modelled.
- IEEE doubles: the element type is a type parameter with equality, which matches `Arrays.equals` (`Double.equals`) on `double[]`.
- `DoubleArrayNodeProperties.DoubleArrayNodePropertiesBuilder.Build`: the exact dense value is stated only for an injective id map. Otherwise the contract says only that the value came from some native id mapped there.
- `LazyBatches.LazyBatchCollection`: the supplier (`BatchSupplier.newBatch`) is a pure, total function, and batches are compared as values. Side effects of the supplier and object identity are not modelled, so a replayed batch equals, as a value, the one the supplier would make again; the supplier calls themselves (one per batch, in order, none on replay) are recorded in `supplierCalls`.
- `DoubleArrayNodeProperties.DoubleArrayNodePropertiesBuilder.Build`: the source reads the native store through a draining iterator, whose internals are not part of this model. The model's `Build` leaves the native store unchanged, so it does not capture that a second `Build`, or a `BuildDirect` after `Build`, may no longer see the drained pages.
- `LazyBatches.LazyBatchCollection.Iterator`: a replaying iterator holds a snapshot of the cache, not a live view of the `ArrayList`. Appends made after it was created, and the resulting `ConcurrentModificationException`, are not modelled.
- `LazyBatches.LazyBatchCollection.Elements` is the consumer's view of a full iteration (`AbstractIterator.hasNext`/`next` are not part of this model). It starts from a collection without a cache.
- `NodeLabel` and `PropertyMapping` are compared by value (name, and store key plus property key). Mapping defaults and aggregation settings are not part of this model.
