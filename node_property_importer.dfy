/**
 * The node-property importer: for every property a node's store cursor
 * yields, the value is handed to each builder routed for one of the node's
 * labels, and once more to the any-label builders.
 *
 * A builder's `set(neoNodeId, value)` call is recorded as a `Write`; the
 * importer's methods return the writes they perform, in order, together
 * with the count the source returns.
 */
module NodePropertyImporter {
  import opened Wrappers
  import opened PropertyRoutes

  /** One `set(neoNodeId, value)` call on a property builder. */
  datatype Write<V> = Write(builder: BuilderRef, neoNodeId: int, value: V)

  // ---------------------------------------------------------------------------
  // The writes, as functions of the route index

  /** One write per listed builder, in list order. */
  function ListWrites<V>(builders: seq<BuilderRef>, neoNodeId: int, value: V): seq<Write<V>> {
    seq(|builders|, i requires 0 <= i < |builders| => Write(builders[i], neoNodeId, value))
  }

  /** The writes of one label id of the per-label loop: none for a sentinel or an unrouted label id. */
  function LabelIdWrites<V>(index: map<int, BuildersByPropertyId>, labelId: int, propertyId: int, neoNodeId: int, value: V): seq<Write<V>> {
    if labelId == IGNORE || labelId == ANY_LABEL || labelId !in index then []
    else ListWrites(index[labelId].ListOf(propertyId), neoNodeId, value)
  }

  /** The writes of the per-label loop over `labelIds`, in order. */
  function LabelWrites<V>(index: map<int, BuildersByPropertyId>, labelIds: seq<int>, propertyId: int, neoNodeId: int, value: V): seq<Write<V>> {
    if |labelIds| == 0 then []
    else LabelWrites(index, labelIds[..|labelIds| - 1], propertyId, neoNodeId, value)
         + LabelIdWrites(index, labelIds[|labelIds| - 1], propertyId, neoNodeId, value)
  }

  /** The writes for the any-label builders of `propertyId`; none without an any-label projection. */
  function AnyLabelWrites<V>(index: map<int, BuildersByPropertyId>, propertyId: int, neoNodeId: int, value: V): seq<Write<V>> {
    if ANY_LABEL in index then ListWrites(index[ANY_LABEL].ListOf(propertyId), neoNodeId, value) else []
  }

  /** All writes for one scanned property of a node. */
  function PropertyWrites<V>(index: map<int, BuildersByPropertyId>, labelIds: seq<int>, propertyId: int, neoNodeId: int, value: V): seq<Write<V>> {
    LabelWrites(index, labelIds, propertyId, neoNodeId, value) + AnyLabelWrites(index, propertyId, neoNodeId, value)
  }

  /** All writes for the (property id, value) pairs a node's cursor yields, in cursor order. */
  function NodeWrites<V>(index: map<int, BuildersByPropertyId>, labelIds: seq<int>, properties: seq<(int, V)>, neoNodeId: int): seq<Write<V>> {
    if |properties| == 0 then []
    else NodeWrites(index, labelIds, properties[..|properties| - 1], neoNodeId)
         + PropertyWrites(index, labelIds, properties[|properties| - 1].0, neoNodeId, properties[|properties| - 1].1)
  }

  /** The per-property counts the cursor loop adds up. */
  function PropertyCounts<V>(index: map<int, BuildersByPropertyId>, labelIds: seq<int>, properties: seq<(int, V)>, neoNodeId: int): nat {
    if |properties| == 0 then 0
    else PropertyCounts(index, labelIds, properties[..|properties| - 1], neoNodeId)
         + |PropertyWrites(index, labelIds, properties[|properties| - 1].0, neoNodeId, properties[|properties| - 1].1)|
  }

  /** The label id counts: it is not a sentinel and occurs in `labelIds`. */
  predicate ScannedLabel(labelIds: seq<int>, labelId: int) {
    labelId != IGNORE && labelId != ANY_LABEL && labelId in labelIds
  }

  // ---------------------------------------------------------------------------
  // The importer

  class NativeNodePropertyImporter {
    const buildersByLabel: BuildersByLabel
    const buildersByLabelIdAndPropertyId: BuildersByLabelIdAndPropertyId
    const containsAnyLabelProjection: bool

    /** The flag caches whether the index has an any-label bucket. */
    ghost predicate Valid()
      reads buildersByLabelIdAndPropertyId
    {
      containsAnyLabelProjection == (ANY_LABEL in buildersByLabelIdAndPropertyId.builders)
    }

    constructor (buildersByLabel: BuildersByLabel, buildersByLabelIdAndPropertyId: BuildersByLabelIdAndPropertyId)
      ensures this.buildersByLabel == buildersByLabel
      ensures this.buildersByLabelIdAndPropertyId == buildersByLabelIdAndPropertyId
      ensures Valid()
    {
      this.buildersByLabel := buildersByLabel;
      this.buildersByLabelIdAndPropertyId := buildersByLabelIdAndPropertyId;
      this.containsAnyLabelProjection := buildersByLabelIdAndPropertyId.ContainsAnyLabelProjection();
    }

    /**
     * Builds the importer from the label -> mappings specification, the
     * id -> labels table and the property-key -> id table; fails when a
     * projected label or store key has no id.
     */
    static method Build(propertyMappings: map<NodeLabel, seq<PropertyMapping>>, labelsByLabelId: map<int, seq<NodeLabel>>,
                        propertyIds: map<string, int>)
      returns (r: Result<NativeNodePropertyImporter, ImportError>)
      ensures r.Failure? <==> MissingId(Registered(propertyMappings), labelsByLabelId, propertyIds)
      ensures r.Success? ==> fresh(r.value) && fresh(r.value.buildersByLabel) && fresh(r.value.buildersByLabelIdAndPropertyId)
      ensures r.Success? ==> r.value.Valid()
      ensures r.Success? ==> r.value.buildersByLabel.builders == Registered(propertyMappings)
      ensures r.Success? ==> ResolvesLabels(r.value.buildersByLabelIdAndPropertyId.labelIds, labelsByLabelId)
      ensures r.Success? ==> RoutesExactly(r.value.buildersByLabelIdAndPropertyId.builders, Registered(propertyMappings),
                                           Pairs(Registered(propertyMappings)), r.value.buildersByLabelIdAndPropertyId.labelIds, propertyIds)
      ensures r.Success? ==> NoDuplicateRoutes(r.value.buildersByLabelIdAndPropertyId.builders)
      ensures r.Success? ==> r.value.buildersByLabelIdAndPropertyId.builders.Keys
                               == LabelIdsOf(Pairs(Registered(propertyMappings)), r.value.buildersByLabelIdAndPropertyId.labelIds)
      ensures r.Success? ==>
        (r.value.containsAnyLabelProjection <==>
           exists l | l in Registered(propertyMappings) && l in r.value.buildersByLabelIdAndPropertyId.labelIds ::
             r.value.buildersByLabelIdAndPropertyId.labelIds[l] == ANY_LABEL)
    {
      var nodePropertyBuilders := BuildersByLabel.Create(propertyMappings);
      var index := BuildersByLabelIdAndPropertyId.Create(nodePropertyBuilders, labelsByLabelId, propertyIds);
      if index.Failure? {
        return Failure(index.error);
      }
      RegisteredBuildersDistinct(propertyMappings);
      AnyLabelKey(index.value.builders, propertyMappings, index.value.labelIds);
      var importer := new NativeNodePropertyImporter(nodePropertyBuilders, index.value);
      return Success(importer);
    }

    /** Calls `set(neoNodeId, value)` once on each builder listed for `propertyId`, in list order; none when there is no list. */
    method SetPropertyValue<V>(neoNodeId: int, value: V, propertyId: int, buildersByPropertyId: BuildersByPropertyId)
      returns (writes: seq<Write<V>>, propertiesImported: int)
      ensures |writes| == |buildersByPropertyId.ListOf(propertyId)| && propertiesImported == |writes|
      ensures forall i | 0 <= i < |writes| :: writes[i] == Write(buildersByPropertyId.ListOf(propertyId)[i], neoNodeId, value)
      ensures buildersByPropertyId.Get(propertyId).None? ==> writes == []
    {
      writes := [];
      propertiesImported := 0;
      var builders := buildersByPropertyId.Get(propertyId);
      if builders.Some? {
        var i := 0;
        while i < |builders.value|
          invariant 0 <= i <= |builders.value|
          invariant |writes| == i && propertiesImported == i
          invariant forall j | 0 <= j < i :: writes[j] == Write(builders.value[j], neoNodeId, value)
        {
          writes := writes + [Write(builders.value[i], neoNodeId, value)];
          propertiesImported := propertiesImported + 1;
          i := i + 1;
        }
      }
    }

    /**
     * Forwards one scanned property to the builders of each of the node's
     * label ids (skipping the two sentinels and label ids without routes),
     * then to the any-label builders.
     */
    method ImportProperty<V>(neoNodeId: int, labelIds: seq<int>, propertyKey: int, value: V)
      returns (writes: seq<Write<V>>, propertiesImported: int)
      requires Valid()
      ensures writes == PropertyWrites(buildersByLabelIdAndPropertyId.builders, labelIds, propertyKey, neoNodeId, value)
      ensures propertiesImported == |writes|
    {
      var index := buildersByLabelIdAndPropertyId.builders;
      writes := [];
      propertiesImported := 0;
      var i := 0;
      while i < |labelIds|
        invariant 0 <= i <= |labelIds|
        invariant writes == LabelWrites(index, labelIds[..i], propertyKey, neoNodeId, value)
        invariant propertiesImported == |writes|
      {
        var labelId := labelIds[i];
        assert labelIds[..i + 1][..i] == labelIds[..i];
        if labelId != IGNORE && labelId != ANY_LABEL {
          var buildersByPropertyId := buildersByLabelIdAndPropertyId.Get(labelId);
          if buildersByPropertyId.Some? {
            var w, count := SetPropertyValue(neoNodeId, value, propertyKey, buildersByPropertyId.value);
            assert w == ListWrites(buildersByPropertyId.value.ListOf(propertyKey), neoNodeId, value);
            writes := writes + w;
            propertiesImported := propertiesImported + count;
          }
        }
        i := i + 1;
      }
      assert labelIds[..i] == labelIds;
      if containsAnyLabelProjection {
        var buildersByPropertyId := buildersByLabelIdAndPropertyId.Get(ANY_LABEL);
        var w, count := SetPropertyValue(neoNodeId, value, propertyKey, buildersByPropertyId.value);
        assert w == ListWrites(buildersByPropertyId.value.ListOf(propertyKey), neoNodeId, value);
        writes := writes + w;
        propertiesImported := propertiesImported + count;
      }
    }

    /** Imports every (property id, value) pair the node's cursor yields and returns the total count. */
    method ImportProperties<V>(neoNodeId: int, labelIds: seq<int>, properties: seq<(int, V)>)
      returns (writes: seq<Write<V>>, nodePropertiesRead: int)
      requires Valid()
      ensures writes == NodeWrites(buildersByLabelIdAndPropertyId.builders, labelIds, properties, neoNodeId)
      ensures nodePropertiesRead == PropertyCounts(buildersByLabelIdAndPropertyId.builders, labelIds, properties, neoNodeId)
    {
      writes := [];
      nodePropertiesRead := 0;
      var k := 0;
      while k < |properties|
        invariant 0 <= k <= |properties|
        invariant writes == NodeWrites(buildersByLabelIdAndPropertyId.builders, labelIds, properties[..k], neoNodeId)
        invariant nodePropertiesRead == PropertyCounts(buildersByLabelIdAndPropertyId.builders, labelIds, properties[..k], neoNodeId)
      {
        assert properties[..k + 1][..k] == properties[..k];
        var w, count := ImportProperty(neoNodeId, labelIds, properties[k].0, properties[k].1);
        writes := writes + w;
        nodePropertiesRead := nodePropertiesRead + count;
        k := k + 1;
      }
      assert properties[..k] == properties;
    }

    /** The built properties: per registered label and mapping, what its builder builds. */
    function Result<P>(build: BuilderRef -> P): (r: map<NodeLabel, map<PropertyMapping, P>>)
      reads buildersByLabel
      ensures r.Keys == buildersByLabel.builders.Keys
      ensures forall l | l in r :: r[l].Keys == buildersByLabel.builders[l].Keys
      ensures forall l, m | l in r && m in r[l] :: r[l][m] == build(buildersByLabel.builders[l][m])
    {
      buildersByLabel.Build(build)
    }
  }

  /**
   * The route index built from a specification has an ANY_LABEL key exactly
   * when some projected label resolves to ANY_LABEL: every projected label
   * has at least one mapping, so it is filed.
   */
  lemma AnyLabelKey(index: map<int, BuildersByPropertyId>, propertyMappings: map<NodeLabel, seq<PropertyMapping>>, labelIds: map<NodeLabel, int>)
    requires index.Keys == LabelIdsOf(Pairs(Registered(propertyMappings)), labelIds)
    ensures ANY_LABEL in index <==> exists l | l in Registered(propertyMappings) && l in labelIds :: labelIds[l] == ANY_LABEL
  {
    var b := Registered(propertyMappings);
    if l :| l in b && l in labelIds && labelIds[l] == ANY_LABEL {
      var m := propertyMappings[l][0];
      assert m in b[l];
      assert (l, m) in Pairs(b);
    }
  }

  // ---------------------------------------------------------------------------
  // Properties of the writes

  /** The count the cursor loop returns is the number of writes it performs. */
  lemma {:induction false} CountIsWrites<V>(index: map<int, BuildersByPropertyId>, labelIds: seq<int>, properties: seq<(int, V)>, neoNodeId: int)
    ensures PropertyCounts(index, labelIds, properties, neoNodeId) == |NodeWrites(index, labelIds, properties, neoNodeId)|
  {
    if |properties| > 0 {
      CountIsWrites(index, labelIds, properties[..|properties| - 1], neoNodeId);
    }
  }

  /** The per-label loop never looks the sentinels up: the index entries under IGNORE and ANY_LABEL do not matter to it. */
  lemma {:induction false} SentinelsNeverLookedUp<V>(index: map<int, BuildersByPropertyId>, labelIds: seq<int>, propertyId: int, neoNodeId: int, value: V)
    ensures LabelWrites(index, labelIds, propertyId, neoNodeId, value) == LabelWrites(index - {IGNORE, ANY_LABEL}, labelIds, propertyId, neoNodeId, value)
  {
    if |labelIds| > 0 {
      SentinelsNeverLookedUp(index, labelIds[..|labelIds| - 1], propertyId, neoNodeId, value);
    }
  }

  /**
   * A write happens for a builder exactly when it is routed for the
   * property under one of the node's scanned label ids or under ANY_LABEL;
   * every write carries the node and the value.
   */
  lemma PropertyWritesMembership<V>(index: map<int, BuildersByPropertyId>, labelIds: seq<int>, propertyId: int, neoNodeId: int, value: V, w: Write<V>)
    ensures w in PropertyWrites(index, labelIds, propertyId, neoNodeId, value) <==>
      && w.neoNodeId == neoNodeId && w.value == value
      && ((exists labelId | ScannedLabel(labelIds, labelId) :: w.builder in Routed(index, labelId, propertyId))
          || w.builder in Routed(index, ANY_LABEL, propertyId))
  {
    LabelWritesMembership(index, labelIds, propertyId, neoNodeId, value, w);
    if ANY_LABEL in index {
      ListWritesMembership(index[ANY_LABEL].ListOf(propertyId), neoNodeId, value, w);
    }
  }

  /** A listed builder gets exactly the writes of the node and the value. */
  lemma ListWritesMembership<V>(builders: seq<BuilderRef>, neoNodeId: int, value: V, w: Write<V>)
    ensures w in ListWrites(builders, neoNodeId, value) <==> w.neoNodeId == neoNodeId && w.value == value && w.builder in builders
  {
    if w.neoNodeId == neoNodeId && w.value == value && w.builder in builders {
      var j :| 0 <= j < |builders| && builders[j] == w.builder;
      assert ListWrites(builders, neoNodeId, value)[j] == w;
    }
  }

  lemma {:induction false} LabelWritesMembership<V>(index: map<int, BuildersByPropertyId>, labelIds: seq<int>, propertyId: int, neoNodeId: int, value: V, w: Write<V>)
    ensures w in LabelWrites(index, labelIds, propertyId, neoNodeId, value) <==>
      && w.neoNodeId == neoNodeId && w.value == value
      && exists labelId | ScannedLabel(labelIds, labelId) :: w.builder in Routed(index, labelId, propertyId)
  {
    if |labelIds| > 0 {
      var init := labelIds[..|labelIds| - 1];
      var last := labelIds[|labelIds| - 1];
      assert labelIds == init + [last];
      LabelWritesMembership(index, init, propertyId, neoNodeId, value, w);
      if w in LabelWrites(index, labelIds, propertyId, neoNodeId, value) && w !in LabelWrites(index, init, propertyId, neoNodeId, value) {
        assert ScannedLabel(labelIds, last) && w.builder in Routed(index, last, propertyId);
      }
      if && w.neoNodeId == neoNodeId && w.value == value
         && exists labelId | ScannedLabel(labelIds, labelId) :: w.builder in Routed(index, labelId, propertyId)
      {
        var labelId :| ScannedLabel(labelIds, labelId) && w.builder in Routed(index, labelId, propertyId);
        if !ScannedLabel(init, labelId) {
          assert labelId == last;
          ListWritesMembership(Routed(index, labelId, propertyId), neoNodeId, value, w);
        }
      }
    }
  }

  // ---------------------------------------------------------------------------
  // How often a builder is written

  /** No builder list of the index holds a builder twice, stated for one list. */
  lemma {:induction false} DistinctCount(s: seq<BuilderRef>, x: BuilderRef)
    requires forall i, j | 0 <= i < j < |s| :: s[i] != s[j]
    ensures multiset(s)[x] == if x in s then 1 else 0
  {
    if |s| > 0 {
      var init := s[..|s| - 1];
      assert s == init + [s[|s| - 1]];
      DistinctCount(init, x);
      if s[|s| - 1] == x {
        assert x !in init;
      }
    }
  }

  /** A builder is written once per occurrence in the list. */
  lemma {:induction false} ListWritesCount<V>(builders: seq<BuilderRef>, neoNodeId: int, value: V, builder: BuilderRef)
    ensures multiset(ListWrites(builders, neoNodeId, value))[Write(builder, neoNodeId, value)] == multiset(builders)[builder]
  {
    if |builders| > 0 {
      var init := builders[..|builders| - 1];
      assert builders == init + [builders[|builders| - 1]];
      assert ListWrites(builders, neoNodeId, value) == ListWrites(init, neoNodeId, value) + [Write(builders[|builders| - 1], neoNodeId, value)];
      ListWritesCount(init, neoNodeId, value, builder);
    }
  }

  /**
   * A builder routed for `propertyId` under `labelId` alone is written by
   * the per-label loop once per occurrence of `labelId` among the node's
   * label ids, and never when `labelId` is a sentinel.
   */
  lemma {:induction false} LabelWritesCount<V>(index: map<int, BuildersByPropertyId>, labelIds: seq<int>, propertyId: int, neoNodeId: int, value: V,
                                               builder: BuilderRef, labelId: int)
    requires NoDuplicateRoutes(index)
    requires builder in Routed(index, labelId, propertyId)
    requires forall l | l != labelId :: builder !in Routed(index, l, propertyId)
    ensures multiset(LabelWrites(index, labelIds, propertyId, neoNodeId, value))[Write(builder, neoNodeId, value)]
            == if labelId == IGNORE || labelId == ANY_LABEL then 0 else multiset(labelIds)[labelId]
  {
    if |labelIds| > 0 {
      var init := labelIds[..|labelIds| - 1];
      var last := labelIds[|labelIds| - 1];
      assert labelIds == init + [last];
      LabelWritesCount(index, init, propertyId, neoNodeId, value, builder, labelId);
      ListWritesCount(Routed(index, last, propertyId), neoNodeId, value, builder);
      if last == labelId {
        DistinctCount(Routed(index, last, propertyId), builder);
      }
    }
  }

  /**
   * A builder routed for `propertyId` under `labelId` alone receives, for
   * one scanned property: exactly one write when `labelId` is ANY_LABEL,
   * whatever the node's labels (none included); otherwise one per
   * occurrence of `labelId` among the node's label ids.
   */
  lemma PropertyWritesCount<V>(index: map<int, BuildersByPropertyId>, labelIds: seq<int>, propertyId: int, neoNodeId: int, value: V,
                               builder: BuilderRef, labelId: int)
    requires NoDuplicateRoutes(index)
    requires builder in Routed(index, labelId, propertyId)
    requires forall l | l != labelId :: builder !in Routed(index, l, propertyId)
    ensures multiset(PropertyWrites(index, labelIds, propertyId, neoNodeId, value))[Write(builder, neoNodeId, value)]
            == if labelId == ANY_LABEL then 1 else if labelId == IGNORE then 0 else multiset(labelIds)[labelId]
  {
    LabelWritesCount(index, labelIds, propertyId, neoNodeId, value, builder, labelId);
    ListWritesCount(Routed(index, ANY_LABEL, propertyId), neoNodeId, value, builder);
    if labelId == ANY_LABEL {
      DistinctCount(Routed(index, ANY_LABEL, propertyId), builder);
    }
  }

  /**
   * In an exact index over distinct builders, the builder of a registered
   * (label, mapping) is routed for its mapping's property id under its
   * label's id and under no other label id.
   */
  lemma RoutedOnlyUnderItsLabel(index: map<int, BuildersByPropertyId>, b: map<NodeLabel, map<PropertyMapping, BuilderRef>>,
                                labelIds: map<NodeLabel, int>, propertyIds: map<string, int>, nodeLabel: NodeLabel, m: PropertyMapping, labelId: int)
    requires RoutesExactly(index, b, Pairs(b), labelIds, propertyIds) && DistinctBuilders(b)
    requires nodeLabel in b && m in b[nodeLabel] && nodeLabel in labelIds && m.neoPropertyKey in propertyIds
    ensures b[nodeLabel][m] in Routed(index, labelId, propertyIds[m.neoPropertyKey]) <==> labelId == labelIds[nodeLabel]
  {
    var propertyId := propertyIds[m.neoPropertyKey];
    if labelId == labelIds[nodeLabel] {
      assert (nodeLabel, m) in Pairs(b);
      assert RegisteredFor(b, Pairs(b), labelIds, propertyIds, labelId, propertyId, b[nodeLabel][m]);
    }
  }

  /**
   * End to end: for an importer built from a specification, the builder of
   * a registered (label, mapping) gets, per scanned value of its mapping's
   * store property, one write per occurrence of its label's id among the
   * node's label ids, or exactly one when its label resolves to ANY_LABEL.
   */
  lemma ImportedOncePerLabelOccurrence<V>(importer: NativeNodePropertyImporter, propertyMappings: map<NodeLabel, seq<PropertyMapping>>,
                                          propertyIds: map<string, int>, labelsByLabelId: map<int, seq<NodeLabel>>,
                                          nodeLabel: NodeLabel, m: PropertyMapping,
                                          labelIds: seq<int>, neoNodeId: int, value: V)
    requires importer.buildersByLabel.builders == Registered(propertyMappings)
    requires ResolvesLabels(importer.buildersByLabelIdAndPropertyId.labelIds, labelsByLabelId)
    requires RoutesExactly(importer.buildersByLabelIdAndPropertyId.builders, Registered(propertyMappings),
                           Pairs(Registered(propertyMappings)), importer.buildersByLabelIdAndPropertyId.labelIds, propertyIds)
    requires NoDuplicateRoutes(importer.buildersByLabelIdAndPropertyId.builders)
    requires nodeLabel in propertyMappings && m in propertyMappings[nodeLabel]
    requires Listed(labelsByLabelId, nodeLabel) && m.neoPropertyKey in propertyIds
    ensures var labelId := importer.buildersByLabelIdAndPropertyId.labelIds[nodeLabel];
            multiset(PropertyWrites(importer.buildersByLabelIdAndPropertyId.builders, labelIds, propertyIds[m.neoPropertyKey], neoNodeId, value))
              [Write(importer.buildersByLabel.builders[nodeLabel][m], neoNodeId, value)]
            == if labelId == ANY_LABEL then 1 else if labelId == IGNORE then 0 else multiset(labelIds)[labelId]
  {
    var b := Registered(propertyMappings);
    var ids := importer.buildersByLabelIdAndPropertyId.labelIds;
    var index := importer.buildersByLabelIdAndPropertyId.builders;
    var propertyId := propertyIds[m.neoPropertyKey];
    RegisteredBuildersDistinct(propertyMappings);
    forall l | true
      ensures b[nodeLabel][m] in Routed(index, l, propertyId) <==> l == ids[nodeLabel]
    {
      RoutedOnlyUnderItsLabel(index, b, ids, propertyIds, nodeLabel, m, l);
    }
    PropertyWritesCount(index, labelIds, propertyId, neoNodeId, value, b[nodeLabel][m], ids[nodeLabel]);
  }

  /**
   * The importer's result has exactly the labels with at least one mapping
   * and, per label, exactly its mappings, each mapped to what the builder
   * made for the mapping's first listing builds; an empty specification
   * gives an empty result.
   */
  lemma ResultMatchesSpecification<P>(importer: NativeNodePropertyImporter, propertyMappings: map<NodeLabel, seq<PropertyMapping>>,
                                      build: BuilderRef -> P)
    requires importer.buildersByLabel.builders == Registered(propertyMappings)
    ensures var r := importer.Result(build);
      && (forall l :: l in r <==> l in propertyMappings && |propertyMappings[l]| > 0)
      && (forall l, m | l in r :: m in r[l] <==> m in propertyMappings[l])
      && (forall l, m | l in r && m in r[l] :: r[l][m] == build(BuilderRef(l, FirstIndex(propertyMappings[l], m))))
      && (propertyMappings == map[] ==> r == map[])
  {
    var r := importer.Result(build);
    forall l, m | l in r && m in r[l]
      ensures r[l][m] == build(BuilderRef(l, FirstIndex(propertyMappings[l], m)))
    {
      var builder := importer.buildersByLabel.builders[l][m];
      assert builder.position < |propertyMappings[l]| && propertyMappings[l][builder.position] == m;
      FirstIndexUnique(propertyMappings[l], m, builder.position);
    }
  }

  /** The first occurrence is the only position with nothing equal before it. */
  lemma FirstIndexUnique<T>(s: seq<T>, x: T, i: nat)
    requires i < |s| && s[i] == x && forall j | 0 <= j < i :: s[j] != x
    ensures FirstIndex(s, x) == i
  {
  }
}
