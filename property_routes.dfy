/**
 * The routing tables of the node-property importer: which property builders
 * a scanned (label id, property id) pair is forwarded to.
 *
 * - BuildersByLabel: label -> property mapping -> builder, one builder per
 *   distinct mapping of a label.
 * - LabelIdByLabel: label -> label id, inverted from the id -> labels table.
 * - BuildersByPropertyId: property id -> list of builders.
 * - BuildersByLabelIdAndPropertyId: label id -> BuildersByPropertyId.
 */
module PropertyRoutes {
  import opened Wrappers

  /** Label id that every node matches (a projection over all labels). */
  const ANY_LABEL: int := -1
  /** Label id of a label the scan is told to skip. */
  const IGNORE: int := -4

  datatype NodeLabel = NodeLabel(name: string)

  /** A projected property: its key in the result and its key in the store. */
  datatype PropertyMapping = PropertyMapping(propertyKey: string, neoPropertyKey: string)

  /** The property builder created for the `position`-th mapping listed under `nodeLabel`. */
  datatype BuilderRef = BuilderRef(nodeLabel: NodeLabel, position: nat)

  /** A label or a property key without an id: the source fails unboxing a null id. */
  datatype ImportError = MissingLabelId(nodeLabel: NodeLabel) | MissingPropertyId(neoPropertyKey: string)

  /** Position of the first occurrence of `x` in `s`. */
  function FirstIndex<T(==)>(s: seq<T>, x: T): (i: nat)
    requires x in s
    ensures i < |s| && s[i] == x
    ensures forall j | 0 <= j < i :: s[j] != x
  {
    if s[0] == x then 0 else 1 + FirstIndex(s[1..], x)
  }

  // ---------------------------------------------------------------------------
  // BuildersByLabel

  /** The builders registered for the first `count` mappings of `nodeLabel`: one per distinct mapping, made at its first occurrence. */
  function LabelBuilders(nodeLabel: NodeLabel, mappings: seq<PropertyMapping>, count: nat): map<PropertyMapping, BuilderRef>
    requires count <= |mappings|
  {
    map m | m in mappings[..count] :: BuilderRef(nodeLabel, FirstIndex(mappings, m))
  }

  /**
   * The label -> mapping -> builder table built from a specification: every
   * label with at least one mapping, every mapping of it, and for a mapping
   * listed twice the builder made for its first occurrence.
   */
  function Registered(spec: map<NodeLabel, seq<PropertyMapping>>): (r: map<NodeLabel, map<PropertyMapping, BuilderRef>>)
    ensures forall l :: l in r <==> l in spec && |spec[l]| > 0
    ensures forall l, m | l in r :: m in r[l] <==> m in spec[l]
    ensures forall l, m | l in r && m in r[l] ::
      && r[l][m].nodeLabel == l && r[l][m].position < |spec[l]| && spec[l][r[l][m].position] == m
      && forall j | 0 <= j < r[l][m].position :: spec[l][j] != m
  {
    map l | l in spec && |spec[l]| > 0 :: LabelBuilders(l, spec[l], |spec[l]|)
  }

  /** Registered restricted to the labels of `visited`. */
  function RegisteredAmong(spec: map<NodeLabel, seq<PropertyMapping>>, visited: set<NodeLabel>): map<NodeLabel, map<PropertyMapping, BuilderRef>> {
    map l | l in visited && l in spec && |spec[l]| > 0 :: LabelBuilders(l, spec[l], |spec[l]|)
  }

  /** One more mapping: its builder is added unless the mapping was already listed, and then it is the one just made. */
  lemma LabelBuildersStep(nodeLabel: NodeLabel, mappings: seq<PropertyMapping>, i: nat)
    requires i < |mappings|
    ensures i == 0 ==> LabelBuilders(nodeLabel, mappings, 1) == map[mappings[0] := BuilderRef(nodeLabel, 0)]
    ensures mappings[i] in LabelBuilders(nodeLabel, mappings, i) ==> LabelBuilders(nodeLabel, mappings, i + 1) == LabelBuilders(nodeLabel, mappings, i)
    ensures mappings[i] !in LabelBuilders(nodeLabel, mappings, i) ==>
      LabelBuilders(nodeLabel, mappings, i + 1) == LabelBuilders(nodeLabel, mappings, i)[mappings[i] := BuilderRef(nodeLabel, i)]
  {
    assert mappings[..i + 1] == mappings[..i] + [mappings[i]];
    if mappings[i] !in mappings[..i] {
      assert FirstIndex(mappings, mappings[i]) == i;
    }
  }

  /** The table with `builder` registered for (nodeLabel, m), unless that pair already has a builder. */
  function WithBuilder(builders: map<NodeLabel, map<PropertyMapping, BuilderRef>>, nodeLabel: NodeLabel, m: PropertyMapping, builder: BuilderRef): map<NodeLabel, map<PropertyMapping, BuilderRef>>
  {
    var forLabel := if nodeLabel in builders then builders[nodeLabel] else map[];
    if m in forLabel then builders else builders[nodeLabel := forLabel[m := builder]]
  }

  /** Registering the `i`-th mapping of a label being visited extends its table by one mapping. */
  lemma PutNextMapping(before: map<NodeLabel, map<PropertyMapping, BuilderRef>>, nodeLabel: NodeLabel, mappings: seq<PropertyMapping>, i: nat)
    requires i < |mappings| && nodeLabel !in before
    ensures WithBuilder(Visiting(before, nodeLabel, mappings, i), nodeLabel, mappings[i], BuilderRef(nodeLabel, i))
            == Visiting(before, nodeLabel, mappings, i + 1)
  {
    LabelBuildersStep(nodeLabel, mappings, i);
  }

  /** The table while the first `i` mappings of `nodeLabel` have been put. */
  function Visiting(before: map<NodeLabel, map<PropertyMapping, BuilderRef>>, nodeLabel: NodeLabel, mappings: seq<PropertyMapping>, i: nat): map<NodeLabel, map<PropertyMapping, BuilderRef>>
    requires i <= |mappings|
  {
    if i == 0 then before else before[nodeLabel := LabelBuilders(nodeLabel, mappings, i)]
  }

  /** Putting all mappings of one more label adds that label's registrations. */
  lemma VisitedLabel(spec: map<NodeLabel, seq<PropertyMapping>>, visited: set<NodeLabel>, nodeLabel: NodeLabel)
    requires nodeLabel in spec && nodeLabel !in visited
    ensures nodeLabel !in RegisteredAmong(spec, visited)
    ensures Visiting(RegisteredAmong(spec, visited), nodeLabel, spec[nodeLabel], |spec[nodeLabel]|) == RegisteredAmong(spec, visited + {nodeLabel})
  {
    RegisteredAmongStep(spec, visited, nodeLabel);
  }

  lemma RegisteredAmongAll(spec: map<NodeLabel, seq<PropertyMapping>>, visited: set<NodeLabel>)
    requires visited == spec.Keys
    ensures RegisteredAmong(spec, visited) == Registered(spec)
  {
  }

  lemma RegisteredAmongStep(spec: map<NodeLabel, seq<PropertyMapping>>, visited: set<NodeLabel>, nodeLabel: NodeLabel)
    requires nodeLabel in spec && nodeLabel !in visited
    ensures nodeLabel !in RegisteredAmong(spec, visited)
    ensures RegisteredAmong(spec, visited + {nodeLabel}) ==
      if |spec[nodeLabel]| == 0 then RegisteredAmong(spec, visited)
      else RegisteredAmong(spec, visited)[nodeLabel := LabelBuilders(nodeLabel, spec[nodeLabel], |spec[nodeLabel]|)]
  {
  }

  /** Different (label, mapping) registrations never share a builder. */
  ghost predicate DistinctBuilders(b: map<NodeLabel, map<PropertyMapping, BuilderRef>>) {
    forall l1: NodeLabel, m1: PropertyMapping, l2: NodeLabel, m2: PropertyMapping | l1 in b && m1 in b[l1] && l2 in b && m2 in b[l2] && b[l1][m1] == b[l2][m2] ::
      l1 == l2 && m1 == m2
  }

  lemma RegisteredBuildersDistinct(spec: map<NodeLabel, seq<PropertyMapping>>)
    ensures DistinctBuilders(Registered(spec))
  {
    var r := Registered(spec);
    forall l1: NodeLabel, m1: PropertyMapping, l2: NodeLabel, m2: PropertyMapping | l1 in r && m1 in r[l1] && l2 in r && m2 in r[l2] && r[l1][m1] == r[l2][m2]
      ensures l1 == l2 && m1 == m2
    {
      var builder: BuilderRef := r[l1][m1];
      assert spec[l1][builder.position] == m1;
    }
  }

  class BuildersByLabel {
    var builders: map<NodeLabel, map<PropertyMapping, BuilderRef>>

    constructor ()
      ensures builders == map[]
    {
      builders := map[];
    }

    /** Registers `builder` for (label, mapping) unless that pair already has one. */
    method Put(nodeLabel: NodeLabel, propertyMapping: PropertyMapping, builder: BuilderRef)
      modifies this
      ensures builders == WithBuilder(old(builders), nodeLabel, propertyMapping, builder)
    {
      var forLabel := if nodeLabel in builders then builders[nodeLabel] else map[];
      if propertyMapping !in forLabel {
        builders := builders[nodeLabel := forLabel[propertyMapping := builder]];
      }
    }

    /** Creates one builder per listed mapping, visiting the labels in an unspecified (hash) order. */
    static method Create(propertyMappingsByLabel: map<NodeLabel, seq<PropertyMapping>>) returns (r: BuildersByLabel)
      ensures fresh(r)
      ensures r.builders == Registered(propertyMappingsByLabel)
    {
      var spec := propertyMappingsByLabel;
      r := new BuildersByLabel();
      var remaining := spec.Keys;
      ghost var visited: set<NodeLabel> := {};
      while remaining != {}
        invariant visited <= spec.Keys && remaining == spec.Keys - visited
        invariant r.builders == RegisteredAmong(spec, visited)
        decreases remaining
      {
        var nodeLabel :| nodeLabel in remaining;
        VisitedLabel(spec, visited, nodeLabel);
        ghost var before := r.builders;
        var mappings := spec[nodeLabel];
        var i := 0;
        while i < |mappings|
          invariant 0 <= i <= |mappings|
          invariant r.builders == Visiting(before, nodeLabel, mappings, i)
        {
          PutNextMapping(before, nodeLabel, mappings, i);
          r.Put(nodeLabel, mappings[i], BuilderRef(nodeLabel, i));
          i := i + 1;
        }
        visited := visited + {nodeLabel};
        remaining := remaining - {nodeLabel};
      }
      RegisteredAmongAll(spec, visited);
    }

    /** The result table: the same labels and mappings, each builder replaced by what it builds. */
    function Build<P>(build: BuilderRef -> P): (r: map<NodeLabel, map<PropertyMapping, P>>)
      reads this
      ensures r.Keys == builders.Keys
      ensures forall l | l in r :: r[l].Keys == builders[l].Keys
      ensures forall l, m | l in r && m in r[l] :: r[l][m] == build(builders[l][m])
    {
      map l | l in builders :: map m | m in builders[l] :: build(builders[l][m])
    }
  }

  // ---------------------------------------------------------------------------
  // LabelIdByLabel

  /** `nodeLabel` is listed under one of `ids` in the id -> labels table. */
  ghost predicate ListedUnder(labelsByLabelId: map<int, seq<NodeLabel>>, ids: set<int>, nodeLabel: NodeLabel) {
    exists id | id in ids && id in labelsByLabelId :: nodeLabel in labelsByLabelId[id]
  }

  /** `nodeLabel` is listed under some id of the id -> labels table. */
  ghost predicate Listed(labelsByLabelId: map<int, seq<NodeLabel>>, nodeLabel: NodeLabel) {
    ListedUnder(labelsByLabelId, labelsByLabelId.Keys, nodeLabel)
  }

  /** `labelIds` resolves exactly the labels listed under `ids`, each to an id it is listed under. */
  ghost predicate ResolvesLabelsUnder(labelIds: map<NodeLabel, int>, labelsByLabelId: map<int, seq<NodeLabel>>, ids: set<int>) {
    && (forall nodeLabel :: nodeLabel in labelIds <==> ListedUnder(labelsByLabelId, ids, nodeLabel))
    && (forall nodeLabel | nodeLabel in labelIds :: labelIds[nodeLabel] in labelsByLabelId && nodeLabel in labelsByLabelId[labelIds[nodeLabel]])
  }

  /** `labelIds` resolves exactly the listed labels, each to an id it is listed under. */
  ghost predicate ResolvesLabels(labelIds: map<NodeLabel, int>, labelsByLabelId: map<int, seq<NodeLabel>>) {
    ResolvesLabelsUnder(labelIds, labelsByLabelId, labelsByLabelId.Keys)
  }

  lemma PickId(ids: set<int>) returns (id: int)
    requires ids != {}
    ensures id in ids
  {
    if forall x: int :: x !in ids {
      assert false;
    }
    id :| id in ids;
  }

  class LabelIdByLabel {
    var labelIdByLabel: map<NodeLabel, int>

    constructor ()
      ensures labelIdByLabel == map[]
    {
      labelIdByLabel := map[];
    }

    function Get(nodeLabel: NodeLabel): (r: Option<int>)
      reads this
      ensures r.Some? <==> nodeLabel in labelIdByLabel
      ensures r.Some? ==> r.value == labelIdByLabel[nodeLabel]
    {
      if nodeLabel in labelIdByLabel then Some(labelIdByLabel[nodeLabel]) else None
    }

    /**
     * Inverts the id -> labels table, visiting ids in an unspecified (hash)
     * order; a label listed under two ids keeps the one visited last.
     */
    static method Create(mapping: map<int, seq<NodeLabel>>) returns (r: LabelIdByLabel)
      ensures fresh(r)
      ensures ResolvesLabels(r.labelIdByLabel, mapping)
    {
      r := new LabelIdByLabel();
      var remaining := mapping.Keys;
      ghost var visited: set<int> := {};
      while remaining != {}
        invariant visited <= mapping.Keys && remaining == mapping.Keys - visited
        invariant ResolvesLabelsUnder(r.labelIdByLabel, mapping, visited)
        decreases remaining
      {
        ghost var someKey := PickId(remaining);
        var key :| key in remaining;
        var labels := mapping[key];
        var i := 0;
        while i < |labels|
          invariant 0 <= i <= |labels|
          invariant forall nodeLabel :: nodeLabel in r.labelIdByLabel <==> ListedUnder(mapping, visited, nodeLabel) || nodeLabel in labels[..i]
          invariant forall nodeLabel | nodeLabel in r.labelIdByLabel :: r.labelIdByLabel[nodeLabel] in mapping && nodeLabel in mapping[r.labelIdByLabel[nodeLabel]]
        {
          r.labelIdByLabel := r.labelIdByLabel[labels[i] := key];
          assert labels[..i + 1] == labels[..i] + [labels[i]];
          i := i + 1;
        }
        assert labels[..i] == labels;
        forall nodeLabel
          ensures ListedUnder(mapping, visited + {key}, nodeLabel) <==> ListedUnder(mapping, visited, nodeLabel) || nodeLabel in labels
        {
          if nodeLabel in labels {
            assert key in visited + {key};
          }
        }
        visited := visited + {key};
        remaining := remaining - {key};
        assert ResolvesLabelsUnder(r.labelIdByLabel, mapping, visited);
      }
    }
  }

  // ---------------------------------------------------------------------------
  // BuildersByPropertyId

  datatype BuildersByPropertyId = BuildersByPropertyId(builders: map<int, seq<BuilderRef>>)
  {
    /** The builder list for `propertyId`, or `None` (a Java `null`) when there is none. */
    function Get(propertyId: int): (r: Option<seq<BuilderRef>>)
      ensures r.Some? <==> propertyId in builders
      ensures r.Some? ==> r.value == builders[propertyId]
    {
      if propertyId in builders then Some(builders[propertyId]) else None
    }

    /** Appends `builder` to the list for `propertyId`, creating the list when absent. */
    function Add(propertyId: int, builder: BuilderRef): (r: BuildersByPropertyId)
      ensures r.Get(propertyId) == Some(ListOf(propertyId) + [builder])
      ensures forall q | q != propertyId :: r.Get(q) == Get(q)
    {
      BuildersByPropertyId(builders[propertyId := ListOf(propertyId) + [builder]])
    }

    /** The builder list for `propertyId`, empty when there is none. */
    function ListOf(propertyId: int): (r: seq<BuilderRef>) {
      if propertyId in builders then builders[propertyId] else []
    }
  }

  // ---------------------------------------------------------------------------
  // BuildersByLabelIdAndPropertyId

  /** The builders a (label id, property id) pair is routed to; empty when either level is missing. */
  function Routed(index: map<int, BuildersByPropertyId>, labelId: int, propertyId: int): (r: seq<BuilderRef>) {
    if labelId in index then index[labelId].ListOf(propertyId) else []
  }

  /** Every (label, mapping) pair of a label -> mapping -> builder table. */
  ghost function Pairs(b: map<NodeLabel, map<PropertyMapping, BuilderRef>>): set<(NodeLabel, PropertyMapping)> {
    PairsAmong(b, b.Keys)
  }

  /** The (label, mapping) pairs of the labels in `visited`. */
  ghost function PairsAmong(b: map<NodeLabel, map<PropertyMapping, BuilderRef>>, visited: set<NodeLabel>): set<(NodeLabel, PropertyMapping)> {
    set l, m | l in visited && l in b && m in b[l] :: (l, m)
  }

  /** The pairs of `nodeLabel` with the mappings in `done`. */
  ghost function LabelPairs(nodeLabel: NodeLabel, done: set<PropertyMapping>): set<(NodeLabel, PropertyMapping)> {
    set m | m in done :: (nodeLabel, m)
  }

  lemma PairsAmongStep(b: map<NodeLabel, map<PropertyMapping, BuilderRef>>, visited: set<NodeLabel>, nodeLabel: NodeLabel)
    requires nodeLabel in b
    ensures Filing(b, visited, nodeLabel, {}) == PairsAmong(b, visited)
    ensures PairsAmong(b, visited + {nodeLabel}) == Filing(b, visited, nodeLabel, b[nodeLabel].Keys)
  {
    assert LabelPairs(nodeLabel, {}) == {};
  }

  /** Every store key of the pairs has a property id. */
  ghost predicate KeysResolved(pairs: set<(NodeLabel, PropertyMapping)>, propertyIds: map<string, int>) {
    forall pair | pair in pairs :: pair.1.neoPropertyKey in propertyIds
  }

  /** Builder `builder` is registered, through one of `pairs`, for (labelId, propertyId). */
  ghost predicate RegisteredFor(b: map<NodeLabel, map<PropertyMapping, BuilderRef>>, pairs: set<(NodeLabel, PropertyMapping)>,
                                labelIds: map<NodeLabel, int>, propertyIds: map<string, int>,
                                labelId: int, propertyId: int, builder: BuilderRef)
  {
    exists pair | pair in pairs ::
      && pair.0 in b && pair.1 in b[pair.0] && b[pair.0][pair.1] == builder
      && pair.0 in labelIds && labelIds[pair.0] == labelId
      && pair.1.neoPropertyKey in propertyIds && propertyIds[pair.1.neoPropertyKey] == propertyId
  }

  /** The route index holds exactly the registrations made through `pairs`. */
  ghost predicate RoutesExactly(index: map<int, BuildersByPropertyId>, b: map<NodeLabel, map<PropertyMapping, BuilderRef>>,
                                pairs: set<(NodeLabel, PropertyMapping)>, labelIds: map<NodeLabel, int>, propertyIds: map<string, int>)
  {
    forall labelId, propertyId, builder ::
      builder in Routed(index, labelId, propertyId) <==> RegisteredFor(b, pairs, labelIds, propertyIds, labelId, propertyId, builder)
  }

  /** No builder list holds the same builder twice. */
  ghost predicate NoDuplicateRoutes(index: map<int, BuildersByPropertyId>) {
    forall labelId, propertyId, i, j | 0 <= i < j < |Routed(index, labelId, propertyId)| ::
      Routed(index, labelId, propertyId)[i] != Routed(index, labelId, propertyId)[j]
  }

  /** Some registered label has no id, or some registered mapping's store key has no property id. */
  ghost predicate MissingId(b: map<NodeLabel, map<PropertyMapping, BuilderRef>>, labelsByLabelId: map<int, seq<NodeLabel>>,
                            propertyIds: map<string, int>)
  {
    || (exists l | l in b :: !Listed(labelsByLabelId, l))
    || (exists l, m | l in b && m in b[l] :: m.neoPropertyKey !in propertyIds)
  }

  /** The label ids of the labels of `pairs`. */
  ghost function LabelIdsOf(pairs: set<(NodeLabel, PropertyMapping)>, labelIds: map<NodeLabel, int>): set<int> {
    set pair | pair in pairs && pair.0 in labelIds :: labelIds[pair.0]
  }

  /**
   * The index files exactly the builders of `pairs`, each once when builders
   * are distinct, has a key exactly for the label ids of `pairs`, and every
   * key of `pairs` has an id.
   */
  ghost predicate Filed(index: map<int, BuildersByPropertyId>, b: map<NodeLabel, map<PropertyMapping, BuilderRef>>,
                        pairs: set<(NodeLabel, PropertyMapping)>, labelIds: map<NodeLabel, int>, propertyIds: map<string, int>)
  {
    && KeysResolved(pairs, propertyIds)
    && RoutesExactly(index, b, pairs, labelIds, propertyIds)
    && index.Keys == LabelIdsOf(pairs, labelIds)
    && (DistinctBuilders(b) ==> NoDuplicateRoutes(index))
  }

  /** The pairs filed while visiting `nodeLabel`, its mappings in `done` already filed. */
  ghost function Filing(b: map<NodeLabel, map<PropertyMapping, BuilderRef>>, visited: set<NodeLabel>, nodeLabel: NodeLabel,
                        done: set<PropertyMapping>): set<(NodeLabel, PropertyMapping)>
  {
    PairsAmong(b, visited) + LabelPairs(nodeLabel, done)
  }

  /** Filing one more (label, mapping) pair of the label being visited keeps the index filed. */
  lemma FileStep(index: map<int, BuildersByPropertyId>, index': map<int, BuildersByPropertyId>,
                 b: map<NodeLabel, map<PropertyMapping, BuilderRef>>, visited: set<NodeLabel>, done: set<PropertyMapping>,
                 labelIds: map<NodeLabel, int>, propertyIds: map<string, int>,
                 nodeLabel: NodeLabel, m: PropertyMapping, labelId: int, propertyId: int)
    requires Filed(index, b, Filing(b, visited, nodeLabel, done), labelIds, propertyIds)
    requires nodeLabel in b && nodeLabel !in visited && m in b[nodeLabel] && m !in done
    requires nodeLabel in labelIds && labelIds[nodeLabel] == labelId
    requires m.neoPropertyKey in propertyIds && propertyIds[m.neoPropertyKey] == propertyId
    requires Routed(index', labelId, propertyId) == Routed(index, labelId, propertyId) + [b[nodeLabel][m]]
    requires forall l, p | l != labelId || p != propertyId :: Routed(index', l, p) == Routed(index, l, p)
    requires index'.Keys == index.Keys + {labelId}
    ensures Filed(index', b, Filing(b, visited, nodeLabel, done + {m}), labelIds, propertyIds)
  {
    var pairs := Filing(b, visited, nodeLabel, done);
    assert (nodeLabel, m) !in pairs;
    AddRoute(index, index', b, pairs, labelIds, propertyIds, nodeLabel, m, labelId, propertyId);
    assert LabelPairs(nodeLabel, done + {m}) == LabelPairs(nodeLabel, done) + {(nodeLabel, m)};
    assert Filing(b, visited, nodeLabel, done + {m}) == pairs + {(nodeLabel, m)};
    LabelIdsOfStep(pairs, labelIds, nodeLabel, m);
  }

  /** One more pair adds the label id of its label. */
  lemma LabelIdsOfStep(pairs: set<(NodeLabel, PropertyMapping)>, labelIds: map<NodeLabel, int>, nodeLabel: NodeLabel, m: PropertyMapping)
    requires nodeLabel in labelIds
    ensures LabelIdsOf(pairs + {(nodeLabel, m)}, labelIds) == LabelIdsOf(pairs, labelIds) + {labelIds[nodeLabel]}
  {
    assert (nodeLabel, m) in pairs + {(nodeLabel, m)};
  }

  /** When every label resolved and every pair's store key has an id, no id is missing. */
  lemma NothingMissing(b: map<NodeLabel, map<PropertyMapping, BuilderRef>>, labelsByLabelId: map<int, seq<NodeLabel>>,
                       propertyIds: map<string, int>, labelIds: map<NodeLabel, int>)
    requires ResolvesLabels(labelIds, labelsByLabelId) && b.Keys <= labelIds.Keys
    requires KeysResolved(Pairs(b), propertyIds)
    ensures !MissingId(b, labelsByLabelId, propertyIds)
  {
    forall l, m | l in b && m in b[l]
      ensures m.neoPropertyKey in propertyIds
    {
      assert (l, m) in Pairs(b);
    }
  }

  /** Filing the builder of one more registration keeps the index exact, and free of duplicates when builders are distinct. */
  lemma AddRoute(index: map<int, BuildersByPropertyId>, index': map<int, BuildersByPropertyId>,
                 b: map<NodeLabel, map<PropertyMapping, BuilderRef>>, pairs: set<(NodeLabel, PropertyMapping)>,
                 labelIds: map<NodeLabel, int>, propertyIds: map<string, int>,
                 nodeLabel: NodeLabel, m: PropertyMapping, labelId: int, propertyId: int)
    requires RoutesExactly(index, b, pairs, labelIds, propertyIds)
    requires nodeLabel in b && m in b[nodeLabel] && (nodeLabel, m) !in pairs
    requires nodeLabel in labelIds && labelIds[nodeLabel] == labelId
    requires m.neoPropertyKey in propertyIds && propertyIds[m.neoPropertyKey] == propertyId
    requires Routed(index', labelId, propertyId) == Routed(index, labelId, propertyId) + [b[nodeLabel][m]]
    requires forall l, p | l != labelId || p != propertyId :: Routed(index', l, p) == Routed(index, l, p)
    ensures RoutesExactly(index', b, pairs + {(nodeLabel, m)}, labelIds, propertyIds)
    ensures DistinctBuilders(b) && NoDuplicateRoutes(index) ==> NoDuplicateRoutes(index')
  {
    AddRouteExact(index, index', b, pairs, labelIds, propertyIds, nodeLabel, m, labelId, propertyId);
    if DistinctBuilders(b) && NoDuplicateRoutes(index) {
      AddRouteFresh(index, b, pairs, labelIds, propertyIds, nodeLabel, m, labelId, propertyId);
    }
  }

  lemma AddRouteFresh(index: map<int, BuildersByPropertyId>,
                      b: map<NodeLabel, map<PropertyMapping, BuilderRef>>, pairs: set<(NodeLabel, PropertyMapping)>,
                      labelIds: map<NodeLabel, int>, propertyIds: map<string, int>,
                      nodeLabel: NodeLabel, m: PropertyMapping, labelId: int, propertyId: int)
    requires RoutesExactly(index, b, pairs, labelIds, propertyIds) && DistinctBuilders(b)
    requires nodeLabel in b && m in b[nodeLabel] && (nodeLabel, m) !in pairs
    ensures b[nodeLabel][m] !in Routed(index, labelId, propertyId)
  {
  }

  lemma AddRouteExact(index: map<int, BuildersByPropertyId>, index': map<int, BuildersByPropertyId>,
                 b: map<NodeLabel, map<PropertyMapping, BuilderRef>>, pairs: set<(NodeLabel, PropertyMapping)>,
                 labelIds: map<NodeLabel, int>, propertyIds: map<string, int>,
                 nodeLabel: NodeLabel, m: PropertyMapping, labelId: int, propertyId: int)
    requires RoutesExactly(index, b, pairs, labelIds, propertyIds)
    requires nodeLabel in b && m in b[nodeLabel] && (nodeLabel, m) !in pairs
    requires nodeLabel in labelIds && labelIds[nodeLabel] == labelId
    requires m.neoPropertyKey in propertyIds && propertyIds[m.neoPropertyKey] == propertyId
    requires Routed(index', labelId, propertyId) == Routed(index, labelId, propertyId) + [b[nodeLabel][m]]
    requires forall l, p | l != labelId || p != propertyId :: Routed(index', l, p) == Routed(index, l, p)
    ensures RoutesExactly(index', b, pairs + {(nodeLabel, m)}, labelIds, propertyIds)
  {
    var pairs' := pairs + {(nodeLabel, m)};
    forall l, p, builder
      ensures builder in Routed(index', l, p) <==> RegisteredFor(b, pairs', labelIds, propertyIds, l, p, builder)
    {
      if RegisteredFor(b, pairs', labelIds, propertyIds, l, p, builder) && !RegisteredFor(b, pairs, labelIds, propertyIds, l, p, builder) {
        assert l == labelId && p == propertyId && builder == b[nodeLabel][m];
      }
      if l == labelId && p == propertyId && builder == b[nodeLabel][m] {
        assert (nodeLabel, m) in pairs';
      }
    }
  }

  class BuildersByLabelIdAndPropertyId {
    var builders: map<int, BuildersByPropertyId>
    /** The label resolution this index was built with. */
    ghost var labelIds: map<NodeLabel, int>

    constructor ()
      ensures builders == map[] && labelIds == map[]
    {
      builders := map[];
      labelIds := map[];
    }

    /** True iff some builder was registered under the ANY_LABEL id. */
    function ContainsAnyLabelProjection(): (r: bool)
      reads this
      ensures r <==> Get(ANY_LABEL).Some?
    {
      ANY_LABEL in builders
    }

    function Get(labelId: int): (r: Option<BuildersByPropertyId>)
      reads this
      ensures r.Some? <==> labelId in builders
      ensures r.Some? ==> r.value == builders[labelId]
    {
      if labelId in builders then Some(builders[labelId]) else None
    }

    /** Appends `builder` to the list for (labelId, propertyId); every other list is unchanged. */
    method Put(labelId: int, propertyId: int, builder: BuilderRef)
      modifies this
      ensures labelIds == old(labelIds)
      ensures Routed(builders, labelId, propertyId) == Routed(old(builders), labelId, propertyId) + [builder]
      ensures forall l, p | l != labelId || p != propertyId :: Routed(builders, l, p) == Routed(old(builders), l, p)
      ensures builders.Keys == old(builders).Keys + {labelId}
    {
      if labelId !in builders {
        builders := builders[labelId := BuildersByPropertyId(map[])];
      }
      builders := builders[labelId := builders[labelId].Add(propertyId, builder)];
    }

    /** Files the builder of one mapping of the label being visited under (labelId, propertyId). */
    method PutMapping(nodeLabel: NodeLabel, labelId: int, m: PropertyMapping, builder: BuilderRef, propertyId: int, propertyIds: map<string, int>,
                      ghost b: map<NodeLabel, map<PropertyMapping, BuilderRef>>, ghost visited: set<NodeLabel>, ghost done: set<PropertyMapping>)
      modifies this
      requires nodeLabel in b && nodeLabel !in visited && m in b[nodeLabel] && m !in done && b[nodeLabel][m] == builder
      requires nodeLabel in labelIds && labelIds[nodeLabel] == labelId
      requires m.neoPropertyKey in propertyIds && propertyIds[m.neoPropertyKey] == propertyId
      requires Filed(builders, b, Filing(b, visited, nodeLabel, done), labelIds, propertyIds)
      ensures labelIds == old(labelIds)
      ensures Filed(builders, b, Filing(b, visited, nodeLabel, done + {m}), labelIds, propertyIds)
    {
      ghost var index := builders;
      Put(labelId, propertyId, builder);
      FileStep(index, builders, b, visited, done, labelIds, propertyIds, nodeLabel, m, labelId, propertyId);
    }

    /**
     * Files the builders of one label's mappings under (labelId, property
     * id), visiting the mappings in an unspecified (hash) order; returns the
     * first store key met that has no property id.
     */
    method PutLabel(nodeLabel: NodeLabel, labelId: int, forLabel: map<PropertyMapping, BuilderRef>, propertyIds: map<string, int>,
                    ghost b: map<NodeLabel, map<PropertyMapping, BuilderRef>>, ghost visited: set<NodeLabel>)
      returns (missing: Option<string>)
      modifies this
      requires nodeLabel in b && b[nodeLabel] == forLabel && nodeLabel !in visited
      requires nodeLabel in labelIds && labelIds[nodeLabel] == labelId
      requires Filed(builders, b, PairsAmong(b, visited), labelIds, propertyIds)
      ensures labelIds == old(labelIds)
      ensures missing.Some? ==> missing.value !in propertyIds && exists m | m in forLabel :: m.neoPropertyKey == missing.value
      ensures missing.None? ==> Filed(builders, b, PairsAmong(b, visited + {nodeLabel}), labelIds, propertyIds)
    {
      PairsAmongStep(b, visited, nodeLabel);
      var mappingsLeft := forLabel.Keys;
      ghost var done: set<PropertyMapping> := {};
      while mappingsLeft != {}
        invariant done <= forLabel.Keys && mappingsLeft == forLabel.Keys - done
        invariant labelIds == old(labelIds)
        invariant Filed(builders, b, Filing(b, visited, nodeLabel, done), labelIds, propertyIds)
        decreases mappingsLeft
      {
        var m :| m in mappingsLeft;
        if m.neoPropertyKey !in propertyIds {
          return Some(m.neoPropertyKey);
        }
        PutMapping(nodeLabel, labelId, m, forLabel[m], propertyIds[m.neoPropertyKey], propertyIds, b, visited, done);
        done := done + {m};
        mappingsLeft := mappingsLeft - {m};
      }
      assert done == forLabel.Keys;
      missing := None;
    }

    /**
     * Resolves every registered label to its id and every registered
     * mapping's store key to its property id, and files each builder under
     * (label id, property id).  Labels and their mappings are visited in an
     * unspecified (hash) order.  Fails when an id is missing.
     */
    static method Create(buildersByLabel: BuildersByLabel, labelsByLabelId: map<int, seq<NodeLabel>>, propertyIds: map<string, int>)
      returns (r: Result<BuildersByLabelIdAndPropertyId, ImportError>)
      ensures r.Failure? <==> MissingId(buildersByLabel.builders, labelsByLabelId, propertyIds)
      ensures r.Failure? && r.error.MissingLabelId? ==>
        r.error.nodeLabel in buildersByLabel.builders && !Listed(labelsByLabelId, r.error.nodeLabel)
      ensures r.Failure? && r.error.MissingPropertyId? ==>
        r.error.neoPropertyKey !in propertyIds &&
        exists l, m | l in buildersByLabel.builders && m in buildersByLabel.builders[l] :: m.neoPropertyKey == r.error.neoPropertyKey
      ensures r.Success? ==> fresh(r.value)
      ensures r.Success? ==> ResolvesLabels(r.value.labelIds, labelsByLabelId)
      ensures r.Success? ==> RoutesExactly(r.value.builders, buildersByLabel.builders, Pairs(buildersByLabel.builders), r.value.labelIds, propertyIds)
      ensures r.Success? && DistinctBuilders(buildersByLabel.builders) ==> NoDuplicateRoutes(r.value.builders)
      ensures r.Success? ==> r.value.builders.Keys == LabelIdsOf(Pairs(buildersByLabel.builders), r.value.labelIds)
    {
      var b := buildersByLabel.builders;
      var labelIdByLabel := LabelIdByLabel.Create(labelsByLabelId);
      ghost var ids := labelIdByLabel.labelIdByLabel;
      var instance := new BuildersByLabelIdAndPropertyId();
      instance.labelIds := labelIdByLabel.labelIdByLabel;
      ghost var visited: set<NodeLabel> := {};
      var remaining := b.Keys;
      while remaining != {}
        invariant visited <= b.Keys && remaining == b.Keys - visited
        invariant labelIdByLabel.labelIdByLabel == ids && instance.labelIds == ids
        invariant visited <= ids.Keys
        invariant Filed(instance.builders, b, PairsAmong(b, visited), ids, propertyIds)
        decreases remaining
      {
        var nodeLabel :| nodeLabel in remaining;
        var labelId := labelIdByLabel.Get(nodeLabel);
        if labelId.None? {
          assert !Listed(labelsByLabelId, nodeLabel);
          return Failure(MissingLabelId(nodeLabel));
        }
        var missing := instance.PutLabel(nodeLabel, labelId.value, b[nodeLabel], propertyIds, b, visited);
        if missing.Some? {
          return Failure(MissingPropertyId(missing.value));
        }
        visited := visited + {nodeLabel};
        remaining := remaining - {nodeLabel};
      }
      assert visited == b.Keys;
      NothingMissing(b, labelsByLabelId, propertyIds, ids);
      r := Success(instance);
    }
  }
}
