/**
 * The graph-building side (`KnowledgeGraphBuilder`): merging the per-chunk
 * extractions of a document into one entity list and one relationship list,
 * turning entity types, relationship types and property keys into
 * identifiers, and building the statement pieces and parameter maps that the
 * graph store is sent. The language model's reply is given per chunk, already
 * parsed (`None` when it was not valid JSON of the right shape); the store's
 * verdict on a statement is the parameter `accepts`.
 */
module GraphBuilder {
  import opened Wrappers
  import opened Text

  /** A property value as the extracted JSON carries it. */
  datatype Value = Str(s: string) | Int(i: int) | Bool(b: bool) | Null

  /** One `key: value` item of a properties dict, in the dict's iteration order. */
  datatype Property = Property(key: string, value: Value)

  datatype Entity = Entity(name: string, entityType: string, properties: seq<Property>)

  datatype Relationship = Relationship(source: string, target: string, relType: string, properties: seq<Property>)

  /** What the model extracted from one chunk. */
  datatype Extraction = Extraction(entities: seq<Entity>, relationships: seq<Relationship>)

  // ---------------------------------------------------------------------------
  // Merging the chunks of a document

  /** A reply that failed to parse counts as an extraction with nothing in it. */
  function ExtractionOf(reply: Option<Extraction>): Extraction {
    match reply
    case Some(x) => x
    case None => Extraction([], [])
  }

  function Names(es: seq<Entity>): (ns: seq<string>)
    ensures |ns| == |es| && forall i :: 0 <= i < |es| ==> ns[i] == es[i].name
  {
    seq(|es|, i requires 0 <= i < |es| => es[i].name)
  }

  /** Every chunk's entities, chunk after chunk. */
  function AllEntities(replies: seq<Option<Extraction>>): seq<Entity> {
    if replies == [] then []
    else AllEntities(replies[..|replies| - 1]) + ExtractionOf(replies[|replies| - 1]).entities
  }

  /** Every chunk's relationships, chunk after chunk. */
  function AllRelationships(replies: seq<Option<Extraction>>): seq<Relationship> {
    if replies == [] then []
    else AllRelationships(replies[..|replies| - 1]) + ExtractionOf(replies[|replies| - 1]).relationships
  }

  lemma NamesSnoc(es: seq<Entity>, e: Entity)
    ensures Names(es + [e]) == Names(es) + [e.name]
  {
  }

  /**
   * The values of a dict that maps each name to the first entity seen with it,
   * in insertion order: an entity is kept unless an earlier one had its name.
   */
  function FirstByName(es: seq<Entity>): seq<Entity> {
    if es == [] then []
    else
      var kept := FirstByName(es[..|es| - 1]);
      var e := es[|es| - 1];
      if e.name in Names(kept) then kept else kept + [e]
  }

  lemma FirstByNameSnoc(es: seq<Entity>, e: Entity)
    ensures FirstByName(es + [e]) ==
      if e.name in Names(FirstByName(es)) then FirstByName(es) else FirstByName(es) + [e]
  {
    assert (es + [e])[..|es|] == es;
  }

  /** The position of the first entity named `n`. */
  function FirstIndex(es: seq<Entity>, n: string): (i: nat)
    requires n in Names(es)
    ensures i < |es| && es[i].name == n
    ensures forall j :: 0 <= j < i ==> es[j].name != n
  {
    var init := es[..|es| - 1];
    if n in Names(init) then
      var i := FirstIndex(init, n);
      assert es[i] == init[i];
      i
    else
      assert forall j :: 0 <= j < |init| ==> es[j].name == Names(init)[j];
      |es| - 1
  }

  lemma FirstIndexSnoc(es: seq<Entity>, e: Entity, n: string)
    requires n in Names(es + [e])
    ensures n in Names(es) ==> FirstIndex(es + [e], n) == FirstIndex(es, n)
    ensures n !in Names(es) ==> FirstIndex(es + [e], n) == |es|
  {
    var i := FirstIndex(es + [e], n);
    if n in Names(es) {
      var j := FirstIndex(es, n);
      assert (es + [e])[j] == es[j];
    }
  }

  /** The merged list names the same entities as the input: no name is lost, none is invented. */
  lemma {:induction false} FirstByNameNames(es: seq<Entity>)
    ensures forall n :: n in Names(FirstByName(es)) <==> n in Names(es)
    ensures forall x :: x in FirstByName(es) ==> x in es
  {
    if es != [] {
      var init, e := es[..|es| - 1], es[|es| - 1];
      assert es == init + [e];
      var kept := FirstByName(init);
      FirstByNameNames(init);
      FirstByNameSnoc(init, e);
      NamesSnoc(init, e);
      NamesSnoc(kept, e);
    }
  }

  /** No two merged entities share a name. */
  lemma {:induction false} FirstByNameDistinct(es: seq<Entity>)
    ensures var r := FirstByName(es);
      forall p, q :: 0 <= p < q < |r| ==> r[p].name != r[q].name
  {
    if es != [] {
      var init, e := es[..|es| - 1], es[|es| - 1];
      assert es == init + [e];
      var kept := FirstByName(init);
      FirstByNameDistinct(init);
      FirstByNameSnoc(init, e);
      forall p | 0 <= p < |kept| ensures kept[p].name in Names(kept) {
        assert Names(kept)[p] == kept[p].name;
      }
    }
  }

  /** Each merged entity is the earliest input entity with its name; later ones are ignored. */
  lemma {:induction false} FirstOccurrenceWins(es: seq<Entity>)
    ensures var r := FirstByName(es);
      forall p :: 0 <= p < |r| ==> r[p].name in Names(es) && r[p] == es[FirstIndex(es, r[p].name)]
  {
    if es != [] {
      var init, e := es[..|es| - 1], es[|es| - 1];
      assert es == init + [e];
      var kept := FirstByName(init);
      FirstOccurrenceWins(init);
      FirstByNameNames(init);
      FirstByNameSnoc(init, e);
      NamesSnoc(init, e);
      var r := FirstByName(es);
      forall p | 0 <= p < |r| ensures r[p].name in Names(es) && r[p] == es[FirstIndex(es, r[p].name)] {
        var n := r[p].name;
        if p < |kept| {
          assert r[p] == kept[p] && n in Names(init);
          FirstIndexSnoc(init, e, n);
          assert es[FirstIndex(init, n)] == init[FirstIndex(init, n)];
        } else {
          assert r[p] == e && n !in Names(kept);
          FirstIndexSnoc(init, e, n);
        }
      }
    }
  }

  /** Merged entities come in the order in which their names first appear. */
  lemma {:induction false} FirstAppearanceOrder(es: seq<Entity>)
    ensures var r := FirstByName(es);
      forall p, q :: 0 <= p < q < |r| ==>
        r[p].name in Names(es) && r[q].name in Names(es) &&
        FirstIndex(es, r[p].name) < FirstIndex(es, r[q].name)
  {
    if es != [] {
      var init, e := es[..|es| - 1], es[|es| - 1];
      assert es == init + [e];
      var kept := FirstByName(init);
      FirstAppearanceOrder(init);
      FirstOccurrenceWins(es);
      FirstByNameSnoc(init, e);
      NamesSnoc(init, e);
      var r := FirstByName(es);
      forall p, q | 0 <= p < q < |r|
        ensures r[p].name in Names(es) && r[q].name in Names(es)
        ensures FirstIndex(es, r[p].name) < FirstIndex(es, r[q].name)
      {
        assert r[p] == kept[p];
        FirstByNameNames(init);
        assert Names(kept)[p] == r[p].name;
        FirstIndexSnoc(init, e, r[p].name);
        if q < |kept| {
          assert r[q] == kept[q];
          assert Names(kept)[q] == r[q].name;
          FirstIndexSnoc(init, e, r[q].name);
        } else {
          assert r[q] == e && e.name !in Names(kept);
          FirstIndexSnoc(init, e, r[q].name);
        }
      }
    }
  }

  lemma {:induction false} AllEntitiesAppend(a: seq<Option<Extraction>>, b: seq<Option<Extraction>>)
    ensures AllEntities(a + b) == AllEntities(a) + AllEntities(b)
    decreases |b|
  {
    if b != [] {
      var b' := b[..|b| - 1];
      assert (a + b)[..|a + b| - 1] == a + b';
      AllEntitiesAppend(a, b');
    } else {
      assert a + b == a;
    }
  }

  lemma {:induction false} AllRelationshipsAppend(a: seq<Option<Extraction>>, b: seq<Option<Extraction>>)
    ensures AllRelationships(a + b) == AllRelationships(a) + AllRelationships(b)
    decreases |b|
  {
    if b != [] {
      var b' := b[..|b| - 1];
      assert (a + b)[..|a + b| - 1] == a + b';
      AllRelationshipsAppend(a, b');
    } else {
      assert a + b == a;
    }
  }

  /**
   * A chunk whose reply fails to parse adds no entity and no relationship, and
   * the chunks after it are merged as if it were not there.
   */
  lemma UnparsedChunkContributesNothing(before: seq<Option<Extraction>>, after: seq<Option<Extraction>>)
    ensures AllEntities(before + [None] + after) == AllEntities(before + after)
    ensures AllRelationships(before + [None] + after) == AllRelationships(before + after)
  {
    AllEntitiesAppend(before + [None], after);
    AllEntitiesAppend(before, [None]);
    AllEntitiesAppend(before, after);
    AllRelationshipsAppend(before + [None], after);
    AllRelationshipsAppend(before, [None]);
    AllRelationshipsAppend(before, after);
    var failed: seq<Option<Extraction>> := [None];
    assert failed[..0] == [];
    assert AllEntities(failed) == [];
    assert AllRelationships(failed) == [];
  }

  /** The relationship list keeps duplicates: its length is the sum of the chunks' counts. */
  lemma {:induction false} AllRelationshipsCount(replies: seq<Option<Extraction>>)
    ensures |AllRelationships(replies)| == RelationshipCount(replies)
  {
    if replies != [] {
      AllRelationshipsCount(replies[..|replies| - 1]);
    }
  }

  /** The sum of the per-chunk relationship counts. */
  function RelationshipCount(replies: seq<Option<Extraction>>): nat {
    if replies == [] then 0
    else RelationshipCount(replies[..|replies| - 1]) + |ExtractionOf(replies[|replies| - 1]).relationships|
  }

  lemma AllSnoc(replies: seq<Option<Extraction>>, i: nat)
    requires i < |replies|
    ensures AllEntities(replies[..i + 1]) == AllEntities(replies[..i]) + ExtractionOf(replies[i]).entities
    ensures AllRelationships(replies[..i + 1]) == AllRelationships(replies[..i]) + ExtractionOf(replies[i]).relationships
  {
    assert replies[..i + 1][..i] == replies[..i];
  }

  /**
   * The dict `dict`, read in the insertion order `order`, holds exactly the
   * entities of `merged`, keyed by name.
   */
  ghost predicate DictHolds(dict: map<string, Entity>, order: seq<string>, merged: seq<Entity>) {
    && order == Names(merged)
    && (forall k :: k in dict <==> k in order)
    && (forall p :: 0 <= p < |merged| ==> merged[p].name in dict && dict[merged[p].name] == merged[p])
  }

  lemma DictInsert(dict: map<string, Entity>, order: seq<string>, merged: seq<Entity>, e: Entity)
    requires DictHolds(dict, order, merged) && e.name !in dict
    ensures DictHolds(dict[e.name := e], order + [e.name], merged + [e])
  {
    NamesSnoc(merged, e);
  }

  lemma DictValues(dict: map<string, Entity>, order: seq<string>, merged: seq<Entity>)
    requires DictHolds(dict, order, merged)
    ensures forall p :: 0 <= p < |order| ==> order[p] in dict
    ensures merged == seq(|order|, p requires 0 <= p < |order| && order[p] in dict => dict[order[p]])
  {
    assert forall p :: 0 <= p < |order| ==> order[p] == merged[p].name;
  }

  /**
   * The inner entity loop of `process_document`: each entity of one chunk is
   * recorded unless the dict already holds its name.
   */
  method MergeEntities(dict: map<string, Entity>, order: seq<string>, ghost merged: seq<Entity>, ghost seen: seq<Entity>, chunk: seq<Entity>)
    returns (dict': map<string, Entity>, order': seq<string>, ghost merged': seq<Entity>)
    requires merged == FirstByName(seen) && DictHolds(dict, order, merged)
    ensures merged' == FirstByName(seen + chunk) && DictHolds(dict', order', merged')
  {
    dict', order', merged' := dict, order, merged;
    assert seen + chunk[..0] == seen;
    for j := 0 to |chunk|
      invariant merged' == FirstByName(seen + chunk[..j])
      invariant DictHolds(dict', order', merged')
    {
      var entity := chunk[j];
      assert seen + chunk[..j + 1] == (seen + chunk[..j]) + [entity];
      FirstByNameSnoc(seen + chunk[..j], entity);
      if entity.name !in dict' {
        DictInsert(dict', order', merged', entity);
        dict' := dict'[entity.name := entity];
        order' := order' + [entity.name];
        merged' := merged' + [entity];
      }
    }
    assert chunk[..|chunk|] == chunk;
  }

  /**
   * `process_document`: for each chunk in turn, record every entity whose name
   * the dict `all_entities` does not hold yet, and append every relationship to
   * `all_relationships`; return the dict's values and the list.
   */
  method ProcessDocument(replies: seq<Option<Extraction>>) returns (entities: seq<Entity>, relationships: seq<Relationship>)
    ensures entities == FirstByName(AllEntities(replies))
    ensures relationships == AllRelationships(replies)
    ensures forall p, q :: 0 <= p < q < |entities| ==> entities[p].name != entities[q].name
    ensures forall n :: n in Names(entities) <==> n in Names(AllEntities(replies))
  {
    var allEntities: map<string, Entity> := map[];
    var insertionOrder: seq<string> := [];
    ghost var merged: seq<Entity> := [];
    relationships := [];
    for i := 0 to |replies|
      invariant merged == FirstByName(AllEntities(replies[..i]))
      invariant DictHolds(allEntities, insertionOrder, merged)
      invariant relationships == AllRelationships(replies[..i])
    {
      var extraction := ExtractionOf(replies[i]);
      ghost var seen := AllEntities(replies[..i]);
      AllSnoc(replies, i);
      allEntities, insertionOrder, merged := MergeEntities(allEntities, insertionOrder, merged, seen, extraction.entities);
      for j := 0 to |extraction.relationships|
        invariant relationships == AllRelationships(replies[..i]) + extraction.relationships[..j]
      {
        relationships := relationships + [extraction.relationships[j]];
      }
      assert extraction.relationships[..|extraction.relationships|] == extraction.relationships;
    }
    assert replies[..|replies|] == replies;
    DictValues(allEntities, insertionOrder, merged);
    entities := seq(|insertionOrder|, p requires 0 <= p < |insertionOrder| && insertionOrder[p] in allEntities => allEntities[insertionOrder[p]]);
    FirstByNameDistinct(AllEntities(replies));
    FirstByNameNames(AllEntities(replies));
  }

  // ---------------------------------------------------------------------------
  // Identifiers for the graph store

  /** `s.replace(' ', '_').replace('-', '_')`, applied to property keys and entity types. */
  function Sanitize(s: string): (r: string)
    ensures |r| == |s|
    ensures forall i :: 0 <= i < |s| ==> r[i] == (if s[i] == ' ' || s[i] == '-' then '_' else s[i])
    ensures ' ' !in r && '-' !in r
  {
    ReplaceChar(ReplaceChar(s, ' ', '_'), '-', '_')
  }

  /** Sanitising twice is sanitising once. */
  lemma SanitizeIdempotent(s: string)
    ensures Sanitize(Sanitize(s)) == Sanitize(s)
  {
  }

  /** `rel.type.upper().replace(' ', '_').replace('-', '_')`: relationship types are also upper-cased. */
  function RelTypeName(t: string): (r: string)
    ensures |r| == |t| && ' ' !in r && '-' !in r
    ensures forall i :: 0 <= i < |t| ==> r[i] == (if t[i] == ' ' || t[i] == '-' then '_' else UpperChar(t[i]))
  {
    Sanitize(Upper(t))
  }

  /** One item of the property list: the raw key in backticks, then the sanitised parameter name. */
  function PropertyEntry(p: Property): string {
    "`" + p.key + "`: $" + Sanitize(p.key)
  }

  function PropertyEntries(props: seq<Property>): (entries: seq<string>)
    ensures |entries| == |props|
    ensures forall i :: 0 <= i < |props| ==> entries[i] == PropertyEntry(props[i])
  {
    seq(|props|, i requires 0 <= i < |props| => PropertyEntry(props[i]))
  }

  /** `params[safe_key] = v` for each property in turn, starting from `params`. */
  function WithProperties(params: map<string, Value>, props: seq<Property>): map<string, Value> {
    if props == [] then params
    else
      var last := props[|props| - 1];
      WithProperties(params, props[..|props| - 1])[Sanitize(last.key) := last.value]
  }

  /** The parameter names the properties give rise to. */
  function KeyNames(props: seq<Property>): set<string> {
    set p | p in props :: Sanitize(p.key)
  }

  /**
   * The parameter map holds the initial parameters and one entry per sanitised
   * key, and nothing else.
   */
  lemma {:induction false} WithPropertiesKeys(params: map<string, Value>, props: seq<Property>)
    ensures WithProperties(params, props).Keys == params.Keys + KeyNames(props)
  {
    if props != [] {
      var init, last := props[..|props| - 1], props[|props| - 1];
      assert props == init + [last];
      WithPropertiesKeys(params, init);
      assert KeyNames(props) == KeyNames(init) + {Sanitize(last.key)};
    }
  }

  /**
   * Each parameter holds the value of the LAST property whose key sanitises to
   * its name, so a later key that sanitises to a name already in use overwrites
   * the earlier value, including `name`, `source` and `target`.
   */
  lemma {:induction false} WithPropertiesLastWins(params: map<string, Value>, props: seq<Property>, i: nat)
    requires i < |props|
    requires forall j :: i < j < |props| ==> Sanitize(props[j].key) != Sanitize(props[i].key)
    ensures Sanitize(props[i].key) in WithProperties(params, props)
    ensures WithProperties(params, props)[Sanitize(props[i].key)] == props[i].value
  {
    if i < |props| - 1 {
      var init := props[..|props| - 1];
      assert init[i] == props[i];
      WithPropertiesLastWins(params, init, i);
    }
  }

  /** A parameter that no key sanitises to keeps its initial value. */
  lemma {:induction false} WithPropertiesKeepsOthers(params: map<string, Value>, props: seq<Property>, k: string)
    requires k in params
    requires forall j :: 0 <= j < |props| ==> Sanitize(props[j].key) != k
    ensures k in WithProperties(params, props) && WithProperties(params, props)[k] == params[k]
  {
    if props != [] {
      WithPropertiesKeepsOthers(params, props[..|props| - 1], k);
    }
  }

  /**
   * The property fragment of an entity's CREATE: empty when it has no
   * properties, otherwise `", "` and the comma-joined entries.
   */
  function EntityFragment(props: seq<Property>): (f: string)
    ensures f == "" <==> props == []
    ensures props != [] ==> f == ", " + Join(PropertyEntries(props), ", ")
  {
    var joined := Join(PropertyEntries(props), ", ");
    assert props != [] ==> joined != "" by {
      if props != [] { JoinStartsWithFirst(PropertyEntries(props), ", "); }
    }
    if joined != "" then ", " + joined else ""
  }

  /**
   * The property map of a relationship's CREATE: empty when it has no
   * properties, otherwise the comma-joined entries in braces.
   */
  function RelationshipFragment(props: seq<Property>): (f: string)
    ensures f == "" <==> props == []
    ensures props != [] ==> f == "{" + Join(PropertyEntries(props), ", ") + "}"
  {
    var joined := Join(PropertyEntries(props), ", ");
    assert props != [] ==> joined != "" by {
      if props != [] { JoinStartsWithFirst(PropertyEntries(props), ", "); }
    }
    if joined != "" then "{" + joined + "}" else ""
  }

  lemma JoinStartsWithFirst(parts: seq<string>, sep: string)
    requires parts != []
    ensures parts[0] <= Join(parts, sep)
  {
  }

  // ---------------------------------------------------------------------------
  // Statements sent to the graph store

  /** A write, by the pieces interpolated into its text and the parameters sent with it. */
  datatype Statement =
    | ClearGraph
    | CreateNode(nodeLabel: string, properties: string, params: map<string, Value>)
    | CreateEdge(relType: string, properties: string, params: map<string, Value>)

  function NodeStatement(e: Entity): Statement {
    CreateNode(Sanitize(e.entityType), EntityFragment(e.properties), WithProperties(map["name" := Str(e.name)], e.properties))
  }

  /** The retry after a rejected node write: the same label, no properties. */
  function FallbackStatement(e: Entity): Statement {
    CreateNode(Sanitize(e.entityType), "", map["name" := Str(e.name)])
  }

  function EdgeStatement(r: Relationship): Statement {
    CreateEdge(RelTypeName(r.relType), RelationshipFragment(r.properties),
      WithProperties(map["source" := Str(r.source), "target" := Str(r.target)], r.properties))
  }

  /**
   * The loop that fills `props_list` and `params`: one entry per property, in
   * order, and `params[safe_key] = v`.
   */
  method CollectProperties(props: seq<Property>, initial: map<string, Value>) returns (entries: seq<string>, params: map<string, Value>)
    ensures entries == PropertyEntries(props)
    ensures params == WithProperties(initial, props)
  {
    entries, params := [], initial;
    for i := 0 to |props|
      invariant entries == PropertyEntries(props[..i])
      invariant params == WithProperties(initial, props[..i])
    {
      var p := props[i];
      var safeKey := Sanitize(p.key);
      entries := entries + ["`" + p.key + "`: $" + safeKey];
      params := params[safeKey := p.value];
      assert props[..i + 1][..i] == props[..i];
    }
    assert props[..|props|] == props;
  }

  /** The node write for one entity, built as `create_graph_database` builds it. */
  method BuildNodeStatement(e: Entity) returns (st: Statement)
    ensures st == NodeStatement(e)
    ensures st.nodeLabel == Sanitize(e.entityType) && (st.properties == "" <==> e.properties == [])
    ensures "name" in st.params
  {
    var entries, params := CollectProperties(e.properties, map["name" := Str(e.name)]);
    var propsStr := Join(entries, ", ");
    if propsStr != "" {
      propsStr := ", " + propsStr;
    }
    st := CreateNode(Sanitize(e.entityType), propsStr, params);
    WithPropertiesKeys(map["name" := Str(e.name)], e.properties);
  }

  /** The edge write for one relationship, built as `create_graph_database` builds it. */
  method BuildEdgeStatement(r: Relationship) returns (st: Statement)
    ensures st == EdgeStatement(r)
    ensures st.relType == RelTypeName(r.relType) && (st.properties == "" <==> r.properties == [])
    ensures "source" in st.params && "target" in st.params
  {
    var entries, params := CollectProperties(r.properties, map["source" := Str(r.source), "target" := Str(r.target)]);
    var propsStr := Join(entries, ", ");
    if propsStr != "" {
      propsStr := "{" + propsStr + "}";
    } else {
      propsStr := "";
    }
    st := CreateEdge(RelTypeName(r.relType), propsStr, params);
    WithPropertiesKeys(map["source" := Str(r.source), "target" := Str(r.target)], r.properties);
  }

  /** The statements one entity causes: its write, and the fallback when the store rejects it. */
  function NodeAttempt(e: Entity, accepts: Statement -> bool): seq<Statement> {
    if accepts(NodeStatement(e)) then [NodeStatement(e)] else [NodeStatement(e), FallbackStatement(e)]
  }

  /**
   * The entity pass: the statements issued, and whether it got through every
   * entity (a rejected fallback is not caught and ends the whole operation).
   */
  function EntityPass(es: seq<Entity>, accepts: Statement -> bool): (seq<Statement>, bool) {
    if es == [] then ([], true)
    else
      var before := EntityPass(es[..|es| - 1], accepts);
      var e := es[|es| - 1];
      if !before.1 then before
      else (before.0 + NodeAttempt(e, accepts), accepts(NodeStatement(e)) || accepts(FallbackStatement(e)))
  }

  function EdgeStatements(rs: seq<Relationship>): (sts: seq<Statement>)
    ensures |sts| == |rs| && forall i :: 0 <= i < |rs| ==> sts[i] == EdgeStatement(rs[i])
  {
    seq(|rs|, i requires 0 <= i < |rs| => EdgeStatement(rs[i]))
  }

  lemma EntityPassSnoc(es: seq<Entity>, i: nat, accepts: Statement -> bool)
    requires i < |es|
    ensures EntityPass(es[..i + 1], accepts) ==
      var before := EntityPass(es[..i], accepts);
      if !before.1 then before
      else (before.0 + NodeAttempt(es[i], accepts), accepts(NodeStatement(es[i])) || accepts(FallbackStatement(es[i])))
  {
    assert es[..i + 1][..i] == es[..i];
  }

  /**
   * `create_graph_database`: clear the graph, write every entity (retrying
   * without properties when a write is rejected), then write every
   * relationship (a rejected relationship is only reported).
   */
  method CreateGraphDatabase(entities: seq<Entity>, relationships: seq<Relationship>, accepts: Statement -> bool)
    returns (issued: seq<Statement>, completed: bool)
    ensures !accepts(ClearGraph) ==> issued == [ClearGraph] && !completed
    ensures accepts(ClearGraph) ==>
      var pass := EntityPass(entities, accepts);
      completed == pass.1 && issued == [ClearGraph] + pass.0 + (if pass.1 then EdgeStatements(relationships) else [])
  {
    if !accepts(ClearGraph) {
      return [ClearGraph], false;
    }
    var nodes, ok := WriteEntities(entities, accepts);
    if !ok {
      return [ClearGraph] + nodes, false;
    }
    var edges := WriteRelationships(relationships);
    issued := [ClearGraph] + nodes + edges;
    completed := true;
  }

  /**
   * The entity loop of `create_graph_database`: the statements issued, and
   * whether every entity got through; a rejected fallback ends the loop.
   */
  method WriteEntities(entities: seq<Entity>, accepts: Statement -> bool) returns (nodes: seq<Statement>, ok: bool)
    ensures (nodes, ok) == EntityPass(entities, accepts)
  {
    nodes := [];
    var i := 0;
    while i < |entities|
      invariant 0 <= i <= |entities|
      invariant EntityPass(entities[..i], accepts) == (nodes, true)
    {
      var e := entities[i];
      ghost var before := nodes;
      EntityPassSnoc(entities, i, accepts);
      var st := BuildNodeStatement(e);
      nodes := nodes + [st];
      if !accepts(st) {
        var fallback := CreateNode(Sanitize(e.entityType), "", map["name" := Str(e.name)]);
        assert fallback == FallbackStatement(e);
        nodes := nodes + [fallback];
        assert nodes == before + NodeAttempt(e, accepts);
        if !accepts(fallback) {
          assert EntityPass(entities[..i + 1], accepts) == (nodes, false);
          EntityPassStops(entities, i + 1, accepts);
          return nodes, false;
        }
      } else {
        assert nodes == before + NodeAttempt(e, accepts);
      }
      i := i + 1;
    }
    assert entities[..i] == entities;
    ok := true;
  }

  /** The relationship loop of `create_graph_database`: one edge write per relationship, in order. */
  method WriteRelationships(relationships: seq<Relationship>) returns (edges: seq<Statement>)
    ensures edges == EdgeStatements(relationships)
  {
    edges := [];
    for j := 0 to |relationships|
      invariant edges == EdgeStatements(relationships[..j])
    {
      var st := BuildEdgeStatement(relationships[j]);
      edges := edges + [st];
    }
    assert relationships[..|relationships|] == relationships;
  }

  /** Once the entity pass has stopped, later entities change nothing. */
  lemma {:induction false} EntityPassStops(es: seq<Entity>, n: nat, accepts: Statement -> bool)
    requires n <= |es| && !EntityPass(es[..n], accepts).1
    ensures EntityPass(es, accepts) == EntityPass(es[..n], accepts)
    decreases |es| - n
  {
    if n < |es| {
      assert es[..n + 1][..n] == es[..n];
      EntityPassStops(es, n + 1, accepts);
    } else {
      assert es[..n] == es;
    }
  }

  /**
   * When the store accepts every entity's node write, the entity pass gets
   * through, with exactly one node write per entity, in order.
   */
  lemma {:induction false} EntityPassAllAccepted(es: seq<Entity>, accepts: Statement -> bool)
    requires forall i :: 0 <= i < |es| ==> accepts(NodeStatement(es[i]))
    ensures EntityPass(es, accepts).1
    ensures var nodes := EntityPass(es, accepts).0;
      |nodes| == |es| && forall i :: 0 <= i < |es| ==> nodes[i] == NodeStatement(es[i])
  {
    if es != [] {
      var init, e := es[..|es| - 1], es[|es| - 1];
      assert forall i :: 0 <= i < |init| ==> init[i] == es[i];
      EntityPassAllAccepted(init, accepts);
      var before := EntityPass(init, accepts).0;
      assert accepts(NodeStatement(e));
      assert EntityPass(es, accepts) == (before + [NodeStatement(e)], true);
      NodeStatementsSnoc(es, before);
    }
  }

  /** One more entity, one more node statement, at the end. */
  lemma NodeStatementsSnoc(es: seq<Entity>, before: seq<Statement>)
    requires es != [] && |before| == |es| - 1
    requires forall i :: 0 <= i < |before| ==> before[i] == NodeStatement(es[i])
    ensures var after := before + [NodeStatement(es[|es| - 1])];
      |after| == |es| && forall i :: 0 <= i < |es| ==> after[i] == NodeStatement(es[i])
  {
    var after := before + [NodeStatement(es[|es| - 1])];
    forall i | 0 <= i < |es| ensures after[i] == NodeStatement(es[i]) {
      if i < |before| {
        assert after[i] == before[i];
      }
    }
  }

  // ---------------------------------------------------------------------------
  // Embedding text

  /**
   * The text embedded for an entity in `create_vector_embeddings`:
   * `"name (type)"`, followed by `" - "` and the JSON of its properties when it
   * has any. `dumps` stands for `json.dumps`.
   */
  function EmbeddingText(e: Entity, dumps: seq<Property> -> string): (text: string)
    ensures var head := e.name + " (" + e.entityType + ")";
      && head <= text
      && (e.properties == [] <==> text == head)
      && (e.properties != [] ==> text == head + " - " + dumps(e.properties))
  {
    var head := e.name + " (" + e.entityType + ")";
    if e.properties != [] then head + " - " + dumps(e.properties) else head
  }

  /** The loop of `create_vector_embeddings`: the name and embedded text of each entity, in order. */
  method CreateVectorEmbeddings(entities: seq<Entity>, dumps: seq<Property> -> string) returns (writes: seq<(string, string)>)
    ensures |writes| == |entities|
    ensures forall i :: 0 <= i < |entities| ==> writes[i] == (entities[i].name, EmbeddingText(entities[i], dumps))
  {
    writes := [];
    for i := 0 to |entities|
      invariant |writes| == i
      invariant forall j :: 0 <= j < i ==> writes[j] == (entities[j].name, EmbeddingText(entities[j], dumps))
    {
      var e := entities[i];
      var description := e.name + " (" + e.entityType + ")";
      if e.properties != [] {
        description := description + " - " + dumps(e.properties);
      }
      writes := writes + [(e.name, description)];
    }
  }
}
