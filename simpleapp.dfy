/**
 * The deterministic parts of `SimpleKnowledgeGraphApp`: looking an entity up
 * with its relationships (`get_entity_details`), assembling the context that
 * `answer_question` gives the language model, and reading a command line in
 * `interactive_session`. The graph store is a value: its entities by name and
 * its relationships in the order the store returns them.
 */
module SimpleApp {
  import opened Wrappers
  import opened Text
  import opened CommandLine
  import opened Ranking

  /** What the store keeps for an entity besides its name. */
  datatype NodeInfo = NodeInfo(entityType: string, description: string)

  /** A stored relationship from the entity named `source` to the one named `target`. */
  datatype Edge = Edge(source: string, relType: string, target: string)

  /** The entities (by name) and the relationships of the graph. */
  datatype Store = Store(nodes: map<string, NodeInfo>, edges: seq<Edge>)

  datatype Direction = Outgoing | Incoming

  /** One relationship of an entity, seen from that entity. */
  datatype Relation = Relation(relType: string, connected: string, connectedType: string, direction: Direction)

  /** The dict `get_entity_details` returns. */
  datatype Details = Details(name: string, entityType: string, description: string, relationships: seq<Relation>)

  // ---------------------------------------------------------------------------
  // get_entity_details

  /**
   * The row that the undirected match of entity `name` against entities
   * yields for edge `e`, if any: the edge must touch `name` and its other end
   * must be an entity; it is outgoing exactly when `name` is its start node.
   */
  function RelationOf(store: Store, name: string, e: Edge): (r: Option<Relation>)
    ensures r.Some? <==> (e.source == name && e.target in store.nodes) || (e.target == name && e.source in store.nodes)
    ensures r.Some? ==> (r.value.direction == Outgoing <==> e.source == name)
    ensures r.Some? ==> r.value.relType == e.relType
    ensures r.Some? && r.value.direction == Outgoing ==> r.value.connected == e.target
    ensures r.Some? && r.value.direction == Incoming ==> r.value.connected == e.source && e.target == name
    ensures r.Some? ==> r.value.connected in store.nodes && r.value.connectedType == store.nodes[r.value.connected].entityType
  {
    if e.source == name && e.target in store.nodes then
      Some(Relation(e.relType, e.target, store.nodes[e.target].entityType, Outgoing))
    else if e.target == name && e.source in store.nodes then
      Some(Relation(e.relType, e.source, store.nodes[e.source].entityType, Incoming))
    else
      None
  }

  /** The rows for `edges`, in order. */
  function Relations(store: Store, name: string, edges: seq<Edge>): seq<Relation> {
    if edges == [] then []
    else
      var rest := Relations(store, name, edges[..|edges| - 1]);
      match RelationOf(store, name, edges[|edges| - 1])
      case Some(r) => rest + [r]
      case None => rest
  }

  /**
   * Every listed relationship comes from a stored edge that touches the
   * entity, and every such edge is listed.
   */
  lemma {:induction false} RelationsMembers(store: Store, name: string, edges: seq<Edge>)
    ensures |Relations(store, name, edges)| <= |edges|
    ensures forall r :: r in Relations(store, name, edges) <==>
      exists e :: e in edges && RelationOf(store, name, e) == Some(r)
  {
    if edges != [] {
      var init, last := edges[..|edges| - 1], edges[|edges| - 1];
      assert edges == init + [last];
      RelationsMembers(store, name, init);
      forall r | exists e :: e in edges && RelationOf(store, name, e) == Some(r)
        ensures r in Relations(store, name, edges)
      {
        var e :| e in edges && RelationOf(store, name, e) == Some(r);
        if e != last {
          assert e in init;
        }
      }
    }
  }

  /** What `get_entity_details` returns: nothing for an unknown name. */
  function EntityDetails(store: Store, name: string): (d: Option<Details>)
    ensures d.None? <==> name !in store.nodes
    ensures d.Some? ==>
      && d.value.name == name
      && d.value.entityType == store.nodes[name].entityType
      && d.value.description == store.nodes[name].description
      && d.value.relationships == Relations(store, name, store.edges)
  {
    if name !in store.nodes then None
    else Some(Details(name, store.nodes[name].entityType, store.nodes[name].description, Relations(store, name, store.edges)))
  }

  /**
   * `get_entity_details`: `None` when no entity has the name; otherwise its
   * type, description and one row per relationship returned for it.
   */
  method GetEntityDetails(store: Store, name: string) returns (details: Option<Details>)
    ensures details == EntityDetails(store, name)
    ensures details.None? <==> name !in store.nodes
  {
    if name !in store.nodes {
      return None;
    }
    var entity := store.nodes[name];
    var relationships: seq<Relation> := [];
    for i := 0 to |store.edges|
      invariant relationships == Relations(store, name, store.edges[..i])
    {
      assert store.edges[..i + 1][..i] == store.edges[..i];
      var record := RelationOf(store, name, store.edges[i]);
      if record.Some? {
        relationships := relationships + [record.value];
      }
    }
    assert store.edges[..|store.edges|] == store.edges;
    details := Some(Details(name, entity.entityType, entity.description, relationships));
  }

  /**
   * How the `entity` command shows a relationship: `->` for an outgoing one,
   * `<-` for an incoming one.
   */
  function RelationLine(r: Relation): (line: string)
    ensures (if r.direction == Outgoing then "  ->" else "  <-") <= line
    ensures line[4..] == " " + r.relType + " " + r.connected
  {
    var arrow := if r.direction == Outgoing then "->" else "<-";
    "  " + arrow + " " + r.relType + " " + r.connected
  }

  // ---------------------------------------------------------------------------
  // answer_question

  /** The line that opens an entity's block of context. */
  function Header(d: Details): string {
    d.name + " (" + d.entityType + "): " + d.description
  }

  /** The line for one relationship in the context. */
  function ContextLine(r: Relation): string {
    "  - " + r.relType + " " + r.connected
  }

  /** The context lines of one entity: its header, then its first three relationships at most. */
  function Block(d: Details): (lines: seq<string>)
    ensures |lines| == 1 + Min(3, |d.relationships|) && |lines| <= 4
    ensures lines[0] == Header(d)
    ensures forall i :: 1 <= i < |lines| ==> lines[i] == ContextLine(d.relationships[i - 1])
  {
    [Header(d)] + seq(Min(3, |d.relationships|), i requires 0 <= i < Min(3, |d.relationships|) => ContextLine(d.relationships[i]))
  }

  /** The context lines for ranked results: a block per result the store knows, in ranking order. */
  function ContextParts(store: Store, ranked: seq<Match>): seq<string> {
    Gather(m => ResultLines(store, m), ranked)
  }

  /** The block of one result, or nothing when its details lookup finds nothing. */
  function ResultLines(store: Store, m: Match): seq<string> {
    match EntityDetails(store, m.name)
    case Some(d) => Block(d)
    case None => []
  }

  /** The lines of each item in turn, one after another. */
  function Gather<T>(lines: T -> seq<string>, s: seq<T>): seq<string> {
    if s == [] then [] else Gather(lines, s[..|s| - 1]) + lines(s[|s| - 1])
  }

  lemma {:induction false} GatherAppend<T>(lines: T -> seq<string>, a: seq<T>, b: seq<T>)
    ensures Gather(lines, a + b) == Gather(lines, a) + Gather(lines, b)
    decreases |b|
  {
    if b == [] {
      assert a + b == a;
    } else {
      var init := b[..|b| - 1];
      var ab := a + b;
      assert ab[..|ab| - 1] == a + init;
      assert ab[|ab| - 1] == b[|b| - 1];
      GatherAppend(lines, a, init);
    }
  }

  /** Each result adds at most four lines. */
  lemma {:induction false} ContextPartsBound(store: Store, ranked: seq<Match>)
    ensures |ContextParts(store, ranked)| <= 4 * |ranked|
  {
    if ranked != [] {
      ContextPartsBound(store, ranked[..|ranked| - 1]);
    }
  }

  /** The blocks of consecutive stretches of results follow one another. */
  lemma ContextPartsAppend(store: Store, a: seq<Match>, b: seq<Match>)
    ensures ContextParts(store, a + b) == ContextParts(store, a) + ContextParts(store, b)
  {
    GatherAppend(m => ResultLines(store, m), a, b);
  }

  /**
   * A result whose details lookup finds nothing is skipped, and the blocks
   * around it stay in order.
   */
  lemma SkipsMissing(store: Store, a: seq<Match>, m: Match, b: seq<Match>)
    requires m.name !in store.nodes
    ensures ContextParts(store, a + [m] + b) == ContextParts(store, a + b)
  {
    ContextPartsAppend(store, a + [m], b);
    ContextPartsAppend(store, a, [m]);
    ContextPartsAppend(store, a, b);
    assert [m][..0] == [];
  }

  /** A result the store knows contributes exactly its block. */
  lemma KeepsFound(store: Store, a: seq<Match>, m: Match, b: seq<Match>)
    requires m.name in store.nodes
    ensures ContextParts(store, a + [m] + b) == ContextParts(store, a) + Block(EntityDetails(store, m.name).value) + ContextParts(store, b)
  {
    ContextPartsAppend(store, a + [m], b);
    ContextPartsAppend(store, a, [m]);
    assert [m][..0] == [];
  }

  /**
   * The loops of `answer_question` that build `context_parts` from the ranked
   * results, and the join of those parts with newlines.
   */
  method AssembleContext(store: Store, ranked: seq<Match>) returns (context: string)
    ensures context == Join(ContextParts(store, ranked), "\n")
  {
    var contextParts: seq<string> := [];
    for i := 0 to |ranked|
      invariant contextParts == ContextParts(store, ranked[..i])
    {
      ContextPartsSnoc(store, ranked, i);
      var details := GetEntityDetails(store, ranked[i].name);
      if details.Some? {
        contextParts := AppendBlock(contextParts, details.value);
      }
    }
    assert ranked[..|ranked|] == ranked;
    context := Join(contextParts, "\n");
  }

  lemma ContextPartsSnoc(store: Store, ranked: seq<Match>, i: nat)
    requires i < |ranked|
    ensures ContextParts(store, ranked[..i + 1]) == ContextParts(store, ranked[..i]) + ResultLines(store, ranked[i])
  {
    assert ranked[..i + 1][..i] == ranked[..i];
  }

  /** One entity's lines of context: its header, then a line for each of its first three relationships. */
  method AppendBlock(parts: seq<string>, d: Details) returns (parts': seq<string>)
    ensures parts' == parts + Block(d)
  {
    parts' := parts + [Header(d)];
    var shown := Take(d.relationships, 3);
    for j := 0 to |shown|
      invariant parts' == parts + Block(d)[..j + 1]
    {
      parts' := parts' + ["  - " + shown[j].relType + " " + shown[j].connected];
      assert Block(d)[..j + 2] == Block(d)[..j + 1] + [Block(d)[j + 1]];
    }
    assert Block(d)[..|shown| + 1] == Block(d);
  }

  /**
   * `answer_question` up to the language-model call: the three best matches
   * for the question, and the context built from them, which has at most
   * twelve lines.
   */
  method AnswerContext(store: Store, records: seq<Record>, similarity: seq<real> -> real) returns (context: string, ghost parts: seq<string>)
    ensures parts == ContextParts(store, Take(SortDescending(Scored(records, similarity)), 3))
    ensures context == Join(parts, "\n")
    ensures |parts| <= 12
  {
    var searchResults := SemanticSearch(records, similarity, 3);
    ContextPartsBound(store, searchResults);
    parts := ContextParts(store, searchResults);
    context := AssembleContext(store, searchResults);
  }

  // ---------------------------------------------------------------------------
  // interactive_session

  /** What one input line makes `interactive_session` do. */
  datatype SessionAction =
    | Skip
    | Exit
    | Search(query: string)
    | ShowEntity(name: string)
    | Ask(question: string)
    | ListEntities
    | ShowStats
    | Invalid

  /** What a tokenised command does: the branches of `interactive_session`, in order. */
  function SessionDecide(command: string, args: string): SessionAction {
    if command == "exit" then Exit
    else if command == "search" && args != "" then Search(args)
    else if command == "entity" && args != "" then ShowEntity(args)
    else if command == "ask" && args != "" then Ask(args)
    else if command == "list" then ListEntities
    else if command == "stats" then ShowStats
    else Invalid
  }

  /** The action for one input line. */
  function SessionDispatch(line: string): SessionAction {
    match Tokenize(line)
    case None => Skip
    case Some(Command(command, args)) => SessionDecide(command, args)
  }

  /**
   * `search`, `entity` and `ask` run only with arguments, which they receive
   * untouched; without them they fall through to the invalid-command branch.
   * Only `exit` ends the session.
   */
  lemma SessionDecideSpec(command: string, args: string)
    ensures !SessionDecide(command, args).Skip?
    ensures SessionDecide(command, args).Exit? <==> command == "exit"
    ensures SessionDecide(command, args).Search? <==> command == "search" && args != ""
    ensures SessionDecide(command, args).ShowEntity? <==> command == "entity" && args != ""
    ensures SessionDecide(command, args).Ask? <==> command == "ask" && args != ""
    ensures SessionDecide(command, args) in {Search(args), ShowEntity(args), Ask(args), Exit, ListEntities, ShowStats, Invalid}
    ensures command in {"search", "entity", "ask"} && args == "" ==> SessionDecide(command, args).Invalid?
  {
  }

  /** Blank lines are skipped and nothing else is. */
  lemma SessionSkipOnlyBlank(line: string)
    ensures SessionDispatch(line).Skip? <==> AllSpace(line)
  {
    TokenizeSkipsBlank(line);
    match Tokenize(line) {
      case None =>
      case Some(c) => SessionDecideSpec(c.name, c.args);
    }
  }

  /** Exactly the lines whose first word is `exit`, in any case, end the session. */
  lemma ExitOnlyOnExit(line: string)
    ensures SessionDispatch(line).Exit? <==> Words(line) != [] && Lower(Words(line)[0]) == "exit"
  {
    TokenizeSkipsBlank(line);
    WordsEmpty(line);
    match Tokenize(line) {
      case None =>
      case Some(c) =>
        SessionDecideSpec(c.name, c.args);
        TokenizeWords(line);
    }
  }

  /** The actions for a run of input lines, one per line. */
  function SessionActions(lines: seq<string>): (actions: seq<SessionAction>)
    ensures |actions| == |lines|
  {
    if lines == [] then [] else SessionActions(lines[..|lines| - 1]) + [SessionDispatch(lines[|lines| - 1])]
  }

  /** The action for each line is the dispatch of that line. */
  lemma {:induction false} SessionActionsAt(lines: seq<string>, j: nat)
    requires j < |lines|
    ensures SessionActions(lines)[j] == SessionDispatch(lines[j])
  {
    if j < |lines| - 1 {
      SessionActionsAt(lines[..|lines| - 1], j);
    }
  }

  lemma SessionActionsSnoc(lines: seq<string>, i: nat)
    requires i < |lines|
    ensures SessionActions(lines[..i + 1]) == SessionActions(lines[..i]) + [SessionDispatch(lines[i])]
  {
    assert lines[..i + 1][..i] == lines[..i];
  }

  /**
   * The loop of `interactive_session`, one line of input per round, up to and
   * including the first `exit` or the end of the input.
   */
  method InteractiveSession(lines: seq<string>) returns (actions: seq<SessionAction>)
    ensures |actions| <= |lines|
    ensures actions == SessionActions(lines[..|actions|])
    ensures forall i :: 0 <= i < |actions| - 1 ==> !actions[i].Exit?
    ensures |actions| < |lines| ==> actions != [] && actions[|actions| - 1].Exit?
  {
    actions := [];
    var i := 0;
    while i < |lines|
      invariant i == |actions| <= |lines|
      invariant actions == SessionActions(lines[..i])
      invariant forall j :: 0 <= j < i ==> !actions[j].Exit?
    {
      var action := SessionDispatch(lines[i]);
      SessionActionsSnoc(lines, i);
      actions := actions + [action];
      if action.Exit? {
        return;
      }
      i := i + 1;
    }
  }
}
