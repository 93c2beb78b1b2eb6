/**
 * The command loop of the main application (`interactive_query`): reading a
 * command per line, the argument checks made before the query engine is
 * called, and the text shown for a path, for the result of a Cypher query,
 * and as the context of `ask`. The query engine and the
 * language model are not modelled; each command becomes an `Action` naming
 * the call it leads to.
 */
module Cli {
  import opened Wrappers
  import opened Text
  import opened CommandLine

  /** What one input line makes `interactive_query` do. */
  datatype Action =
    | Skip
    | Exit
    | Help
    | Prompt(message: string)
    | Search(query: string)
    | ShowEntity(name: string)
    | FindPath(from: string, to: string)
    | ListType(entityType: string)
    | ShowStats
    | Ask(question: string)
    | Cypher(query: string)
    | Rebuild
    | Unknown(command: string)

  /** The actions that call the query engine. */
  predicate ReachesEngine(a: Action) {
    a.Search? || a.ShowEntity? || a.FindPath? || a.ListType? || a.ShowStats? || a.Ask? || a.Cypher?
  }

  /** The names of a `path` command: `args.split()` must give exactly two. */
  function PathArguments(args: string): Option<(string, string)> {
    var names := Words(args);
    if |names| != 2 then None else Some((names[0], names[1]))
  }

  /** What a tokenised command does: the branches of `interactive_query`, in order. */
  function Decide(command: string, args: string): Action {
    if command == "exit" then Exit
    else if command == "help" then Help
    else if command == "search" then
      if args == "" then Prompt("Please provide a search query.") else Search(args)
    else if command == "entity" then
      if args == "" then Prompt("Please provide an entity name.") else ShowEntity(args)
    else if command == "path" then
      match PathArguments(args)
      case None => Prompt("Please provide exactly two entity names.")
      case Some((from, to)) => FindPath(from, to)
    else if command == "type" then
      if args == "" then Prompt("Please provide an entity type.") else ListType(args)
    else if command == "stats" then ShowStats
    else if command == "ask" then
      if args == "" then Prompt("Please provide a question.") else Ask(args)
    else if command == "cypher" then
      if args == "" then Prompt("Please provide a Cypher query.") else Cypher(args)
    else if command == "rebuild" then Rebuild
    else Unknown(command)
  }

  /** The action for one input line. */
  function Dispatch(line: string): Action {
    match Tokenize(line)
    case None => Skip
    case Some(Command(command, args)) => Decide(command, args)
  }

  /**
   * `search`, `entity`, `type`, `ask` and `cypher` without arguments only
   * print a prompt; with arguments they pass them on untouched.
   */
  lemma ArgumentsChecked(command: string, args: string)
    requires command in {"search", "entity", "type", "ask", "cypher"}
    ensures args == "" <==> Decide(command, args).Prompt?
    ensures args == "" ==> !ReachesEngine(Decide(command, args))
    ensures args != "" ==>
      && ReachesEngine(Decide(command, args))
      && Decide(command, args) in {Search(args), ShowEntity(args), ListType(args), Ask(args), Cypher(args)}
  {
  }

  /**
   * `path` calls the engine exactly when its arguments are two words, and then
   * with those two words in order; otherwise it only reports the problem.
   */
  lemma PathNeedsTwoNames(args: string)
    ensures Decide("path", args).FindPath? <==> |Words(args)| == 2
    ensures Decide("path", args).FindPath? ==> Words(args) == [Decide("path", args).from, Decide("path", args).to]
    ensures !Decide("path", args).FindPath? ==> Decide("path", args) == Prompt("Please provide exactly two entity names.")
  {
  }

  /** Only the command word, not the arguments, decides whether the engine can be called. */
  lemma EngineOnlyForQueryCommands(command: string, args: string)
    requires ReachesEngine(Decide(command, args))
    ensures command in {"search", "entity", "path", "type", "stats", "ask", "cypher"}
  {
  }

  /** A command word never reads as a blank line, and only `exit` ends the loop. */
  lemma DecideExit(command: string, args: string)
    ensures !Decide(command, args).Skip?
    ensures Decide(command, args).Exit? <==> command == "exit"
  {
  }

  /** Exactly the lines whose first word is `exit`, in any case, end the loop. */
  lemma ExitOnlyOnExit(line: string)
    ensures Dispatch(line).Exit? <==> Words(line) != [] && Lower(Words(line)[0]) == "exit"
  {
    TokenizeSkipsBlank(line);
    WordsEmpty(line);
    match Tokenize(line) {
      case None =>
      case Some(c) =>
        DecideExit(c.name, c.args);
        TokenizeWords(line);
    }
  }

  /** Blank lines are skipped and nothing else is. */
  lemma SkipOnlyBlank(line: string)
    ensures Dispatch(line).Skip? <==> AllSpace(line)
  {
    TokenizeSkipsBlank(line);
    match Tokenize(line) {
      case None =>
      case Some(c) => DecideExit(c.name, c.args);
    }
  }

  // ---------------------------------------------------------------------------
  // The loop

  /** The actions for a run of input lines, one per line. */
  function Actions(lines: seq<string>): (actions: seq<Action>)
    ensures |actions| == |lines|
  {
    if lines == [] then [] else Actions(lines[..|lines| - 1]) + [Dispatch(lines[|lines| - 1])]
  }

  /** The action for each line is the dispatch of that line. */
  lemma {:induction false} ActionsAt(lines: seq<string>, j: nat)
    requires j < |lines|
    ensures Actions(lines)[j] == Dispatch(lines[j])
  {
    if j < |lines| - 1 {
      ActionsAt(lines[..|lines| - 1], j);
    }
  }

  lemma ActionsSnoc(lines: seq<string>, i: nat)
    requires i < |lines|
    ensures Actions(lines[..i + 1]) == Actions(lines[..i]) + [Dispatch(lines[i])]
  {
    assert lines[..i + 1][..i] == lines[..i];
  }

  /**
   * `interactive_query`: one line of input per round, up to and including the
   * first `exit` or the end of the input. `help` shows the menu again and
   * reading goes on, which is what re-entering the loop and breaking out of
   * it afterwards amounts to.
   */
  method InteractiveQuery(lines: seq<string>) returns (actions: seq<Action>)
    ensures |actions| <= |lines|
    ensures actions == Actions(lines[..|actions|])
    ensures forall i :: 0 <= i < |actions| - 1 ==> !actions[i].Exit?
    ensures |actions| < |lines| ==> actions != [] && actions[|actions| - 1].Exit?
  {
    actions := [];
    var i := 0;
    while i < |lines|
      invariant i == |actions| <= |lines|
      invariant actions == Actions(lines[..i])
      invariant forall j :: 0 <= j < i ==> !actions[j].Exit?
    {
      var action := Dispatch(lines[i]);
      ActionsSnoc(lines, i);
      actions := actions + [action];
      if action.Exit? {
        return;
      }
      i := i + 1;
    }
  }

  // ---------------------------------------------------------------------------
  // Rendering a path

  function Segment(rel: string, node: string): string {
    " --[" + rel + "]-> " + node
  }

  /** `path_str` after the first `|rels|` rounds of the rendering loop. */
  function PathString(nodes: seq<string>, rels: seq<string>): string
    requires |rels| < |nodes|
  {
    if rels == [] then nodes[0]
    else PathString(nodes, rels[..|rels| - 1]) + Segment(rels[|rels| - 1], nodes[|rels|])
  }

  function Concat(parts: seq<string>): string {
    if parts == [] then "" else Concat(parts[..|parts| - 1]) + parts[|parts| - 1]
  }

  /**
   * The rendered path is the first node followed by one segment per
   * relationship, `" --[rel_i]-> node_{i+1}"`, in order.
   */
  lemma {:induction false} PathStringSegments(nodes: seq<string>, rels: seq<string>)
    requires |rels| < |nodes|
    ensures PathString(nodes, rels) ==
      nodes[0] + Concat(seq(|rels|, i requires 0 <= i < |rels| => Segment(rels[i], nodes[i + 1])))
  {
    var segs := seq(|rels|, i requires 0 <= i < |rels| => Segment(rels[i], nodes[i + 1]));
    if rels != [] {
      var init := rels[..|rels| - 1];
      PathStringSegments(nodes, init);
      var segs' := seq(|init|, i requires 0 <= i < |init| => Segment(init[i], nodes[i + 1]));
      assert segs[..|segs| - 1] == segs';
    }
  }

  /**
   * The path text of one result, or nothing when indexing `nodes` fails (an
   * empty node list, or fewer than one more node than relationships); the
   * exception is reported by the loop's handler.
   */
  method RenderPath(nodes: seq<string>, rels: seq<string>) returns (r: Option<string>)
    ensures r.None? <==> |nodes| <= |rels|
    ensures r.Some? ==> r.value == PathString(nodes, rels)
  {
    if |nodes| == 0 {
      return None;
    }
    var pathStr := nodes[0];
    for i := 0 to |rels|
      invariant i < |nodes|
      invariant pathStr == PathString(nodes, rels[..i])
    {
      if i + 1 >= |nodes| {
        return None;
      }
      assert rels[..i + 1][..i] == rels[..i];
      pathStr := pathStr + " --[" + rels[i] + "]-> " + nodes[i + 1];
    }
    assert rels[..|rels|] == rels;
    return Some(pathStr);
  }

  // ---------------------------------------------------------------------------
  // Cypher results

  /** What running a Cypher query gave: the records (as their JSON text), or the error raised. */
  datatype QueryOutcome = Records(records: seq<string>) | Raised(error: string)

  /** The trailer for records beyond the tenth: it carries their count. */
  function MoreRecords(extra: nat): (line: string)
    ensures |line| >= 23
    ensures var digits := line[10..|line| - 13];
      && (forall i :: 0 <= i < |digits| ==> IsDigit(digits[i]))
      && DecimalValue(digits) == extra
  {
    var line := "  ... and " + Decimal(extra) + " more records";
    assert line[10..|line| - 13] == Decimal(extra);
    DecimalRoundTrip(extra);
    line
  }

  /**
   * The lines the `cypher` command prints: the error, a no-results notice, or
   * a header with the count, the first ten records and, when there are more,
   * a trailer with how many were left out.
   */
  method CypherReport(outcome: QueryOutcome) returns (lines: seq<string>)
    ensures outcome.Raised? ==> lines == ["Error executing query: " + outcome.error]
    ensures outcome.Records? && outcome.records == [] ==> lines == ["Query returned no results."]
    ensures outcome.Records? && outcome.records != [] ==>
      var n := |outcome.records|;
      && |lines| == 1 + (if n > 10 then 11 else n)
      && lines[0] == "\nQuery results (" + Decimal(n) + " records):"
      && (forall i :: 0 <= i < n && i < 10 ==> lines[1 + i] == "  " + outcome.records[i])
      && (n > 10 ==> lines[11] == MoreRecords(n - 10))
  {
    if outcome.Raised? {
      return ["Error executing query: " + outcome.error];
    }
    var results := outcome.records;
    if results == [] {
      return ["Query returned no results."];
    }
    lines := ["\nQuery results (" + Decimal(|results|) + " records):"];
    var shown := if |results| > 10 then results[..10] else results;
    for i := 0 to |shown|
      invariant |lines| == 1 + i
      invariant lines[0] == "\nQuery results (" + Decimal(|results|) + " records):"
      invariant forall j :: 0 <= j < i ==> lines[1 + j] == "  " + results[j]
    {
      lines := lines + ["  " + shown[i]];
    }
    if |results| > 10 {
      lines := lines + [MoreRecords(|results| - 10)];
    }
  }

  // ---------------------------------------------------------------------------
  // ask

  /** The context of `ask`: the contents of the search results joined by newlines. */
  function AskContext(contents: seq<string>): string {
    Join(contents, "\n")
  }

  /**
   * The context is empty when there are no results; when no content has a
   * newline in it, splitting the context at newlines gives the contents back,
   * in order.
   */
  lemma AskContextSplits(contents: seq<string>)
    ensures contents == [] ==> AskContext(contents) == ""
    ensures contents != [] && (forall i :: 0 <= i < |contents| ==> '\n' !in contents[i]) ==>
      SplitOn(AskContext(contents), '\n') == contents
  {
    if contents != [] && (forall i :: 0 <= i < |contents| ==> '\n' !in contents[i]) {
      SplitJoin(contents, '\n');
    }
  }
}
