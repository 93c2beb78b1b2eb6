# Chemistry knowledge graph: a Dafny model of its deterministic core

The application reads a chemistry text and has a language model extract
entities and relationships from it, chunk by chunk. It merges the extractions
and writes them to a Neo4j graph as nodes and edges. Users then query the
graph from two interactive command loops. This project models the parts of
that pipeline that do not depend on the model, the store or the terminal.
Those three become values and parameters.

- `text.dfy` (module `Text`): the Python `str` operations the code relies
  on, stated on `seq<char>`. These are `strip()`, `split()`,
  `split(maxsplit=1)`, `lower()`, `upper()`, single-character `replace`,
  `sep.join`, `s.split(c)` and `str(n)`.
- `commandline.dfy` (module `CommandLine`): the shared front of both command
  loops. A line is stripped, a blank one is skipped, and otherwise it splits
  into a lower-cased command word and its untouched arguments.
- `graphbuilder.dfy` (module `GraphBuilder`): `KnowledgeGraphBuilder`.
  - `process_document` merges the per-chunk extractions. The first entity
    with a name wins, the dict keeps insertion order, and relationships are
    concatenated. A reply that fails to parse is an empty extraction.
  - `create_graph_database` builds the statements for the store: the label,
    the property fragment, and a parameter map with sanitised keys. It
    clears the graph, writes each node and retries it without properties
    when the store rejects it. A rejected retry ends the operation, while a
    rejected edge is only reported. The store's verdict on each statement is
    the parameter `accepts`.
  - `create_vector_embeddings` is modelled as far as the text each entity is
    embedded under.
- `ranking.dfy` (module `Ranking`): the ranking in
  `SimpleKnowledgeGraphApp.semantic_search`. Each fetched record is scored,
  the list is sorted with Python's stable `sort(reverse=True)`, and the
  first `k` are kept with `[:k]`. The sort is modelled as an insertion sort.
  `StableSortUnique` proves that this is the only non-increasing order that
  keeps equal scores in fetch order, so it is the order Python's sort
  produces.
- `simpleapp.dfy` (module `SimpleApp`): `get_entity_details` on a store
  value, the context that `answer_question` builds from the three best
  matches, and the command dispatch and loop of `interactive_session`.
- `cli.dfy` (module `Cli`): the `interactive_query` loop of `main.py`.
  - The argument checks before each engine call, with their exact prompts.
  - The text printed for a path.
  - The report for a Cypher query.
  - The context string of `ask`.

`GraphBuilder.WithPropertiesLastWins` also shows a consequence of building
parameters with `params[safe_key] = v`. A property whose key sanitises to
`name` (or to `source` or `target` for a relationship) overwrites that
parameter. Two keys that differ only in spaces and hyphens share a single
parameter, and the last one wins.

## Model

| member | source | states |
|---|---|---|
| Text.Strip | backend/main.py:81 | the stripped line is a slice of the line with only whitespace before and after it; it is empty exactly when the line is all whitespace, and otherwise neither starts nor ends with whitespace |
| Text.WordsStrip | backend/main.py:81-86 | stripping a line does not change its whitespace-separated words |
| Text.SplitOnce | backend/main.py:86 | `split(maxsplit=1)` gives at most two parts, and none exactly when the string is all whitespace |
| Text.SplitOnceWords | backend/main.py:86-88 | the first part is the first word; with one part it is the only word; with two, the second part holds exactly the remaining words |
| Text.SplitOnceSuffix | backend/main.py:86-88 | the second part is a tail of the string that starts with a non-whitespace character |
| Text.Lower | backend/main.py:87 | `lower()` keeps the length and maps each character to its lower-case form |
| Text.SplitJoin | backend/main.py:190 | splitting a newline-join at newlines gives the parts back, when no part contains a newline |
| Text.DecimalRoundTrip | backend/main.py:212 | the digits `str(n)` prints denote `n` |
| CommandLine.TokenizeSkipsBlank | backend/main.py:81-84 | a line is skipped exactly when it is all whitespace |
| CommandLine.TokenizeWords | backend/main.py:86-88 | the command is the first word lower-cased; the arguments have exactly the remaining words, and are empty exactly when the line has one word |
| CommandLine.TokenizeArgsVerbatim | backend/main.py:88 | the arguments are a tail of the stripped line, with no whitespace at either end |
| GraphBuilder.UnparsedChunkContributesNothing | backend/knowledge_graph_builder.py:84-89 | a chunk whose reply fails to parse adds no entity and no relationship, and the chunks after it merge as if it were absent |
| GraphBuilder.FirstByNameNames | backend/knowledge_graph_builder.py:105-107 | the merged entities have exactly the names of the input entities, and every merged entity is one of the input entities |
| GraphBuilder.FirstByNameDistinct | backend/knowledge_graph_builder.py:105-107 | no two merged entities share a name |
| GraphBuilder.FirstOccurrenceWins | backend/knowledge_graph_builder.py:105-107 | each merged entity is the earliest input entity with its name |
| GraphBuilder.FirstAppearanceOrder | backend/knowledge_graph_builder.py:105-112 | merged entities come in the order their names first appear (the dict's insertion order) |
| GraphBuilder.AllRelationshipsCount | backend/knowledge_graph_builder.py:109-110 | every relationship of every chunk is kept, duplicates included: the count is the sum of the chunks' counts |
| GraphBuilder.MergeEntities | backend/knowledge_graph_builder.py:105-107 | the entity loop over one chunk keeps the dict equal to the first-by-name merge of everything seen so far |
| GraphBuilder.ProcessDocument | backend/knowledge_graph_builder.py:91-112 | the dict's values are the first-by-name merge of all chunks' entities, distinct by name and losing no name; the relationships are all chunks' relationships in order |
| GraphBuilder.Sanitize | backend/knowledge_graph_builder.py:126 | the result has the same length, with every space and hyphen turned into `_` and every other character kept; it has no space and no hyphen |
| GraphBuilder.SanitizeIdempotent | backend/knowledge_graph_builder.py:135 | sanitising a label twice is sanitising it once |
| GraphBuilder.RelTypeName | backend/knowledge_graph_builder.py:173 | the relationship type is upper-cased, with spaces and hyphens turned into `_` |
| GraphBuilder.WithPropertiesKeys | backend/knowledge_graph_builder.py:123-128 | the parameters are the initial ones plus one per sanitised property key, and nothing else |
| GraphBuilder.WithPropertiesLastWins | backend/knowledge_graph_builder.py:124-128 | a parameter holds the value of the last property whose key sanitises to its name, even when that name is `name`, `source` or `target` |
| GraphBuilder.WithPropertiesKeepsOthers | backend/knowledge_graph_builder.py:123-128 | an initial parameter that no key sanitises to keeps its value |
| GraphBuilder.EntityFragment | backend/knowledge_graph_builder.py:130-132 | the node's property fragment is empty exactly when there are no properties; otherwise it is `", "` and the comma-joined entries |
| GraphBuilder.RelationshipFragment | backend/knowledge_graph_builder.py:166-170 | the edge's property map is empty exactly when there are no properties; otherwise it is the comma-joined entries in braces |
| GraphBuilder.CollectProperties | backend/knowledge_graph_builder.py:122-128 | the loop produces one backticked entry per property, in order, and the parameter map with every sanitised key set |
| GraphBuilder.BuildNodeStatement | backend/knowledge_graph_builder.py:119-140 | the node write has the sanitised type as label and a property fragment that is empty exactly when there are no properties; `name` is always a parameter |
| GraphBuilder.BuildEdgeStatement | backend/knowledge_graph_builder.py:155-178 | the edge write has the normalised type and a property map that is empty exactly when there are no properties; `source` and `target` are always parameters |
| GraphBuilder.WriteEntities | backend/knowledge_graph_builder.py:119-152 | the entity loop issues each node write, then the fallback after a rejection, and stops at the first rejected fallback |
| GraphBuilder.EntityPassStops | backend/knowledge_graph_builder.py:142-152 | once a fallback is rejected, later entities issue nothing |
| GraphBuilder.EntityPassAllAccepted | backend/knowledge_graph_builder.py:119-143 | when every node write is accepted, the pass completes with exactly one write per entity, in order |
| GraphBuilder.WriteRelationships | backend/knowledge_graph_builder.py:155-183 | one edge write per relationship, in order; a rejected one does not stop the loop |
| GraphBuilder.CreateGraphDatabase | backend/knowledge_graph_builder.py:114-183 | the graph is cleared first; the edge writes follow only when the entity pass got through; the operation completes exactly when the clear and the entity pass do |
| GraphBuilder.EmbeddingText | backend/knowledge_graph_builder.py:189-191 | the text is `name (type)` when the entity has no properties, and `name (type) - ` followed by the JSON of its properties otherwise |
| GraphBuilder.CreateVectorEmbeddings | backend/knowledge_graph_builder.py:185-199 | one embedding write per entity, in order, keyed by the entity's name |
| Ranking.Scored | backend/simple_kg_app.py:126-137 | one match per fetched record, in fetch order, carrying the record's fields and its score |
| Ranking.SortDescendingSorted | backend/simple_kg_app.py:140 | the sorted list is non-increasing in score, is a permutation of the input, and keeps the input order among equal scores |
| Ranking.SortDescendingLength | backend/simple_kg_app.py:140 | sorting keeps the length |
| Ranking.StableSortUnique | backend/simple_kg_app.py:140 | any non-increasing list with the same matches per score, in the same order, is the sorted list: the stable sort is unique |
| Ranking.Take | backend/simple_kg_app.py:141 | `s[:k]` is a prefix of `s` with `min(k, len)` elements for `k >= 0`, and all but the last `-k` for negative `k` |
| Ranking.SemanticSearch | backend/simple_kg_app.py:113-141 | the result is the first `k` of the stable descending sort of the scored records: at most `k` matches, non-increasing, all drawn from the scored list, and empty when nothing was fetched |
| Ranking.SearchKeepsFetchOrder | backend/simple_kg_app.py:140-141 | among results of equal score, fetch order is kept, and they are the first ones of that score |
| SimpleApp.RelationOf | backend/simple_kg_app.py:157-161 | an edge yields a row exactly when it touches the entity and its other end is an entity; the row is outgoing exactly when the entity is the edge's start |
| SimpleApp.RelationsMembers | backend/simple_kg_app.py:157-171 | the rows are exactly those of the stored edges that touch the entity, at most one per edge |
| SimpleApp.EntityDetails | backend/simple_kg_app.py:143-178 | the details are absent exactly when no entity has the name; otherwise they carry its stored type and description and the rows of the stored edges that touch it, in edge order |
| SimpleApp.GetEntityDetails | backend/simple_kg_app.py:143-178 | the loop returns those details, and `None` exactly for an unknown name |
| SimpleApp.RelationLine | backend/simple_kg_app.py:249-251 | a relationship is shown as `->` when outgoing and `<-` when incoming, then its type and the connected entity's name |
| SimpleApp.Block | backend/simple_kg_app.py:189-192 | an entity contributes its header line, then one line each for at most its first three relationships: at most four lines |
| SimpleApp.ContextPartsBound | backend/simple_kg_app.py:186-192 | the context has at most four lines per search result |
| SimpleApp.ContextPartsAppend | backend/simple_kg_app.py:186-192 | the context of consecutive stretches of results is the concatenation of their contexts |
| SimpleApp.SkipsMissing | backend/simple_kg_app.py:188-189 | a result with no details adds nothing, and the blocks around it stay in order |
| SimpleApp.KeepsFound | backend/simple_kg_app.py:188-192 | a result the store knows adds exactly its block, in place |
| SimpleApp.AppendBlock | backend/simple_kg_app.py:190-192 | the inner loop appends exactly that entity's block |
| SimpleApp.AssembleContext | backend/simple_kg_app.py:186-194 | the context string is the newline-join of the blocks of the found results, in ranking order |
| SimpleApp.AnswerContext | backend/simple_kg_app.py:180-194 | the context comes from the three best matches and has at most twelve lines |
| SimpleApp.SessionDecideSpec | backend/simple_kg_app.py:232-278 | only `exit` ends the session; `search`, `entity` and `ask` run exactly when they have arguments, which they receive untouched; without arguments they are invalid |
| SimpleApp.SessionSkipOnlyBlank | backend/simple_kg_app.py:224-226 | blank lines are skipped, and nothing else is |
| SimpleApp.ExitOnlyOnExit | backend/simple_kg_app.py:228-234 | the session ends on a line exactly when its first word is `exit`, in any case |
| SimpleApp.InteractiveSession | backend/simple_kg_app.py:222-283 | one action per line read, each the dispatch of its line; no `exit` before the last, and input is left over only after an `exit` |
| Cli.ArgumentsChecked | backend/main.py:98-207 | `search`, `entity`, `type`, `ask` and `cypher` without arguments only print their prompt and never reach the engine; with arguments they pass them on untouched |
| Cli.PathNeedsTwoNames | backend/main.py:133-139 | `path` reaches the engine exactly when its arguments are two words, and with those words in order; otherwise it prints the prompt |
| Cli.EngineOnlyForQueryCommands | backend/main.py:90-227 | only the seven query commands (`search`, `entity`, `path`, `type`, `stats`, `ask`, `cypher`) ever reach the query engine |
| Cli.DecideExit | backend/main.py:90-92 | a command is never a blank line, and only `exit` ends the loop |
| Cli.ExitOnlyOnExit | backend/main.py:81-92 | the loop ends on a line exactly when its first word is `exit`, in any case |
| Cli.SkipOnlyBlank | backend/main.py:81-84 | blank lines are skipped, and nothing else is |
| Cli.InteractiveQuery | backend/main.py:78-232 | one action per line read, each the dispatch of its line; no `exit` before the last, and input is left over only after an `exit` |
| Cli.PathStringSegments | backend/main.py:145-147 | the rendered path is the first node followed by one ` --[rel]-> node` segment per relationship, in order |
| Cli.RenderPath | backend/main.py:143-148 | rendering fails exactly when there are not more nodes than relationships; otherwise it gives that path text |
| Cli.MoreRecords | backend/main.py:215-216 | the trailer carries, as decimal digits, exactly the number of records left out |
| Cli.CypherReport | backend/main.py:209-220 | an error is reported as such, no records as a notice, otherwise a header with the count, the first ten records indented, and a trailer when more than ten |
| Cli.AskContextSplits | backend/main.py:189-190 | the context is empty for no results; it splits back at newlines into the contents when none of them contains a newline |

## Left out

- Language model calls (`extract_knowledge_graph`, the answer in `answer_question` and `ask`): the extraction reply is a parameter, already parsed, with `None` for a reply that does not parse. Answers are not modelled.
- Text splitting into chunks (`RecursiveCharacterTextSplitter`) and reading the document file: the chunks' replies are given.
- Embedding calls and cosine similarity: the similarity is an opaque function from an embedding to a real. Floating-point rounding is not modelled.
- Ranking.SemanticSearch: the store's fetch order is the order of the `records` parameter. The store does not promise an order.
- Ranking.SemanticSearch: scores are real numbers. A zero-norm embedding gives a NaN score in the source, and with NaN keys `sort(reverse=True)` need not return a non-increasing list, so `Descending(results)` holds only for real-valued scores. An embedding of a different length makes `np.dot` raise; that error is not modelled.
- JSON: `json.dumps` of entity properties is the parameter `dumps`. Cypher records are given as their JSON text. Property values are strings, integers, booleans or null; floats, lists and nested objects are not modelled.
- GraphBuilder.CreateGraphDatabase: the store's verdict depends only on the statement. Statements are compared by their interpolated pieces and parameter maps, not by their full Cypher text. The store's own handling of a duplicate property key is not modelled.
- The graph store's contents after the writes, and session management.
- SimpleApp.EntityDetails: node names are the keys of a map, so `result.single()` with several nodes of one name is not modelled. A self-loop yields a single outgoing row.
- Text.Lower: `lower()` and `upper()` map ASCII letters only; other case mappings are not modelled.
- SimpleApp.InteractiveSession: the model stops when the input runs out. In the source, `input()` at end of input raises, the handler prints the error, and the loop repeats forever. `KeyboardInterrupt` is not modelled.
- Cli.InteractiveQuery: the same end-of-input behaviour as the session loop. `help` re-enters the loop recursively and then breaks, which is modelled as showing the menu and reading on. Stack depth is not modelled.
- The output of `search`, `type`, `stats`, `list` and `rebuild`, and of `entity` in `main.py`: these print what the query engine or the store returns, and that is not part of this model. This includes the `Unknown` label for a node type without labels. Only the dispatch to them is modelled. `similarity_search` in `main.py` calls a foreign vector index.
- SimpleApp.RelationLine: of the `entity` output in `interactive_session`, only the line per relationship is modelled; the header, description and "not found" lines are not.
- Cli.CypherReport: records are taken as their JSON text. In the source, `json.dumps` can raise on a record it cannot serialise, after the header and the earlier records have been printed, and the error line then follows them; that mixed output is not modelled.
- Cli.RenderPath: one path at a time. An indexing error is modelled as `None`, which the loop's handler would report.
- `setup_sample_graph`, `build_graph`, the configuration, the query engine (`knowledge_graph_query.py`) and the scripts are not part of this model.
- Banners and help text are not modelled.
