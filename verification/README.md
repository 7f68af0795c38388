# linguagraph: verified model

A Dafny model of the parts of linguagraph where one mistake would change an answer or damage stored data, with proofs of
what those parts do on every input. `dafny verify dfyconfig.toml` checks the whole project.

The model follows the Rust code. Loops that build text, mutate a cursor, a document, a store or a merge are methods over
the same state; expression-like code is functions; foreign systems (the graph database, the vector store, the model) are
state machines or function parameters, and a failure is possible wherever the code can meet one.

## What is modelled

**Read queries** (`Ast` to `TextReading`, `FilterScope`, `DocumentOrder`, `TreeGraphs`, `ScopeDecision`). `BuildRead`
writes the token text of a `ReadQuery`: MATCH, WHERE, OPTIONAL MATCH, the sources stage, RETURN, ORDER BY, LIMIT,
parameters and column list. `Cypher`, `WhereReading` and `MatchPart` read tokens back as clauses with Cypher's
precedence (NOT over AND over OR). `Semantics` gives the clauses a meaning over property graphs: bags of rows, nulls,
three-valued conditions, variable-length trails, one use of a relationship per MATCH clause, and a WHERE that belongs to
the clause it follows. `Reference` says independently what a query asks: a row binds every alias, each required
traversal links its ends, each optional one does or is null because nothing links, the filter is true. `Comparisons`
says what each of the sixteen comparisons asks of a value, without the operators written for them. Main results: the
text reads back as the intended clauses; the rows bound are exactly the answers, each once, on every graph, if and only
if the filter was not deferred behind an OPTIONAL MATCH (or is a tautology) and, where it was not deferred, no required
traversal starts from an optional target (or the filter can never be true); the sources stage adds exactly the linked
sources and keeps every name a later clause reads; nulls sort last in both directions; the whole text reads back with
nothing left over.

**Query rewrites** (`Dsl`, `EdgeAliases`, `AliasLoss`, `Directions`, `DirectionMatches`, `DirectionAnswers`,
`InsertedLabels`, `Enrich`, `Subgraph`): alias repair and when it loses a name, direction correction and when it loses a
match, projection widening, and the hidden id columns with the table shown after they are stripped.

**Writing and deleting** (`Insert`, `Merge`, `InsertMeaning`, `MergeTwice`, `MergeRels`, `Ingest`, `Rerun`,
`SideEffects`, `Conservation`, `DeleteBySource`): MERGE statements over a graph in closed form, where every label,
property and relationship afterwards comes from, a crash between any two statements and exactly when a re-run is
harmless, the embedding queue, and source deletion with its vector sweep.

**Embeddings and ranking** (`Batching`, `ModelCalls`, `EmbeddingStore`, `PointIds`, `Indexing`, `IndexRuns`,
`TraversalMerge`, `Scores`, `Traversal`): the packer and its optimality, the loops around the model, the index-or-reuse
step over whole histories with failures, score merging, top selection and reranking.

**Dates** (`Calendar`, `Timeline`): the day formula against counting days by the Gregorian rule, its inverse, the date
text (the `full-date` of section 5.6 of RFC 3339) and the order of events.

## Where the code does not do what its comments promise

Each of these is proved together with the exact condition under which the promise does hold, on every input of the model;
where the condition has a scope of its own (filters that are not deferred, merge keys that are kept), the text below names it.

- A filter on an optional target is written behind the last OPTIONAL MATCH (src/builder/cypher.rs:54-82) so that rows failing it
  are dropped. In openCypher that WHERE picks among the clause's matches and drops no row. For filters on properties the text
  answers the query everywhere if and only if the filter is not deferred or is true whatever the properties:
  `DeferralDecision.DeferralDecides`, `Deferral.DeferralOnlyAdds`, and the query of the builder's own regression test in
  `DeferralExample.UnemployedSurvives`.
- A document may start a required traversal from an optional target (src/dsl/schema.rs:218-224), but required patterns are all
  written first (src/builder/match_part.rs:14-45). A query whose filter, if any, is not deferred is answered exactly if and only
  if it has no such traversal or its filter can never be true: `ScopeDecision.ScopeDecides`.
- A filter on the edge of an optional traversal is not deferred, because deferral looks at targets only
  (src/builder/cypher.rs:353-368). The conditions written use only names bound where they stand if and only if the filter is in
  scope: `FilterScope.ScopeIsKept`, `FilterScope.OnlyOptionalEdgesEscape`.
- The column list omits `score` although RETURN has it, because it is computed after the sort keys were drained:
  `ReadBuilder.ColumnsMatchReturn`.
- Deleting a source all of whose entities are shared with other sources reports it as not found and deletes nothing:
  `DeleteBySource.FoundExactlyWhen`, `DeleteBySource.SharedSourceIsNotFound`.
- The llama embedder returns more vectors than texts when a text exceeds the context (the trait asks for one each):
  `ModelCalls.OneVectorPerText`; the drain, which compares the counts, then always fails: `Conservation.DrainThroughLlama`.
- A deletion that crashed after its vector sweep is finished by a re-run only if the re-run takes the same source. With several
  sources of the name it may take another; `DeleteBySource.CrashThenRerun` says when that leaves what one clean run leaves.
- Alias repair is described as lossless, but an alias that clashes with nothing can be renamed when an earlier clash was given
  its name. Whether a list has such a pair is decided by counting on the list itself: `AliasLoss.LosslessExactlyWhen`.
- Re-running an insert after a crash is not always a clean run: an earlier row with fewer labels, the same merge key and id
  writes, in the second run, to the node a later row made. An insert can crash anywhere on any graph and be run again if and
  only if no row that makes a node meets earlier rows that leave something on it: `Rerun.RerunDecides`. This is for rows that keep
  merge keys (`Merge.KeysKept`, `Merge.KeysApart`). Outside that a single row that overwrites its own key, run twice from an
  empty graph, makes a second node: `RerunExamples.OverwrittenKeyIsNotIdempotent`; longer lists of such rows can end well.
- Point ids join names and text with a bar that both may contain. `PointIds.SharedExactlyWhen` says which passages share their
  id with another one, kind by kind, and `PointIds.MeetExactlyWhen` which pairs of models and dimensions share ids at all: none
  whose names have no bar (`PointIds.SwitchNeverReuses`). A history that switches between models never takes one model's vector
  for another's if they do not meet (`IndexRuns.SwitchesNeverMix`), and can if they do (`IndexRuns.MeetingMixes`).
- The date parser takes any day up to 31 (section 5.7 of RFC 3339 is stricter): `Timeline.AcceptedDates`.
- Direction correction compares the labels a step asks for with a schema of first labels (src/db/introspect.rs:232-257), from
  which the ontology catalog has dropped what it does not declare (src/core/pipeline.rs:383-397, src/graph/ontology.rs:578-645).
  Nodes also carry prefix, domain and scope labels. A step loses no match on any graph with that schema and such side labels if
  and only if it is not turned, or the graph's own schema has no walk, as long as the step allows, between nodes that can carry
  the two labels, which the new direction cannot follow: `DirectionMatches.CorrectionDecides`. So a single hop is safe between
  entity labels (`DirectionMatches.SingleHopsAreSafe`) and not safe between labels that stand beside others
  (`DirectionMatches.SharedSidesLose`, `DirectionMatches.OwnerIsLost`); several hops are lost as soon as the schema has a label
  to pass through (`DirectionMatches.PassageIsLossy`), even one the catalog dropped.

## Assumptions stated in the contracts

- `Reference.Scoped`: aliases are distinct (what the alias check accepts, `EdgeAliases.CheckedIsDistinct`), traversals start from
  a node bound before them, and a required one never from an optional target; `ScopeDecision.ScopeDecides` shows the last
  part is necessary.
- `ReadCompiler.FilterInScope`: a filter that is not deferred names no optional edge alias; otherwise the text refers to an
  unbound name (`FilterScope.OnlyOptionalEdgesEscape`).
- `WhereReading.Full`: an And or Or without operands prints nothing (src/builder/where_part.rs:101-103); inside a tree
  the text around it is proved unreadable, and a filter that prints nothing as a whole gets no WHERE.
- `FindRows.NoReservedNames`: no alias is one of the names the sources stage uses for itself; the alias grammar allows them.
- `FindRows.Contribute`: the handlers of typed filters turn a bound row into any number of rows that bind the same further names
  (`c__score_0`), none of them an alias or reserved; contributed sort keys that are plain names are among these or the aliases.
- `DirectionMatches.Describes`: every node has a first label, the others are among a given set of side labels, and the schema
  lists exactly the pairs of first labels its relationships join. Inserts keep nodes so: `InsertedLabels.InsertsKeepTypes`.
  The catalog is a projection (`DirectionMatches.Projected`); the decision itself holds for any two schemas.
- `DirectionMatches.PlainTypes`: the schema the correction reads names single relationship types, so none contains a bar.
- `Merge.KeysKept`, `Merge.KeysApart`: no id is null, no row writes its own merge key with another value or a scope label that is a
  merge label, and no node is about both a row and another whose merge key the first writes under its own different key.
- Relationship uniqueness holds per MATCH clause, as in openCypher; along one chain relationships are distinct, across
  separate MATCH clauses they need not be (`Reference.ChainsAreTrails`).

## Model

| member | source | states |
|---|---|---|
| `Cursors.Cursor.BindValue` | src/builder/cursor.rs:92-97 | each bound value goes under the next `p` number, other entries stay |
| `Cursors.ParamNameInjective` | src/builder/cursor.rs:92-97 | different counters give different parameter names |
| `WherePart.CollectReferencedAliases` | src/builder/where_part.rs:21-39 | the set grows by exactly the aliases the filter's predicates name |
| `WherePart.WriteWhere` | src/builder/where_part.rs:41-57 | appends WHERE and the printed filter, nothing for a filter that prints nothing, and binds its leaves |
| `WherePart.WriteExpr` | src/builder/where_part.rs:59-92 | appends the printed tree and advances numbering and parameter table by its leaves |
| `WherePart.WriteJoined` | src/builder/where_part.rs:94-116 | no operand prints nothing, one prints bare, more print parenthesised and separated |
| `WherePart.WritePredicate` | src/builder/where_part.rs:118-158 | one comparison against a fresh placeholder; case-insensitive ones use the shadow property and a normalised value |
| `Comparisons.OperatorSays` | src/builder/where_part.rs:140-157 | for each of the sixteen comparisons the operator written decides, of any value or entity found, what the comparison says: order, prefix, place in a text, membership, nulls |
| `Comparisons.WrittenAsks` | src/builder/where_part.rs:118-172 | property, operator and parameter written together ask what the filter's predicate asks |
| `WhereReading.WhereReadsBack` | src/builder/where_part.rs:59-116 | the printed filter parses under Cypher precedence if and only if no And/Or is empty, and then as the same tree up to one-operand nodes |
| `WhereReading.LeavesAreBound` | src/builder/where_part.rs:59-158 | the leaves are bound left to right to consecutive numbers and no other parameter is touched |
| `WhereReading.WhereRoundTrip` | src/builder/where_part.rs:41-158 | print, parse and read back with the parameters: the filter returns with its own comparisons, whatever was bound before, if and only if no leaf is on a shadow property or ignores the case of a whole entity |
| `WhereReading.TextIgnoresLiterals` | src/builder/where_part.rs:118-158 | filters that differ only in literals print the same text |
| `Normalize.NormalizeIdempotent` | src/normalize.rs:14-16 | normalising a matching key twice is normalising it once |
| `Normalize.NormalForm` | src/normalize.rs:14-16 | a matching key is what stands between the outer blanks, in lower case |
| `Shadows.StoreProperties` | src/ingest/graph.rs:345-365 | in whatever order properties are visited, each name and, unless taken, the shadow of each text ends up stored |
| `Shadows.CaseInsensitiveMeans` | src/builder/where_part.rs:118-172 | asked of a stored node a case-insensitive predicate is the plain comparison on normalised texts, reads a property the node itself has under the shadow name, and is unknown on other values |
| `Shadows.EqualsIgnoringCase` | src/builder/where_part.rs:118-172 | case-insensitive equality is true exactly for texts with the same normal form, or a stored property under the shadow name equal to it |
| `Shadows.TextsIgnoringCase` | src/builder/where_part.rs:118-172 | the other case-insensitive comparisons of a stored text: normal forms that differ, start, end, contain or are listed |
| `MatchPart.WriteMatch` | src/builder/match_part.rs:14-37 | the required pattern text, chaining onto the open endpoint and opening a new MATCH elsewhere |
| `MatchPart.WriteOptionalMatches` | src/builder/match_part.rs:39-45 | one OPTIONAL MATCH for each optional traversal, in order |
| `MatchPart.WriteNode` | src/builder/match_part.rs:47-68 | alias with its label and prefix label, leaving out empty ones |
| `MatchPart.WriteTraversalTail` | src/builder/match_part.rs:73-87 | edge and target tokens, a 1..1 depth written as a plain hop |
| `MatchPart.ClausesRead` | src/builder/match_part.rs:14-87 | a sequence of clause texts reads back as those clauses with their own conditions, whatever of the query follows |
| `PatternReading.PatternsReadBack` | src/builder/match_part.rs:14-87 | the patterns read back are the required traversals in order, then the optional ones, whatever was chained |
| `ReadCompiler.FilterNeedsOptionalScope` | src/builder/cypher.rs:353-368 | true exactly if the filter names an optional target alias |
| `ReadCompiler.BuildBindings` | src/builder/cypher.rs:44-82 | error without a projection; otherwise the binding text with the filter early or deferred, and its parameters |
| `ReadCompiler.BindingsReadBack` | src/builder/cypher.rs:50-82 | at the head of any text that goes on with WITH or RETURN the database reads the intended clauses, the filter on the last required or the last optional one |
| `TextReading.TextReadsBack` | src/builder/cypher.rs:44-165 | the whole emitted text reads back: clauses, the lookup between its two WITHs, RETURN, key pairs, limit, nothing left over |
| `ReadCompiler.EarlyWhereIsExact` | src/builder/cypher.rs:54-82 | without deferral the clauses bind, on every graph, exactly the answers, each once: the early filter is a sound pushdown |
| `Reference.LinkedMeans` | src/builder/match_part.rs:73-87 | what a traversal asks, spelled on the graph: one relationship of a listed type in its direction, or a row of different ones as long as its depth allows |
| `Matching.HopsExact` | src/builder/match_part.rs:73-87 | the matches of an edge pattern are exactly the single relationships or the trails in its depth range, each once |
| `Deferral.LateWhereIsExact` | src/builder/cypher.rs:54-76 | with deferral the clauses bind exactly the rows whose last optional traversal was filtered, nulls kept, each once |
| `Deferral.DeferralOnlyAdds` | src/builder/cypher.rs:54-76 | deferral loses no answer; what it adds are exactly null-padded rows that fail the filter or had a match |
| `DeferralDecision.DeferredFilterIsLost` | src/builder/cypher.rs:54-76 | for every deferred property filter that is not a tautology there is a graph on which the text does not answer the query |
| `DeferralDecision.DeferralDecides` | src/builder/cypher.rs:54-82 | the text answers the query on every graph if and only if the property filter is not deferred or is true of missing properties already |
| `DeferralExample.UnemployedSurvives` | src/builder/cypher.rs:586-635 | a person without a company is returned although the filter on the company is not true |
| `ScopeDecision.ScopeDecides` | src/builder/match_part.rs:14-45 | a query without a deferred filter is answered exactly on every graph if and only if no required traversal starts from an optional target or the filter can never be true |
| `ScopeDecision.StrayBindsTooMuch` | src/builder/match_part.rs:14-45 | for every row the filter lets pass, a graph with its properties on which such a traversal binds a row that is no answer |
| `FilterScope.ScopeIsKept` | src/builder/cypher.rs:54-82 | every name the written conditions use is bound where they stand if and only if the filter is in scope |
| `FilterScope.OnlyOptionalEdgesEscape` | src/builder/cypher.rs:353-368 | an unbound name is written exactly if the filter names the edge of an optional traversal and no optional target |
| `SourcesStage.CollectNodeAliases` | src/builder/cypher.rs:332-347 | start and target aliases in order, each once |
| `SourcesStage.CollectReferenced` | src/builder/cypher.rs:304-328 | exactly the aliases RETURN, GROUP BY or a property sort key reads |
| `SourcesStage.CarryNames` | src/builder/cypher.rs:276-299 | node aliases first, then plain contributed keys and edge aliases read later, each once and nothing else |
| `SourcesStage.WriteSourcesStage` | src/builder/cypher.rs:259-274 | appends the stage over exactly those names |
| `SourcesStage.StageReadsBack` | src/builder/cypher.rs:266-273 | the stage reads as an optional lookup of sources filtered by membership among the row's nodes |
| `SourcesMeaning.StageExact` | src/builder/cypher.rs:248-274 | one row per distinct carried tuple, with exactly the Source nodes linked to one of that row's nodes |
| `FindRows.StageKeepsScope` | src/builder/cypher.rs:276-328 | everything read later is still in scope; a bound name is lost only if it is an edge nobody reads |
| `FindRows.FindRowsAreAnswers` | src/builder/cypher.rs:44-110 | RETURN sees exactly what the handlers make of the answers, cut to the carried names, with their sources, each once |
| `FindRows.StageMerges` | src/builder/cypher.rs:276-299 | two rows become one exactly when they differ only in edges and handler names nobody reads |
| `ReturnPart.WriteOrderBy` | src/builder/return_part.rs:77-89 | user key pairs, then contributed keys, which are drained in every case |
| `ReturnPart.EmittedOrder` | src/builder/return_part.rs:72-110 | the emitted keys mean the user's order of the columns, properties and entities named, nulls last in both directions, contributed keys only breaking its ties |
| `ReturnPart.NullsLast` | src/builder/return_part.rs:91-110 | within ties of earlier keys no row without a value stands before one with a value |
| `ReturnPart.LimitPrefersValues` | src/builder/return_part.rs:91-114 | a limit returns a row without a first sort value only if it returns every row that has one |
| `ReturnPart.PlainDescendingPutsNullFirst` | src/builder/return_part.rs:91-99 | a descending key without its null test would put such rows first |
| `ReadBuilder.ProjectedColumns` | src/builder/cypher.rs:182-225 | one column per RETURN item with the node type of its alias, then score and sources for find queries when asked for |
| `ReadBuilder.ColumnsAre` | src/builder/cypher.rs:182-246 | each column has the name given or the one the database makes up, and the node type of the label bound last to its alias; `sources` follows for find queries |
| `ReadBuilder.ReturnIs` | src/builder/cypher.rs:100-121 | RETURN has the items, the plain contributed keys as `score` and the sources, the last two only for find queries and unless an item is called so |
| `ReadBuilder.TypesAreTrue` | src/builder/cypher.rs:175-225 | in every answer a column typed Source or Chunk belongs to a node with that label |
| `ReadBuilder.CollectScoreTerms` | src/builder/cypher.rs:391-404 | its members are exactly the contributed keys that are plain names, without a duplicate |
| `ReadBuilder.BuildRead` | src/builder/cypher.rs:44-165 | the whole text in clause order, its parameters, and the columns actually announced |
| `ReadBuilder.ColumnsMatchReturn` | src/builder/cypher.rs:134-173 | announced and returned columns agree if and only if no score column is returned |
| `EdgeAliases.FreshAlias` | src/dsl/parser.rs:100-109 | the first free numbered suffix, within one more probe than there are taken names |
| `EdgeAliases.DedupeEdgeAliases` | src/dsl/parser.rs:85-96 | only edge aliases change: those a node or an earlier edge has get the first free suffix |
| `EdgeAliases.ValidateAliases` | src/dsl/parser.rs:111-228 | accepts exactly the alias lists without duplicates, and names a duplicate otherwise |
| `EdgeAliases.RepairDecides` | src/dsl/parser.rs:62-96 | after repair the aliases are duplicate-free if and only if the node aliases were, and no node alias changed |
| `EdgeAliases.RepairTwice` | src/dsl/parser.rs:85-96 | a second repair changes nothing |
| `AliasLoss.LosslessExactlyWhen` | src/dsl/parser.rs:62-109 | every edge that clashes with nothing keeps its alias if and only if no earlier clash has run out of lower numbers and takes it |
| `AliasLoss.RobberyIsLoss` | src/dsl/parser.rs:85-109 | whenever the input has such a pair the repair renames an alias that clashed with nothing |
| `EdgeAliases.FreshIsIdentifier` | src/dsl/parser.rs:100-109 | a repaired alias is still an identifier |
| `EdgeAliases.CheckedIsDistinct` | src/dsl/parser.rs:111-152 | the alias check accepts a query exactly when the compiler's theorems apply to its names |
| `Directions.ValidateDirections` | src/core/pipeline.rs:758-811 | each step's direction is decided by the schema and the labels bound before it; nothing else changes |
| `Directions.CorrectionIs` | src/core/pipeline.rs:758-811 | a step between two known labels points the one way the schema lists and keeps its direction when both or none are listed; others are left alone |
| `Directions.CorrectionTwice` | src/core/pipeline.rs:758-811 | correcting the whole list again changes nothing |
| `DirectionMatches.CorrectionDecides` | src/core/pipeline.rs:752-811 | correcting a step loses no match on any graph with that first-label schema and those side labels if and only if no walk of allowed length between nodes that can carry its labels escapes the new direction |
| `DirectionMatches.UnionsAreKept` | src/core/pipeline.rs:785-804 | a union of relationship types is in no schema of single types and is left alone |
| `DirectionMatches.SingleHopsAreSafe` | src/core/pipeline.rs:785-804 | a step of single hops between labels that are no side labels never loses a match, with or without the catalog's projection |
| `DirectionMatches.SharedSidesLose` | src/core/pipeline.rs:785-804 | between labels that may stand beside others every turned step that may be one hop loses matches |
| `DirectionMatches.SharedSidesDecide` | src/core/pipeline.rs:785-804 | there the condition is any walk of allowed length, whatever its ends |
| `DirectionMatches.OwnerIsLost` | src/db/introspect.rs:232-257 | a one-hop step is turned away from its only match because the schema knows the owner by another label |
| `DirectionMatches.PassageIsLossy` | src/core/pipeline.rs:785-804 | a turned step that may take two hops loses matches as soon as the schema has a label to pass through |
| `DirectionMatches.LossyStepLoses` | src/core/pipeline.rs:785-804 | the failing graph, whose introspection is exactly the schema: the step matches, and corrected it does not match between those nodes at all |
| `InsertedLabels.InsertsKeepTypes` | src/builder/insert.rs:42-121 | whatever part of an insert took effect, every node has one entity label and beside it only prefix, domain and scope labels |
| `DirectionAnswers.AnswersKept` | src/core/pipeline.rs:758-811 | steps turned without loss, optional ones only narrowed: every answer of the query is one of the corrected query |
| `DirectionAnswers.NarrowingKeepsAnswers` | src/core/pipeline.rs:796-802 | steps only narrowed from Both without loss: exactly the same answers |
| `Enrich.WithFilterContextReturns` | src/dsl/enrich.rs:37-93 | appends the fields worth showing behind the query's own items, or returns it unchanged |
| `Enrich.EnrichedIs` | src/dsl/enrich.rs:37-93 | aggregates, distinct queries and those without items or filters stay; otherwise exactly the fields of untyped filters on a property, not a hidden one, of an entity some item shows are added, each once |
| `Enrich.EnrichingIsIdempotent` | src/dsl/enrich.rs:20-36 | aggregates and distinct queries are left alone and a second pass adds nothing |
| `Subgraph.InjectNodeIdReturns` | src/explore/subgraph.rs:66-105 | appends the id column of every node alias that has none, nothing for aggregates |
| `Subgraph.InjectedAre` | src/explore/subgraph.rs:66-105 | exactly one item `alias.id` named `__id_alias` for each start or target alias no item is named so for |
| `Subgraph.InjectionIsIdempotent` | src/explore/subgraph.rs:66-105 | afterwards every node alias has its id column and a second injection adds nothing |
| `Subgraph.VisibleTable` | src/explore/subgraph.rs:308-379 | the header without hidden columns, hidden cells stripped, the first row of each visible part kept when distinct, entity links index-aligned, cut at the cap |
| `Subgraph.EntitiesAre` | src/explore/subgraph.rs:107-121 | the links of a row are the aliases whose id column holds a number or a text that is not empty |
| `Subgraph.KeptAre` | src/explore/subgraph.rs:342-352 | the rows kept are raw rows and show every visible part, exactly once when distinct |
| `Subgraph.InjectionKeepsTheTable` | src/explore/subgraph.rs:15-379 | inject, run, strip and deduplicate an unlimited distinct query: exactly its own visible rows, each once |
| `Subgraph.CollectIds` | src/explore/subgraph.rs:227-246 | every id once up to the limit, truncated exactly when there are more |
| `Insert.BuildInsert` | src/builder/insert.rs:29-40 | all batches rendered, nodes before relations, exactly when every one is valid; an error names something wrong |
| `Insert.RenderNodeBatch` | src/builder/insert.rs:42-121 | refuses empty batches, bad identifiers and null ids, and renders the merge pattern with its suffix labels |
| `Insert.RenderRelationBatch` | src/builder/insert.rs:123-165 | refuses empty batches and bad identifiers, and renders both end patterns |
| `Insert.CheckIdents` | src/builder/insert.rs:170-179 | refuses a set of names exactly if one is outside the identifier grammar, and names one |
| `Insert.CheckIdent` | src/builder/insert.rs:170-179 | accepts exactly a letter or underscore followed by letters, digits and underscores |
| `Merge.ClosedForm` | src/builder/insert.rs:68-75 | a run of rows in closed form: each node as it started, overlaid by the rows about it, plus one node per unmatched row |
| `InsertMeaning.NodesPresent` | src/builder/insert.rs:67-75 | after an insert every node row has a node with the batch's labels and the row's id under the merge key, which the row counts for |
| `InsertMeaning.OriginOf` | src/builder/insert.rs:67-75 | every node was there before or was made by a row that fitted no node before it |
| `InsertMeaning.LabelsComeFrom` | src/builder/insert.rs:67-102 | a node has the labels it had or was made with and the scope labels of the rows about it, and no others |
| `InsertMeaning.PropertyComesFrom` | src/builder/insert.rs:67-75 | each property is what the last row about the node writes, else what the node had or was made with |
| `MergeTwice.SettlingDecides` | src/builder/insert.rs:68-75 | a crash at any row of any graph can be followed by a full run if and only if the rows settle |
| `MergeTwice.CrashAgrees` | src/builder/insert.rs:68-75 | crash at a row and full run give the nodes of a clean run exactly if every node there at the crash is left alone by the rows before its birth |
| `InsertMeaning.RelationsPresent` | src/builder/insert.rs:145-153 | every relation row whose ends are ids of node rows with those labels and keys is a relationship from a node known by its from id to one known by its to id |
| `InsertMeaning.RelationsAre` | src/builder/insert.rs:145-153 | a relationship is there afterwards if and only if it was before or a row is about its two nodes |
| `InsertMeaning.RelationPropertyComesFrom` | src/builder/insert.rs:145-153 | each of its properties is what the last row about the pair writes, else what it had |
| `MergeRels.RelsTwice` | src/builder/insert.rs:145-153 | running relation rows again changes no relationship |
| `Ingest.RunIngest` | src/core/pipeline.rs:1300-1326 | an invalid query writes nothing; otherwise exactly a prefix of the statements took effect, all of them on success |
| `Rerun.RunIsTwoPhases` | src/core/pipeline.rs:1256-1261 | a run is all node rows, then all relation rows over the finished nodes |
| `Rerun.RunTwice` | src/core/pipeline.rs:1256-1326 | running settled statements twice leaves what running them once leaves |
| `Rerun.CrashThenRerun` | src/core/pipeline.rs:1256-1326 | a crash after any statement and a full re-run of settled rows end where one clean run ends |
| `Rerun.RerunDecides` | src/core/pipeline.rs:1256-1326 | any crash on any graph can be re-run if and only if the rows settle |
| `RerunExamples.OnlyNestedLabelsUnsettle` | src/builder/insert.rs:68-75 | unsettled rows have one with strictly fewer labels before one with the same merge key and id |
| `RerunExamples.NestedLabelsUnsettle` | src/builder/insert.rs:68-75 | such a pair is unsettled as soon as the earlier row alone writes a property to the later one's own node |
| `RerunExamples.OverwrittenKeyIsNotIdempotent` | src/builder/insert.rs:68-75 | a list of one row that overwrites or removes its own merge key makes a second node when run again from an empty graph |
| `SideEffects.EmbedWithProgress` | src/core/pipeline.rs:1656-1701 | succeeds exactly if every chunk's call returns one vector per text, and then with each text's own |
| `SideEffects.GroupEffects` | src/core/pipeline.rs:1529-1563 | single and multivector groups hold their effects in queue order with the vectors of their own spans |
| `SideEffects.InsertGroup` | src/core/pipeline.rs:1590-1615 | one group in chunks of the batch size, whole on success and a prefix on failure |
| `Conservation.DrainSideEffects` | src/core/pipeline.rs:1472-1653 | succeeds exactly if every embedding call does and the store takes the announced number of batches; groups inserted whole in rounded-up many batches, single ones first, each effect once with the vector of its text or of each of its texts |
| `Conservation.DrainConserves` | src/core/pipeline.rs:1472-1653 | every effect is in exactly one batch with its own vectors, and rows inserted is the queue length |
| `Conservation.OwnVectors` | src/core/pipeline.rs:1497-1513 | with a text-by-text embedder a single effect carries the vector of its text and a multivector effect one for each of its texts, in order |
| `Conservation.OverlongTextIsCaught` | src/core/pipeline.rs:1680-1690 | behind the llama embedder every call succeeds exactly if no text exceeds the context; vectors never shift |
| `Conservation.DrainThroughLlama` | src/core/pipeline.rs:1472-1653 | the drain behind it succeeds exactly if no text exceeds the context and the store takes as many inserts as announced, with every effect in one batch with its own vectors |
| `DeleteBySource.Backend.Delete` | src/core/pipeline.rs:1380-1429 | reports not found exactly if no source of the name is mentioned by nothing or by something alone; otherwise a prefix of sweep and delete took effect on exactly the source, its orphans and its chunks, which the summary counts |
| `DeleteBySource.OrphansAre` | src/ingest/delete.rs:157-181 | the orphans discovered are exactly the entities that mention this source and no other of the prefix |
| `DeleteBySource.ChunksAre` | src/ingest/delete.rs:166-168 | the chunks discovered are exactly the nodes with the chunk label, and the prefix label if any, that are part of this source |
| `DeleteBySource.AfterIsLeft` | src/core/pipeline.rs:1399-1419 | after each step exactly the vectors, then exactly the nodes and edges of what goes are gone |
| `DeleteBySource.FoundExactlyWhen` | src/ingest/delete.rs:143-181 | a source is found if and only if nothing mentions it or something mentions it alone |
| `DeleteBySource.NeverStray` | src/core/pipeline.rs:1372-1419 | no crash leaves a vector whose node is gone |
| `DeleteBySource.NothingElseGoes` | src/core/pipeline.rs:1399-1419 | exactly the source, its orphans and its chunks go; everything else, chunks of other sources too, keeps data, vectors and edges |
| `DeleteBySource.SharedSurvives` | src/ingest/delete.rs:143-181 | an entity another source mentions survives with its vectors wherever the run stops |
| `DeleteBySource.CrashThenRerun` | src/core/pipeline.rs:1370-1429 | crash, then a full run for the name: the same sources can be taken, and the end is one clean run's exactly if nothing was swept that the source taken keeps |
| `DeleteBySource.FinishedIsFinal` | src/core/pipeline.rs:1395-1397 | after a finished run of a uniquely named source a re-run finds nothing |
| `DeleteBySource.SharedSourceIsNotFound` | src/ingest/delete.rs:157-181 | two sources sharing their only entity: neither is ever found |
| `Batching.SplitIntoBatches` | src/embeddings/llama.rs:96-138 | order kept, nothing lost, no empty batch, limits kept or a prompt alone, and no such split has fewer batches |
| `Batching.StaysAhead` | src/embeddings/llama.rs:96-138 | a split whose batches could not have taken the next prompt needs no more batches than any other |
| `ModelCalls.EmbedLocked` | src/embeddings/llama.rs:207-320 | the vectors of every text in order, each call within the context's token and sequence limits |
| `ModelCalls.EmbedBatch` | src/embeddings/llama.rs:280-317 | one batch packed, flushed and chunked yields its texts' vectors behind those before it |
| `ModelCalls.OneVectorPerText` | src/embeddings/llama.rs:284-301 | one vector per text if and only if no text is longer than the context; more otherwise |
| `ModelCalls.RerankLocked` | src/embeddings/llama.rs:140-205 | one score per document in order, of the document or of the start of it that fits, every call within its limits |
| `PointIds.KeyIs` | src/embeddings/store.rs:301-312 | the key of each kind of passage, part by part |
| `PointIds.SharedExactlyWhen` | src/embeddings/store.rs:301-312 | a passage shares its id with a different one under one model and dimension if and only if its bars make its body ambiguous for its kind |
| `PointIds.SwitchNeverReuses` | src/embeddings/store.rs:297-312 | with plain model names equal ids mean the same model and dimension |
| `PointIds.MeetExactlyWhen` | src/embeddings/store.rs:297-312 | two models or dimensions share an id if and only if one model's name spells out the other with its dimension and a kind |
| `Indexing.MemoryStore.Missing` | src/embeddings/store.rs:425-433 | exactly the asked ids that are not stored |
| `Indexing.MemoryStore.Upsert` | src/embeddings/store.rs:435-446 | the points go into their collection, other collections stay |
| `Indexing.EnsureIndexed` | src/embeddings/store.rs:339-399 | whole chunks of the backlog are stored, all of them on success, a prefix on failure, and the calls made are exactly theirs; a success stores each missing passage with the vector of the text, and the payload, of the first passage with its id |
| `Indexing.BacklogIsFresh` | src/embeddings/store.rs:363-372 | the backlog holds each missing id once, with id, payload and text of the first passage that has it, and nothing stored |
| `IndexRuns.StoredForever` | src/embeddings/store.rs:323-338 | over any history of models no point is lost or overwritten and what a successful call indexed stays |
| `IndexRuns.EmbeddedOnce` | src/embeddings/store.rs:318-338 | an id stored by one run is in no later run's backlog, whatever their models |
| `IndexRuns.SwitchesNeverMix` | src/embeddings/store.rs:297-312 | over models that do not meet, a point found indexed was asked for by an earlier run of the same model and dimension |
| `IndexRuns.MeetingMixes` | src/embeddings/store.rs:297-312 | over two that meet, a run can find its passage indexed with the other one's vector |
| `IndexRuns.CallsAreSmall` | src/embeddings/store.rs:314-322 | every embedder call carries between one and sixteen texts |
| `IndexRuns.RetryDoesTheRest` | src/embeddings/store.rs:329-338 | a retry's backlog is exactly what the failed call had not stored |
| `TraversalMerges.TraversalMerge.Extend` | src/core/pipeline.rs:1734-1794 | after any rows: order lists the chunks once by first appearance, and each hit is what its own rows amount to |
| `TraversalMerges.MergeRow` | src/core/pipeline.rs:1749-1791 | one row credits its channel at most once, fills missing fields and adds an entity once |
| `Scores.ScoreIsSum` | src/core/pipeline.rs:1703-1708 | a score is the first contribution of each entity id in any order, the first of the chunk channel, and every row naming neither |
| `Scores.HitScoreIsSum` | src/core/pipeline.rs:1703-1794 | so is the score of every merged hit, over the rows of its own chunk |
| `Scores.RefeedChangesNothing` | src/core/pipeline.rs:1725-1729 | feeding credited rows again changes no score and adds no chunk |
| `Scores.FedIsCredited` | src/core/pipeline.rs:1725-1729 | every chunk row and every entity row with an id counts as credited once fed |
| `Traversal.TakeTop` | src/core/pipeline.rs:1798-1813 | the first `limit` chunks by score, ties by appearance; nothing left out beats a chunk returned |
| `Traversal.TopIsUnique` | src/core/pipeline.rs:1796-1813 | there is only one such list |
| `Traversal.RerankPool` | src/core/pipeline.rs:1045-1064 | the first `limit` of the pool at or above the threshold by rerank score, then score, then appearance |
| `Traversal.RunRanking` | src/core/pipeline.rs:1000-1075 | pool of at least fifty when reranking, the errors of a missing, failing or miscounting reranker, and the answer |
| `Traversal.OutcomesAre` | src/core/pipeline.rs:1004-1030 | a missing reranker is an error exactly if a rerank is asked for; an answer is not reranked exactly if none is wanted or nothing was found |
| `Traversal.PlainAnswer` | src/core/pipeline.rs:1004-1014 | without a rerank the best `limit` chunks by score and then by appearance, none left out while there is room |
| `Traversal.RerankedIs` | src/core/pipeline.rs:1004-1067 | the pool is the best fifty chunks or more, each hit a candidate with the reranker's score for its text at the threshold or above, a hit beats those behind it, and none is left out but behind `limit` that beat it |
| `Sorting.StableSort` | src/core/pipeline.rs:1803-1808 | a permutation in order, ties in their given relation: what the library sort guarantees |
| `Calendar.DaysCount` | src/explore/timeline.rs:139-147 | the formula of the n-th day counted one at a time from 1970-01-01 is n, for every integer |
| `Calendar.EveryDateCounted` | src/explore/timeline.rs:139-147 | every valid date of every year is the one counted at its number |
| `Calendar.DaysOrder` | src/explore/timeline.rs:139-147 | the formula is strictly increasing over valid dates |
| `Calendar.CivilInverse` | src/types/handlers/core.rs:608-629 | converting a valid date to days and back gives the date |
| `Calendar.CivilCounts` | src/types/handlers/core.rs:608-629 | the conversion from days is the counting itself |
| `Timeline.ParseFormat` | src/explore/timeline.rs:77-135 | parsing a formatted instant of the years 0 to 9999 gives the same second |
| `Timeline.DateTextIs` | src/explore/timeline.rs:77-84 | a date is written year, month, day, digit by digit |
| `Timeline.DatesExactly` | src/explore/timeline.rs:94-112 | the date part is accepted exactly if it is the text of a date with month up to 12 and day up to 31 |
| `Timeline.TimesExactly` | src/explore/timeline.rs:123-135 | a time is accepted exactly if hours, minutes and perhaps seconds in range stand before the zone and fraction |
| `Timeline.InstantsExactly` | src/explore/timeline.rs:86-119 | a text is accepted as a second exactly if, outer blanks aside, it is such a date alone or with a `T` or blank and such a time of that second |
| `Timeline.AcceptedDates` | src/explore/timeline.rs:89-119 | every shaped date with a day up to 31 is accepted; it formats back unchanged exactly if it exists |
| `Timeline.SortEvents` | src/explore/timeline.rs:32-39 | dated events by instant, undated behind them by text, ties as extracted |

## Left out

- Typed filters and their handlers: what they contribute to ORDER BY is a parameter; their WHERE, pre-match and post-match texts and `fresh_var_id` are not modelled.
- `SourcesStage.CarryNames`: the order of the carried edge aliases is not fixed (the code sorts them); grouping does not depend on it.
- RETURN items other than their columns: date-part expressions, aggregation itself and the values RETURN computes.
- `SourcesMeaning.StageExact`: collected sources are a set, because the order inside a collected list is not defined.
- Text is ASCII: Unicode case folding, trimming and byte-level slicing are not modelled; identifiers and ids are compared as character sequences.
- Scores and vectors are reals, so NaN, infinities and rounding of 64-bit floats are not modelled; counters are unbounded integers.
- `ReturnPart.NullsLast`: values of a sort key are ranked by reals; how values of different types compare among themselves is not modelled.
- `WherePart.WriteExpr`: the arm for typed filters, with the handler's own text, is not modelled.
- `DeferralDecision.DeferralDecides`: filters that compare a bare alias are outside; whether their deferral shows depends on which
  optional traversals the required ones imply.
- `ScopeDecision.ScopeDecides`: queries with a deferred filter are outside; `DeferralDecision.DeferralDecides` treats those in scope.
- `Subgraph.VisibleTable`: the order of a header taken from the first row's names (sorted in the code) is not fixed.
- `Merge.ClosedForm`: a merge pattern compares stored values as Cypher equality does; between two nodes there is at most one relationship of a type, so parallel ones already in the graph are one entry.
- `Insert.BuildInsert`: which of several faults is reported first inside a batch's property names is not fixed.
- `Conservation.DrainSideEffects`: the order of groups (sorted in the code) is not fixed; embedder and insert failures stop the drain where they happen.
- `DeleteBySource.Backend.Discover`: when several sources share a name the row used is any of them; the counts of swept collections are not modelled.
- `Subgraph.InjectionKeepsTheTable`: with a limit the table can show fewer rows than the query as written, as the source's own comment says.
- `Subgraph.CollectIds`: the order of ids inside a row is not fixed; hydrating nodes and edges is left out.
- `PointIds.SharedExactlyWhen`: the hash of a key is taken to be the key, so hash collisions are not modelled.
- `Indexing.EnsureIndexed`: store transport errors are not modelled; search, listing and deletion in the store would only add easy members.
- Vector retrieval, the graph traversal query and the bucket that keeps a node's best score before merging.
- Planner, soft-merge, grounding, introspection, ontology catalog, command line, renderers, configuration and all network code.
