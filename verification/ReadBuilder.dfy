/**
 `build_read_with` from MATCH to LIMIT (src/builder/cypher.rs): the text, its parameters, and the column list the
 caller is told to expect.
 */
module ReadBuilder {
  import opened Common
  import opened Builtins
  import opened Ast
  import opened Cypher
  import opened Cursors
  import opened Semantics
  import opened Reference
  import opened ReadCompiler
  import opened SourcesStage
  import opened ReturnPart

  const SOURCES_COLUMN := "sources"
  const SCORE_COLUMN := "score"

  /** What kind of node a column's values belong to (src/db/result.rs). */
  datatype NodeType = EntityType | ChunkType | SourceType

  datatype Column = Column(name: string, nodeType: Option<NodeType>)

  datatype CypherQuery = CypherQuery(text: seq<Token>, params: map<string, Literal>, columns: seq<Column>)

  function FromLabel(nodeLabel: string): NodeType {
    if nodeLabel == SOURCE_LABEL then SourceType else if nodeLabel == CHUNK_LABEL then ChunkType else EntityType
  }

  /** The label of the node each alias is bound to, the last target of a name winning. */
  function NodeLabels(q: ReadQuery, k: nat): map<string, string>
    requires k <= |q.traversals|
  {
    if k == 0 then map[q.start.alias := q.start.nodeLabel]
    else NodeLabels(q, k - 1)[q.traversals[k - 1].target.alias := q.traversals[k - 1].target.nodeLabel]
  }

  /** Fields and group keys of a bound node are typed by its label, aggregates are not. */
  function ColumnType(q: ReadQuery, c: ReturnClause): Option<NodeType> {
    var labels := NodeLabels(q, |q.traversals|);
    if c.Aggregated? || c.field.alias !in labels then None else Some(FromLabel(labels[c.field.alias]))
  }

  function FunctionName(f: AggregateFn): string {
    match f
    case Count => "count"
    case Sum => "sum"
    case Avg => "avg"
    case Min => "min"
    case Max => "max"
    case Collect => "collect"
  }

  /** The name the database gives the column a RETURN item makes. */
  function ColumnOf(c: ReturnClause): string {
    match c
    case Field(p, name) => (match name case Some(n) => n case None => PropertyText(p))
    case GroupKey(_, column) => column
    case Aggregated(p, func, name) =>
      match name
      case Some(n) => n
      case None => FunctionName(func) + "(" + (if func == Count then p.alias else PropertyText(p)) + ")"
  }

  predicate AliasedAlready(q: ReadQuery, column: string) {
    exists i :: 0 <= i < |q.projection| && match q.projection[i]
                                           case Field(_, name) => name == Some(column)
                                           case Aggregated(_, _, name) => name == Some(column)
                                           case GroupKey(_, c) => c == column
  }

  predicate InjectsSources(q: ReadQuery) {
    q.action == Find && !AliasedAlready(q, SOURCES_COLUMN)
  }

  /** The contributed keys that are plain names, each once: the terms of the `score` column. */
  function ScoreTerms(extras: seq<(string, SortOrder)>): (terms: seq<string>)
    ensures NoDup(terms) && forall key :: key in terms <==> IsPlainKey(extras, key)
  {
    if extras == [] then []
    else
      var init, key := ScoreTerms(extras[..|extras| - 1]), extras[|extras| - 1].0;
      assert forall a :: IsPlainKey(extras, a) <==>
               IsPlainKey(extras[..|extras| - 1], a) || (a == key && PlainIdent(a)) by {
        assert extras[..|extras| - 1 + 1] == extras;
        PlainKeysGrow(extras, |extras| - 1);
      }
      if PlainIdent(key) && key !in init then init + [key] else init
  }

  /** The score terms RETURN adds up, none when there is no such column. */
  function ScoreReturned(q: ReadQuery, extras: seq<(string, SortOrder)>): seq<string> {
    if q.action == Find && !AliasedAlready(q, SCORE_COLUMN) then ScoreTerms(extras) else []
  }

  function ReturnToken(q: ReadQuery, extras: seq<(string, SortOrder)>): Token {
    ReturnTok(q.distinct, q.projection, ScoreReturned(q, extras), InjectsSources(q))
  }

  /** Handler keys are dropped for aggregates. */
  function SortExtras(q: ReadQuery, extras: seq<(string, SortOrder)>): seq<(string, SortOrder)> {
    if q.action == Aggregate then [] else extras
  }

  function TailText(q: ReadQuery, extras: seq<(string, SortOrder)>): seq<Token> {
    [ReturnToken(q, extras)] + OrderText(q.sort, SortExtras(q, extras))
    + (match q.limit case Some(n) => [LimitTok(n)] case None => [])
  }

  /** The whole text, for some order of the carried edge aliases. */
  ghost predicate IsReadText(q: ReadQuery, extras: seq<(string, SortOrder)>, text: seq<Token>) {
    if InjectsSources(q) then
      exists carry :: IsCarry(q, extras, carry)
        && text == BindingText(q) + StageText(NodeAliases(q, |q.traversals|), carry) + TailText(q, extras)
    else text == BindingText(q) + TailText(q, extras)
  }

  /** The columns a RETURN token makes, in order. */
  function ReturnedColumns(t: Token): seq<string>
    requires t.ReturnTok?
  {
    seq(|t.columns|, i requires 0 <= i < |t.columns| => ColumnOf(t.columns[i]))
    + (if t.score != [] then [SCORE_COLUMN] else []) + (if t.sources then [SOURCES_COLUMN] else [])
  }

  function Columns(q: ReadQuery, k: nat): seq<Column>
    requires k <= |q.projection|
  {
    seq(k, i requires 0 <= i < k => Column(ColumnOf(q.projection[i]), ColumnType(q, q.projection[i])))
  }

  function ColumnNames(columns: seq<Column>): seq<string> {
    seq(|columns|, i requires 0 <= i < |columns| => columns[i].name)
  }

  method CollectNodeLabels(q: ReadQuery) returns (labels: map<string, string>)
    ensures labels == NodeLabels(q, |q.traversals|)
  {
    labels := map[q.start.alias := q.start.nodeLabel];
    for i := 0 to |q.traversals|
      invariant labels == NodeLabels(q, i)
    {
      labels := labels[q.traversals[i].target.alias := q.traversals[i].target.nodeLabel];
    }
  }

  /** `projected_columns`. */
  method ProjectedColumns(q: ReadQuery, injectSources: bool, injectScore: bool) returns (cols: seq<Column>)
    ensures cols == Columns(q, |q.projection|)
      + (if q.action == Find && injectScore && !AliasedAlready(q, SCORE_COLUMN) then [Column(SCORE_COLUMN, None)]
         else [])
      + (if q.action == Find && injectSources then [Column(SOURCES_COLUMN, None)] else [])
  {
    hide NodeLabels;
    var labels := CollectNodeLabels(q);
    cols := [];
    for i := 0 to |q.projection|
      invariant cols == Columns(q, i)
    {
      var c := q.projection[i];
      var nodeType := if c.Aggregated? || c.field.alias !in labels then None
      else Some(FromLabel(labels[c.field.alias]));
      cols := cols + [Column(ColumnOf(c), nodeType)];
    }
    if q.action == Find {
      if injectScore && !AliasedAlready(q, SCORE_COLUMN) {
        cols := cols + [Column(SCORE_COLUMN, None)];
      }
      if injectSources {
        cols := cols + [Column(SOURCES_COLUMN, None)];
      }
    }
  }

  lemma {:induction false} LabelsOfNodes(g: Graph, q: ReadQuery, row: Row, k: nat, a: string)
    requires IsAnswer(g, q, row) && k <= |q.traversals| && a in NodeLabels(q, k)
    ensures a in row
    ensures row[a].NodeV? && NodeLabels(q, k)[a] != "" ==>
              row[a].id < |g.nodes| && NodeLabels(q, k)[a] in g.nodes[row[a].id].labels
  {
    hide Aliases, ChainsAreTrails, Passes, Walk, Far, NothingLinks;
    if k > 0 {
      var t := q.traversals[k - 1];
      assert if t.optional then OptionalHolds(g, t, row) else Holds(g, t, row);
      if a != t.target.alias {
        LabelsOfNodes(g, q, row, k - 1, a);
      }
    }
  }

  /** In every answer a column announced as one of a Source, or of a Chunk, belongs to such a node. */
  lemma TypesAreTrue(g: Graph, q: ReadQuery, row: Row, c: ReturnClause)
    requires IsAnswer(g, q, row) && ColumnType(q, c).Some?
    ensures c.field.alias in row
    ensures var v := row[c.field.alias];
            v.NodeV? && ColumnType(q, c) != Some(EntityType) ==>
              v.id < |g.nodes| && (if ColumnType(q, c) == Some(SourceType) then SOURCE_LABEL
                                   else CHUNK_LABEL) in g.nodes[v.id].labels
  {
    hide IsAnswer, NodeLabels;
    LabelsOfNodes(g, q, row, |q.traversals|, c.field.alias);
  }

  method CollectScoreTerms(cur: Cursor) returns (scores: seq<string>)
    ensures scores == ScoreTerms(cur.extraOrderBy)
    ensures NoDup(scores) && forall key :: key in scores <==> IsPlainKey(cur.extraOrderBy, key)
  {
    var extras := cur.extraOrderBy;
    scores := [];
    for i := 0 to |extras|
      invariant scores == ScoreTerms(extras[..i])
    {
      assert extras[..i + 1][..i] == extras[..i];
      var key := extras[i].0;
      if PlainIdent(key) && key !in scores {
        scores := scores + [key];
      }
    }
    assert extras[..|extras|] == extras;
  }

  method BuildRead(q: ReadQuery, contributed: seq<(string, SortOrder)>) returns (r: Result<CypherQuery, BuildError>)
    ensures q.projection == [] ==> r == Err(EmptyReturn)
    ensures q.projection != [] ==>
              r.Ok? && r.value.params == BindingParams(q) && IsReadText(q, contributed, r.value.text)
    ensures q.projection != [] ==> r.value.columns == Announced(q)
  {
    hide BindingText, BindingParams, IsCarry, StageText, OrderText, Columns, PlainIdent, AliasedAlready;
    var bound := BuildBindings(q, contributed);
    if bound.Err? {
      return Err(bound.error);
    }
    var cur := bound.value;
    ghost var written := cur.buf;
    var injectSources := InjectsSources(q);
    if injectSources {
      var carry := WriteSourcesStage(cur, q);
      written := BindingText(q) + StageText(NodeAliases(q, |q.traversals|), carry);
      assert cur.buf == written && IsCarry(q, contributed, carry);
    }
    var score := [];
    if q.action == Find && !AliasedAlready(q, SCORE_COLUMN) {
      score := CollectScoreTerms(cur);
    }
    cur.buf := cur.buf + [ReturnTok(q.distinct, q.projection, score, injectSources)];
    if q.action == Aggregate {
      cur.extraOrderBy := [];
    }
    WriteOrderBy(cur, q.sort);
    if q.limit.Some? {
      WriteLimit(cur, q.limit.value);
    }
    assert cur.buf == written + TailText(q, contributed);
    var scored := CollectScoreTerms(cur);
    var columns := ProjectedColumns(q, injectSources, scored != []);
    r := Ok(CypherQuery(cur.buf, cur.params, columns));
  }

  /** What the column list of a built query announces. */
  function Announced(q: ReadQuery): seq<Column> {
    Columns(q, |q.projection|) + (if InjectsSources(q) then [Column(SOURCES_COLUMN, None)] else [])
  }

  /**
   The column list agrees with RETURN except for `score`: it is computed after the sort keys were drained, so a
   query whose handlers contribute a plain-name key returns one column more than it announces.
   */
  lemma ColumnsMatchReturn(q: ReadQuery, extras: seq<(string, SortOrder)>)
    ensures ReturnedColumns(ReturnToken(q, extras)) == ColumnNames(Announced(q))
       <==> !(q.action == Find && !AliasedAlready(q, SCORE_COLUMN) && exists key :: IsPlainKey(extras, key))
  {
    hide IsPlainKey, InjectsSources, AliasedAlready;
    var t := ReturnToken(q, extras);
    if ScoreTerms(extras) != [] {
      assert ScoreTerms(extras)[0] in ScoreTerms(extras);
    }
    if t.score != [] {
      assert |ReturnedColumns(t)| == |ColumnNames(Announced(q))| + 1;
    }
  }

  // ---- the columns, spelled ----

  /** A RETURN item already makes a column of this name. */
  predicate Makes(q: ReadQuery, column: string) {
    || GroupsBy(q, column)
    || exists i :: 0 <= i < |q.projection| && !q.projection[i].GroupKey? && q.projection[i].name == Some(column)
  }

  predicate GroupsBy(q: ReadQuery, column: string) {
    exists i :: 0 <= i < |q.projection| && q.projection[i].GroupKey? && q.projection[i].column == column
  }

  /** The name of a column: the one given, else the property, the entity, or the aggregate of either. */
  ghost predicate IsColumnName(c: ReturnClause, column: string) {
    match c
    case Field(_, Some(name)) => column == name
    case Field(PropertyRef(alias, Some(prop)), None) => column == alias + "." + prop
    case Field(PropertyRef(alias, None), None) => column == alias
    case GroupKey(_, name) => column == name
    case Aggregated(_, _, Some(name)) => column == name
    case Aggregated(PropertyRef(alias, _), Count, None) => column == "count(" + alias + ")"
    case Aggregated(PropertyRef(alias, Some(prop)), f, None) => column == IsCall(f) + alias + "." + prop + ")"
    case Aggregated(PropertyRef(alias, None), f, None) => column == IsCall(f) + alias + ")"
  }

  function IsCall(f: AggregateFn): string {
    match f
    case Count => "count("
    case Sum => "sum("
    case Avg => "avg("
    case Min => "min("
    case Max => "max("
    case Collect => "collect("
  }

  /** `nodeLabel` is the label of the node bound to `alias` last. */
  ghost predicate LabelledAs(q: ReadQuery, k: nat, alias: string, nodeLabel: string)
    requires k <= |q.traversals|
  {
    || (alias == q.start.alias && nodeLabel == q.start.nodeLabel
        && forall j :: 0 <= j < k ==> q.traversals[j].target.alias != alias)
    || exists i :: 0 <= i < k && q.traversals[i].target.alias == alias && q.traversals[i].target.nodeLabel == nodeLabel
                   && forall j :: i < j < k ==> q.traversals[j].target.alias != alias
  }

  lemma {:induction false} LabelsAre(q: ReadQuery, k: nat, alias: string, nodeLabel: string)
    requires k <= |q.traversals|
    ensures alias in NodeLabels(q, k) && NodeLabels(q, k)[alias] == nodeLabel <==> LabelledAs(q, k, alias, nodeLabel)
  {
    if k > 0 {
      LabelsAre(q, k - 1, alias, nodeLabel);
      if q.traversals[k - 1].target.alias == alias {
        assert LabelledAs(q, k, alias, q.traversals[k - 1].target.nodeLabel);
      } else if i :| 0 <= i < k && q.traversals[i].target.alias == alias
                     && q.traversals[i].target.nodeLabel == nodeLabel
                     && forall j :: i < j < k ==> q.traversals[j].target.alias != alias {
        assert i < k - 1;
      }
    }
  }

  /** Column `i` is RETURN item `i`, typed by the label of the node it reads; `sources` follows for find queries. */
  lemma ColumnsAre(q: ReadQuery, i: nat, nodeLabel: string)
    requires i < |q.projection|
    ensures |Announced(q)| == |q.projection| + if q.action == Find && !Makes(q, "sources") then 1 else 0
    ensures |Announced(q)| > |q.projection| ==> Announced(q)[|q.projection|] == Column("sources", None)
    ensures var c, col := q.projection[i], Announced(q)[i];
            && IsColumnName(c, col.name) && (c.Aggregated? ==> col.nodeType == None)
            && (!c.Aggregated? && LabelledAs(q, |q.traversals|, c.field.alias, nodeLabel) ==>
                  col.nodeType == Some(if nodeLabel == "Source" then SourceType
                                       else if nodeLabel == "Chunk" then ChunkType else EntityType))
            && (!c.Aggregated? && (forall l :: !LabelledAs(q, |q.traversals|, c.field.alias, l)) ==>
                col.nodeType == None)
  {
    hide NodeLabels, LabelledAs;
    MakesIs(q, "sources");
    var alias := q.projection[i].field.alias;
    LabelsAre(q, |q.traversals|, alias, nodeLabel);
    if alias in NodeLabels(q, |q.traversals|) {
      LabelsAre(q, |q.traversals|, alias, NodeLabels(q, |q.traversals|)[alias]);
    }
    NameIs(q.projection[i]);
  }

  lemma NameIs(c: ReturnClause)
    ensures IsColumnName(c, ColumnOf(c))
  {
    if c.Aggregated? && c.name.None? && c.field.property.Some? {
      assert IsCall(c.func) + c.field.alias + "." + c.field.property.value + ")"
          == IsCall(c.func) + (c.field.alias + "." + c.field.property.value) + ")";
    }
    if c.Aggregated? {
      assert FunctionName(c.func) + "(" == IsCall(c.func);
    }
  }

  lemma MakesIs(q: ReadQuery, column: string)
    ensures AliasedAlready(q, column) <==> Makes(q, column)
  {
    if i :| 0 <= i < |q.projection| && q.projection[i].GroupKey? && q.projection[i].column == column {
      assert AliasedAlready(q, column);
    }
    if i :| 0 <= i < |q.projection| && !q.projection[i].GroupKey? && q.projection[i].name == Some(column) {
      assert AliasedAlready(q, column);
    }
  }

  /**
   RETURN: the items, the sum of the plain contributed keys as `score` and the collected sources as `sources`, the last
   two only for find queries and unless an item is already called so.
   */
  lemma ReturnIs(q: ReadQuery, extras: seq<(string, SortOrder)>, key: string)
    ensures var t := ReturnToken(q, extras);
            && t.ReturnTok? && t.distinct == q.distinct && t.columns == q.projection && NoDup(t.score)
            && (key in t.score <==>
                q.action == Find && !Makes(q, "score") && PlainIdent(key)
                && exists i :: 0 <= i < |extras| && extras[i].0 == key)
            && (t.sources <==> q.action == Find && !Makes(q, "sources"))
  {
    MakesIs(q, "sources");
    MakesIs(q, "score");
  }
}
