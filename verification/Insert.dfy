/** Compiling insert batches into MERGE statements (src/builder/insert.rs). */
module Insert {
  import opened Common
  import opened Ast

  datatype NodeRow = NodeRow(id: Literal, props: map<string, Literal>)

  datatype NodeBatch = NodeBatch(
    nodeLabel: string,
    mergeOn: string,
    prefixLabel: Option<string>,
    domainLabel: Option<string>,
    scopeLabels: seq<string>,
    rows: seq<NodeRow>)

  datatype RelationRow = RelationRow(fromId: Literal, toId: Literal, props: map<string, Literal>)

  datatype RelationBatch = RelationBatch(
    relType: string,
    fromLabel: string,
    fromKey: string,
    toLabel: string,
    toKey: string,
    prefixLabel: Option<string>,
    domainLabel: Option<string>,
    rows: seq<RelationRow>)

  datatype InsertQuery = InsertQuery(nodeBatches: seq<NodeBatch>, relationBatches: seq<RelationBatch>)

  datatype InsertError = InvalidIdentifier(ident: string) | MissingId(nodeLabel: string) | EmptyBatch(name: string)

  /** `(n:labels {key: row.id})`. */
  datatype Pattern = Pattern(labels: set<string>, key: string)

  /** One `UNWIND $rows` statement. */
  datatype Statement =
    | MergeNodes(pattern: Pattern, scopes: set<string>, nodeRows: seq<NodeRow>)
    | MergeRels(relType: string, from: Pattern, to: Pattern, relRows: seq<RelationRow>)

  function Suffix(prefix: Option<string>, domain: Option<string>): set<string> {
    (if prefix.Some? && prefix.value != "" then {prefix.value} else {})
    + (if domain.Some? && domain.value != "" then {domain.value} else {})
  }

  predicate AllIdents(names: set<string>) {
    forall n :: n in names ==> PlainIdent(n)
  }

  predicate ValidNodeBatch(b: NodeBatch) {
    && b.rows != []
    && AllIdents({b.nodeLabel, b.mergeOn} + Suffix(b.prefixLabel, b.domainLabel) + Elements(b.scopeLabels))
    && forall i :: 0 <= i < |b.rows| ==> b.rows[i].id != Null && AllIdents(b.rows[i].props.Keys)
  }

  predicate ValidRelationBatch(b: RelationBatch) {
    && b.rows != []
    && AllIdents({b.relType, b.fromLabel, b.toLabel, b.fromKey, b.toKey} + Suffix(b.prefixLabel, b.domainLabel))
    && forall i :: 0 <= i < |b.rows| ==> AllIdents(b.rows[i].props.Keys)
  }

  function NodeStatement(b: NodeBatch): Statement {
    MergeNodes(Pattern({b.nodeLabel} + Suffix(b.prefixLabel, b.domainLabel), b.mergeOn), Elements(b.scopeLabels),
               b.rows)
  }

  function RelationStatement(b: RelationBatch): Statement {
    var suffix := Suffix(b.prefixLabel, b.domainLabel);
    MergeRels(b.relType, Pattern({b.fromLabel} + suffix, b.fromKey), Pattern({b.toLabel} + suffix, b.toKey), b.rows)
  }

  /** Every node batch before every relation batch. */
  function Statements(q: InsertQuery): seq<Statement> {
    seq(|q.nodeBatches|, i requires 0 <= i < |q.nodeBatches| => NodeStatement(q.nodeBatches[i]))
    + seq(|q.relationBatches|, i requires 0 <= i < |q.relationBatches| => RelationStatement(q.relationBatches[i]))
  }

  predicate ValidQuery(q: InsertQuery) {
    && (forall i :: 0 <= i < |q.nodeBatches| ==> ValidNodeBatch(q.nodeBatches[i]))
    && (forall i :: 0 <= i < |q.relationBatches| ==> ValidRelationBatch(q.relationBatches[i]))
  }

  /** The error names something that is wrong in the query. */
  predicate Explains(e: InsertError, q: InsertQuery) {
    match e
    case InvalidIdentifier(s) => !PlainIdent(s)
    case MissingId(l) =>
      exists i, j :: 0 <= i < |q.nodeBatches| && 0 <= j < |q.nodeBatches[i].rows|
                     && q.nodeBatches[i].nodeLabel == l && q.nodeBatches[i].rows[j].id == Null
    case EmptyBatch(n) =>
      || (exists i :: 0 <= i < |q.nodeBatches| && q.nodeBatches[i].nodeLabel == n && q.nodeBatches[i].rows == [])
      || (exists i ::
            0 <= i < |q.relationBatches| && q.relationBatches[i].relType == n && q.relationBatches[i].rows == [])
  }

  /** Every batch is rendered before anything runs; one bad batch refuses the whole query. */
  method BuildInsert(q: InsertQuery) returns (r: Result<seq<Statement>, InsertError>)
    ensures r.Ok? <==> ValidQuery(q)
    ensures r.Ok? ==> r.value == Statements(q)
    ensures r.Err? ==> Explains(r.error, q)
  {
    hide ValidNodeBatch, ValidRelationBatch, NodeStatement, RelationStatement;
    var out: seq<Statement> := [];
    for i := 0 to |q.nodeBatches|
      invariant |out| == i
      invariant forall k :: 0 <= k < i ==> ValidNodeBatch(q.nodeBatches[k]) && out[k] == NodeStatement(q.nodeBatches[k])
    {
      var s := RenderNodeBatch(q.nodeBatches[i]);
      if s.Err? {
        return Err(s.error);
      }
      out := out + [s.value];
    }
    ghost var n := |q.nodeBatches|;
    for i := 0 to |q.relationBatches|
      invariant |out| == n + i
      invariant forall k :: 0 <= k < n ==> out[k] == NodeStatement(q.nodeBatches[k])
      invariant forall k :: 0 <= k < i ==> ValidRelationBatch(q.relationBatches[k])
      invariant forall k :: n <= k < n + i ==> out[k] == RelationStatement(q.relationBatches[k - n])
    {
      var s := RenderRelationBatch(q.relationBatches[i]);
      if s.Err? {
        return Err(s.error);
      }
      out := out + [s.value];
    }
    assert out == Statements(q);
    r := Ok(out);
  }

  /** `check_ident`: a letter or underscore, then letters, digits and underscores. */
  method CheckIdent(s: string) returns (ok: bool)
    ensures ok <==> PlainIdent(s)
  {
    if s == "" || !(s[0] == '_' || 'a' <= s[0] <= 'z' || 'A' <= s[0] <= 'Z') {
      return false;
    }
    for i := 1 to |s|
      invariant PlainIdent(s[..i])
    {
      var c := s[i];
      if !(c == '_' || 'a' <= c <= 'z' || 'A' <= c <= 'Z' || '0' <= c <= '9') {
        return false;
      }
    }
    assert s[..|s|] == s;
    ok := true;
  }

  /** `check_ident` over several names, in some order. */
  method CheckIdents(names: set<string>) returns (bad: Option<string>)
    ensures bad.None? <==> AllIdents(names)
    ensures bad.Some? ==> !PlainIdent(bad.value)
  {
    var left := names;
    while left != {}
      invariant left <= names && AllIdents(names - left)
      decreases |left|
    {
      var n :| n in left;
      var ok := CheckIdent(n);
      if !ok {
        return Some(n);
      }
      left := left - {n};
    }
    bad := None;
  }

  method RenderNodeBatch(b: NodeBatch) returns (r: Result<Statement, InsertError>)
    ensures r.Ok? <==> ValidNodeBatch(b)
    ensures r.Ok? ==> r.value == NodeStatement(b)
    ensures r.Err? ==> match r.error
                       case InvalidIdentifier(s) => !PlainIdent(s)
                       case EmptyBatch(n) => n == b.nodeLabel && b.rows == []
                       case MissingId(l) => l == b.nodeLabel && exists i :: 0 <= i < |b.rows| && b.rows[i].id == Null
  {
    hide PlainIdent;
    if b.rows == [] {
      return Err(EmptyBatch(b.nodeLabel));
    }
    var bad := CheckIdents({b.nodeLabel, b.mergeOn} + Suffix(b.prefixLabel, b.domainLabel) + Elements(b.scopeLabels));
    if bad.Some? {
      return Err(InvalidIdentifier(bad.value));
    }
    for i := 0 to |b.rows|
      invariant forall k :: 0 <= k < i ==> b.rows[k].id != Null && AllIdents(b.rows[k].props.Keys)
    {
      if b.rows[i].id == Null {
        return Err(MissingId(b.nodeLabel));
      }
      var badKey := CheckIdents(b.rows[i].props.Keys);
      if badKey.Some? {
        return Err(InvalidIdentifier(badKey.value));
      }
    }
    r := Ok(NodeStatement(b));
  }

  method RenderRelationBatch(b: RelationBatch) returns (r: Result<Statement, InsertError>)
    ensures r.Ok? <==> ValidRelationBatch(b)
    ensures r.Ok? ==> r.value == RelationStatement(b)
    ensures r.Err? ==> match r.error
                       case InvalidIdentifier(s) => !PlainIdent(s)
                       case EmptyBatch(n) => n == b.relType && b.rows == []
                       case MissingId(_) => false
  {
    hide PlainIdent;
    if b.rows == [] {
      return Err(EmptyBatch(b.relType));
    }
    var bad := CheckIdents({b.relType, b.fromLabel, b.toLabel, b.fromKey, b.toKey} +
                           Suffix(b.prefixLabel, b.domainLabel));
    if bad.Some? {
      return Err(InvalidIdentifier(bad.value));
    }
    for i := 0 to |b.rows|
      invariant forall k :: 0 <= k < i ==> AllIdents(b.rows[k].props.Keys)
    {
      var badKey := CheckIdents(b.rows[i].props.Keys);
      if badKey.Some? {
        return Err(InvalidIdentifier(badKey.value));
      }
    }
    r := Ok(RelationStatement(b));
  }
}
