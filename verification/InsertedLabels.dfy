/**
 The labels inserts leave on nodes: one entity label of a batch, and beside it nothing but prefix, domain and scope
 labels. It is what direction correction needs to know of a graph besides its schema.
 */
module InsertedLabels {
  import opened Common
  import opened Semantics
  import opened Insert
  import opened Merge
  import opened Ingest
  import opened Dsl
  import opened Directions
  import opened DirectionMatches

  /** One of these entity labels, and beside it only side labels. */
  ghost predicate Typed(n: NodeData, types: set<string>, sides: set<string>) {
    exists t :: t in types && t in n.labels && n.labels <= {t} + sides
  }

  ghost predicate AllTyped(nodes: seq<NodeData>, types: set<string>, sides: set<string>) {
    forall i :: 0 <= i < |nodes| ==> Typed(nodes[i], types, sides)
  }

  /** The query's batches use these entity labels, and these prefix, domain and scope labels. */
  ghost predicate Uses(q: InsertQuery, types: set<string>, sides: set<string>) {
    forall i :: 0 <= i < |q.nodeBatches| ==>
      var b := q.nodeBatches[i];
      b.nodeLabel in types && Suffix(b.prefixLabel, b.domainLabel) + Elements(b.scopeLabels) <= sides
  }

  ghost predicate TypedOp(op: NodeOp, types: set<string>, sides: set<string>) {
    op.scopes <= sides && exists t :: t in types && t in op.pattern.labels && op.pattern.labels <= {t} + sides
  }

  lemma RowKeepsTypes(nodes: seq<NodeData>, op: NodeOp, types: set<string>, sides: set<string>)
    requires AllTyped(nodes, types, sides) && TypedOp(op, types, sides)
    ensures AllTyped(RunOp(nodes, op), types, sides)
  {
    hide Hits, SetProps;
    var merged := Created(nodes, op);
    forall i | 0 <= i < |merged| ensures Typed(RunOp(nodes, op)[i], types, sides) {
      assert Typed(merged[i], types, sides);
      var t :| t in types && t in merged[i].labels && merged[i].labels <= {t} + sides;
      assert t in SetNode(merged[i], op).labels && SetNode(merged[i], op).labels <= {t} + sides;
    }
  }

  lemma {:induction false} RowsKeepTypes(nodes: seq<NodeData>, ops: seq<NodeOp>, types: set<string>, sides: set<string>)
    requires AllTyped(nodes, types, sides) && forall i :: 0 <= i < |ops| ==> TypedOp(ops[i], types, sides)
    ensures AllTyped(RunOps(nodes, ops), types, sides)
    decreases |ops|
  {
    hide AllTyped, TypedOp, RunOp;
    if ops != [] {
      RowsKeepTypes(nodes, ops[..|ops| - 1], types, sides);
      RowKeepsTypes(RunOps(nodes, ops[..|ops| - 1]), ops[|ops| - 1], types, sides);
    }
  }

  lemma BatchIsTyped(b: NodeBatch, types: set<string>, sides: set<string>, i: nat)
    requires b.nodeLabel in types && Suffix(b.prefixLabel, b.domainLabel) + Elements(b.scopeLabels) <= sides
    requires i < |b.rows|
    ensures TypedOp(NodeOpsOf(NodeStatement(b))[i], types, sides)
  {
  }

  /** Whatever part of an insert took effect, every node keeps one entity label and only side labels beside it. */
  lemma {:induction false} InsertsKeepTypes(g: Store, q: InsertQuery, k: nat, types: set<string>, sides: set<string>)
    requires Uses(q, types, sides) && AllTyped(g.nodes, types, sides) && k <= |Statements(q)|
    ensures AllTyped(RunAll(g, Statements(q)[..k]).nodes, types, sides)
    decreases k
  {
    hide AllTyped, TypedOp, NodeStatement, RelationStatement, RunOps;
    if k > 0 {
      InsertsKeepTypes(g, q, k - 1, types, sides);
      var s := Statements(q)[k - 1];
      assert Statements(q)[..k][..k - 1] == Statements(q)[..k - 1];
      var before := RunAll(g, Statements(q)[..k - 1]);
      forall i | 0 <= i < |NodeOpsOf(s)| ensures TypedOp(NodeOpsOf(s)[i], types, sides) {
        StatementIsTyped(q, k - 1, types, sides, i);
      }
      RowsKeepTypes(before.nodes, NodeOpsOf(s), types, sides);
    }
  }

  lemma StatementIsTyped(q: InsertQuery, k: nat, types: set<string>, sides: set<string>, i: nat)
    requires Uses(q, types, sides) && k < |Statements(q)| && i < |NodeOpsOf(Statements(q)[k])|
    ensures TypedOp(NodeOpsOf(Statements(q)[k])[i], types, sides)
  {
    hide TypedOp, NodeStatement;
    assert k < |q.nodeBatches|;
    var b := q.nodeBatches[k];
    assert Statements(q)[k] == NodeStatement(b);
    RowsOf(b);
    BatchIsTyped(b, types, sides, i);
  }

  lemma RowsOf(b: NodeBatch)
    ensures |NodeOpsOf(NodeStatement(b))| == |b.rows|
  {
  }

  function AsSides(sides: set<string>): iset<string> {
    iset a | a in sides
  }

  /** So its entity label can be a node's first label, and the others are side labels. */
  lemma {:induction false} TypedHaveFirst(nodes: seq<NodeData>, types: set<string>, sides: set<string>)
    returns (first: seq<string>)
    requires AllTyped(nodes, types, sides)
    ensures Labels(Graph(nodes, []), first, AsSides(sides))
    ensures forall i :: 0 <= i < |first| ==> first[i] in types
  {
    if nodes == [] {
      first := [];
    } else {
      var n := |nodes| - 1;
      first := TypedHaveFirst(nodes[..n], types, sides);
      assert Typed(nodes[n], types, sides);
      var t :| t in types && t in nodes[n].labels && nodes[n].labels <= {t} + sides;
      first := first + [t];
    }
  }

  /** With entity labels that are no side labels, a schema of entity labels meets what single hops need. */
  lemma EntitySchemasAreApart(schema: seq<SchemaRel>, types: set<string>, sides: set<string>)
    requires types !! sides
    requires forall i :: 0 <= i < |schema| ==>
               (schema[i].from.Some? ==> schema[i].from.value in types)
               && (schema[i].to.Some? ==> schema[i].to.value in types)
    ensures SidesApart(schema, AsSides(sides))
  {
  }
}
