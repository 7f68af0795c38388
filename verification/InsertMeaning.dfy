/**
 What an insert query leaves, spelled from the fields of its batches (src/builder/insert.rs): every node and
 relationship afterwards, and where each of its labels and properties comes from.
 */
module InsertMeaning {
  import opened Common
  import opened Ast
  import opened Semantics
  import opened Insert
  import opened Merge
  import opened MergeRels
  import opened Ingest
  import opened Rerun

  // ---- rows of a query ----

  /** A row of a batch. */
  datatype At = At(batch: nat, row: nat)

  predicate Precedes(a: At, b: At) {
    a.batch < b.batch || (a.batch == b.batch && a.row < b.row)
  }

  predicate IsNodeRow(q: InsertQuery, r: At) {
    r.batch < |q.nodeBatches| && r.row < |q.nodeBatches[r.batch].rows|
  }

  predicate IsRelationRow(q: InsertQuery, r: At) {
    r.batch < |q.relationBatches| && r.row < |q.relationBatches[r.batch].rows|
  }

  /** The entity label, and the prefix and the domain label unless they are empty. */
  predicate Names(entity: string, prefix: Option<string>, domain: Option<string>, x: string) {
    x == entity || (x != "" && (prefix == Some(x) || domain == Some(x)))
  }

  /** A node with these labels and this id under the merge key. */
  ghost predicate Known(n: NodeData, entity: string, prefix: Option<string>, domain: Option<string>, key: string,
                        id: Literal) {
    && (forall x :: Names(entity, prefix, domain, x) ==> x in n.labels)
    && key in n.props && Equal(n.props[key], id) == True
  }

  ghost predicate About(q: InsertQuery, r: At, n: NodeData)
    requires IsNodeRow(q, r)
  {
    var b := q.nodeBatches[r.batch];
    Known(n, b.nodeLabel, b.prefixLabel, b.domainLabel, b.mergeOn, b.rows[r.row].id)
  }

  /** The relationship row is about this pair of nodes. */
  ghost predicate Links(q: InsertQuery, r: At, nodes: seq<NodeData>, key: RelKey)
    requires IsRelationRow(q, r)
  {
    var b := q.relationBatches[r.batch];
    && key.0 == b.relType && key.1 < |nodes| && key.2 < |nodes|
    && Known(nodes[key.1], b.fromLabel, b.prefixLabel, b.domainLabel, b.fromKey, b.rows[r.row].fromId)
    && Known(nodes[key.2], b.toLabel, b.prefixLabel, b.domainLabel, b.toKey, b.rows[r.row].toId)
  }

  // ---- rows by their number ----

  function Offset(sizes: seq<nat>, i: nat): nat
    requires i <= |sizes|
  {
    if i == 0 then 0 else Offset(sizes, i - 1) + sizes[i - 1]
  }

  lemma {:induction false} OffsetsGrow(sizes: seq<nat>, i: nat, j: nat)
    requires i < j <= |sizes|
    ensures Offset(sizes, i) + sizes[i] <= Offset(sizes, j)
  {
    if i + 1 < j {
      OffsetsGrow(sizes, i, j - 1);
    }
  }

  lemma {:induction false} OffsetOf(sizes: seq<nat>, n: nat, k: nat) returns (r: At)
    requires n <= |sizes| && k < Offset(sizes, n)
    ensures r.batch < n && r.row < sizes[r.batch] && k == Offset(sizes, r.batch) + r.row
  {
    if k >= Offset(sizes, n - 1) {
      r := At(n - 1, k - Offset(sizes, n - 1));
    } else {
      r := OffsetOf(sizes, n - 1, k);
    }
  }

  lemma OffsetOrder(sizes: seq<nat>, a: At, b: At)
    requires a.batch < |sizes| && a.row < sizes[a.batch] && b.batch < |sizes| && b.row < sizes[b.batch]
    ensures Offset(sizes, a.batch) + a.row < Offset(sizes, b.batch) + b.row <==> Precedes(a, b)
    ensures Offset(sizes, a.batch) + a.row < Offset(sizes, |sizes|)
  {
    OffsetsGrow(sizes, a.batch, |sizes|);
    if a.batch < b.batch {
      OffsetsGrow(sizes, a.batch, b.batch);
    } else if b.batch < a.batch {
      OffsetsGrow(sizes, b.batch, a.batch);
    }
  }

  function NodeSizes(q: InsertQuery): seq<nat> {
    seq(|q.nodeBatches|, i requires 0 <= i < |q.nodeBatches| => |q.nodeBatches[i].rows|)
  }

  function RelationSizes(q: InsertQuery): seq<nat> {
    seq(|q.relationBatches|, i requires 0 <= i < |q.relationBatches| => |q.relationBatches[i].rows|)
  }

  function NodeNumber(q: InsertQuery, r: At): nat
    requires IsNodeRow(q, r)
  {
    Offset(NodeSizes(q), r.batch) + r.row
  }

  function RelationNumber(q: InsertQuery, r: At): nat
    requires IsRelationRow(q, r)
  {
    Offset(RelationSizes(q), r.batch) + r.row
  }

  lemma {:induction false} NodeOpsUpTo(q: InsertQuery, n: nat)
    requires n <= |q.nodeBatches|
    ensures |AllNodeOps(Statements(q)[..n])| == Offset(NodeSizes(q), n)
    ensures forall r :: IsNodeRow(q, r) && r.batch < n ==>
              NodeNumber(q, r) < Offset(NodeSizes(q), n)
              && AllNodeOps(Statements(q)[..n])[NodeNumber(q, r)]
                 == NodeOpsOf(NodeStatement(q.nodeBatches[r.batch]))[r.row]
  {
    hide NodeStatement, RelationStatement;
    if n > 0 {
      NodeOpsUpTo(q, n - 1);
      var ss := Statements(q)[..n];
      assert ss[..n - 1] == Statements(q)[..n - 1] && ss[n - 1] == NodeStatement(q.nodeBatches[n - 1]);
      NodeOpsCount(q.nodeBatches[n - 1]);
    }
  }

  lemma NodeOpsCount(b: NodeBatch)
    ensures |NodeOpsOf(NodeStatement(b))| == |b.rows|
  {
  }

  lemma {:induction false} RelOpsUpTo(q: InsertQuery, n: nat)
    requires n <= |q.relationBatches|
    ensures |q.nodeBatches| + n <= |Statements(q)|
    ensures |AllRelOps(Statements(q)[..|q.nodeBatches| + n])| == Offset(RelationSizes(q), n)
    ensures forall r :: IsRelationRow(q, r) && r.batch < n ==>
              RelationNumber(q, r) < Offset(RelationSizes(q), n)
              && AllRelOps(Statements(q)[..|q.nodeBatches| + n])[RelationNumber(q, r)]
                 == RelOpsOf(RelationStatement(q.relationBatches[r.batch]))[r.row]
  {
    hide RelationStatement, RelOpsOf, Statements;
    StatementCount(q);
    var m := |q.nodeBatches| + n;
    var ss := Statements(q)[..m];
    if n == 0 {
      forall i | 0 <= i < |ss| ensures ss[i].MergeNodes? {
        StatementKinds(q, i);
      }
      NoRelOps(ss);
    } else {
      RelOpsUpTo(q, n - 1);
      var init, b := Statements(q)[..m - 1], q.relationBatches[n - 1];
      StatementKinds(q, m - 1);
      assert ss[..m - 1] == init && AllRelOps(ss) == AllRelOps(init) + RelOpsOf(RelationStatement(b));
      RelOpsCount(b);
    }
  }

  lemma StatementCount(q: InsertQuery)
    ensures |Statements(q)| == |q.nodeBatches| + |q.relationBatches|
  {
  }

  lemma StatementKinds(q: InsertQuery, i: nat)
    requires i < |Statements(q)|
    ensures Statements(q)[i].MergeNodes? <==> i < |q.nodeBatches|
    ensures i >= |q.nodeBatches| ==>
              i - |q.nodeBatches| < |q.relationBatches|
              && Statements(q)[i] == RelationStatement(q.relationBatches[i - |q.nodeBatches|])
  {
  }

  lemma RelOpsCount(b: RelationBatch)
    ensures |RelOpsOf(RelationStatement(b))| == |b.rows|
  {
  }

  /** The node rows of a query, by number. */
  lemma NodeRows(q: InsertQuery)
    ensures |AllNodeOps(Statements(q))| == Offset(NodeSizes(q), |q.nodeBatches|)
    ensures forall r :: IsNodeRow(q, r) ==>
              NodeNumber(q, r) < |AllNodeOps(Statements(q))|
              && AllNodeOps(Statements(q))[NodeNumber(q, r)]
                 == NodeOpsOf(NodeStatement(q.nodeBatches[r.batch]))[r.row]
  {
    hide NodeStatement, RelationStatement, AllNodeOps, NodeOpsOf;
    var ss, n := Statements(q), |q.nodeBatches|;
    NodeOpsUpTo(q, n);
    forall i | 0 <= i < |ss[n..]| ensures ss[n..][i].MergeRels? {
      StatementKinds(q, n + i);
    }
    NoNodeOps(ss[n..]);
    assert ss == ss[..n] + ss[n..];
    OpsAppend(ss[..n], ss[n..]);
  }

  lemma RelationRows(q: InsertQuery)
    ensures |AllRelOps(Statements(q))| == Offset(RelationSizes(q), |q.relationBatches|)
    ensures forall r :: IsRelationRow(q, r) ==>
              RelationNumber(q, r) < |AllRelOps(Statements(q))|
              && AllRelOps(Statements(q))[RelationNumber(q, r)]
                 == RelOpsOf(RelationStatement(q.relationBatches[r.batch]))[r.row]
  {
    hide NodeStatement, RelationStatement, AllRelOps, RelOpsOf;
    RelOpsUpTo(q, |q.relationBatches|);
    assert Statements(q)[..|q.nodeBatches| + |q.relationBatches|] == Statements(q);
  }

  /** The row of a number. */
  lemma NodeRowOf(q: InsertQuery, k: nat) returns (r: At)
    requires k < |AllNodeOps(Statements(q))|
    ensures IsNodeRow(q, r) && NodeNumber(q, r) == k
  {
    hide Statements, AllNodeOps;
    NodeRows(q);
    r := OffsetOf(NodeSizes(q), |q.nodeBatches|, k);
  }

  lemma RelationRowOf(q: InsertQuery, k: nat) returns (r: At)
    requires k < |AllRelOps(Statements(q))|
    ensures IsRelationRow(q, r) && RelationNumber(q, r) == k
  {
    hide Statements, AllRelOps;
    RelationRows(q);
    r := OffsetOf(RelationSizes(q), |q.relationBatches|, k);
  }

  // ---- a written pattern is about the nodes the batch means ----

  lemma SuffixNames(entity: string, prefix: Option<string>, domain: Option<string>, x: string)
    ensures x in {entity} + Suffix(prefix, domain) <==> Names(entity, prefix, domain, x)
  {
  }

  lemma PatternFits(n: NodeData, entity: string, prefix: Option<string>, domain: Option<string>, key: string,
                    id: Literal)
    ensures Fits(n, Pattern({entity} + Suffix(prefix, domain), key), id) <==>
            Known(n, entity, prefix, domain, key, id)
  {
    hide Suffix, Equal, Names;
    var labels := {entity} + Suffix(prefix, domain);
    forall x ensures x in labels <==> Names(entity, prefix, domain, x) {
      SuffixNames(entity, prefix, domain, x);
    }
  }

  lemma NodeRowMeans(q: InsertQuery, r: At, n: NodeData)
    requires IsNodeRow(q, r)
    ensures var op, b := NodeOpsOf(NodeStatement(q.nodeBatches[r.batch]))[r.row], q.nodeBatches[r.batch];
            && (Hits(n, op) <==> About(q, r, n)) && op.row == b.rows[r.row]
            && (forall x :: x in op.scopes <==> x in b.scopeLabels)
            && (forall x :: x in Fresh(op).labels <==> Names(b.nodeLabel, b.prefixLabel, b.domainLabel, x))
            && Fresh(op).props == map[b.mergeOn := b.rows[r.row].id]
  {
    hide Fits, Known, Suffix, Names;
    var b := q.nodeBatches[r.batch];
    PatternFits(n, b.nodeLabel, b.prefixLabel, b.domainLabel, b.mergeOn, b.rows[r.row].id);
    forall x ensures x in {b.nodeLabel} + Suffix(b.prefixLabel, b.domainLabel) <==>
                     Names(b.nodeLabel, b.prefixLabel, b.domainLabel, x) {
      SuffixNames(b.nodeLabel, b.prefixLabel, b.domainLabel, x);
    }
  }

  lemma RelationRowMeans(q: InsertQuery, r: At, nodes: seq<NodeData>, key: RelKey)
    requires IsRelationRow(q, r)
    ensures var op := RelOpsOf(RelationStatement(q.relationBatches[r.batch]))[r.row];
            (Joins(nodes, op, key) <==> Links(q, r, nodes, key)) && op.row == q.relationBatches[r.batch].rows[r.row]
  {
    hide Fits, Known, Suffix;
    var b := q.relationBatches[r.batch];
    if key.1 < |nodes| && key.2 < |nodes| {
      PatternFits(nodes[key.1], b.fromLabel, b.prefixLabel, b.domainLabel, b.fromKey, b.rows[r.row].fromId);
      PatternFits(nodes[key.2], b.toLabel, b.prefixLabel, b.domainLabel, b.toKey, b.rows[r.row].toId);
    }
  }

  // ---- what rows leave on a node ----

  function ValueAt(props: map<string, Literal>, key: string): Literal {
    if key in props then props[key] else Null
  }

  lemma {:induction false} FinalLabels(base: NodeData, ops: seq<NodeOp>, from: nat, k: nat, x: string)
    requires k <= |ops|
    ensures x in FinalFrom(base, ops, from, k).labels <==>
            x in base.labels || exists j :: from <= j < k && Hits(base, ops[j]) && x in ops[j].scopes
  {
    hide Hits;
    if k > from {
      FinalLabels(base, ops, from, k - 1, x);
    }
  }

  /** The last row about the node that writes `key`, if any does, says what is there. */
  lemma {:induction false} FinalProps(base: NodeData, ops: seq<NodeOp>, from: nat, k: nat, key: string)
    returns (last: Option<nat>)
    requires k <= |ops|
    ensures var after := if last.Some? then last.value + 1 else from;
            forall j :: after <= j < k && Hits(base, ops[j]) ==> key !in ops[j].row.props
    ensures last.Some? ==> from <= last.value < k && Hits(base, ops[last.value]) && key in ops[last.value].row.props
    ensures ValueAt(FinalFrom(base, ops, from, k).props, key) ==
            if last.Some? then ops[last.value].row.props[key] else ValueAt(base.props, key)
  {
    hide Hits;
    last := None;
    if k > from {
      last := FinalProps(base, ops, from, k - 1, key);
      if Hits(base, ops[k - 1]) && key in ops[k - 1].row.props {
        last := Some(k - 1);
      }
    }
  }

  /** Where the `i`-th node comes from: the graph, or a row to which nothing before it fitted. */
  lemma {:induction false} BaseIs(nodes: seq<NodeData>, ops: seq<NodeOp>, k: nat, i: nat)
    requires k <= |ops| && i < |Bases(nodes, ops, k)|
    ensures |Bases(nodes, ops, k)| >= |nodes|
    ensures var b := Bases(nodes, ops, k)[i];
            if i < |nodes| then b == Base(nodes[i], 0)
            else b.birth < k && b.node == Fresh(ops[b.birth])
                 && forall m :: 0 <= m < i ==> !Hits(Bases(nodes, ops, k)[m].node, ops[b.birth])
  {
    hide Hits, Fresh;
    if k > 0 {
      var before := Bases(nodes, ops, k - 1);
      if |before| == 0 {
      } else if i < |before| {
        BaseIs(nodes, ops, k - 1, i);
        assert forall m :: 0 <= m < |before| ==> Bases(nodes, ops, k)[m] == before[m];
      } else {
        BaseIs(nodes, ops, k - 1, 0);
      }
    }
  }

  lemma {:induction false} BasesGrow(nodes: seq<NodeData>, ops: seq<NodeOp>, j: nat, k: nat)
    requires j <= k <= |ops|
    ensures Bases(nodes, ops, j) <= Bases(nodes, ops, k)
  {
    hide AnyHit;
    if j < k {
      BasesGrow(nodes, ops, j, k - 1);
    }
  }

  // ---- the nodes afterwards ----

  function After(g: Store, q: InsertQuery): Store {
    RunAll(g, Statements(q))
  }

  function Ops(q: InsertQuery): seq<NodeOp> {
    AllNodeOps(Statements(q))
  }

  /** Node `n` was there already, or `made` is the row that made it. */
  ghost predicate Origin(g: Store, q: InsertQuery, n: nat, made: Option<At>) {
    var bases := Bases(g.nodes, Ops(q), |Ops(q)|);
    n < |bases| && match made
                   case None => n < |g.nodes|
                   case Some(r) => n >= |g.nodes| && IsNodeRow(q, r) && bases[n].birth == NodeNumber(q, r)
  }

  /** Row `r` is about the node and does not come before the row that made it. */
  ghost predicate Counts(q: InsertQuery, made: Option<At>, r: At, n: NodeData) {
    IsNodeRow(q, r) && About(q, r, n) && !(made.Some? && Precedes(r, made.value))
  }

  /** The nodes afterwards are the final forms of the bases, and rows see of both the same. */
  lemma FinalNodes(g: Store, q: InsertQuery)
    requires Undisturbed(g, Statements(q))
    ensures var bases, k := Bases(g.nodes, Ops(q), |Ops(q)|), |Ops(q)|;
            && After(g, q).nodes == Finals(bases, Ops(q), k)
            && forall n, j :: 0 <= n < |bases| && 0 <= j < k ==>
                 (Hits(After(g, q).nodes[n], Ops(q)[j]) <==> Hits(bases[n].node, Ops(q)[j]))
  {
    hide Hits, KeysKept, KeysApart, Bases, RunOps, RunRels, AllNodeOps, AllRelOps, Statements, RunAll, Sound, FinalFrom;
    var ops := Ops(q);
    StatementsNodesFirst(q, |Statements(q)|);
    assert Statements(q)[..|Statements(q)|] == Statements(q);
    RunIsTwoPhases(g, Statements(q));
    assert ops[..|ops|] == ops;
    ClosedForm(g.nodes, ops, |ops|);
    BasesSound(g.nodes, ops, |ops|);
    var bases := Bases(g.nodes, ops, |ops|);
    forall j | 0 <= j < |ops|
      ensures forall n :: 0 <= n < |bases| ==>
                (Hits(Finals(bases, ops, |ops|)[n], ops[j]) <==> Hits(bases[n].node, ops[j]))
    {
      FinalsHit(bases, ops, |ops|, j);
    }
  }

  /** What number `k` says about a node is what its row says. */
  lemma HitIsAbout(g: Store, q: InsertQuery, n: nat, r: At)
    requires Undisturbed(g, Statements(q)) && n < |After(g, q).nodes| && IsNodeRow(q, r)
    ensures var bases, k := Bases(g.nodes, Ops(q), |Ops(q)|), NodeNumber(q, r);
            && n < |bases| && k < |Ops(q)|
            && (Hits(bases[n].node, Ops(q)[k]) <==> About(q, r, After(g, q).nodes[n]))
  {
    hide Hits, Bases, AllNodeOps, Statements, RunAll, Undisturbed, About, NodeStatement, NodeOpsOf, NodeNumber;
    FinalNodes(g, q);
    NodeRows(q);
    NodeRowMeans(q, r, After(g, q).nodes[n]);
  }

  /** Every node was there before, or a row made it to which no node before it fits. */
  lemma OriginOf(g: Store, q: InsertQuery, n: nat) returns (made: Option<At>)
    requires Undisturbed(g, Statements(q)) && n < |After(g, q).nodes|
    ensures Origin(g, q, n, made) && (made.None? <==> n < |g.nodes|)
    ensures made.Some? ==> About(q, made.value, After(g, q).nodes[n])
    ensures made.Some? ==> forall m :: 0 <= m < n ==> !About(q, made.value, After(g, q).nodes[m])
  {
    hide Hits, Bases, AllNodeOps, Statements, RunAll, Undisturbed, About, NodeNumber, Fresh;
    FinalNodes(g, q);
    var ops := Ops(q);
    var bases := Bases(g.nodes, ops, |ops|);
    BaseIs(g.nodes, ops, |ops|, n);
    made := None;
    if n >= |g.nodes| {
      var r := NodeRowOf(q, bases[n].birth);
      made := Some(r);
      IdIsPresent(g, q, bases[n].birth);
      FreshHits(ops[bases[n].birth]);
      HitIsAbout(g, q, n, r);
      forall m | 0 <= m < n ensures !About(q, r, After(g, q).nodes[m]) {
        HitIsAbout(g, q, m, r);
      }
    }
  }

  lemma IdIsPresent(g: Store, q: InsertQuery, k: nat)
    requires Undisturbed(g, Statements(q)) && k < |Ops(q)|
    ensures Ops(q)[k].row.id != Null
  {
    hide KeysApart, Statements, AllNodeOps;
    IdsArePresent(Ops(q), k);
  }

  /** After a run every node row has its node, with the row's scope labels. */
  lemma NodesPresent(g: Store, q: InsertQuery, r: At) returns (n: nat, made: Option<At>)
    requires Undisturbed(g, Statements(q)) && IsNodeRow(q, r)
    ensures n < |After(g, q).nodes| && Origin(g, q, n, made) && Counts(q, made, r, After(g, q).nodes[n])
  {
    hide Hits, Bases, AllNodeOps, Statements, RunAll, About, NodeNumber, Fresh, KeysKept, KeysApart;
    FinalNodes(g, q);
    NodeRows(q);
    var ops, k := Ops(q), NodeNumber(q, r);
    BasesHit(g.nodes, ops, k + 1);
    BasesGrow(g.nodes, ops, k + 1, |ops|);
    assert AnyHit(Bases(g.nodes, ops, k + 1), ops[k]);
    n :| 0 <= n < |Bases(g.nodes, ops, k + 1)| && Hits(Bases(g.nodes, ops, k + 1)[n].node, ops[k]);
    HitIsAbout(g, q, n, r);
    made := OriginOf(g, q, n);
    if made.Some? {
      BaseIs(g.nodes, ops, k + 1, n);
      RowOrder(q, r, made.value);
    }
  }

  lemma RowOrder(q: InsertQuery, a: At, b: At)
    requires IsNodeRow(q, a) && IsNodeRow(q, b)
    ensures NodeNumber(q, a) < NodeNumber(q, b) <==> Precedes(a, b)
  {
    hide Offset;
    OffsetOrder(NodeSizes(q), a, b);
  }

  /** A row counts for a node exactly if its number is one that made the node what it is. */
  lemma CountsByNumber(g: Store, q: InsertQuery, n: nat, made: Option<At>, r: At)
    requires Undisturbed(g, Statements(q)) && n < |After(g, q).nodes| && Origin(g, q, n, made) && IsNodeRow(q, r)
    ensures var bases, k := Bases(g.nodes, Ops(q), |Ops(q)|), NodeNumber(q, r);
            n < |bases| && k < |Ops(q)|
            && (Counts(q, made, r, After(g, q).nodes[n]) <==> bases[n].birth <= k && Hits(bases[n].node, Ops(q)[k]))
  {
    hide Hits, Bases, AllNodeOps, Statements, RunAll, About, NodeNumber, Undisturbed;
    HitIsAbout(g, q, n, r);
    BaseIs(g.nodes, Ops(q), |Ops(q)|, n);
    if made.Some? {
      RowOrder(q, r, made.value);
    }
  }

  /** A node's labels: those it had, or its maker's, and the scope labels of the rows that count for it. */
  lemma LabelsComeFrom(g: Store, q: InsertQuery, n: nat, made: Option<At>, x: string)
    requires Undisturbed(g, Statements(q)) && n < |After(g, q).nodes| && Origin(g, q, n, made)
    ensures x in After(g, q).nodes[n].labels <==>
            (match made
             case None => x in g.nodes[n].labels
             case Some(m) =>
               var b := q.nodeBatches[m.batch];
               Names(b.nodeLabel, b.prefixLabel, b.domainLabel, x))
            || exists r :: Counts(q, made, r, After(g, q).nodes[n]) && x in q.nodeBatches[r.batch].scopeLabels
  {
    hide Hits, Bases, AllNodeOps, Statements, RunAll, About, NodeNumber, Undisturbed, Names, FinalFrom, NodeStatement;
    hide NodeOpsOf, Fresh;
    FinalNodes(g, q);
    var ops := Ops(q);
    var base := Bases(g.nodes, ops, |ops|)[n];
    BaseIs(g.nodes, ops, |ops|, n);
    FinalLabels(base.node, ops, base.birth, |ops|, x);
    NodeRows(q);
    if made.Some? {
      NodeRowMeans(q, made.value, After(g, q).nodes[n]);
    }
    if j :| base.birth <= j < |ops| && Hits(base.node, ops[j]) && x in ops[j].scopes {
      var r := NodeRowOf(q, j);
      CountsByNumber(g, q, n, made, r);
      NodeRowMeans(q, r, After(g, q).nodes[n]);
    }
    if r :| Counts(q, made, r, After(g, q).nodes[n]) && x in q.nodeBatches[r.batch].scopeLabels {
      CountsByNumber(g, q, n, made, r);
      NodeRowMeans(q, r, After(g, q).nodes[n]);
    }
  }

  /** The last row that counts for a node and writes this property, if any does. */
  ghost predicate LastWriter(q: InsertQuery, made: Option<At>, n: NodeData, key: string, last: Option<At>) {
    && (last.Some? ==> Counts(q, made, last.value, n)
                       && key in q.nodeBatches[last.value.batch].rows[last.value.row].props)
    && forall r :: Counts(q, made, r, n) && key in q.nodeBatches[r.batch].rows[r.row].props ==>
         last.Some? && (r == last.value || Precedes(r, last.value))
  }

  /** A node's properties: what the last such row writes, else what it had or was made with. A null is no property. */
  lemma PropertyComesFrom(g: Store, q: InsertQuery, n: nat, made: Option<At>, key: string) returns (last: Option<At>)
    requires Undisturbed(g, Statements(q)) && n < |After(g, q).nodes| && Origin(g, q, n, made)
    ensures LastWriter(q, made, After(g, q).nodes[n], key, last)
    ensures ValueAt(After(g, q).nodes[n].props, key)
         == match last
            case Some(r) => q.nodeBatches[r.batch].rows[r.row].props[key]
            case None =>
              match made
              case None => ValueAt(g.nodes[n].props, key)
              case Some(m) =>
                var b := q.nodeBatches[m.batch];
                if key == b.mergeOn then b.rows[m.row].id else Null
  {
    hide Hits, Bases, AllNodeOps, Statements, RunAll, About, NodeNumber, Undisturbed, Names, FinalFrom, NodeStatement;
    hide NodeOpsOf, Fresh;
    FinalNodes(g, q);
    var ops := Ops(q);
    var base := Bases(g.nodes, ops, |ops|)[n];
    BaseIs(g.nodes, ops, |ops|, n);
    var j := FinalProps(base.node, ops, base.birth, |ops|, key);
    NodeRows(q);
    last := None;
    if made.Some? {
      NodeRowMeans(q, made.value, After(g, q).nodes[n]);
    }
    if j.Some? {
      var r := NodeRowOf(q, j.value);
      CountsByNumber(g, q, n, made, r);
      NodeRowMeans(q, r, After(g, q).nodes[n]);
      last := Some(r);
    }
    forall r | Counts(q, made, r, After(g, q).nodes[n]) && key in q.nodeBatches[r.batch].rows[r.row].props
      ensures last.Some? && (r == last.value || Precedes(r, last.value))
    {
      CountsByNumber(g, q, n, made, r);
      NodeRowMeans(q, r, After(g, q).nodes[n]);
      if NodeNumber(q, r) != j.value {
        RowOrder(q, r, last.value);
      } else {
        SameNumber(q, r, last.value);
      }
    }
  }

  lemma SameNumber(q: InsertQuery, a: At, b: At)
    requires IsNodeRow(q, a) && IsNodeRow(q, b) && NodeNumber(q, a) == NodeNumber(q, b)
    ensures a == b
  {
    hide NodeNumber;
    RowOrder(q, a, b);
    RowOrder(q, b, a);
  }

  // ---- the relationships afterwards ----

  lemma {:induction false} WrittenExactly(nodes: seq<NodeData>, ops: seq<RelOp>, key: RelKey)
    ensures Written(nodes, ops, key).Some? <==> exists j :: 0 <= j < |ops| && Joins(nodes, ops[j], key)
    decreases |ops|
  {
    hide Joins;
    if ops != [] {
      var init := ops[..|ops| - 1];
      WrittenExactly(nodes, init, key);
      if Written(nodes, init, key).Some? {
        var j :| 0 <= j < |init| && Joins(nodes, init[j], key);
        assert Joins(nodes, ops[j], key);
      }
    }
  }

  lemma {:induction false} WrittenProps(nodes: seq<NodeData>, ops: seq<RelOp>, key: RelKey, prop: string)
    returns (last: Option<nat>)
    requires Written(nodes, ops, key).Some?
    ensures var after := if last.Some? then last.value + 1 else 0;
            forall j :: after <= j < |ops| && Joins(nodes, ops[j], key) ==> prop !in ops[j].row.props
    ensures last.Some? ==> last.value < |ops| && Joins(nodes, ops[last.value], key)
                           && prop in ops[last.value].row.props
    ensures last.Some? <==> prop in Written(nodes, ops, key).value
    ensures last.Some? ==> Written(nodes, ops, key).value[prop] == ops[last.value].row.props[prop]
    decreases |ops|
  {
    hide Joins;
    var n := |ops| - 1;
    var init := ops[..n];
    last := None;
    if Written(nodes, init, key).Some? {
      last := WrittenProps(nodes, init, key, prop);
    } else {
      WrittenExactly(nodes, init, key);
    }
    assert forall j :: 0 <= j < n ==> init[j] == ops[j];
    if Joins(nodes, ops[n], key) && prop in ops[n].row.props {
      last := Some(n);
    }
  }

  lemma FinalRels(g: Store, q: InsertQuery)
    ensures After(g, q).rels == RunRels(After(g, q).nodes, g.rels, AllRelOps(Statements(q)))
  {
    hide Statements, RunAll, RunOps, RunRels, AllNodeOps, AllRelOps;
    StatementsNodesFirst(q, |Statements(q)|);
    assert Statements(q)[..|Statements(q)|] == Statements(q);
    RunIsTwoPhases(g, Statements(q));
  }

  /** A relationship is there afterwards exactly if it was before or a row is about the pair of nodes. */
  lemma RelationsAre(g: Store, q: InsertQuery, key: RelKey)
    ensures key in After(g, q).rels <==>
            key in g.rels || exists r :: IsRelationRow(q, r) && Links(q, r, After(g, q).nodes, key)
  {
    hide Joins, Statements, AllRelOps, RunAll, Links, RelationNumber, RelationStatement, RelOpsOf, RunRels, Written;
    var nodes, ops := After(g, q).nodes, AllRelOps(Statements(q));
    FinalRels(g, q);
    RelsClosedForm(nodes, g.rels, ops, key);
    WrittenExactly(nodes, ops, key);
    RelationRows(q);
    if j :| 0 <= j < |ops| && Joins(nodes, ops[j], key) {
      var r := RelationRowOf(q, j);
      RelationRowMeans(q, r, nodes, key);
    }
    if r :| IsRelationRow(q, r) && Links(q, r, nodes, key) {
      RelationRowMeans(q, r, nodes, key);
      assert Joins(nodes, ops[RelationNumber(q, r)], key);
    }
  }

  /** The last row about the pair that writes this property, if any does. */
  ghost predicate LastRelationWriter(q: InsertQuery, nodes: seq<NodeData>, key: RelKey, prop: string,
                                     last: Option<At>) {
    && (last.Some? ==> IsRelationRow(q, last.value) && Links(q, last.value, nodes, key)
                       && prop in q.relationBatches[last.value.batch].rows[last.value.row].props)
    && forall r :: IsRelationRow(q, r) && Links(q, r, nodes, key)
                   && prop in q.relationBatches[r.batch].rows[r.row].props ==>
         last.Some? && (r == last.value || Precedes(r, last.value))
  }

  /** Its properties: what the last such row writes, else what it had. */
  lemma RelationPropertyComesFrom(g: Store, q: InsertQuery, key: RelKey, prop: string) returns (last: Option<At>)
    requires key in After(g, q).rels
    ensures LastRelationWriter(q, After(g, q).nodes, key, prop, last)
    ensures ValueAt(After(g, q).rels[key], prop)
         == match last
            case Some(r) => q.relationBatches[r.batch].rows[r.row].props[prop]
            case None => if key in g.rels then ValueAt(g.rels[key], prop) else Null
  {
    hide Joins, Statements, AllRelOps, RunAll, Links, RelationNumber, RelationStatement, RelOpsOf, RunRels, Written;
    var nodes, ops := After(g, q).nodes, AllRelOps(Statements(q));
    FinalRels(g, q);
    RelsClosedForm(nodes, g.rels, ops, key);
    WrittenExactly(nodes, ops, key);
    RelationRows(q);
    last := None;
    var j := None;
    if Written(nodes, ops, key).Some? {
      j := WrittenProps(nodes, ops, key, prop);
      if j.Some? {
        var r := RelationRowOf(q, j.value);
        RelationRowMeans(q, r, nodes, key);
        last := Some(r);
      }
    }
    forall r | IsRelationRow(q, r) && Links(q, r, nodes, key) && prop in q.relationBatches[r.batch].rows[r.row].props
      ensures last.Some? && (r == last.value || Precedes(r, last.value))
    {
      RelationRowMeans(q, r, nodes, key);
      assert Joins(nodes, ops[RelationNumber(q, r)], key);
      RelationOrder(q, r, last.value);
      RelationOrder(q, last.value, r);
    }
  }

  lemma RelationOrder(q: InsertQuery, a: At, b: At)
    requires IsRelationRow(q, a) && IsRelationRow(q, b)
    ensures RelationNumber(q, a) < RelationNumber(q, b) <==> Precedes(a, b)
  {
    hide Offset;
    OffsetOrder(RelationSizes(q), a, b);
  }

  /** Row `r` makes or keeps a node with these labels and this id under this key. */
  ghost predicate Provides(q: InsertQuery, r: At, entity: string, prefix: Option<string>, domain: Option<string>,
                           key: string, id: Literal)
    requires IsNodeRow(q, r)
  {
    var b := q.nodeBatches[r.batch];
    && (forall x :: Names(entity, prefix, domain, x) ==> Names(b.nodeLabel, b.prefixLabel, b.domainLabel, x))
    && key == b.mergeOn && Equal(b.rows[r.row].id, id) == True
  }

  lemma ProvidedIsKnown(q: InsertQuery, r: At, n: NodeData, entity: string, prefix: Option<string>,
                        domain: Option<string>, key: string, id: Literal)
    requires IsNodeRow(q, r) && About(q, r, n) && Provides(q, r, entity, prefix, domain, key, id)
    ensures Known(n, entity, prefix, domain, key, id)
  {
    hide Names, Equal;
    EqualIsEquivalence(n.props[key], q.nodeBatches[r.batch].rows[r.row].id, id);
  }

  /**
   After a run every relation row whose two ends are provided by node rows is a relationship, from a node known by its
   from id to one known by its to id.
   */
  lemma RelationsPresent(g: Store, q: InsertQuery, r: At, from: At, to: At)
    requires Undisturbed(g, Statements(q)) && IsRelationRow(q, r) && IsNodeRow(q, from) && IsNodeRow(q, to)
    requires var b := q.relationBatches[r.batch];
             && Provides(q, from, b.fromLabel, b.prefixLabel, b.domainLabel, b.fromKey, b.rows[r.row].fromId)
             && Provides(q, to, b.toLabel, b.prefixLabel, b.domainLabel, b.toKey, b.rows[r.row].toId)
    ensures exists key :: key in After(g, q).rels && Links(q, r, After(g, q).nodes, key)
  {
    hide Statements, After, About, Known, Provides, Undisturbed, Origin;
    var b := q.relationBatches[r.batch];
    var m, _ := NodesPresent(g, q, from);
    var n, _ := NodesPresent(g, q, to);
    ProvidedIsKnown(q, from, After(g, q).nodes[m], b.fromLabel, b.prefixLabel, b.domainLabel, b.fromKey,
                    b.rows[r.row].fromId);
    ProvidedIsKnown(q, to, After(g, q).nodes[n], b.toLabel, b.prefixLabel, b.domainLabel, b.toKey, b.rows[r.row].toId);
    var key: RelKey := (b.relType, m, n);
    assert Links(q, r, After(g, q).nodes, key);
    RelationsAre(g, q, key);
  }
}
