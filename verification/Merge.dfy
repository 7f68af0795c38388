/**
 What the node statements of an insert do to a graph: the result of a run in closed form.
 Between two nodes there is at most one relationship of a type.
 */
module Merge {
  import opened Ast
  import opened Semantics
  import opened Insert

  type RelKey = (string, nat, nat)

  type Rels = map<RelKey, map<string, Literal>>

  datatype Store = Store(nodes: seq<NodeData>, rels: Rels)

  // ---- node statements ----

  /** `SET n += props`: a null removes the property. */
  function SetProps(props: map<string, Literal>, new_: map<string, Literal>): map<string, Literal> {
    map k | k in props.Keys + new_.Keys && !(k in new_ && new_[k] == Null) :: if k in new_ then new_[k] else props[k]
  }

  predicate Fits(n: NodeData, p: Pattern, id: Literal) {
    p.labels <= n.labels && p.key in n.props && Equal(n.props[p.key], id) == True
  }

  /** One row of a node statement. */
  datatype NodeOp = NodeOp(pattern: Pattern, scopes: set<string>, row: NodeRow)

  predicate Hits(n: NodeData, op: NodeOp) {
    Fits(n, op.pattern, op.row.id)
  }

  function Fresh(op: NodeOp): NodeData {
    NodeData(op.pattern.labels, map[op.pattern.key := op.row.id])
  }

  function SetNode(n: NodeData, op: NodeOp): NodeData {
    NodeData(n.labels + op.scopes, SetProps(n.props, op.row.props))
  }

  predicate SomeHit(nodes: seq<NodeData>, op: NodeOp) {
    exists i :: 0 <= i < |nodes| && Hits(nodes[i], op)
  }

  function Created(nodes: seq<NodeData>, op: NodeOp): seq<NodeData> {
    if SomeHit(nodes, op) then nodes else nodes + [Fresh(op)]
  }

  /** MERGE, then SET on every node the pattern matches. */
  function RunOp(nodes: seq<NodeData>, op: NodeOp): seq<NodeData> {
    var merged := Created(nodes, op);
    seq(|merged|, i requires 0 <= i < |merged| => if Hits(merged[i], op) then SetNode(merged[i], op) else merged[i])
  }

  function RunOps(nodes: seq<NodeData>, ops: seq<NodeOp>): seq<NodeData>
    decreases |ops|
  {
    if ops == [] then nodes else RunOp(RunOps(nodes, ops[..|ops| - 1]), ops[|ops| - 1])
  }

  // ---- when the rows do not disturb each other's matching ----

  /** No id is null, a row writes its own merge key only with an equal value, no scope label is a merge label. */
  ghost predicate KeysKept(ops: seq<NodeOp>) {
    && (forall i :: 0 <= i < |ops| ==> ops[i].row.id != Null)
    && (forall i :: 0 <= i < |ops| && ops[i].pattern.key in ops[i].row.props ==>
          Equal(ops[i].row.props[ops[i].pattern.key], ops[i].row.id) == True)
    && (forall i, j :: 0 <= i < |ops| && 0 <= j < |ops| ==> ops[i].scopes !! ops[j].pattern.labels)
  }

  /** A row writes the merge key of another, under a name that is not its own merge key. */
  predicate WritesKeyOf(a: NodeOp, b: NodeOp) {
    b.pattern.key in a.row.props && b.pattern.key != a.pattern.key
  }

  /** A node with these labels is not about both a row and another whose merge key it writes. */
  ghost predicate Apart(labels: set<string>, ops: seq<NodeOp>) {
    forall i, j :: 0 <= i < |ops| && 0 <= j < |ops| && WritesKeyOf(ops[i], ops[j]) ==>
      !(ops[i].pattern.labels <= labels && ops[j].pattern.labels <= labels)
  }

  /** So it is for the nodes of the graph and for those the rows make. */
  ghost predicate KeysApart(nodes: seq<NodeData>, ops: seq<NodeOp>) {
    && (forall n :: 0 <= n < |nodes| ==> Apart(nodes[n].labels, ops))
    && (forall k :: 0 <= k < |ops| ==> Apart(ops[k].pattern.labels, ops))
  }

  // ---- the result in closed form ----

  /** What rows `from` to `k` make of a node, deciding by the node as it started which of them are about it. */
  function FinalFrom(base: NodeData, ops: seq<NodeOp>, from: nat, k: nat): NodeData
    requires k <= |ops|
  {
    if k <= from then base
    else if Hits(base, ops[k - 1]) then SetNode(FinalFrom(base, ops, from, k - 1), ops[k - 1])
    else FinalFrom(base, ops, from, k - 1)
  }

  /** A node as it starts, and the row from which on it is there. */
  datatype Base = Base(node: NodeData, birth: nat)

  predicate AnyHit(bases: seq<Base>, op: NodeOp) {
    exists i :: 0 <= i < |bases| && Hits(bases[i].node, op)
  }

  function Existing(nodes: seq<NodeData>): seq<Base> {
    seq(|nodes|, i requires 0 <= i < |nodes| => Base(nodes[i], 0))
  }

  /** The nodes of the graph, then one for every row that had nothing to match. */
  function Bases(nodes: seq<NodeData>, ops: seq<NodeOp>, k: nat): seq<Base>
    requires k <= |ops|
  {
    if k == 0 then Existing(nodes) else Grown(Bases(nodes, ops, k - 1), ops[k - 1], k - 1)
  }

  function Grown(bases: seq<Base>, op: NodeOp, k: nat): seq<Base> {
    if AnyHit(bases, op) then bases else bases + [Base(Fresh(op), k)]
  }

  function Finals(bases: seq<Base>, ops: seq<NodeOp>, k: nat): seq<NodeData>
    requires k <= |ops|
  {
    seq(|bases|, i requires 0 <= i < |bases| => FinalFrom(bases[i].node, ops, bases[i].birth, k))
  }

  lemma {:induction false} HitsKept(base: NodeData, ops: seq<NodeOp>, from: nat, k: nat, j: nat)
    requires KeysKept(ops) && Apart(base.labels, ops) && k <= |ops| && j < |ops|
    ensures Hits(FinalFrom(base, ops, from, k), ops[j]) <==> Hits(base, ops[j])
    ensures ops[j].pattern.labels <= FinalFrom(base, ops, from, k).labels <==> ops[j].pattern.labels <= base.labels
  {
    hide Hits, SetNode, KeysKept, Apart;
    if k > from {
      HitsKept(base, ops, from, k - 1, j);
      if Hits(base, ops[k - 1]) {
        HitsKept(base, ops, from, k - 1, k - 1);
        SetKeepsHits(base, FinalFrom(base, ops, from, k - 1), ops, k - 1, j);
      }
    }
  }

  lemma SetKeepsHits(base: NodeData, n: NodeData, ops: seq<NodeOp>, i: nat, j: nat)
    requires KeysKept(ops) && Apart(base.labels, ops) && i < |ops| && j < |ops| && Hits(n, ops[i])
    requires ops[i].pattern.labels <= n.labels <==> ops[i].pattern.labels <= base.labels
    requires ops[j].pattern.labels <= n.labels <==> ops[j].pattern.labels <= base.labels
    ensures Hits(SetNode(n, ops[i]), ops[j]) <==> Hits(n, ops[j])
    ensures ops[j].pattern.labels <= SetNode(n, ops[i]).labels <==> ops[j].pattern.labels <= n.labels
  {
    hide Equal;
    var op, other, key := ops[i], ops[j], ops[j].pattern.key;
    assert op.scopes !! other.pattern.labels;
    if key in op.row.props && key == op.pattern.key {
      var was, now, id := n.props[key], op.row.props[key], op.row.id;
      EqualIsEquivalence(was, id, now);
      EqualIsEquivalence(now, id, was);
      EqualIsEquivalence(was, now, other.row.id);
      EqualIsEquivalence(now, was, other.row.id);
    }
  }

  lemma EqualIsEquivalence(a: Literal, b: Literal, c: Literal)
    ensures a != Null ==> Equal(a, a) == True
    ensures Equal(a, b) == True ==> a != Null && b != Null
    ensures Equal(a, b) == True ==> Equal(b, a) == True
    ensures Equal(a, b) == True && Equal(b, c) == True ==> Equal(a, c) == True
  {
  }

  /** The keys of every node stay apart, and those made start no earlier than the row that makes them. */
  ghost predicate Sound(bases: seq<Base>, ops: seq<NodeOp>, k: nat) {
    forall n :: 0 <= n < |bases| ==> Apart(bases[n].node.labels, ops) && bases[n].birth <= k
  }

  lemma {:induction false} BasesSound(nodes: seq<NodeData>, ops: seq<NodeOp>, k: nat)
    requires KeysApart(nodes, ops) && k <= |ops|
    ensures Sound(Bases(nodes, ops, k), ops, k)
  {
    hide Apart, AnyHit;
    if k > 0 {
      BasesSound(nodes, ops, k - 1);
    }
  }

  lemma FreshHits(op: NodeOp)
    requires op.row.id != Null
    ensures Hits(Fresh(op), op)
  {
    EqualIsEquivalence(op.row.id, op.row.id, op.row.id);
  }

  lemma IdsArePresent(ops: seq<NodeOp>, k: nat)
    requires KeysKept(ops) && k < |ops|
    ensures ops[k].row.id != Null
  {
  }

  /** The rows see of the finished nodes what they see of the nodes as they started. */
  lemma FinalsHit(bases: seq<Base>, ops: seq<NodeOp>, k: nat, j: nat)
    requires KeysKept(ops) && k <= |ops| && j < |ops| && Sound(bases, ops, k)
    ensures forall n :: 0 <= n < |bases| ==> (Hits(Finals(bases, ops, k)[n], ops[j]) <==> Hits(bases[n].node, ops[j]))
    ensures SomeHit(Finals(bases, ops, k), ops[j]) <==> AnyHit(bases, ops[j])
  {
    hide Hits, KeysKept, Apart, FinalFrom;
    var now := Finals(bases, ops, k);
    forall n | 0 <= n < |bases| ensures Hits(now[n], ops[j]) <==> Hits(bases[n].node, ops[j]) {
      HitsKept(bases[n].node, ops, bases[n].birth, k, j);
    }
    assert forall n :: 0 <= n < |now| && Hits(now[n], ops[j]) ==> Hits(bases[n].node, ops[j]);
  }

  lemma StepForm(bases: seq<Base>, ops: seq<NodeOp>, k: nat)
    requires KeysKept(ops) && k < |ops| && Sound(bases, ops, k)
    ensures RunOp(Finals(bases, ops, k), ops[k]) == Finals(Grown(bases, ops[k], k), ops, k + 1)
  {
    hide Hits, SetNode, Fresh, KeysKept, AnyHit, SomeHit;
    FinalsHit(bases, ops, k, k);
    IdsArePresent(ops, k);
    FreshHits(ops[k]);
    var merged, grown := Created(Finals(bases, ops, k), ops[k]), Grown(bases, ops[k], k);
    assert |merged| == |grown|;
    forall n | 0 <= n < |grown| ensures RunOp(Finals(bases, ops, k), ops[k])[n] ==
             FinalFrom(grown[n].node, ops, grown[n].birth, k + 1) {
      assert n < |bases| ==> merged[n] == Finals(bases, ops, k)[n];
    }
  }

  /** A run of rows: each node as it started, overlaid by the rows about it, and one node per row that matched none. */
  lemma {:induction false} ClosedForm(nodes: seq<NodeData>, ops: seq<NodeOp>, k: nat)
    requires KeysKept(ops) && KeysApart(nodes, ops) && k <= |ops|
    ensures RunOps(nodes, ops[..k]) == Finals(Bases(nodes, ops, k), ops, k)
  {
    hide Hits, SetNode, KeysKept, KeysApart, Grown, RunOp, Sound;
    if k > 0 {
      ClosedForm(nodes, ops, k - 1);
      assert ops[..k][..k - 1] == ops[..k - 1];
      BasesSound(nodes, ops, k - 1);
      StepForm(Bases(nodes, ops, k - 1), ops, k - 1);
    }
  }

  ghost predicate EachHit(bases: seq<Base>, ops: seq<NodeOp>, k: nat)
    requires k <= |ops|
  {
    forall i :: 0 <= i < k ==> AnyHit(bases, ops[i])
  }

  lemma {:induction false} BasesHit(nodes: seq<NodeData>, ops: seq<NodeOp>, k: nat)
    requires KeysKept(ops) && k <= |ops|
    ensures EachHit(Bases(nodes, ops, k), ops, k)
  {
    hide Hits, Fresh, KeysKept;
    if k > 0 {
      BasesHit(nodes, ops, k - 1);
      var before, after := Bases(nodes, ops, k - 1), Bases(nodes, ops, k);
      IdsArePresent(ops, k - 1);
      FreshHits(ops[k - 1]);
      forall i | 0 <= i < k ensures AnyHit(after, ops[i]) {
        if i < k - 1 {
          var n :| 0 <= n < |before| && Hits(before[n].node, ops[i]);
          assert after[n] == before[n];
        } else if after != before {
          assert after[|before|].node == Fresh(ops[k - 1]);
        }
      }
    }
  }
}
