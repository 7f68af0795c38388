/** Which row lists do not settle, and what a row that loses its own merge key does when run again. */
module RerunExamples {
  import opened Ast
  import opened Semantics
  import opened Merge
  import opened MergeTwice

  /**
   Rows are unsettled only by two of them with one merge key and one id, the earlier of which has strictly fewer
   labels: a second run applies it to the node the later one made.
   */
  lemma OnlyNestedLabelsUnsettle(ops: seq<NodeOp>) returns (i: nat, j: nat)
    requires !Settles(ops)
    ensures i < j < |ops| && ops[i].pattern.key == ops[j].pattern.key && Equal(ops[j].row.id, ops[i].row.id) == True
    ensures ops[i].pattern.labels < ops[j].pattern.labels
  {
    j :| 0 <= j < |ops| && Maker(ops, j) && !Quiet(Fresh(ops[j]), ops, j);
    if forall m :: 0 <= m < j ==> !Hits(Fresh(ops[j]), ops[m]) {
      NothingEarlier(Fresh(ops[j]), ops, j);
      assert false;
    }
    i :| 0 <= i < j && Hits(Fresh(ops[j]), ops[i]);
    assert !Hits(Fresh(ops[i]), ops[j]);
    EqualIsEquivalence(ops[j].row.id, ops[i].row.id, ops[j].row.id);
  }

  lemma {:induction false} NothingEarlier(base: NodeData, ops: seq<NodeOp>, k: nat)
    requires k <= |ops| && forall m :: 0 <= m < k ==> !Hits(base, ops[m])
    ensures Overlay(base, ops, 0, k) == map[] && Scopes(base, ops, 0, k) == {}
  {
    if k > 0 {
      NothingEarlier(base, ops, k - 1);
    }
  }

  /** A later row with strictly more labels that gets its node to itself, and an earlier one that writes `key` to it. */
  lemma NestedLabelsUnsettle(ops: seq<NodeOp>, i: nat, j: nat, key: string)
    requires i < j < |ops| && Maker(ops, j) && Hits(Fresh(ops[j]), ops[i])
    requires key in ops[i].row.props && ops[i].row.props[key] != Null && key != ops[j].pattern.key
    requires forall m :: 0 <= m < |ops| && m != i && Hits(Fresh(ops[j]), ops[m]) ==> key !in ops[m].row.props
    ensures !Settles(ops)
  {
    OnlyWriter(Fresh(ops[j]), ops, 0, j, i, key);
    OnlyWriter(Fresh(ops[j]), ops, j, |ops|, i, key);
    assert !Quiet(Fresh(ops[j]), ops, j);
  }

  lemma {:induction false} OnlyWriter(base: NodeData, ops: seq<NodeOp>, from: nat, k: nat, i: nat, key: string)
    requires from <= k <= |ops| && i < |ops| && Hits(base, ops[i]) && key in ops[i].row.props
    requires forall m :: 0 <= m < |ops| && m != i && Hits(base, ops[m]) ==> key !in ops[m].row.props
    ensures key in Overlay(base, ops, from, k) <==> from <= i < k
    ensures from <= i < k ==> Overlay(base, ops, from, k)[key] == ops[i].row.props[key]
  {
    hide Hits;
    if k > from {
      OnlyWriter(base, ops, from, k - 1, i, key);
    }
  }

  /** A row that overwrites its own merge key with another value, or removes it, is merged again as a new node. */
  lemma OverwrittenKeyIsNotIdempotent(op: NodeOp)
    requires op.row.id != Null && op.pattern.key in op.row.props
    requires Equal(op.row.props[op.pattern.key], op.row.id) != True
    ensures !KeysKept([op])
    ensures |RunOps([], [op])| == 1 && |RunOps(RunOps([], [op]), [op])| == 2
  {
    hide Equal;
    var ops := [op];
    assert ops[..0] == [] && ops[0] == op;
    FreshHits(op);
    var changed := SetNode(Fresh(op), op);
    assert !Hits(changed, op);
    assert RunOps([], ops) == RunOp([], op) == [changed];
    assert RunOps([changed], ops) == RunOp([changed], op);
    assert !SomeHit([changed], op);
  }
}
