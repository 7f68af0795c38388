/** Relationship statements: what they add, and that adding it again changes nothing. */
module MergeRels {
  import opened Common
  import opened Ast
  import opened Semantics
  import opened Insert
  import opened Merge
  import opened MergeTwice

  /** One row of a relationship statement. */
  datatype RelOp = RelOp(relType: string, from: Pattern, to: Pattern, row: RelationRow)

  /** The row is about this pair of nodes. */
  predicate Joins(nodes: seq<NodeData>, op: RelOp, key: RelKey) {
    && key.0 == op.relType && key.1 < |nodes| && key.2 < |nodes|
    && Fits(nodes[key.1], op.from, op.row.fromId) && Fits(nodes[key.2], op.to, op.row.toId)
  }

  function Targets(nodes: seq<NodeData>, op: RelOp): set<RelKey> {
    set a, b | 0 <= a < |nodes| && 0 <= b < |nodes| && Joins(nodes, op, (op.relType, a, b)) :: (op.relType, a, b)
  }

  function PropsAt(rels: Rels, key: RelKey): map<string, Literal> {
    if key in rels then rels[key] else map[]
  }

  /** MATCH both ends, MERGE the relationship, SET its properties, for every pair matched. */
  function RunRel(nodes: seq<NodeData>, rels: Rels, op: RelOp): Rels {
    map key | key in rels.Keys + Targets(nodes, op) ::
      if key in Targets(nodes, op) then SetProps(PropsAt(rels, key), op.row.props) else rels[key]
  }

  function RunRels(nodes: seq<NodeData>, rels: Rels, ops: seq<RelOp>): Rels
    decreases |ops|
  {
    if ops == [] then rels else RunRel(nodes, RunRels(nodes, rels, ops[..|ops| - 1]), ops[|ops| - 1])
  }

  lemma TargetsAre(nodes: seq<NodeData>, op: RelOp, key: RelKey)
    ensures key in Targets(nodes, op) <==> Joins(nodes, op, key)
  {
    if Joins(nodes, op, key) {
      assert key == (op.relType, key.1, key.2);
    }
  }

  /** What the rows about `key` write to it, if any is. */
  function Written(nodes: seq<NodeData>, ops: seq<RelOp>, key: RelKey): Option<map<string, Literal>>
    decreases |ops|
  {
    if ops == [] then None
    else
      var init, op := Written(nodes, ops[..|ops| - 1], key), ops[|ops| - 1];
      if !Joins(nodes, op, key) then init
      else Some((match init case Some(o) => o case None => map[]) + op.row.props)
  }

  lemma {:induction false} RelsClosedForm(nodes: seq<NodeData>, rels: Rels, ops: seq<RelOp>, key: RelKey)
    ensures key in RunRels(nodes, rels, ops) <==> key in rels || Written(nodes, ops, key).Some?
    ensures key in RunRels(nodes, rels, ops) ==>
              RunRels(nodes, rels, ops)[key]
              == (match Written(nodes, ops, key) case Some(o) => SetProps(PropsAt(rels, key), o) case None => rels[key])
    decreases |ops|
  {
    hide SetProps, Joins;
    if ops != [] {
      var rest, op := ops[..|ops| - 1], ops[|ops| - 1];
      RelsClosedForm(nodes, rels, rest, key);
      TargetsAre(nodes, op, key);
      var o := match Written(nodes, rest, key) case Some(o) => o case None => map[];
      SetTwice(PropsAt(rels, key), o, op.row.props);
      SetAgain(PropsAt(rels, key), map[]);
      assert map[] + op.row.props == op.row.props;
    }
  }

  lemma {:induction false} WrittenBySome(nodes: seq<NodeData>, ops: seq<RelOp>, i: nat, key: RelKey)
    requires i < |ops| && Joins(nodes, ops[i], key)
    ensures Written(nodes, ops, key).Some?
    decreases |ops|
  {
    if i < |ops| - 1 {
      WrittenBySome(nodes, ops[..|ops| - 1], i, key);
    }
  }

  /** Running the same relationship rows a second time changes nothing. */
  lemma RelsTwice(nodes: seq<NodeData>, rels: Rels, ops: seq<RelOp>)
    ensures RunRels(nodes, RunRels(nodes, rels, ops), ops) == RunRels(nodes, rels, ops)
  {
    hide SetProps, Written;
    var once := RunRels(nodes, rels, ops);
    var twice := RunRels(nodes, once, ops);
    forall key: RelKey ensures key in twice <==> key in once
                       ensures key in once ==> twice[key] == once[key]
    {
      RelsClosedForm(nodes, rels, ops, key);
      RelsClosedForm(nodes, once, ops, key);
      if Written(nodes, ops, key).Some? {
        SetAgain(PropsAt(rels, key), Written(nodes, ops, key).value);
      }
    }
  }
}
