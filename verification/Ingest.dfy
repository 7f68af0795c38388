/**
 The ingest loop of src/core/pipeline.rs over the compiled statements, with a failure possible between any two of
 them: everything is rendered before anything runs, and what took effect is a prefix.
 */
module Ingest {
  import opened Common
  import opened Insert
  import opened Merge
  import opened MergeRels

  function NodeOpsOf(s: Statement): seq<NodeOp> {
    match s
    case MergeNodes(pattern, scopes, rows) =>
      seq(|rows|, i requires 0 <= i < |rows| => NodeOp(pattern, scopes, rows[i]))
    case MergeRels(_, _, _, _) => []
  }

  function RelOpsOf(s: Statement): seq<RelOp> {
    match s
    case MergeNodes(_, _, _) => []
    case MergeRels(relType, from, to, rows) =>
      seq(|rows|, i requires 0 <= i < |rows| => RelOp(relType, from, to, rows[i]))
  }

  /** The rows of one statement, in order; the statement takes effect whole or not at all. */
  function RunStatement(g: Store, s: Statement): Store {
    Store(RunOps(g.nodes, NodeOpsOf(s)), RunRels(g.nodes, g.rels, RelOpsOf(s)))
  }

  function RunAll(g: Store, ss: seq<Statement>): Store
    decreases |ss|
  {
    if ss == [] then g else RunStatement(RunAll(g, ss[..|ss| - 1]), ss[|ss| - 1])
  }

  class Database {
    var graph: Store
    /** How many more statements succeed before one fails; unlimited without a value. */
    var budget: Option<nat>

    constructor (graph: Store, budget: Option<nat>)
      ensures this.graph == graph && this.budget == budget
    {
      this.graph, this.budget := graph, budget;
    }

    method Execute(s: Statement) returns (ok: bool)
      modifies this
      ensures ok <==> old(budget) != Some(0)
      ensures graph == if ok then RunStatement(old(graph), s) else old(graph)
      ensures budget == if ok && old(budget).Some? then Some(old(budget).value - 1) else old(budget)
    {
      ok := budget != Some(0);
      if ok {
        graph := RunStatement(graph, s);
        if budget.Some? {
          budget := Some(budget.value - 1);
        }
      }
    }
  }

  datatype IngestError = BadInsert(error: InsertError) | ExecuteFailed

  /** Runs the statements one by one; `done` of them took effect. */
  method RunIngest(db: Database, q: InsertQuery) returns (r: Result<(), IngestError>, done: nat)
    modifies db
    ensures !ValidQuery(q) ==> r.Err? && r.error.BadInsert? && Explains(r.error.error, q) && db.graph == old(db.graph)
    ensures ValidQuery(q) ==>
              && done <= |Statements(q)| && db.graph == RunAll(old(db.graph), Statements(q)[..done])
              && (r.Ok? <==> done == |Statements(q)|)
              && (r.Ok? <==> old(db.budget).None? || old(db.budget).value >= |Statements(q)|)
  {
    hide Statements, RunStatement, ValidQuery, Explains;
    done := 0;
    var built := BuildInsert(q);
    if built.Err? {
      return Err(BadInsert(built.error)), 0;
    }
    var ss := built.value;
    while done < |ss|
      invariant done <= |ss| && db.graph == RunAll(old(db.graph), ss[..done])
      invariant db.budget.Some? <==> old(db.budget).Some?
      invariant db.budget.Some? ==> db.budget.value + done == old(db.budget).value
    {
      assert ss[..done + 1][..done] == ss[..done];
      var ok := db.Execute(ss[done]);
      if !ok {
        return Err(ExecuteFailed), done;
      }
      done := done + 1;
    }
    r := Ok(());
  }
}
