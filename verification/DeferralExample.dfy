/** The query of the builder's own regression test: people with an optional employer, filtered on its revenue. */
module DeferralExample {
  import opened Common
  import opened Ast
  import opened WherePart
  import opened Semantics
  import opened Matching
  import opened Reference
  import opened OptionalPart
  import opened ReadCompiler
  import opened Deferral

  function WorksAt(): EdgeTraversal {
    EdgeTraversal("p", "WORKS_AT", "w", Out, Node("Company", "c", None), None, true)
  }

  function Poor(): FilterExpression {
    Pred(Predicate(PropertyRef("c", Some("revenue")), Lt, Int(100)))
  }

  function Employers(): ReadQuery {
    ReadQuery(Find, Node("Person", "p", None), [WorksAt()], Some(Poor()),
              [Field(PropertyRef("p", Some("name")), None)], [], [], None, false)
  }

  /** One person, no company. */
  function Unemployed(): Graph {
    Graph([NodeData({"Person"}, map[])], [])
  }

  function Survivor(): Row {
    map["p" := NodeV(0), "w" := NullV, "c" := NullV]
  }

  lemma EmployersScoped()
    ensures Scoped(Employers()) && Deferred(Employers()) && LastOptional(Employers(), 1) == Some(0)
    ensures Aliases(Employers()) == {"p", "w", "c"}
  {
    var q := Employers();
    assert q.traversals[0] == WorksAt() && WorksAt().target.alias == "c";
    assert Bound(q, false, 0) == {"p"} == Bound(q, false, 1);
    assert Bound(q, true, 1) == {} + OwnAliases(WorksAt());
    assert BoundNodes(q, false, 1) == BoundNodes(q, false, 0) == {"p"};
    assert "c" in OptionalTargets(q);
    assert "c" in ReferencedAliases(Poor());
    assert "c" in ReferencedAliases(Poor()) * OptionalTargets(q);
  }

  lemma NobodyEmployed(row: Row)
    ensures NothingPasses(Unemployed(), WorksAt(), Employers().filter, row)
  {
    assert forall rel: nat, from: nat :: Far(Unemployed(), from, rel, "WORKS_AT", Out) == None;
  }

  lemma SurvivorIsDeferredRow()
    ensures IsDeferredRow(Unemployed(), Employers(), 0, Survivor())
  {
    hide NothingPasses, Aliases, Far;
    var g, q, row := Unemployed(), Employers(), Survivor();
    EmployersScoped();
    NobodyEmployed(row);
    assert NodeMatches(g, 0, q.start);
    assert row.Keys == {"p", "w", "c"};
    assert q.traversals[0] == WorksAt() && |q.traversals| == 1;
  }

  /** The person without an employer is returned although the filter on the employer is not true. */
  lemma UnemployedSurvives()
    ensures Survivor() in EmittedRows(Unemployed(), Employers())
    ensures !IsAnswer(Unemployed(), Employers(), Survivor())
  {
    hide IsDeferredRow, EmittedRows, Scoped, Deferred, LastOptional;
    var g, q, row := Unemployed(), Employers(), Survivor();
    EmployersScoped();
    SurvivorIsDeferredRow();
    assert ValidGraph(g);
    LateWhereIsExact(g, q, 0);
    assert EvalFilter(g, row, Poor()) == Unknown;
  }
}
