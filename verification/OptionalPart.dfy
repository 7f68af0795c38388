/** The emitted OPTIONAL MATCH clauses, and the filter wherever it is written, as conditions on final rows. */
module OptionalPart {
  import opened Common
  import opened Ast
  import opened Cypher
  import opened WherePart
  import opened Comparisons
  import opened WhereReading
  import opened MatchPart
  import opened Semantics
  import opened Matching
  import opened Reference
  import opened RequiredPart

  // ---- chains: the running set against pairs ----

  ghost predicate InOpenChain(q: ReadQuery, i: nat, k: nat)
    requires i < k <= |q.traversals|
  {
    && !q.traversals[i].optional
    && forall m :: i < m < k && !q.traversals[m].optional ==> q.traversals[m].fromAlias == Endpoint(q, m)
  }

  ghost predicate UsedBy(q: ReadQuery, i: nat, k: nat, row: Row, rel: nat)
    requires i < k <= |q.traversals|
  {
    InOpenChain(q, i, k) && q.traversals[i].edgeAlias in row && rel in RelsOf(row[q.traversals[i].edgeAlias])
  }

  lemma {:induction false} ChainMember(q: ReadQuery, k: nat, row: Row, rel: nat)
    requires k <= |q.traversals|
    ensures rel in ChainRels(q, k, row) <==> exists i :: 0 <= i < k && UsedBy(q, i, k, row, rel)
  {
    if k > 0 {
      ChainMember(q, k - 1, row, rel);
      var t := q.traversals[k - 1];
      forall i | 0 <= i < k - 1
        ensures UsedBy(q, i, k, row, rel)
           <==> UsedBy(q, i, k - 1, row, rel) && (t.optional || t.fromAlias == Endpoint(q, k - 1))
      {
      }
      var own := !t.optional && t.edgeAlias in row && rel in RelsOf(row[t.edgeAlias]);
      assert UsedBy(q, k - 1, k, row, rel) <==> own;
      if rel in ChainRels(q, k, row) && !own {
        var i :| 0 <= i < k - 1 && UsedBy(q, i, k - 1, row, rel);
        assert UsedBy(q, i, k, row, rel);
      }
    }
  }

  /** The running check against the open chain is the check of every pair along one chain. */
  lemma ApartFromChain(q: ReadQuery, k: nat, row: Row)
    requires k < |q.traversals| && !q.traversals[k].optional && q.traversals[k].edgeAlias in row
    ensures (q.traversals[k].fromAlias == Endpoint(q, k) ==>
               RelsOf(row[q.traversals[k].edgeAlias]) !! ChainRels(q, k, row))
       <==> forall i :: 0 <= i < k ==> Apart(q, i, k, row)
  {
    var t := q.traversals[k];
    var own := RelsOf(row[t.edgeAlias]);
    forall i | 0 <= i < k && !q.traversals[i].optional
      ensures SameChain(q, i, k) <==> InOpenChain(q, i, k) && t.fromAlias == Endpoint(q, k)
    {
    }
    if forall i :: 0 <= i < k ==> Apart(q, i, k, row) {
      if t.fromAlias == Endpoint(q, k) {
        forall rel | rel in own ensures rel !in ChainRels(q, k, row) {
          ChainMember(q, k, row, rel);
          forall i | 0 <= i < k ensures !UsedBy(q, i, k, row, rel) {
            assert Apart(q, i, k, row);
          }
        }
      }
    } else {
      var i :| 0 <= i < k && !Apart(q, i, k, row);
      var rel :| rel in RelsOf(row[q.traversals[i].edgeAlias]) && rel in own;
      ChainMember(q, k, row, rel);
      assert UsedBy(q, i, k, row, rel);
    }
  }

  ghost predicate RequiredHold(g: Graph, q: ReadQuery, k: nat, row: Row)
    requires k <= |q.traversals|
  {
    && StartHolds(g, q, row)
    && (forall i :: 0 <= i < k && !q.traversals[i].optional ==> Holds(g, q.traversals[i], row))
    && (forall i, j :: 0 <= i < j < k ==> Apart(q, i, j, row))
  }

  lemma {:induction false} RequiredOkIsRequiredHold(g: Graph, q: ReadQuery, k: nat, row: Row)
    requires k <= |q.traversals|
    ensures RequiredOk(g, q, k, row) <==> RequiredHold(g, q, k, row)
  {
    hide Holds, StartHolds, ChainRels;
    if k > 0 {
      RequiredOkIsRequiredHold(g, q, k - 1, row);
      var t := q.traversals[k - 1];
      if !t.optional && Holds(g, t, row) {
        HoldsBinds(g, t, row);
        ApartFromChain(q, k - 1, row);
      }
    }
  }

  lemma HoldsBinds(g: Graph, t: EdgeTraversal, row: Row)
    requires Holds(g, t, row)
    ensures t.fromAlias in row && t.edgeAlias in row && t.target.alias in row
  {
  }

  // ---- conditions ----

  /** The written condition decides as the filter does. */
  ghost predicate SameCondition(g: Graph, params: map<string, Literal>, condition: Option<Expr>,
                                f: Option<FilterExpression>) {
    && (condition.Some? <==> f.Some?)
    && (f.Some? ==> forall row :: Evaluate(g, params, row, condition.value) == EvalFilter(g, row, f.value))
  }

  lemma {:induction false} EvaluateNumbered(g: Graph, params: map<string, Literal>, row: Row, f: FilterExpression,
                                            n: nat)
    requires Carries(params, n, Leaves(f))
    ensures Evaluate(g, params, row, Numbered(f, n)) == EvalFilter(g, row, f)
    decreases f
  {
    match f {
      case Pred(p) =>
        assert At(params, n) == Some(Leaves(f)[0]);
        WrittenAsks(g, row, p);
      case Not(inner) =>
        EvaluateNumbered(g, params, row, inner, n);
      case And(parts) =>
        EvaluateAllNumbered(g, params, row, parts, n);
      case Or(parts) =>
        EvaluateAllNumbered(g, params, row, parts, n);
    }
  }

  lemma {:induction false} EvaluateAllNumbered(g: Graph, params: map<string, Literal>, row: Row,
                                               parts: List<FilterExpression>, n: nat)
    requires Carries(params, n, LeavesOfAll(parts))
    ensures EvaluateAnd(g, params, row, NumberedAll(parts, n)) == EvalAll(g, row, parts)
    ensures EvaluateOr(g, params, row, NumberedAll(parts, n)) == EvalAny(g, row, parts)
    decreases parts
  {
    match parts {
      case Nil =>
      case Cons(p, rest) =>
        LeavesAreBound(p, n, params);
        EvaluateNumbered(g, params, row, p, n);
        EvaluateAllNumbered(g, params, row, rest, n + LeafCount(p));
    }
  }

  // ---- one optional clause over one row ----

  function OptionalPath(t: EdgeTraversal): Path {
    Path(NodePattern(t.fromAlias, []), [StepOf(t)])
  }

  function With(row: Row, t: EdgeTraversal, edge: Value, to: Value): Row {
    row[t.edgeAlias := edge][t.target.alias := to]
  }

  /** No match of `t` from this row passes the filter written in its clause. */
  ghost predicate NothingPasses(g: Graph, t: EdgeTraversal, f: Option<FilterExpression>, row: Row) {
    t.fromAlias in row && row[t.fromAlias].NodeV? ==>
      forall edge, to :: Linked(g, t, row[t.fromAlias].id, edge, to) ==> !Passes(g, With(row, t, edge, NodeV(to)), f)
  }

  /** What an OPTIONAL MATCH carrying condition `f` makes of a row. */
  ghost predicate OptionalStep(g: Graph, t: EdgeTraversal, f: Option<FilterExpression>, row: Row, row': Row) {
    && t.edgeAlias in row' && t.target.alias in row'
    && row' == With(row, t, row'[t.edgeAlias], row'[t.target.alias])
    && (|| (Holds(g, t, row') && Passes(g, row', f))
        || (row'[t.edgeAlias] == NullV && row'[t.target.alias] == NullV && NothingPasses(g, t, f, row)))
  }

  ghost predicate Ready(g: Graph, t: EdgeTraversal, row: Row) {
    && t.fromAlias in row && (row[t.fromAlias] == NullV || (row[t.fromAlias].NodeV? && row[t.fromAlias].id < |g.nodes|))
    && t.edgeAlias !in row && t.target.alias !in row && t.edgeAlias != t.target.alias
  }

  /** The matches of an optional pattern from a row, before its condition. */
  lemma OptionalMatches(g: Graph, t: EdgeTraversal, row: Row)
    requires ValidGraph(g) && Ready(g, t, row)
    ensures NoDup(PathPartials(g, row, OptionalPath(t)))
    ensures forall p :: p in PathPartials(g, row, OptionalPath(t)) <==>
              row[t.fromAlias].NodeV? && Extends(g, Partial(row, row[t.fromAlias].id, {}), StepOf(t), p)
  {
    hide Hops, Extends, NoDup;
    var path := OptionalPath(t);
    assert path.steps[..0] == [];
    assert PathPartials(g, row, path)
        == FlatMap(PathPartials(g, row, Path(path.start, path.steps[..0])), Expand(g, path.steps[0]));
    if row[t.fromAlias].NodeV? {
      var p := Partial(row, row[t.fromAlias].id, {});
      assert Starts(g, row, path.start) == [p];
      FlatMapOne(p, Expand(g, StepOf(t)));
      ExpandExact(g, p, StepOf(t));
    } else {
      assert Starts(g, row, path.start) == [];
      Trivial<Partial>();
    }
  }

  lemma KeptMatches(g: Graph, params: map<string, Literal>, t: EdgeTraversal, condition: Option<Expr>,
                    f: Option<FilterExpression>, row: Row)
    requires ValidGraph(g) && Ready(g, t, row) && SameCondition(g, params, condition, f)
    ensures var kept := FlatMap(PathPartials(g, row, OptionalPath(t)), Keep(g, params, condition));
            NoDup(kept) && forall row' :: row' in kept <==> Kept(g, t, f, row, row')
  {
    hide PathPartials, Extends, Linked;
    var matches, keep := PathPartials(g, row, OptionalPath(t)), Keep(g, params, condition);
    OptionalMatches(g, t, row);
    forall a, a', b | a in matches && a' in matches && b in keep(a) && b in keep(a') ensures a == a' {
      MatchIsHolds(g, t, row, a);
      MatchIsHolds(g, t, row, a');
    }
    forall a | a in matches ensures NoDup(keep(a)) {
    }
    FlatMapNoDup(matches, keep);
    forall row': Row ensures row' in FlatMap(matches, keep) <==> Kept(g, t, f, row, row') {
      FlatMapMember(matches, keep, row');
      if Kept(g, t, f, row, row') {
        var p := Partial(row', row'[t.target.alias].id, RelsOf(row'[t.edgeAlias]));
        MatchIsHolds(g, t, row, p);
        assert p in matches && row' in keep(p);
      }
      forall p | p in matches && row' in keep(p) ensures Kept(g, t, f, row, row') {
        MatchIsHolds(g, t, row, p);
      }
    }
  }

  ghost predicate Kept(g: Graph, t: EdgeTraversal, f: Option<FilterExpression>, row: Row, row': Row) {
    && t.edgeAlias in row' && t.target.alias in row'
    && row' == With(row, t, row'[t.edgeAlias], row'[t.target.alias])
    && Holds(g, t, row') && Passes(g, row', f)
  }

  lemma MatchIsHolds(g: Graph, t: EdgeTraversal, row: Row, p: Partial)
    requires Ready(g, t, row) && row[t.fromAlias].NodeV?
    ensures Extends(g, Partial(row, row[t.fromAlias].id, {}), StepOf(t), p) <==>
            && t.edgeAlias in p.row && t.target.alias in p.row
            && p.row == With(row, t, p.row[t.edgeAlias], p.row[t.target.alias])
            && Holds(g, t, p.row)
            && p.row[t.target.alias] == NodeV(p.at) && p.used == RelsOf(p.row[t.edgeAlias])
  {
    hide Link, Linked;
    if t.edgeAlias in p.row {
      LinkIsLinked(g, t, row[t.fromAlias].id, p.row[t.edgeAlias], p.at);
    }
  }

  lemma ClauseExact(g: Graph, params: map<string, Literal>, t: EdgeTraversal, condition: Option<Expr>,
                    f: Option<FilterExpression>, row: Row)
    requires ValidGraph(g) && Ready(g, t, row) && SameCondition(g, params, condition, f)
    ensures var rows := ClauseRows(g, params, Clause(true, OptionalPath(t), condition))(row);
            NoDup(rows) && forall row' :: row' in rows <==> OptionalStep(g, t, f, row, row')
  {
    hide PathPartials, Linked, Passes, SameCondition;
    var kept := FlatMap(PathPartials(g, row, OptionalPath(t)), Keep(g, params, condition));
    KeptMatches(g, params, t, condition, f, row);
    var padded := Padded(row, OptionalPath(t));
    assert padded == With(row, t, NullV, NullV) by {
      PaddedRow(t, row);
    }
    if kept == [] {
      NothingKept(g, t, f, row, kept);
    } else {
      var row' := kept[0];
      assert Kept(g, t, f, row, row');
      assert Linked(g, t, row[t.fromAlias].id, row'[t.edgeAlias], row'[t.target.alias].id);
      assert row' == With(row, t, row'[t.edgeAlias], NodeV(row'[t.target.alias].id));
      assert !NothingPasses(g, t, f, row);
    }
  }

  lemma PaddedRow(t: EdgeTraversal, row: Row)
    requires t.fromAlias in row && t.edgeAlias !in row && t.target.alias !in row && t.edgeAlias != t.target.alias
    ensures Padded(row, OptionalPath(t)) == With(row, t, NullV, NullV)
  {
    var path := OptionalPath(t);
    assert path.steps[0].edge == t.edgeAlias && path.steps[0].target.alias == t.target.alias;
    assert PathAliases(path) == {t.fromAlias, t.edgeAlias, t.target.alias};
  }

  lemma NothingKept(g: Graph, t: EdgeTraversal, f: Option<FilterExpression>, row: Row, kept: seq<Row>)
    requires Ready(g, t, row) && kept == []
    requires forall row' :: row' in kept <==> Kept(g, t, f, row, row')
    ensures NothingPasses(g, t, f, row)
  {
    if row[t.fromAlias].NodeV? {
      forall edge, to | Linked(g, t, row[t.fromAlias].id, edge, to)
        ensures !Passes(g, With(row, t, edge, NodeV(to)), f)
      {
        assert !Kept(g, t, f, row, With(row, t, edge, NodeV(to)));
      }
    }
  }

  // ---- all optional clauses ----

  function OptionalClauses(q: ReadQuery, k: nat): seq<Clause>
    requires k <= |q.traversals|
  {
    if k == 0 then []
    else if q.traversals[k - 1].optional then
      OptionalClauses(q, k - 1) + [Clause(true, OptionalPath(q.traversals[k - 1]), None)]
    else OptionalClauses(q, k - 1)
  }

  /** The required clauses, the condition attached to the last of them. */
  function RequiredClauses(q: ReadQuery, condition: Option<Expr>): seq<Clause> {
    var paths := RequiredPaths(q, |q.traversals|);
    Bare(paths[..|paths| - 1]) + [Clause(false, paths[|paths| - 1], condition)]
  }

  ghost predicate OptionalsHold(g: Graph, q: ReadQuery, k: nat, row: Row)
    requires k <= |q.traversals|
  {
    forall i :: 0 <= i < k && q.traversals[i].optional ==> OptionalHolds(g, q.traversals[i], row)
  }

  /** A row after the required clauses and the first `k` traversals' optional ones. */
  ghost predicate Joined(g: Graph, q: ReadQuery, f: Option<FilterExpression>, k: nat, row: Row)
    requires k <= |q.traversals|
  {
    && row.Keys == Bound(q, false, |q.traversals|) + Bound(q, true, k)
    && RequiredOk(g, q, |q.traversals|, row)
    && Passes(g, row, f)
    && OptionalsHold(g, q, k, row)
  }

  ghost predicate RowsAre(rows: seq<Row>, p: Row -> bool) {
    NoDup(rows) && forall row :: row in rows <==> p(row)
  }

  ghost function JoinedFn(g: Graph, q: ReadQuery, f: Option<FilterExpression>, k: nat): Row -> bool
    requires k <= |q.traversals|
  {
    row => Joined(g, q, f, k, row)
  }

  lemma RequiredRows(g: Graph, params: map<string, Literal>, q: ReadQuery, condition: Option<Expr>,
                     f: Option<FilterExpression>)
    requires ValidGraph(g) && Scoped(q) && SameCondition(g, params, condition, f)
    ensures RowsAre(RunClauses(g, params, RequiredClauses(q, condition)), JoinedFn(g, q, f, 0))
  {
    hide SameCondition, Scoped, RequiredOk, PathPartials;
    var n := |q.traversals|;
    var paths := RequiredPaths(q, n);
    var init, last := paths[..|paths| - 1], paths[|paths| - 1];
    var c, keep := Clause(false, last, condition), Keep(g, params, condition);
    assert (Bare(init) + [c])[..|Bare(init)|] == Bare(init);
    ReachedExact(g, params, q, n);
    var reached := Reached(g, params, q, n);
    FlatMapNested(RunClauses(g, params, Bare(init)), PathPartialsFn(g, last), keep, ClauseRows(g, params, c));
    assert RunClauses(g, params, RequiredClauses(q, condition)) == FlatMap(reached, keep);
    KeptRequired(g, params, q, condition, f, reached);
  }

  lemma KeptRequired(g: Graph, params: map<string, Literal>, q: ReadQuery, condition: Option<Expr>,
                     f: Option<FilterExpression>, reached: seq<Partial>)
    requires Scoped(q) && SameCondition(g, params, condition, f)
    requires NoDup(reached) && forall p :: p in reached <==> Good(g, q, |q.traversals|, p)
    ensures RowsAre(FlatMap(reached, Keep(g, params, condition)), JoinedFn(g, q, f, 0))
  {
    hide RequiredOk, Scoped, EvalFilter, Evaluate, ChainRels, Endpoint, BoundNodes;
    var n, keep := |q.traversals|, Keep(g, params, condition);
    forall a, a', b | a in reached && a' in reached && b in keep(a) && b in keep(a') ensures a == a' {
      assert a.row == b && a'.row == b;
    }
    FlatMapNoDup(reached, keep);
    forall row: Row ensures row in FlatMap(reached, keep) <==> Joined(g, q, f, 0, row) {
      FlatMapMember(reached, keep, row);
      if Joined(g, q, f, 0, row) {
        EndpointIsNode(q, n);
        NodesAreNodes(g, q, n, row, Endpoint(q, n));
        var p := Partial(row, row[Endpoint(q, n)].id, ChainRels(q, n, row));
        assert Good(g, q, n, p) && row in keep(p);
      }
    }
  }

  /** An alias an optional traversal binds to a node, or to null. */
  lemma {:induction false} OptionalNodes(g: Graph, q: ReadQuery, k: nat, row: Row, a: string)
    requires k <= |q.traversals| && OptionalsHold(g, q, k, row) && a in BoundNodes(q, true, k)
    ensures a in row && (row[a] == NullV || (row[a].NodeV? && row[a].id < |g.nodes|))
  {
    if q.traversals[k - 1].optional && a == q.traversals[k - 1].target.alias {
      assert OptionalHolds(g, q.traversals[k - 1], row);
    } else {
      OptionalNodes(g, q, k - 1, row, a);
    }
  }

  lemma JoinedIsReady(g: Graph, q: ReadQuery, f: Option<FilterExpression>, k: nat, row: Row)
    requires Scoped(q) && k < |q.traversals| && q.traversals[k].optional && Joined(g, q, f, k, row)
    ensures Ready(g, q.traversals[k], row)
  {
    assert ScopedFrom(q, k);
    var t := q.traversals[k];
    if t.fromAlias in BoundNodes(q, true, k) {
      OptionalNodes(g, q, k, row, t.fromAlias);
    } else {
      NodesAreNodes(g, q, |q.traversals|, row, t.fromAlias);
    }
    OwnAliasesAreFresh(q, false, k, |q.traversals|);
    OwnAliasesAreFresh(q, true, k, k);
  }

  /** The row an optional traversal extended. */
  ghost function Before(q: ReadQuery, k: nat, row: Row): Row
    requires k < |q.traversals|
  {
    map a | a in row && a in Bound(q, false, |q.traversals|) + Bound(q, true, k) :: row[a]
  }

  /** Rows that agree on everything bound so far are joined alike. */
  lemma JoinedReads(g: Graph, q: ReadQuery, f: Option<FilterExpression>, k: nat, row: Row, row': Row)
    requires Scoped(q) && k < |q.traversals| && q.traversals[k].optional
    requires f.Some? ==> ReferencedAliases(f.value) <= Bound(q, false, |q.traversals|) + Bound(q, true, k)
    requires forall a :: a in Bound(q, false, |q.traversals|) + Bound(q, true, k) ==>
               a in row && a in row' && row[a] == row'[a]
    ensures RequiredOk(g, q, |q.traversals|, row) == RequiredOk(g, q, |q.traversals|, row')
    ensures Passes(g, row, f) == Passes(g, row', f)
    ensures OptionalsHold(g, q, k, row) == OptionalsHold(g, q, k, row')
  {
    RequiredReads(g, q, |q.traversals|, row, row');
    if f.Some? {
      FilterReads(g, row, row', f.value);
    }
    forall i | 0 <= i < k && q.traversals[i].optional
      ensures OptionalHolds(g, q.traversals[i], row) == OptionalHolds(g, q.traversals[i], row')
    {
      OptionalReads(g, q, i, k, row, row');
    }
  }

  lemma OptionalReads(g: Graph, q: ReadQuery, i: nat, k: nat, row: Row, row': Row)
    requires Scoped(q) && i < k <= |q.traversals| && q.traversals[i].optional
    requires forall a :: a in Bound(q, false, |q.traversals|) + Bound(q, true, k) ==>
               a in row && a in row' && row[a] == row'[a]
    ensures OptionalHolds(g, q.traversals[i], row) == OptionalHolds(g, q.traversals[i], row')
  {
    assert ScopedFrom(q, i);
    NodesAreBound(q, false, |q.traversals|);
    NodesAreBound(q, true, i);
    BoundGrows(q, true, i + 1, k);
    BoundGrows(q, true, i, k);
  }

  lemma {:induction false} BoundGrows(q: ReadQuery, optional: bool, i: nat, k: nat)
    requires i <= k <= |q.traversals|
    ensures Bound(q, optional, i) <= Bound(q, optional, k)
  {
    if i < k {
      BoundGrows(q, optional, i, k - 1);
    }
  }

  ghost predicate StepAfter(g: Graph, q: ReadQuery, f: Option<FilterExpression>, k: nat,
                            written: Option<FilterExpression>, row: Row)
    requires k < |q.traversals|
  {
    Joined(g, q, f, k, Before(q, k, row)) && OptionalStep(g, q.traversals[k], written, Before(q, k, row), row)
  }

  ghost function StepAfterFn(g: Graph, q: ReadQuery, f: Option<FilterExpression>, k: nat,
                             written: Option<FilterExpression>): Row -> bool
    requires k < |q.traversals|
  {
    row => StepAfter(g, q, f, k, written, row)
  }

  /** One more optional clause, whatever filter it carries. */
  lemma NextClause(g: Graph, params: map<string, Literal>, q: ReadQuery, f: Option<FilterExpression>, k: nat,
                   rows: seq<Row>, condition: Option<Expr>, written: Option<FilterExpression>)
    requires ValidGraph(g) && Scoped(q) && k < |q.traversals| && q.traversals[k].optional
    requires RowsAre(rows, JoinedFn(g, q, f, k)) && SameCondition(g, params, condition, written)
    ensures RowsAre(RunClause(g, params, Clause(true, OptionalPath(q.traversals[k]), condition), rows),
                    StepAfterFn(g, q, f, k, written))
  {
    hide Joined, OptionalStep, SameCondition, Scoped, ClauseRows, NoDup;
    var t := q.traversals[k];
    var run := ClauseRows(g, params, Clause(true, OptionalPath(t), condition));
    forall a | a in rows
      ensures NoDup(run(a)) && forall row :: row in run(a) <==> OptionalStep(g, t, written, a, row)
    {
      assert JoinedFn(g, q, f, k)(a);
      JoinedIsReady(g, q, f, k, a);
      ClauseExact(g, params, t, condition, written, a);
    }
    forall a, row | a in rows && row in run(a) ensures a == Before(q, k, row) {
      assert JoinedFn(g, q, f, k)(a);
      StepBack(g, q, f, k, written, a, row);
    }
    forall a, a', b | a in rows && a' in rows && b in run(a) && b in run(a') ensures a == a' {
      assert a == Before(q, k, b) && a' == Before(q, k, b);
    }
    FlatMapNoDup(rows, run);
    forall row ensures row in FlatMap(rows, run) <==> StepAfter(g, q, f, k, written, row) {
      FlatMapMember(rows, run, row);
      if StepAfter(g, q, f, k, written, row) {
        assert JoinedFn(g, q, f, k)(Before(q, k, row));
      }
    }
  }

  lemma StepBack(g: Graph, q: ReadQuery, f: Option<FilterExpression>, k: nat, written: Option<FilterExpression>,
                 row: Row, row': Row)
    requires Scoped(q) && k < |q.traversals| && q.traversals[k].optional
    requires Joined(g, q, f, k, row) && OptionalStep(g, q.traversals[k], written, row, row')
    ensures row == Before(q, k, row')
  {
    OwnAliasesAreFresh(q, false, k, |q.traversals|);
    OwnAliasesAreFresh(q, true, k, k);
  }

  /** A clause without a condition asks exactly its own traversal of the extended row. */
  lemma PlainStep(g: Graph, q: ReadQuery, f: Option<FilterExpression>, k: nat, row: Row)
    requires Scoped(q) && k < |q.traversals| && q.traversals[k].optional
    requires f.Some? ==> ReferencedAliases(f.value) <= Bound(q, false, |q.traversals|) + Bound(q, true, k)
    ensures StepAfter(g, q, f, k, None, row) <==> Joined(g, q, f, k + 1, row)
  {
    hide RequiredOk, Holds, OptionalsHold, OptionalHolds;
    var t, before := q.traversals[k], Before(q, k, row);
    var bound := Bound(q, false, |q.traversals|) + Bound(q, true, k);
    OwnAliasesAreFresh(q, false, k, |q.traversals|);
    OwnAliasesAreFresh(q, true, k, k);
    if before.Keys == bound {
      JoinedReads(g, q, f, k, before, row);
      FromIsBound(q, k);
      OptionalsGrow(g, q, k, row);
      if t.edgeAlias in row && t.target.alias in row {
        assert row.Keys == bound + OwnAliases(t) <==> row == With(before, t, row[t.edgeAlias], row[t.target.alias]);
        OptionalHoldsAre(g, t, row);
      }
    }
  }

  lemma FromIsBound(q: ReadQuery, k: nat)
    requires Scoped(q) && k < |q.traversals| && q.traversals[k].optional
    ensures q.traversals[k].fromAlias in Bound(q, false, |q.traversals|) + Bound(q, true, k)
  {
    assert ScopedFrom(q, k);
    NodesAreBound(q, false, |q.traversals|);
    NodesAreBound(q, true, k);
  }

  lemma OptionalsGrow(g: Graph, q: ReadQuery, k: nat, row: Row)
    requires k < |q.traversals| && q.traversals[k].optional
    ensures OptionalsHold(g, q, k + 1, row) <==> OptionalsHold(g, q, k, row) && OptionalHolds(g, q.traversals[k], row)
  {
    hide OptionalHolds;
  }

  lemma OptionalHoldsAre(g: Graph, t: EdgeTraversal, row: Row)
    requires t.fromAlias in row && t.edgeAlias in row && t.target.alias in row
    ensures OptionalHolds(g, t, row) <==>
            (|| Holds(g, t, row)
             || (row[t.edgeAlias] == NullV && row[t.target.alias] == NullV && NothingLinks(g, t, row[t.fromAlias])))
  {
  }

  /** All optional clauses without a condition: exactly the joined rows, each once. */
  lemma {:induction false} OptionalRows(g: Graph, params: map<string, Literal>, q: ReadQuery, condition: Option<Expr>,
                                        f: Option<FilterExpression>, k: nat)
    requires ValidGraph(g) && Scoped(q) && SameCondition(g, params, condition, f) && k <= |q.traversals|
    requires f.Some? ==> ReferencedAliases(f.value) <= Bound(q, false, |q.traversals|)
    ensures RowsAre(RunClauses(g, params, RequiredClauses(q, condition) + OptionalClauses(q, k)), JoinedFn(g, q, f, k))
  {
    hide Scoped, SameCondition, Joined, StepAfter, RunClause;
    var required := RequiredClauses(q, condition);
    if k == 0 {
      assert required + [] == required;
      RequiredRows(g, params, q, condition, f);
    } else {
      OptionalRows(g, params, q, condition, f, k - 1);
      var before := required + OptionalClauses(q, k - 1);
      var rows := RunClauses(g, params, before);
      var t := q.traversals[k - 1];
      if t.optional {
        var c := Clause(true, OptionalPath(t), None);
        assert required + OptionalClauses(q, k) == before + [c];
        assert (before + [c])[..|before|] == before;
        NoCondition(g, params);
        NextClause(g, params, q, f, k - 1, rows, None, None);
        forall row ensures StepAfter(g, q, f, k - 1, None, row) <==> Joined(g, q, f, k, row) {
          PlainStep(g, q, f, k - 1, row);
        }
      } else {
        forall row ensures Joined(g, q, f, k - 1, row) <==> Joined(g, q, f, k, row) {
          JoinedSkips(g, q, f, k - 1, row);
        }
      }
    }
  }

  lemma NoCondition(g: Graph, params: map<string, Literal>)
    ensures SameCondition(g, params, None, None)
  {
  }

  lemma JoinedSkips(g: Graph, q: ReadQuery, f: Option<FilterExpression>, k: nat, row: Row)
    requires k < |q.traversals| && !q.traversals[k].optional
    ensures Joined(g, q, f, k, row) <==> Joined(g, q, f, k + 1, row)
  {
    assert OptionalsHold(g, q, k + 1, row) <==> OptionalsHold(g, q, k, row);
  }
}
