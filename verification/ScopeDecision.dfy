/**
 A required traversal from an optional target: required patterns are all written first, so the target is matched on
 its own before the optional pattern that should bind it. On the tree graph it lands in the wrong copy. A filter saves
 such a query only by letting nothing pass at all.
 */
module ScopeDecision {
  import opened Common
  import opened Ast
  import opened Cypher
  import opened WherePart
  import opened MatchPart
  import opened Semantics
  import opened Matching
  import opened Reference
  import opened RequiredPart
  import opened OptionalPart
  import opened ReadCompiler
  import opened LoopGraphs
  import opened DocumentOrder
  import opened TreeGraphs

  /** Some row of some graph, binding what the required traversals name to things of their kind, passes the filter. */
  ghost predicate Passable(q: ReadQuery) {
    exists x: Sample :: ValidGraph(x.g) && Kinded(x.g, q, |q.traversals|, x.row) && Passes(x.g, x.row, q.filter)
  }

  /** The filter, if there is one, names only what the required traversals bind, so it is not deferred. */
  ghost predicate EarlyFilter(q: ReadQuery) {
    !Deferred(q) && FilterInScope(q)
  }

  // ---- the required patterns reach the tree's row ----

  ghost predicate AtTree(q: ReadQuery, k: nat, p: Partial)
    requires k <= |q.traversals|
  {
    && p.row == TreeRow(q, k) && p.at < Width(q) + Width(q)
    && Endpoint(q, k) in p.row && p.row[Endpoint(q, k)] == NodeV(p.at)
    && forall r :: r in p.used ==> r < Offset(q, k)
  }

  /** Where traversal `k` is taken from: the open end, or its start matched again. */
  ghost function Departure(q: ReadQuery, k: nat, p: Partial): Partial
    requires k < |q.traversals|
  {
    if q.traversals[k].fromAlias == Endpoint(q, k) then p else Partial(Started(q, k), FromId(q, k), {})
  }

  ghost function Arrival(q: ReadQuery, k: nat, p: Partial): Partial
    requires k < |q.traversals|
  {
    Partial(TreeRow(q, k + 1), TargetId(q, k), Departure(q, k, p).used + RelsOf(TreeEdge(q, k)))
  }

  lemma Departs(q: ReadQuery, k: nat, p: Partial)
    requires k < |q.traversals| && InOrder(q) && AtTree(q, k, p)
    ensures var l := Departure(q, k, p);
            l.row == Started(q, k) && l.at == FromId(q, k) && l.at < Width(q) + Width(q)
            && forall r :: r in l.used ==> r < Offset(q, k)
  {
    hide InOrder, TreeRow, Offset;
    TreeRowOk(q, k);
    StartedOk(q, k);
  }

  lemma Arrives(q: ReadQuery, x: Sample, k: nat, p: Partial)
    requires k < |q.traversals| && InOrder(q) && DepthsPositive(q) && !q.traversals[k].optional && AtTree(q, k, p)
    ensures Arrival(q, k, p) in Expand(Tree(q, x), StepOf(q.traversals[k]))(Departure(q, k, p))
    ensures AtTree(q, k + 1, Arrival(q, k, p))
  {
    hide Tree, Linked, Link, TreeEdge, InOrder, DepthsPositive, Expand, Bound, BoundNodes, TargetId, FromId, Started;
    hide Departure;
    var g, t, l, p' := Tree(q, x), q.traversals[k], Departure(q, k, p), Arrival(q, k, p);
    Departs(q, k, p);
    TreeRowOk(q, k);
    StartedOk(q, k);
    TargetSide(q, k);
    OwnAliasesAreNew(q, k);
    NodesAreBound(q, true, k);
    TreeIsValid(q, x);
    TreeLinks(q, x, k);
    TreeRels(q, k);
    OffsetGrows(q, k, k + 1);
    LinkIsLinked(g, t, FromId(q, k), TreeEdge(q, k), TargetId(q, k));
    ExpandExact(g, l, StepOf(t));
    assert Extends(g, l, StepOf(t), p');
  }

  lemma StartsThere(q: ReadQuery, x: Sample, k: nat, p: Partial)
    requires k < |q.traversals| && InOrder(q) && AtTree(q, k, p) && q.traversals[k].fromAlias != Endpoint(q, k)
    ensures Departure(q, k, p) in Starts(Tree(q, x), p.row, NodePattern(q.traversals[k].fromAlias, []))
  {
    hide InOrder, Labelling, Branches, TreeRow, NodeProps;
    TreeRowOk(q, k);
    StartedOk(q, k);
    var g, start, l := Tree(q, x), NodePattern(q.traversals[k].fromAlias, []), Departure(q, k, p);
    if start.alias !in p.row {
      var root := Width(q);
      FlatMapMember(Upto(|g.nodes|), StartAt(g, p.row, start), l);
      assert Upto(|g.nodes|)[root] == root && l in StartAt(g, p.row, start)(root);
    }
  }

  lemma NextReached(params: map<string, Literal>, q: ReadQuery, x: Sample, k: nat, p: Partial)
    requires k < |q.traversals| && InOrder(q) && DepthsPositive(q) && !q.traversals[k].optional && AtTree(q, k, p)
    requires p in Reached(Tree(q, x), params, q, k)
    ensures Arrival(q, k, p) in Reached(Tree(q, x), params, q, k + 1)
  {
    hide Tree, AtTree, InOrder, DepthsPositive, Arrival, Departure, Expand, PathPartials, Starts;
    var g, t, p' := Tree(q, x), q.traversals[k], Arrival(q, k, p);
    Arrives(q, x, k, p);
    if t.fromAlias == Endpoint(q, k) {
      ReachedChain(g, params, q, k);
      SameDeparture(q, k, p);
      assert Launch(q, k, p) == p;
      assert p' in Onward(g, q, k)(p);
      FlatMapMember(Reached(g, params, q, k), Onward(g, q, k), p');
    } else {
      StartsThere(q, x, k, p);
      var paths, path := RequiredPaths(q, k), OptionalPath(t);
      assert (paths + [path])[..|paths|] == paths;
      ReachedRows(g, params, q, k);
      FlatMapMember(Reached(g, params, q, k), RowOf(), p.row);
      assert p.row in RowOf()(p);
      SingleStep(g, p.row, t, Departure(q, k, p), p');
      var rows := RunClauses(g, params, Bare(paths));
      FlatMapMember(rows, PathPartialsFn(g, path), p');
      assert p' in PathPartialsFn(g, path)(p.row);
    }
  }

  lemma SameDeparture(q: ReadQuery, k: nat, p: Partial)
    requires k < |q.traversals| && q.traversals[k].fromAlias == Endpoint(q, k)
    ensures Departure(q, k, p) == p
  {
  }

  lemma {:induction false} TreeReached(params: map<string, Literal>, q: ReadQuery, x: Sample, k: nat)
    returns (p: Partial)
    requires k <= |q.traversals| && InOrder(q) && DepthsPositive(q)
    ensures p in Reached(Tree(q, x), params, q, k) && AtTree(q, k, p)
  {
    hide Tree, AtTree, InOrder, DepthsPositive, Reached, Arrival;
    if k == 0 {
      p := FirstReached(params, q, x);
    } else {
      p := TreeReached(params, q, x, k - 1);
      if q.traversals[k - 1].optional {
        ReachedSkips(Tree(q, x), params, q, k - 1);
        StillAtTree(q, k - 1, p);
      } else {
        NextReached(params, q, x, k - 1, p);
        Arrives(q, x, k - 1, p);
        p := Arrival(q, k - 1, p);
      }
    }
  }

  lemma StillAtTree(q: ReadQuery, k: nat, p: Partial)
    requires k < |q.traversals| && q.traversals[k].optional && AtTree(q, k, p)
    ensures AtTree(q, k + 1, p)
  {
    assert TreeRow(q, k + 1) == TreeRow(q, k) && Endpoint(q, k + 1) == Endpoint(q, k);
  }

  lemma FirstReached(params: map<string, Literal>, q: ReadQuery, x: Sample) returns (p: Partial)
    ensures p in Reached(Tree(q, x), params, q, 0) && AtTree(q, 0, p)
  {
    hide Branches, NodeProps;
    var g, row: Row := Tree(q, x), map[];
    p := Partial(row[q.start.alias := NodeV(0)], 0, {});
    StartsExact(g, params, q);
    LabelsAreCarried(q, |q.traversals|);
    assert Good(g, q, 0, p);
  }

  // ---- answers never leave the first copy ----

  lemma {:induction false} WalkKeepsSide(q: ReadQuery, x: Sample, from: nat, rels: seq<nat>, edgeType: string,
                                         dir: Direction)
    requires OneSided(q, Tree(q, x).rels)
    ensures var to := Walk(Tree(q, x), from, rels, edgeType, dir);
            to.Some? ==> SideOf(q, to.value) == SideOf(q, from)
    decreases rels
  {
    hide Tree, SideOf, Alternatives;
    if rels != [] {
      match Far(Tree(q, x), from, rels[0], edgeType, dir)
      case None =>
      case Some(next) => WalkKeepsSide(q, x, next, rels[1..], edgeType, dir);
    }
  }

  lemma LinksKeepSide(q: ReadQuery, x: Sample, t: EdgeTraversal, from: nat, edge: Value, to: nat)
    requires InOrder(q) && Linked(Tree(q, x), t, from, edge, to)
    ensures SideOf(q, to) == SideOf(q, from)
  {
    hide Tree, SideOf, Alternatives, InOrder, NodeMatches;
    TreeIsValid(q, x);
    if edge.TrailV? {
      WalkKeepsSide(q, x, from, edge.ids, t.edgeLabel, t.direction);
    }
  }

  ghost predicate AtHome(q: ReadQuery, row: Row, a: string) {
    a in row && (row[a] == NullV || (row[a].NodeV? && SideOf(q, row[a].id) == 0))
  }

  lemma AnswerStays(q: ReadQuery, x: Sample, row: Row, i: nat)
    requires InOrder(q) && i < |q.traversals| && IsAnswer(Tree(q, x), q, row)
    requires AtHome(q, row, q.traversals[i].fromAlias)
    ensures AtHome(q, row, q.traversals[i].target.alias)
  {
    hide Tree, Linked, StartHolds, ChainsAreTrails, NothingLinks, Aliases, Passes, InOrder, SideOf;
    var g, t := Tree(q, x), q.traversals[i];
    assert if t.optional then OptionalHolds(g, t, row) else Holds(g, t, row);
    if Holds(g, t, row) {
      LinksKeepSide(q, x, t, row[t.fromAlias].id, row[t.edgeAlias], row[t.target.alias].id);
    }
  }

  lemma {:induction false} AnswersStay(q: ReadQuery, x: Sample, row: Row, k: nat)
    requires InOrder(q) && k <= |q.traversals| && IsAnswer(Tree(q, x), q, row) && AtHome(q, row, q.start.alias)
    ensures forall a :: a in BoundNodes(q, false, k) + BoundNodes(q, true, k) ==> AtHome(q, row, a)
  {
    hide Tree, IsAnswer, AtHome, DistinctAliases;
    if k > 0 {
      AnswersStay(q, x, row, k - 1);
      AnswerStays(q, x, row, k - 1);
    }
  }

  // ---- what the required clauses keep ----

  lemma RequiredIsReached(g: Graph, params: map<string, Literal>, q: ReadQuery, condition: Option<Expr>)
    ensures RunClauses(g, params, RequiredClauses(q, condition))
         == FlatMap(Reached(g, params, q, |q.traversals|), Keep(g, params, condition))
  {
    hide PathPartials;
    var paths := RequiredPaths(q, |q.traversals|);
    var init, last := paths[..|paths| - 1], paths[|paths| - 1];
    var c := Clause(false, last, condition);
    assert (Bare(init) + [c])[..|Bare(init)|] == Bare(init);
    FlatMapNested(RunClauses(g, params, Bare(init)), PathPartialsFn(g, last), Keep(g, params, condition),
                  ClauseRows(g, params, c));
  }

  /** On the tree of a sample the filter lets the tree's row pass. */
  lemma TreeRowIsKept(q: ReadQuery, x: Sample) returns (row: Row)
    requires InOrder(q) && DepthsPositive(q) && EarlyFilter(q)
    requires Kinded(x.g, q, |q.traversals|, x.row) && Passes(x.g, x.row, q.filter)
    ensures row == TreeRow(q, |q.traversals|)
    ensures row in RunClauses(Tree(q, x), BindingParams(q), RequiredClauses(q, Condition(q)))
  {
    hide Tree, InOrder, DepthsPositive, Kinded, RunClauses, RequiredClauses, Deferred, Reached, Condition, TreeRow;
    var g, n, params := Tree(q, x), |q.traversals|, BindingParams(q);
    var p := TreeReached(params, q, x, n);
    row := p.row;
    TreeReads(q, x);
    FilterIsSameCondition(g, q);
    if q.filter.Some? {
      assert SameReads(g, row, x.g, x.row, ReferencedAliases(q.filter.value));
      FilterReadsSame(g, row, x.g, x.row, q.filter.value);
    }
    RequiredIsReached(g, params, q, Condition(q));
    assert row in Keep(g, params, Condition(q))(p);
    FlatMapMember(Reached(g, params, q, n), Keep(g, params, Condition(q)), row);
  }

  /** The clauses of a query whose required traversal strays bind a row that is no answer, if its filter passes any. */
  lemma StrayBindsTooMuch(q: ReadQuery, x: Sample) returns (row: Row)
    requires InOrder(q) && DepthsPositive(q) && EarlyFilter(q) && !Scoped(q)
    requires Kinded(x.g, q, |q.traversals|, x.row) && Passes(x.g, x.row, q.filter)
    ensures row in EmittedRows(Tree(q, x), q) && !IsAnswer(Tree(q, x), q, row)
  {
    hide Tree, InOrder, DepthsPositive, Scoped, IsAnswer, RunClauses, RequiredClauses, OptionalClauses, Items, Strays;
    hide Deferred, Kinded, Passes, Condition, TreeRow, FilterInScope;
    var g, n, params := Tree(q, x), |q.traversals|, BindingParams(q);
    var i := SomethingStrays(q);
    StraysStay(q, i, n);
    TreeRowOk(q, n);
    var kept := TreeRowIsKept(q, x);
    EarlyClauses(q);
    OptionalClausesAreOptional(q, n);
    row := OptionalsExtend(g, params, RequiredClauses(q, Condition(q)), OptionalClauses(q, n), kept);
    BoundNodesGrow(q, true, i, n);
    StraysAreBound(q, i);
    assert q.traversals[i].fromAlias in BoundNodes(q, false, n) + BoundNodes(q, true, n);
    if IsAnswer(g, q, row) {
      AnswersStay(q, x, row, n);
    }
  }

  // ---- a filter that passes nothing ----

  lemma {:induction false} NothingFromNothing(g: Graph, params: map<string, Literal>, required: seq<Clause>,
                                              cs: seq<Clause>)
    requires RunClauses(g, params, required) == []
    ensures RunClauses(g, params, required + cs) == []
    decreases |cs|
  {
    if cs == [] {
      assert required + cs == required;
    } else {
      NothingFromNothing(g, params, required, cs[..|cs| - 1]);
      assert (required + cs)[..|required + cs| - 1] == required + cs[..|cs| - 1];
    }
  }

  lemma NothingKept(g: Graph, q: ReadQuery)
    requires ValidGraph(g) && InOrder(q) && !Passable(q)
    ensures RunClauses(g, BindingParams(q), RequiredClauses(q, Condition(q))) == []
  {
    hide InOrder, RunClauses, RequiredClauses, Reached, Kinded, Passes, ValidGraph;
    var n, params := |q.traversals|, BindingParams(q);
    RequiredIsReached(g, params, q, Condition(q));
    var rows := FlatMap(Reached(g, params, q, n), Keep(g, params, Condition(q)));
    if rows != [] {
      var row := rows[0];
      FlatMapMember(Reached(g, params, q, n), Keep(g, params, Condition(q)), row);
      var p :| p in Reached(g, params, q, n) && row in Keep(g, params, Condition(q))(p);
      ReachedIsShaped(g, params, q, n, p);
      FilterIsSameCondition(g, q);
      KeptPasses(g, q, p, row);
      PassableBy(q, Sample(g, row));
    }
  }

  lemma KeptPasses(g: Graph, q: ReadQuery, p: Partial, row: Row)
    requires SameCondition(g, BindingParams(q), Condition(q), q.filter)
    requires row in Keep(g, BindingParams(q), Condition(q))(p)
    ensures row == p.row && Passes(g, row, q.filter)
  {
  }

  lemma PassableBy(q: ReadQuery, x: Sample)
    requires ValidGraph(x.g) && Kinded(x.g, q, |q.traversals|, x.row) && Passes(x.g, x.row, q.filter)
    ensures Passable(q)
  {
  }

  lemma AnswerIsKinded(g: Graph, q: ReadQuery, row: Row)
    requires ValidGraph(g) && IsAnswer(g, q, row)
    ensures Kinded(g, q, |q.traversals|, row)
  {
    hide ChainsAreTrails, Passes, NothingLinks, Walk, Alternatives, Aliases;
    forall i | 0 <= i < |q.traversals| && !q.traversals[i].optional ensures KindedAt(g, q.traversals[i], row) {
      assert Holds(g, q.traversals[i], row);
    }
  }

  /** Then neither the clauses nor the query have a row. */
  lemma NothingPassesAnywhere(g: Graph, q: ReadQuery)
    requires ValidGraph(g) && InOrder(q) && EarlyFilter(q) && !Passable(q)
    ensures AnswersExactly(g, q)
  {
    hide InOrder, RunClauses, RequiredClauses, OptionalClauses, Items, IsAnswer, Passable, Kinded, Deferred;
    EarlyClauses(q);
    NothingKept(g, q);
    NothingFromNothing(g, BindingParams(q), RequiredClauses(q, Condition(q)), OptionalClauses(q, |q.traversals|));
    forall row ensures !IsAnswer(g, q, row) {
      if IsAnswer(g, q, row) {
        AnswerIsKinded(g, q, row);
        AnswerPasses(g, q, row);
        PassableBy(q, Sample(g, row));
      }
    }
  }

  lemma AnswerPasses(g: Graph, q: ReadQuery, row: Row)
    requires IsAnswer(g, q, row)
    ensures Passes(g, row, q.filter)
  {
  }

  /**
   A query without a deferred filter is answered exactly on every graph if and only if no required traversal starts from
   an optional target, or the filter can never be true.
   */
  lemma ScopeDecides(q: ReadQuery)
    requires InOrder(q) && DepthsPositive(q) && EarlyFilter(q)
    ensures (forall g :: ValidGraph(g) ==> AnswersExactly(g, q)) <==>
            (forall i :: 0 <= i < |q.traversals| ==> !Strays(q, i)) || !Passable(q)
  {
    hide AnswersExactly, Tree, DepthsPositive, InOrder, Scoped, Deferred, FilterInScope, Kinded, Passes;
    ScopedUnlessStray(q);
    if Scoped(q) || !Passable(q) {
      forall g | ValidGraph(g) ensures AnswersExactly(g, q) {
        if Scoped(q) {
          EarlyWhereIsExact(g, q);
        } else {
          NothingPassesAnywhere(g, q);
        }
      }
    } else {
      var x: Sample :| ValidGraph(x.g) && Kinded(x.g, q, |q.traversals|, x.row) && Passes(x.g, x.row, q.filter);
      var row := StrayBindsTooMuch(q, x);
      TreeIsValid(q, x);
      TooMuchIsNotExact(Tree(q, x), q, row);
    }
  }

  lemma TooMuchIsNotExact(g: Graph, q: ReadQuery, row: Row)
    requires row in EmittedRows(g, q) && !IsAnswer(g, q, row)
    ensures !AnswersExactly(g, q)
  {
    hide EmittedRows, IsAnswer;
  }

  /** Without a filter everything passes. */
  lemma NoFilterPasses(q: ReadQuery)
    requires q.filter.None? && InOrder(q) && DepthsPositive(q)
    ensures Passable(q) && EarlyFilter(q)
  {
    hide InOrder, DepthsPositive;
    var row: Row := map[];
    var none := Sample(Graph([], []), row);
    var g := Tree(q, none);
    var p := TreeReached(map[], q, none, |q.traversals|);
    TreeIsValid(q, none);
    ReachedIsShaped(g, map[], q, |q.traversals|, p);
    PassableBy(q, Sample(g, p.row));
  }
}
