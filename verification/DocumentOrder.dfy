/** Queries whose traversals start from nodes bound earlier in the document, and what their clauses can bind. */
module DocumentOrder {
  import opened Common
  import opened Ast
  import opened Cypher
  import opened MatchPart
  import opened Semantics
  import opened Matching
  import opened Reference
  import opened RequiredPart
  import opened OptionalPart

  /** What a query document asks of `from`: the start node or the target of an earlier traversal, optional or not. */
  ghost predicate InOrder(q: ReadQuery) {
    && DistinctAliases(q)
    && forall i :: 0 <= i < |q.traversals| ==>
         q.traversals[i].fromAlias in BoundNodes(q, false, i) + BoundNodes(q, true, i)
  }

  /** A required traversal that starts from an optional target. */
  predicate Strays(q: ReadQuery, i: nat)
    requires i < |q.traversals|
  {
    !q.traversals[i].optional && q.traversals[i].fromAlias in BoundNodes(q, true, i)
  }

  lemma {:induction false} BoundNodesGrow(q: ReadQuery, optional: bool, i: nat, k: nat)
    requires i <= k <= |q.traversals|
    ensures BoundNodes(q, optional, i) <= BoundNodes(q, optional, k)
  {
    if i < k {
      BoundNodesGrow(q, optional, i, k - 1);
    }
  }

  lemma SomethingStrays(q: ReadQuery) returns (i: nat)
    requires InOrder(q) && !Scoped(q)
    ensures i < |q.traversals| && Strays(q, i)
  {
    i :| 0 <= i < |q.traversals| && !ScopedFrom(q, i);
    BoundNodesGrow(q, false, i, |q.traversals|);
  }

  lemma OwnAliasesAreNew(q: ReadQuery, k: nat)
    requires k < |q.traversals| && InOrder(q)
    ensures OwnAliases(q.traversals[k]) !! Bound(q, false, k) + Bound(q, true, k)
    ensures q.start.alias !in OwnAliases(q.traversals[k]) && q.traversals[k].edgeAlias != q.traversals[k].target.alias
  {
    OwnAliasesAreFresh(q, false, k, k);
    OwnAliasesAreFresh(q, true, k, k);
  }

  lemma {:induction false} DisjointNodes(q: ReadQuery, k: nat)
    requires k <= |q.traversals| && InOrder(q)
    ensures Bound(q, false, k) !! BoundNodes(q, true, k)
  {
    hide InOrder;
    if k > 0 {
      DisjointNodes(q, k - 1);
      OwnAliasesAreNew(q, k - 1);
      NodesAreBound(q, true, k - 1);
    }
  }

  lemma StraysAreBound(q: ReadQuery, i: nat)
    requires i < |q.traversals| && Strays(q, i)
    ensures q.traversals[i].fromAlias in BoundNodes(q, true, i)
  {
  }

  lemma ScopedUnlessStray(q: ReadQuery)
    requires InOrder(q)
    ensures Scoped(q) <==> forall i :: 0 <= i < |q.traversals| ==> !Strays(q, i)
  {
    forall i | 0 <= i < |q.traversals| ensures ScopedFrom(q, i) <==> !Strays(q, i) {
      BoundNodesGrow(q, false, i, |q.traversals|);
      NodesAreBound(q, false, i);
      DisjointNodes(q, i);
    }
  }

  lemma SingleStep(g: Graph, row: Row, t: EdgeTraversal, l: Partial, p': Partial)
    requires l in Starts(g, row, NodePattern(t.fromAlias, [])) && p' in Expand(g, StepOf(t))(l)
    ensures p' in PathPartials(g, row, OptionalPath(t))
  {
    hide Starts, Expand;
    var start := Path(NodePattern(t.fromAlias, []), []);
    assert OptionalPath(t) == Longer(start, StepOf(t));
    LongerPartials(g, row, start, StepOf(t));
    FlatMapMember(PathPartials(g, row, start), Expand(g, StepOf(t)), p');
  }

  // ---- optional clauses only extend rows ----

  ghost predicate Extended(row: Row, row': Row) {
    forall a :: a in row ==> a in row' && row'[a] == row[a]
  }

  lemma ExpandExtends(g: Graph, s: Step, p: Partial, p': Partial)
    requires p' in Expand(g, s)(p)
    ensures Extended(p.row, p'.row)
  {
    hide Hops, NodeFits;
    FlatMapMember(Hops(g, p.at, s, p.used), TakeHop(g, p, s), p');
    var h :| h in Hops(g, p.at, s, p.used) && p' in TakeHop(g, p, s)(h);
  }

  lemma StartExtends(g: Graph, row: Row, n: NodePattern, p: Partial)
    requires p in Starts(g, row, n)
    ensures Extended(row, p.row)
  {
    if n.alias !in row {
      FlatMapMember(Upto(|g.nodes|), StartAt(g, row, n), p);
      var id :| id in Upto(|g.nodes|) && p in StartAt(g, row, n)(id);
    }
  }

  lemma {:induction false} MatchesExtend(g: Graph, row: Row, path: Path, p: Partial)
    requires p in PathPartials(g, row, path)
    ensures Extended(row, p.row)
    decreases |path.steps|
  {
    hide Starts, Expand, Extended;
    if path.steps == [] {
      StartExtends(g, row, path.start, p);
    } else {
      var last := |path.steps| - 1;
      var before := PathPartials(g, row, Path(path.start, path.steps[..last]));
      FlatMapMember(before, Expand(g, path.steps[last]), p);
      var b :| b in before && p in Expand(g, path.steps[last])(b);
      MatchesExtend(g, row, Path(path.start, path.steps[..last]), b);
      ExpandExtends(g, path.steps[last], b, p);
      ExtendedTwice(row, b.row, p.row);
    }
  }

  lemma ExtendedTwice(a: Row, b: Row, c: Row)
    requires Extended(a, b) && Extended(b, c)
    ensures Extended(a, c)
  {
  }

  lemma OptionalExtends(g: Graph, params: map<string, Literal>, c: Clause, row: Row)
    requires c.optional
    ensures exists row' :: row' in ClauseRows(g, params, c)(row) && Extended(row, row')
  {
    hide PathPartials, Keep, Extended;
    var partials, keep := PathPartials(g, row, c.path), Keep(g, params, c.condition);
    var kept := FlatMap(partials, keep);
    if kept == [] {
      PaddingExtends(row, c.path);
      assert Padded(row, c.path) in ClauseRows(g, params, c)(row);
    } else {
      var row' := kept[0];
      FlatMapMember(partials, keep, row');
      var p :| p in partials && row' in keep(p);
      KeptIsMatch(g, params, c.condition, p, row');
      MatchesExtend(g, row, c.path, p);
      assert row' in ClauseRows(g, params, c)(row);
    }
  }

  lemma KeptIsMatch(g: Graph, params: map<string, Literal>, condition: Option<Expr>, p: Partial, row: Row)
    requires row in Keep(g, params, condition)(p)
    ensures row == p.row
  {
  }

  lemma PaddingExtends(row: Row, path: Path)
    ensures Extended(row, Padded(row, path))
  {
  }

  lemma {:induction false} OptionalsExtend(g: Graph, params: map<string, Literal>, required: seq<Clause>,
                                           cs: seq<Clause>, row: Row)
    returns (row': Row)
    requires row in RunClauses(g, params, required) && forall i :: 0 <= i < |cs| ==> cs[i].optional
    ensures row' in RunClauses(g, params, required + cs) && Extended(row, row')
    decreases |cs|
  {
    hide Extended, ClauseRows;
    if cs == [] {
      assert required + cs == required;
      row' := row;
      SameExtends(row);
    } else {
      var init, c := cs[..|cs| - 1], cs[|cs| - 1];
      var middle := OptionalsExtend(g, params, required, init, row);
      assert (required + cs)[..|required + cs| - 1] == required + init;
      OptionalExtends(g, params, c, middle);
      row' :| row' in ClauseRows(g, params, c)(middle) && Extended(middle, row');
      FlatMapMember(RunClauses(g, params, required + init), ClauseRows(g, params, c), row');
      ExtendedTwice(row, middle, row');
    }
  }

  lemma SameExtends(row: Row)
    ensures Extended(row, row)
  {
  }

  // ---- what the required patterns bind, in scope or not ----

  predicate IsPlain(t: EdgeTraversal) {
    t.depth == None || t.depth == Some(Depth(1, 1))
  }

  /** The start and the first `k` required traversals are bound to nodes, single relationships and trails. */
  ghost predicate Kinded(g: Graph, q: ReadQuery, k: nat, row: Row)
    requires k <= |q.traversals|
  {
    && q.start.alias in row && row[q.start.alias].NodeV? && row[q.start.alias].id < |g.nodes|
    && forall i :: 0 <= i < k && !q.traversals[i].optional ==> KindedAt(g, q.traversals[i], row)
  }

  ghost predicate KindedAt(g: Graph, t: EdgeTraversal, row: Row) {
    && t.target.alias in row && row[t.target.alias].NodeV? && row[t.target.alias].id < |g.nodes|
    && t.edgeAlias in row
    && if IsPlain(t) then row[t.edgeAlias].RelV? && row[t.edgeAlias].id < |g.rels| else row[t.edgeAlias].TrailV?
  }

  ghost predicate Shaped(g: Graph, q: ReadQuery, k: nat, p: Partial)
    requires k <= |q.traversals|
  {
    && p.at < |g.nodes| && Kinded(g, q, k, p.row)
    && forall a :: a in p.row ==> a in Bound(q, false, k) + BoundNodes(q, true, k)
  }

  lemma LinkIsKinded(g: Graph, t: EdgeTraversal, from: nat, row: Row, to: nat)
    requires t.edgeAlias in row && t.target.alias in row && row[t.target.alias] == NodeV(to)
    requires Link(g, StepOf(t), from, row[t.edgeAlias], to)
    ensures KindedAt(g, t, row)
  {
    LinkIsLinked(g, t, from, row[t.edgeAlias], to);
  }

  lemma KindedStays(g: Graph, q: ReadQuery, k: nat, row: Row, row': Row)
    requires k <= |q.traversals| && Kinded(g, q, k, row) && Extended(row, row')
    ensures Kinded(g, q, k, row')
  {
  }

  /** A step from a row of the right shape leads to one. */
  lemma StepIsShaped(g: Graph, q: ReadQuery, k: nat, l: Partial, p': Partial)
    requires ValidGraph(g) && InOrder(q) && k < |q.traversals| && !q.traversals[k].optional
    requires l.at < |g.nodes| && Kinded(g, q, k, l.row)
    requires forall a :: a in l.row ==> a in Bound(q, false, k) + BoundNodes(q, true, k)
    requires p' in Expand(g, StepOf(q.traversals[k]))(l)
    ensures Shaped(g, q, k + 1, p')
  {
    hide Link, InOrder, Bound, BoundNodes, Expand, KindedAt;
    var t := q.traversals[k];
    OwnAliasesAreNew(q, k);
    NodesAreBound(q, true, k);
    ExpandExact(g, l, StepOf(t));
    assert Extended(l.row, p'.row) by {
      ExpandExtends(g, StepOf(t), l, p');
    }
    KindedStays(g, q, k, l.row, p'.row);
    LinkIsKinded(g, t, l.at, p'.row, p'.at);
    LinkTarget(g, StepOf(t), l.at, p'.row[t.edgeAlias], p'.at);
    BoundNext(q, k);
  }

  lemma LinkTarget(g: Graph, s: Step, from: nat, edge: Value, to: nat)
    requires Link(g, s, from, edge, to)
    ensures to < |g.nodes|
  {
  }

  lemma BoundNext(q: ReadQuery, k: nat)
    requires k < |q.traversals| && !q.traversals[k].optional
    ensures Bound(q, false, k + 1) == Bound(q, false, k) + OwnAliases(q.traversals[k])
    ensures BoundNodes(q, true, k + 1) == BoundNodes(q, true, k)
  {
  }

  lemma StartIsShaped(g: Graph, q: ReadQuery, k: nat, p: Partial, l: Partial)
    requires ValidGraph(g) && InOrder(q) && k < |q.traversals| && Shaped(g, q, k, p)
    requires l in Starts(g, p.row, NodePattern(q.traversals[k].fromAlias, []))
    ensures l.at < |g.nodes| && Kinded(g, q, k, l.row)
    ensures forall a :: a in l.row ==> a in Bound(q, false, k) + BoundNodes(q, true, k)
  {
    hide DistinctAliases, KindedAt;
    var start := NodePattern(q.traversals[k].fromAlias, []);
    NodesAreBound(q, false, k);
    StartExtends(g, p.row, start, l);
    KindedStays(g, q, k, p.row, l.row);
    if start.alias !in p.row {
      FlatMapMember(Upto(|g.nodes|), StartAt(g, p.row, start), l);
      var id :| id in Upto(|g.nodes|) && l in StartAt(g, p.row, start)(id);
    }
  }

  lemma {:induction false} ReachedIsShaped(g: Graph, params: map<string, Literal>, q: ReadQuery, k: nat, p: Partial)
    requires ValidGraph(g) && InOrder(q) && k <= |q.traversals| && p in Reached(g, params, q, k)
    ensures Shaped(g, q, k, p)
  {
    hide Reached, InOrder, Shaped;
    if k == 0 {
      StartsExact(g, params, q);
      FirstIsShaped(g, q, p);
    } else if q.traversals[k - 1].optional {
      ReachedSkips(g, params, q, k - 1);
      ReachedIsShaped(g, params, q, k - 1, p);
      SkipIsShaped(g, q, k - 1, p);
    } else {
      var before, l := CameFrom(g, params, q, k - 1, p);
      ReachedIsShaped(g, params, q, k - 1, before);
      LaunchIsShaped(g, q, k - 1, before, l);
      StepIsShaped(g, q, k - 1, l, p);
    }
  }

  lemma FirstIsShaped(g: Graph, q: ReadQuery, p: Partial)
    requires Good(g, q, 0, p)
    ensures Shaped(g, q, 0, p)
  {
  }

  lemma SkipIsShaped(g: Graph, q: ReadQuery, k: nat, p: Partial)
    requires k < |q.traversals| && q.traversals[k].optional && Shaped(g, q, k, p)
    ensures Shaped(g, q, k + 1, p)
  {
    hide KindedAt;
  }

  /** Where a required traversal was taken from: the open end of the chain, or its start matched again. */
  ghost predicate IsLaunch(g: Graph, q: ReadQuery, k: nat, before: Partial, l: Partial)
    requires k < |q.traversals|
  {
    if q.traversals[k].fromAlias == Endpoint(q, k) then l == before
    else l in Starts(g, before.row, NodePattern(q.traversals[k].fromAlias, []))
  }

  lemma LaunchIsShaped(g: Graph, q: ReadQuery, k: nat, before: Partial, l: Partial)
    requires ValidGraph(g) && InOrder(q) && k < |q.traversals| && Shaped(g, q, k, before)
             && IsLaunch(g, q, k, before, l)
    ensures l.at < |g.nodes| && Kinded(g, q, k, l.row)
    ensures forall a :: a in l.row ==> a in Bound(q, false, k) + BoundNodes(q, true, k)
  {
    hide InOrder, KindedAt, Starts;
    if q.traversals[k].fromAlias != Endpoint(q, k) {
      StartIsShaped(g, q, k, before, l);
    }
  }

  lemma CameFrom(g: Graph, params: map<string, Literal>, q: ReadQuery, k: nat, p: Partial)
    returns (before: Partial, l: Partial)
    requires k < |q.traversals| && !q.traversals[k].optional && p in Reached(g, params, q, k + 1)
    ensures before in Reached(g, params, q, k) && IsLaunch(g, q, k, before, l)
    ensures p in Expand(g, StepOf(q.traversals[k]))(l)
  {
    hide Expand, PathPartials, Starts;
    var t := q.traversals[k];
    if t.fromAlias == Endpoint(q, k) {
      ReachedChain(g, params, q, k);
      FlatMapMember(Reached(g, params, q, k), Onward(g, q, k), p);
      before :| before in Reached(g, params, q, k) && p in Onward(g, q, k)(before);
      l := before;
      assert Launch(q, k, before) == before;
    } else {
      var paths, path := RequiredPaths(q, k), OptionalPath(t);
      assert (paths + [path])[..|paths|] == paths;
      var rows := RunClauses(g, params, Bare(paths));
      FlatMapMember(rows, PathPartialsFn(g, path), p);
      var row :| row in rows && p in PathPartialsFn(g, path)(row);
      ReachedRows(g, params, q, k);
      FlatMapMember(Reached(g, params, q, k), RowOf(), row);
      before :| before in Reached(g, params, q, k) && row in RowOf()(before);
      l := StepFrom(g, row, t, p);
    }
  }

  lemma StepFrom(g: Graph, row: Row, t: EdgeTraversal, p: Partial) returns (l: Partial)
    requires p in PathPartials(g, row, OptionalPath(t))
    ensures l in Starts(g, row, NodePattern(t.fromAlias, [])) && p in Expand(g, StepOf(t))(l)
  {
    hide Starts, Expand;
    var start := Path(NodePattern(t.fromAlias, []), []);
    assert OptionalPath(t) == Longer(start, StepOf(t));
    LongerPartials(g, row, start, StepOf(t));
    FlatMapMember(PathPartials(g, row, start), Expand(g, StepOf(t)), p);
    l :| l in PathPartials(g, row, start) && p in Expand(g, StepOf(t))(l);
  }
}
