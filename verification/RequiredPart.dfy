/** The emitted required MATCH clauses bind exactly the rows the required traversals ask for, each once. */
module RequiredPart {
  import opened Common
  import opened Ast
  import opened Cypher
  import opened MatchPart
  import opened Semantics
  import opened Matching
  import opened Reference

  // ---- the emitted patterns ----

  /** The required patterns after the first `k` traversals: a traversal from the open endpoint extends the last one. */
  function RequiredPaths(q: ReadQuery, k: nat): (r: seq<Path>)
    requires k <= |q.traversals|
    ensures r != []
  {
    if k == 0 then [Path(NodePattern(q.start.alias, Labels(q.start)), [])]
    else
      var t, paths := q.traversals[k - 1], RequiredPaths(q, k - 1);
      if t.optional then paths
      else if t.fromAlias == Endpoint(q, k - 1) then paths[..|paths| - 1] + [Longer(paths[|paths| - 1], StepOf(t))]
      else paths + [Path(NodePattern(t.fromAlias, []), [StepOf(t)])]
  }

  function Longer(p: Path, s: Step): Path {
    Path(p.start, p.steps + [s])
  }

  function Bare(paths: seq<Path>): seq<Clause> {
    seq(|paths|, i requires 0 <= i < |paths| => Clause(false, paths[i], None))
  }

  // ---- what the required traversals ask, left to right ----

  /** The relationships of the chain still open after the first `k` traversals. */
  function ChainRels(q: ReadQuery, k: nat, row: Row): set<nat>
    requires k <= |q.traversals|
  {
    if k == 0 then {}
    else
      var t := q.traversals[k - 1];
      if t.optional then ChainRels(q, k - 1, row)
      else
        (if t.fromAlias == Endpoint(q, k - 1) then ChainRels(q, k - 1, row) else {})
        + (if t.edgeAlias in row then RelsOf(row[t.edgeAlias]) else {})
  }

  ghost predicate RequiredOk(g: Graph, q: ReadQuery, k: nat, row: Row)
    requires k <= |q.traversals|
  {
    if k == 0 then StartHolds(g, q, row)
    else
      var t := q.traversals[k - 1];
      && RequiredOk(g, q, k - 1, row)
      && (!t.optional ==>
            && Holds(g, t, row)
            && (t.fromAlias == Endpoint(q, k - 1) ==> RelsOf(row[t.edgeAlias]) !! ChainRels(q, k - 1, row)))
  }

  lemma {:induction false} RequiredReads(g: Graph, q: ReadQuery, k: nat, row: Row, row': Row)
    requires k <= |q.traversals| && Scoped(q)
    requires forall a :: a in Bound(q, false, k) ==> (a in row <==> a in row') && (a in row ==> row[a] == row'[a])
    ensures RequiredOk(g, q, k, row) == RequiredOk(g, q, k, row')
    ensures ChainRels(q, k, row) == ChainRels(q, k, row')
  {
    if k > 0 {
      RequiredReads(g, q, k - 1, row, row');
      assert ScopedFrom(q, k - 1);
      NodesAreBound(q, false, k - 1);
    }
  }

  lemma {:induction false} NodesAreBound(q: ReadQuery, optional: bool, k: nat)
    requires k <= |q.traversals|
    ensures BoundNodes(q, optional, k) <= Bound(q, optional, k)
  {
    if k > 0 {
      NodesAreBound(q, optional, k - 1);
    }
  }

  /** The aliases of a traversal are new where it is reached. */
  lemma {:induction false} OwnAliasesAreFresh(q: ReadQuery, optional: bool, i: nat, k: nat)
    requires DistinctAliases(q) && i < |q.traversals| && k <= |q.traversals|
    requires k <= i || q.traversals[i].optional != optional
    ensures OwnAliases(q.traversals[i]) !! Bound(q, optional, k)
  {
    if k > 0 {
      OwnAliasesAreFresh(q, optional, i, k - 1);
      if q.traversals[k - 1].optional == optional {
        var lo, hi := if k - 1 < i then k - 1 else i, if k - 1 < i then i else k - 1;
        assert OwnAliases(q.traversals[lo]) !! OwnAliases(q.traversals[hi]);
      }
    }
  }

  lemma {:induction false} NodesAreNodes(g: Graph, q: ReadQuery, k: nat, row: Row, a: string)
    requires k <= |q.traversals| && RequiredOk(g, q, k, row) && a in BoundNodes(q, false, k)
    ensures a in row && row[a].NodeV? && row[a].id < |g.nodes|
  {
    if k > 0 && a in BoundNodes(q, false, k - 1) {
      NodesAreNodes(g, q, k - 1, row, a);
    }
  }

  lemma {:induction false} EndpointIsNode(q: ReadQuery, k: nat)
    requires k <= |q.traversals|
    ensures Endpoint(q, k) in BoundNodes(q, false, k)
  {
    if k > 0 && q.traversals[k - 1].optional {
      EndpointIsNode(q, k - 1);
    }
  }

  // ---- what the emitted patterns reach ----

  /** The matches of the last pattern over the rows of those before it. */
  ghost function Reached(g: Graph, params: map<string, Literal>, q: ReadQuery, k: nat): seq<Partial>
    requires k <= |q.traversals|
  {
    var paths := RequiredPaths(q, k);
    FlatMap(RunClauses(g, params, Bare(paths[..|paths| - 1])), PathPartialsFn(g, paths[|paths| - 1]))
  }

  ghost predicate Good(g: Graph, q: ReadQuery, k: nat, p: Partial)
    requires k <= |q.traversals|
  {
    && p.row.Keys == Bound(q, false, k)
    && RequiredOk(g, q, k, p.row)
    && Endpoint(q, k) in p.row && p.row[Endpoint(q, k)] == NodeV(p.at)
    && p.used == ChainRels(q, k, p.row)
  }

  /** Where traversal `t` starts from: the open end of the chain, or a node bound earlier in a new clause. */
  ghost function Launch(q: ReadQuery, k: nat, p: Partial): Partial
    requires k < |q.traversals|
  {
    var from := q.traversals[k].fromAlias;
    if from == Endpoint(q, k) then p
    else if from in p.row && p.row[from].NodeV? then Partial(p.row, p.row[from].id, {})
    else p
  }

  ghost function Onward(g: Graph, q: ReadQuery, k: nat): Partial -> seq<Partial>
    requires k < |q.traversals|
  {
    (p: Partial) => Expand(g, StepOf(q.traversals[k]))(Launch(q, k, p))
  }

  lemma BareSnoc(paths: seq<Path>, p: Path)
    ensures Bare(paths + [p]) == Bare(paths) + [Clause(false, p, None)]
  {
  }

  lemma {:induction false} FlatMapSame<A(!new), B>(xs: seq<A>, f: A -> seq<B>, h: A -> seq<B>)
    requires forall a :: a in xs ==> f(a) == h(a)
    ensures FlatMap(xs, f) == FlatMap(xs, h)
  {
    if xs != [] {
      FlatMapSame(xs[1..], f, h);
    }
  }

  ghost function RowOf(): Partial -> seq<Row> {
    (p: Partial) => [p.row]
  }

  /** The rows of all patterns so far are the rows of what they reach. */
  lemma ReachedRows(g: Graph, params: map<string, Literal>, q: ReadQuery, k: nat)
    requires k <= |q.traversals|
    ensures RunClauses(g, params, Bare(RequiredPaths(q, k))) == FlatMap(Reached(g, params, q, k), RowOf())
  {
    var paths := RequiredPaths(q, k);
    var init, last := paths[..|paths| - 1], paths[|paths| - 1];
    var c := Clause(false, last, None);
    assert paths == init + [last];
    BareSnoc(init, last);
    var rows := RunClauses(g, params, Bare(init));
    assert (Bare(init) + [c])[..|Bare(init)|] == Bare(init);
    forall row ensures ClauseRows(g, params, c)(row) == FlatMap(PathPartials(g, row, last), RowOf()) {
      FlatMapSame(PathPartials(g, row, last), Keep(g, params, None), RowOf());
    }
    FlatMapNested(rows, PathPartialsFn(g, last), RowOf(), ClauseRows(g, params, c));
  }

  lemma ReachedChain(g: Graph, params: map<string, Literal>, q: ReadQuery, k: nat)
    requires k < |q.traversals| && !q.traversals[k].optional && q.traversals[k].fromAlias == Endpoint(q, k)
    ensures Reached(g, params, q, k + 1) == FlatMap(Reached(g, params, q, k), Onward(g, q, k))
  {
    hide PathPartials, RunClauses, Expand, FlatMap, StepOf, Bare;
    var paths, s := RequiredPaths(q, k), StepOf(q.traversals[k]);
    var init, last := paths[..|paths| - 1], paths[|paths| - 1];
    var longer := Longer(last, s);
    assert RequiredPaths(q, k + 1) == init + [longer];
    assert (init + [longer])[..|init|] == init;
    var rows := RunClauses(g, params, Bare(init));
    forall row ensures PathPartialsFn(g, longer)(row) == FlatMap(PathPartialsFn(g, last)(row), Expand(g, s)) {
      LongerPartials(g, row, last, s);
    }
    FlatMapNested(rows, PathPartialsFn(g, last), Expand(g, s), PathPartialsFn(g, longer));
    forall p: Partial ensures Onward(g, q, k)(p) == Expand(g, s)(p) {
      assert Launch(q, k, p) == p;
    }
    FlatMapSame(Reached(g, params, q, k), Expand(g, s), Onward(g, q, k));
  }

  lemma LongerPartials(g: Graph, row: Row, p: Path, s: Step)
    ensures PathPartials(g, row, Longer(p, s)) == FlatMap(PathPartials(g, row, p), Expand(g, s))
  {
    hide Expand, FlatMap;
    assert (p.steps + [s])[..|p.steps|] == p.steps;
    assert Path(p.start, p.steps) == p;
  }

  lemma FlatMapOne<A(!new), B>(a: A, f: A -> seq<B>)
    ensures FlatMap([a], f) == f(a)
  {
    assert FlatMap([a][1..], f) == [];
  }

  /** The node a traversal starts from, when the row binds it. */
  ghost predicate StartsFrom(g: Graph, t: EdgeTraversal, row: Row) {
    t.fromAlias in row && row[t.fromAlias].NodeV? && row[t.fromAlias].id < |g.nodes|
  }

  lemma FreshStart(g: Graph, q: ReadQuery, k: nat, p: Partial)
    requires k < |q.traversals| && q.traversals[k].fromAlias != Endpoint(q, k) && StartsFrom(g, q.traversals[k], p.row)
    ensures var t := q.traversals[k];
            Onward(g, q, k)(p)
            == FlatMap(RowOf()(p), PathPartialsFn(g, Path(NodePattern(t.fromAlias, []), [StepOf(t)])))
  {
    hide Hops;
    var t := q.traversals[k];
    var path := Path(NodePattern(t.fromAlias, []), [StepOf(t)]);
    FlatMapOne(p.row, PathPartialsFn(g, path));
    assert path.steps[..0] == [];
    assert PathPartials(g, p.row, Path(path.start, path.steps[..0])) == Starts(g, p.row, path.start);
    assert PathPartials(g, p.row, path)
        == FlatMap(PathPartials(g, p.row, Path(path.start, path.steps[..0])), Expand(g, path.steps[0]));
    assert Starts(g, p.row, path.start) == [Partial(p.row, p.row[t.fromAlias].id, {})];
    FlatMapOne(Partial(p.row, p.row[t.fromAlias].id, {}), Expand(g, StepOf(t)));
    assert PathPartials(g, p.row, path) == Expand(g, StepOf(t))(Partial(p.row, p.row[t.fromAlias].id, {}));
    assert Launch(q, k, p) == Partial(p.row, p.row[t.fromAlias].id, {});
    assert Onward(g, q, k)(p) == PathPartials(g, p.row, path);
    assert RowOf()(p) == [p.row];
  }

  lemma ReachedFresh(g: Graph, params: map<string, Literal>, q: ReadQuery, k: nat)
    requires k < |q.traversals| && !q.traversals[k].optional && q.traversals[k].fromAlias != Endpoint(q, k)
    requires forall p :: p in Reached(g, params, q, k) ==> StartsFrom(g, q.traversals[k], p.row)
    ensures Reached(g, params, q, k + 1) == FlatMap(Reached(g, params, q, k), Onward(g, q, k))
  {
    hide Onward, PathPartials, StepOf;
    var t := q.traversals[k];
    var paths := RequiredPaths(q, k);
    var path := Path(NodePattern(t.fromAlias, []), [StepOf(t)]);
    assert (paths + [path])[..|paths|] == paths;
    ReachedRows(g, params, q, k);
    forall p | p in Reached(g, params, q, k)
      ensures Onward(g, q, k)(p) == FlatMap(RowOf()(p), PathPartialsFn(g, path)) {
      FreshStart(g, q, k, p);
    }
    FlatMapNested(Reached(g, params, q, k), RowOf(), PathPartialsFn(g, path), Onward(g, q, k));
  }

  /** From a good row, a required step leads exactly to the good rows that extend it. */
  lemma OnwardGood(g: Graph, q: ReadQuery, k: nat, p: Partial, p': Partial)
    requires ValidGraph(g) && Scoped(q) && k < |q.traversals| && !q.traversals[k].optional && Good(g, q, k, p)
    requires p' in Onward(g, q, k)(p)
    ensures Good(g, q, k + 1, p') && p == Back(q, k, p')
  {
    hide Expand;
    LaunchAt(g, q, k, p);
    ExpandExact(g, Launch(q, k, p), StepOf(q.traversals[k]));
    ExtendsGood(g, q, k, p, p');
  }

  lemma ExtendsGood(g: Graph, q: ReadQuery, k: nat, p: Partial, p': Partial)
    requires Scoped(q) && k < |q.traversals| && !q.traversals[k].optional && Good(g, q, k, p)
    requires Extends(g, Launch(q, k, p), StepOf(q.traversals[k]), p')
    ensures Good(g, q, k + 1, p') && p == Back(q, k, p')
  {
    hide Link, Linked, RequiredOk, Scoped, ChainRels;
    var t := q.traversals[k];
    LaunchAt(g, q, k, p);
    LinkIsLinked(g, t, Launch(q, k, p).at, p'.row[t.edgeAlias], p'.at);
    RequiredReads(g, q, k, p.row, p'.row);
    EndpointIsNode(q, k);
    NodesAreBound(q, false, k);
    OneMore(g, q, k, p'.row);
    assert Holds(g, t, p'.row);
    var back := Back(q, k, p');
    assert back.row == p.row;
  }

  /** Unfolding one required traversal. */
  lemma OneMore(g: Graph, q: ReadQuery, k: nat, row: Row)
    requires k < |q.traversals| && !q.traversals[k].optional
    ensures var t := q.traversals[k];
            && RequiredOk(g, q, k + 1, row)
               == (&& RequiredOk(g, q, k, row) && Holds(g, t, row)
                   && (t.fromAlias == Endpoint(q, k) ==> RelsOf(row[t.edgeAlias]) !! ChainRels(q, k, row)))
            && (t.edgeAlias in row ==>
                  ChainRels(q, k + 1, row)
                  == (if t.fromAlias == Endpoint(q, k) then ChainRels(q, k, row) else {}) + RelsOf(row[t.edgeAlias]))
  {
  }

  /** What a good row extends: its own binding of the aliases bound before. */
  ghost function Back(q: ReadQuery, k: nat, p: Partial): Partial
    requires k < |q.traversals|
  {
    var row := map a | a in p.row && a in Bound(q, false, k) :: p.row[a];
    var e := Endpoint(q, k);
    Partial(row, if e in row && row[e].NodeV? then row[e].id else 0, ChainRels(q, k, row))
  }

  lemma LaunchAt(g: Graph, q: ReadQuery, k: nat, p: Partial)
    requires Scoped(q) && k < |q.traversals| && !q.traversals[k].optional && Good(g, q, k, p)
    ensures var l := Launch(q, k, p); var t := q.traversals[k];
            && l.row == p.row && t.fromAlias in p.row && p.row[t.fromAlias] == NodeV(l.at) && l.at < |g.nodes|
            && l.used == (if t.fromAlias == Endpoint(q, k) then p.used else {})
            && t.edgeAlias !in p.row && t.target.alias !in p.row && t.edgeAlias != t.target.alias
  {
    assert ScopedFrom(q, k);
    NodesAreNodes(g, q, k, p.row, q.traversals[k].fromAlias);
    OwnAliasesAreFresh(q, false, k, k);
  }

  lemma BackGood(g: Graph, q: ReadQuery, k: nat, p': Partial)
    requires ValidGraph(g) && Scoped(q) && k < |q.traversals| && !q.traversals[k].optional && Good(g, q, k + 1, p')
    ensures Good(g, q, k, Back(q, k, p')) && p' in Onward(g, q, k)(Back(q, k, p'))
  {
    hide Link, Linked, RequiredOk, Scoped, ChainRels, Expand;
    var t, p := q.traversals[k], Back(q, k, p');
    OneMore(g, q, k, p'.row);
    RequiredReads(g, q, k, p.row, p'.row);
    EndpointIsNode(q, k);
    NodesAreBound(q, false, k);
    NodesAreNodes(g, q, k, p'.row, Endpoint(q, k));
    LaunchAt(g, q, k, p);
    var l := Launch(q, k, p);
    LinkIsLinked(g, t, l.at, p'.row[t.edgeAlias], p'.at);
    assert p'.row == p.row[t.edgeAlias := p'.row[t.edgeAlias]][t.target.alias := NodeV(p'.at)];
    ExpandExact(g, l, StepOf(t));
    assert Extends(g, l, StepOf(t), p');
  }

  ghost predicate Exact(g: Graph, params: map<string, Literal>, q: ReadQuery, k: nat)
    requires k <= |q.traversals|
  {
    && NoDup(Reached(g, params, q, k))
    && forall p :: p in Reached(g, params, q, k) <==> Good(g, q, k, p)
  }

  /** Every prefix of the emitted required patterns reaches exactly the good rows, each once. */
  lemma {:induction false} ReachedExact(g: Graph, params: map<string, Literal>, q: ReadQuery, k: nat)
    requires ValidGraph(g) && Scoped(q) && k <= |q.traversals|
    ensures Exact(g, params, q, k)
  {
    hide Good, Scoped, Reached;
    if k == 0 {
      StartsExact(g, params, q);
    } else {
      ReachedExact(g, params, q, k - 1);
      if q.traversals[k - 1].optional {
        ReachedSkips(g, params, q, k - 1);
      } else {
        ReachedNext(g, params, q, k - 1);
      }
    }
  }

  lemma ReachedSkips(g: Graph, params: map<string, Literal>, q: ReadQuery, k: nat)
    requires k < |q.traversals| && q.traversals[k].optional
    ensures Reached(g, params, q, k + 1) == Reached(g, params, q, k)
    ensures forall p :: Good(g, q, k + 1, p) <==> Good(g, q, k, p)
  {
    hide Holds, StartHolds;
    assert RequiredPaths(q, k + 1) == RequiredPaths(q, k);
    forall p ensures Good(g, q, k + 1, p) <==> Good(g, q, k, p) {
      assert RequiredOk(g, q, k + 1, p.row) == RequiredOk(g, q, k, p.row);
    }
  }

  lemma ReachedNext(g: Graph, params: map<string, Literal>, q: ReadQuery, k: nat)
    requires ValidGraph(g) && Scoped(q) && k < |q.traversals| && !q.traversals[k].optional
    requires Exact(g, params, q, k)
    ensures Exact(g, params, q, k + 1)
  {
    hide Good, Onward, Back, Scoped, Reached, NoDup;
    var reached, onward := Reached(g, params, q, k), Onward(g, q, k);
    forall p | p in reached ensures NoDup(onward(p)) && StartsFrom(g, q.traversals[k], p.row) {
      LaunchAt(g, q, k, p);
      OnwardNoDup(g, q, k, p);
    }
    if q.traversals[k].fromAlias == Endpoint(q, k) {
      ReachedChain(g, params, q, k);
    } else {
      ReachedFresh(g, params, q, k);
    }
    forall a, a', b | a in reached && a' in reached && b in onward(a) && b in onward(a') ensures a == a' {
      OnwardGood(g, q, k, a, b);
      OnwardGood(g, q, k, a', b);
    }
    FlatMapNoDup(reached, onward);
    forall p' ensures p' in FlatMap(reached, onward) <==> Good(g, q, k + 1, p') {
      FlatMapMember(reached, onward, p');
      if Good(g, q, k + 1, p') {
        BackGood(g, q, k, p');
      }
      forall p | p in reached && p' in onward(p) ensures Good(g, q, k + 1, p') {
        OnwardGood(g, q, k, p, p');
      }
    }
  }

  lemma OnwardNoDup(g: Graph, q: ReadQuery, k: nat, p: Partial)
    requires ValidGraph(g) && Scoped(q) && k < |q.traversals| && !q.traversals[k].optional && Good(g, q, k, p)
    ensures NoDup(Onward(g, q, k)(p))
  {
    LaunchAt(g, q, k, p);
    ExpandExact(g, Launch(q, k, p), StepOf(q.traversals[k]));
  }

  lemma StartsExact(g: Graph, params: map<string, Literal>, q: ReadQuery)
    ensures Exact(g, params, q, 0)
  {
    var path := Path(NodePattern(q.start.alias, Labels(q.start)), []);
    assert RequiredPaths(q, 0)[..0] == [];
    assert Bare([]) == [];
    FlatMapOne(map[], PathPartialsFn(g, path));
    var start := StartAt(g, map[], path.start);
    forall a: nat, a': nat, b | b in start(a) && b in start(a') ensures a == a' {
      assert b.at == a && b.at == a';
    }
    FlatMapNoDup(Upto(|g.nodes|), start);
    forall p ensures p in Reached(g, params, q, 0) <==> Good(g, q, 0, p) {
      FlatMapMember(Upto(|g.nodes|), start, p);
      NodePatternMatches(g, p.at, q.start);
      if Good(g, q, 0, p) {
        assert p.row == map[q.start.alias := NodeV(p.at)];
        assert Upto(|g.nodes|)[p.at] == p.at;
        assert p in start(p.at);
      }
      forall id: nat | p in start(id) ensures Good(g, q, 0, p) {
        NodePatternMatches(g, id, q.start);
      }
    }
  }
}
