/**
 For every query a graph on which all its required traversals match and no property is set: one node carrying
 every label, with a loop for every hop.
 */
module LoopGraphs {
  import opened Common
  import opened Ast
  import opened Cypher
  import opened Comparisons
  import opened Semantics
  import opened Matching
  import opened Reference
  import opened RequiredPart
  import opened OptionalPart

  /** Every predicate compares a property, not a bare alias. */
  predicate OnProperties(f: FilterExpression) {
    match f
    case Pred(p) => p.field.property.Some?
    case And(parts) => AllOnProperties(parts)
    case Or(parts) => AllOnProperties(parts)
    case Not(inner) => OnProperties(inner)
  }

  predicate AllOnProperties(parts: List<FilterExpression>) {
    match parts
    case Nil => true
    case Cons(p, rest) => OnProperties(p) && AllOnProperties(rest)
  }

  predicate NoProperties(g: Graph) {
    && (forall i :: 0 <= i < |g.nodes| ==> g.nodes[i].props == map[])
    && (forall i :: 0 <= i < |g.rels| ==> g.rels[i].props == map[])
  }

  /** The value of a filter all of whose properties are null: only membership in an empty list is decided. */
  function Blank(f: FilterExpression): Tri {
    match f
    case Pred(p) => if p.op in {In_, InCi} && p.value == ListOf([]) then False else Unknown
    case And(parts) => BlankAll(parts)
    case Or(parts) => BlankAny(parts)
    case Not(inner) => Not3(Blank(inner))
  }

  function BlankAll(parts: List<FilterExpression>): Tri {
    match parts
    case Nil => True
    case Cons(p, rest) => And3(Blank(p), BlankAll(rest))
  }

  function BlankAny(parts: List<FilterExpression>): Tri {
    match parts
    case Nil => False
    case Cons(p, rest) => Or3(Blank(p), BlankAny(rest))
  }

  /** Where nothing has a property a filter is blank; a filter decided there has that value everywhere. */
  lemma {:induction false} FilterIsBlank(g: Graph, row: Row, f: FilterExpression)
    requires OnProperties(f)
    ensures NoProperties(g) || Blank(f) != Unknown ==> EvalFilter(g, row, f) == Blank(f)
    decreases f
  {
    match f {
      case Pred(p) => PredicateIsBlank(g, row, p);
      case Not(inner) => FilterIsBlank(g, row, inner);
      case And(parts) => FiltersAreBlank(g, row, parts);
      case Or(parts) => FiltersAreBlank(g, row, parts);
    }
  }

  lemma {:induction false} FiltersAreBlank(g: Graph, row: Row, parts: List<FilterExpression>)
    requires AllOnProperties(parts)
    ensures NoProperties(g) || BlankAll(parts) != Unknown ==> EvalAll(g, row, parts) == BlankAll(parts)
    ensures NoProperties(g) || BlankAny(parts) != Unknown ==> EvalAny(g, row, parts) == BlankAny(parts)
    decreases parts
  {
    match parts {
      case Nil =>
      case Cons(p, rest) =>
        FilterIsBlank(g, row, p);
        FiltersAreBlank(g, row, rest);
    }
  }

  lemma PredicateIsBlank(g: Graph, row: Row, p: Predicate)
    requires p.field.property.Some?
    ensures NoProperties(g) || Blank(Pred(p)) != Unknown ==> EvalFilter(g, row, Pred(p)) == Blank(Pred(p))
  {
    assert Found(g, row, p.op, p.field).Stored?;
    assert NoProperties(g) ==> Found(g, row, p.op, p.field) == Stored(Null);
    NothingAsked(g, row, p);
  }

  function Labelling(q: ReadQuery, k: nat): set<string>
    requires k <= |q.traversals|
  {
    if k == 0 then NodeLabels(q.start) else Labelling(q, k - 1) + NodeLabels(q.traversals[k - 1].target)
  }

  function NodeLabels(n: Node): set<string> {
    {n.nodeLabel} + match n.prefixLabel case Some(p) => {p} case None => {}
  }

  /** How many relationships traversal `t` needs at least. */
  function Need(t: EdgeTraversal): nat {
    match t.depth case Some(d) => if d == Depth(1, 1) then 1 else d.min case None => 1
  }

  function Loop(t: EdgeTraversal): RelData {
    RelData(Alternatives(t.edgeLabel)[0], 0, 0, map[])
  }

  /** A loop on node 0 for every relationship the first `k` traversals need. */
  function Loops(q: ReadQuery, k: nat): seq<RelData>
    requires k <= |q.traversals|
  {
    if k == 0 then []
    else Loops(q, k - 1) + seq(Need(q.traversals[k - 1]), i => Loop(q.traversals[k - 1]))
  }

  /**
   One node carrying every label, and a loop for every hop: each required traversal has a match, nothing has a
   property.
   */
  function LoopGraph(q: ReadQuery): Graph {
    Graph([NodeData(Labelling(q, |q.traversals|), map[])], Loops(q, |q.traversals|))
  }

  predicate DepthsValid(q: ReadQuery) {
    forall i :: 0 <= i < |q.traversals| && q.traversals[i].depth.Some? ==>
      q.traversals[i].depth.value.min <= q.traversals[i].depth.value.max
  }

  lemma {:induction false} LoopsAre(q: ReadQuery, i: nat, k: nat)
    requires i < k <= |q.traversals|
    ensures |Loops(q, i)| + Need(q.traversals[i]) == |Loops(q, i + 1)| <= |Loops(q, k)|
    ensures forall r :: |Loops(q, i)| <= r < |Loops(q, i + 1)| ==> Loops(q, k)[r] == Loop(q.traversals[i])
    decreases k
  {
    if i + 1 < k {
      LoopsAre(q, i, k - 1);
    }
  }

  lemma {:induction false} LoopsAreLoops(q: ReadQuery, k: nat)
    requires k <= |q.traversals|
    ensures forall r :: 0 <= r < |Loops(q, k)| ==>
              Loops(q, k)[r].source == 0 && Loops(q, k)[r].target == 0 && Loops(q, k)[r].props == map[]
  {
    if k > 0 {
      LoopsAreLoops(q, k - 1);
    }
  }

  lemma {:induction false} LabelsAreCarried(q: ReadQuery, k: nat)
    requires k <= |q.traversals|
    ensures NodeLabels(q.start) <= Labelling(q, k)
    ensures forall i :: 0 <= i < k ==> NodeLabels(q.traversals[i].target) <= Labelling(q, k)
  {
    if k > 0 {
      LabelsAreCarried(q, k - 1);
    }
  }

  /** What traversal `i` binds its edge to on the loop graph: its own loops. */
  function LoopEdge(q: ReadQuery, i: nat): Value
    requires i < |q.traversals|
  {
    var t, from := q.traversals[i], |Loops(q, i)|;
    if t.depth == None || t.depth == Some(Depth(1, 1)) then RelV(from) else TrailV(seq(Need(t), j => from + j))
  }

  lemma {:induction false} AlternativesExist(s: string)
    ensures Alternatives(s) != []
  {
    if s != "" {
      AlternativesExist(s[1..]);
    }
  }

  lemma {:induction false} LoopWalk(g: Graph, node: nat, rels: seq<nat>, edgeType: string, dir: Direction)
    requires forall i :: 0 <= i < |rels| ==> Far(g, node, rels[i], edgeType, dir) == Some(node)
    ensures Walk(g, node, rels, edgeType, dir) == Some(node)
    decreases rels
  {
    if rels != [] {
      LoopWalk(g, node, rels[1..], edgeType, dir);
    }
  }

  lemma LoopsLink(q: ReadQuery, i: nat)
    requires i < |q.traversals| && DepthsValid(q)
    ensures Linked(LoopGraph(q), q.traversals[i], 0, LoopEdge(q, i), 0)
  {
    var g, t, from := LoopGraph(q), q.traversals[i], |Loops(q, i)|;
    LabelsAreCarried(q, |q.traversals|);
    LoopsAre(q, i, |q.traversals|);
    AlternativesExist(t.edgeLabel);
    forall r | from <= r < from + Need(t) ensures Far(g, 0, r, t.edgeLabel, t.direction) == Some(0) {
      assert g.rels[r] == Loop(t);
    }
    if LoopEdge(q, i).TrailV? {
      LoopWalk(g, 0, LoopEdge(q, i).ids, t.edgeLabel, t.direction);
    }
  }

  lemma LoopRels(q: ReadQuery, i: nat)
    requires i < |q.traversals|
    ensures forall r :: r in RelsOf(LoopEdge(q, i)) ==> |Loops(q, i)| <= r < |Loops(q, i + 1)|
  {
    LoopsAre(q, i, i + 1);
  }

  lemma {:induction false} LoopsGrow(q: ReadQuery, i: nat, j: nat)
    requires i <= j <= |q.traversals|
    ensures |Loops(q, i)| <= |Loops(q, j)|
  {
    if i < j {
      LoopsGrow(q, i, j - 1);
    }
  }

  /** The row that binds every required node to node 0 and every required edge to its own loops. */
  function LoopRow(q: ReadQuery, k: nat): Row
    requires k <= |q.traversals|
  {
    if k == 0 then map[q.start.alias := NodeV(0)]
    else if q.traversals[k - 1].optional then LoopRow(q, k - 1)
    else With(LoopRow(q, k - 1), q.traversals[k - 1], LoopEdge(q, k - 1), NodeV(0))
  }

  ghost predicate LoopRowOk(q: ReadQuery, k: nat)
    requires k <= |q.traversals|
  {
    var row := LoopRow(q, k);
    && row.Keys == Bound(q, false, k)
    && (forall a :: a in BoundNodes(q, false, k) ==> a in row && row[a] == NodeV(0))
    && (forall r :: r in ChainRels(q, k, row) ==> r < |Loops(q, k)|)
  }

  lemma {:induction false} LoopRowNodes(q: ReadQuery, k: nat)
    requires k <= |q.traversals| && Scoped(q)
    ensures LoopRowOk(q, k)
  {
    hide Loops, LoopEdge, Scoped;
    if k > 0 {
      LoopRowNodes(q, k - 1);
      LoopsGrow(q, k - 1, k);
      if q.traversals[k - 1].optional {
        assert LoopRow(q, k) == LoopRow(q, k - 1) && BoundNodes(q, false, k) == BoundNodes(q, false, k - 1);
        assert ChainRels(q, k, LoopRow(q, k)) == ChainRels(q, k - 1, LoopRow(q, k - 1));
      } else {
        LoopRowNext(q, k - 1);
      }
    }
  }

  lemma LoopRowNext(q: ReadQuery, k: nat)
    requires k < |q.traversals| && Scoped(q) && !q.traversals[k].optional
    requires LoopRowOk(q, k)
    ensures LoopRowOk(q, k + 1)
  {
    hide Loops, LoopEdge, ChainRels, RequiredOk;
    NodesAreBound(q, false, k);
    LoopsGrow(q, k, k + 1);
    LoopRels(q, k);
    OwnAliasesAreFresh(q, false, k, k);
    RequiredReads(LoopGraph(q), q, k, LoopRow(q, k), LoopRow(q, k + 1));
    OneMore(LoopGraph(q), q, k, LoopRow(q, k + 1));
  }

  lemma {:induction false} LoopRowMatches(q: ReadQuery, k: nat)
    requires k <= |q.traversals| && Scoped(q) && DepthsValid(q)
    ensures RequiredOk(LoopGraph(q), q, k, LoopRow(q, k))
  {
    hide Loops, LoopEdge, Scoped, Linked, ChainRels, Labelling;
    var g := LoopGraph(q);
    if k == 0 {
      LabelsAreCarried(q, |q.traversals|);
    } else {
      LoopRowMatches(q, k - 1);
      LoopRowNodes(q, k - 1);
      if !q.traversals[k - 1].optional {
        LoopStepMatches(q, k - 1);
      }
    }
  }

  lemma LoopStepMatches(q: ReadQuery, k: nat)
    requires k < |q.traversals| && Scoped(q) && DepthsValid(q) && !q.traversals[k].optional
    requires RequiredOk(LoopGraph(q), q, k, LoopRow(q, k)) && LoopRowOk(q, k)
    ensures RequiredOk(LoopGraph(q), q, k + 1, LoopRow(q, k + 1))
  {
    hide Loops, LoopEdge, Linked, ChainRels, RequiredOk, LoopGraph;
    var g := LoopGraph(q);
    OwnAliasesAreFresh(q, false, k, k);
    NodesAreBound(q, false, k);
    assert ScopedFrom(q, k);
    RequiredReads(g, q, k, LoopRow(q, k), LoopRow(q, k + 1));
    LoopsLink(q, k);
    LoopRels(q, k);
    OneMore(g, q, k, LoopRow(q, k + 1));
  }

  lemma {:induction false} OptionalsKeepRows(g: Graph, params: map<string, Literal>, required: seq<Clause>,
                                             cs: seq<Clause>)
    requires RunClauses(g, params, required) != [] && forall i :: 0 <= i < |cs| ==> cs[i].optional
    ensures RunClauses(g, params, required + cs) != []
    decreases |cs|
  {
    if cs == [] {
      assert required + cs == required;
    } else {
      var init, c := cs[..|cs| - 1], cs[|cs| - 1];
      OptionalsKeepRows(g, params, required, init);
      var rows := RunClauses(g, params, required + init);
      assert (required + cs)[..|required + cs| - 1] == required + init;
      var first := ClauseRows(g, params, c)(rows[0]);
      assert first != [];
      FlatMapMember(rows, ClauseRows(g, params, c), first[0]);
    }
  }

  lemma {:induction false} OptionalClausesAreOptional(q: ReadQuery, k: nat)
    requires k <= |q.traversals|
    ensures forall i :: 0 <= i < |OptionalClauses(q, k)| ==> OptionalClauses(q, k)[i].optional
  {
    if k > 0 {
      OptionalClausesAreOptional(q, k - 1);
    }
  }

  lemma LoopGraphIsValid(q: ReadQuery)
    ensures ValidGraph(LoopGraph(q)) && NoProperties(LoopGraph(q))
  {
    LoopsAreLoops(q, |q.traversals|);
  }
}
