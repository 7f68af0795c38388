/**
 For every query a graph on which its required patterns match as its filter asks: a node of its own for every target
 and a relationship of its own for every hop, with the properties of some row that passes the filter. A traversal whose
 start nobody has bound yet is matched in a second, separate copy.
 */
module TreeGraphs {
  import opened Common
  import opened Ast
  import opened WherePart
  import opened Semantics
  import opened Matching
  import opened Reference
  import opened RequiredPart
  import opened OptionalPart
  import opened LoopGraphs
  import opened DocumentOrder

  predicate DepthsPositive(q: ReadQuery) {
    forall i :: 0 <= i < |q.traversals| && q.traversals[i].depth.Some? ==>
      1 <= q.traversals[i].depth.value.min <= q.traversals[i].depth.value.max
  }

  /** A graph and a row of it whose properties the tree takes over. */
  datatype Sample = Sample(g: Graph, row: Row)

  function PropsOf(x: Sample, alias: string): map<string, Literal> {
    if alias !in x.row then map[]
    else match x.row[alias]
      case NodeV(id) => if id < |x.g.nodes| then x.g.nodes[id].props else map[]
      case RelV(id) => if id < |x.g.rels| then x.g.rels[id].props else map[]
      case _ => map[]
  }

  // ---- nodes: the start and the targets, twice ----

  function Width(q: ReadQuery): nat {
    |q.traversals| + 1
  }

  function Base(q: ReadQuery, side: nat): nat {
    if side == 0 then 0 else Width(q)
  }

  function SideOf(q: ReadQuery, id: nat): nat {
    if id < Width(q) then 0 else 1
  }

  function NodeProps(q: ReadQuery, x: Sample, id: nat): map<string, Literal>
    requires id < Width(q) + Width(q)
  {
    var i := if id < Width(q) then id else id - Width(q);
    if i == 0 then PropsOf(x, q.start.alias) else PropsOf(x, q.traversals[i - 1].target.alias)
  }

  // ---- the row the required patterns bind ----

  /** The row before traversal `k`: a start nobody has bound yet is matched at the root of the second copy. */
  function Started(q: ReadQuery, k: nat): Row
    requires k < |q.traversals|
    decreases k, 1
  {
    var from, row := q.traversals[k].fromAlias, TreeRow(q, k);
    if from in row then row else row[from := NodeV(Width(q))]
  }

  function FromId(q: ReadQuery, k: nat): nat
    requires k < |q.traversals|
    decreases k, 2
  {
    var from, row := q.traversals[k].fromAlias, Started(q, k);
    if from in row && row[from].NodeV? then row[from].id else 0
  }

  function TargetId(q: ReadQuery, k: nat): nat
    requires k < |q.traversals|
    decreases k, 3
  {
    Base(q, SideOf(q, FromId(q, k))) + 1 + k
  }

  function TreeRow(q: ReadQuery, k: nat): Row
    requires k <= |q.traversals|
    decreases k, 0
  {
    if k == 0 then map[q.start.alias := NodeV(0)]
    else if q.traversals[k - 1].optional then TreeRow(q, k - 1)
    else With(Started(q, k - 1), q.traversals[k - 1], TreeEdge(q, k - 1), NodeV(TargetId(q, k - 1)))
  }

  /** How many relationships the first `k` required traversals take. */
  function Offset(q: ReadQuery, k: nat): nat
    requires k <= |q.traversals|
  {
    if k == 0 then 0
    else Offset(q, k - 1) + (if q.traversals[k - 1].optional then 0 else Need(q.traversals[k - 1]))
  }

  function TreeEdge(q: ReadQuery, k: nat): Value
    requires k < |q.traversals|
  {
    var t, first := q.traversals[k], Offset(q, k);
    if IsPlain(t) then RelV(first) else TrailV(seq(Need(t), j => first + j))
  }

  ghost predicate TreeOk(q: ReadQuery, k: nat)
    requires k <= |q.traversals|
  {
    var row := TreeRow(q, k);
    && q.start.alias in row && row[q.start.alias] == NodeV(0)
    && (forall a :: a in row ==>
          a in Bound(q, false, k) || (a in BoundNodes(q, true, k) && row[a] == NodeV(Width(q))))
    && (forall a :: a in BoundNodes(q, false, k) ==> a in row && row[a].NodeV? && row[a].id < Width(q) + Width(q))
  }

  lemma {:induction false} TreeRowOk(q: ReadQuery, k: nat)
    requires k <= |q.traversals| && InOrder(q)
    ensures TreeOk(q, k)
  {
    hide TreeEdge, InOrder, TargetId, FromId, Started;
    if k > 0 {
      TreeRowOk(q, k - 1);
      NodesAreBound(q, true, k - 1);
      if !q.traversals[k - 1].optional {
        StartedOk(q, k - 1);
        TargetSide(q, k - 1);
        OwnAliasesAreNew(q, k - 1);
        NodesAreBound(q, false, k - 1);
      }
    }
  }

  lemma TargetSide(q: ReadQuery, k: nat)
    requires k < |q.traversals|
    ensures TargetId(q, k) < Width(q) + Width(q) && SideOf(q, TargetId(q, k)) == SideOf(q, FromId(q, k))
  {
    hide FromId;
  }

  lemma StartedOk(q: ReadQuery, k: nat)
    requires k < |q.traversals| && InOrder(q) && TreeOk(q, k)
    ensures var row, from := Started(q, k), q.traversals[k].fromAlias;
            && from in row && row[from] == NodeV(FromId(q, k)) && FromId(q, k) < Width(q) + Width(q)
            && (forall a :: a in row ==>
                  a in Bound(q, false, k) || (a in BoundNodes(q, true, k) && row[a] == NodeV(Width(q))))
            && (forall a :: a in TreeRow(q, k) ==> a in row && row[a] == TreeRow(q, k)[a])
  {
    hide TreeRow, Bound, BoundNodes;
    assert q.traversals[k].fromAlias in BoundNodes(q, false, k) + BoundNodes(q, true, k);
    DisjointNodes(q, k);
  }

  /** What is bound before traversal `k` stays, except for its own aliases. */
  lemma NextTreeRow(q: ReadQuery, k: nat)
    requires k < |q.traversals|
    ensures q.traversals[k].optional ==> TreeRow(q, k + 1) == TreeRow(q, k)
    ensures !q.traversals[k].optional ==>
              forall a :: a in Started(q, k) && a !in OwnAliases(q.traversals[k]) ==>
                a in TreeRow(q, k + 1) && TreeRow(q, k + 1)[a] == Started(q, k)[a]
  {
    hide TreeEdge, TargetId;
  }

  lemma TreeRowKeeps(q: ReadQuery, k: nat, a: string)
    requires k < |q.traversals| && InOrder(q) && a in TreeRow(q, k) && a !in OwnAliases(q.traversals[k])
    ensures a in TreeRow(q, k + 1) && TreeRow(q, k + 1)[a] == TreeRow(q, k)[a]
  {
    hide TreeRow, Started, InOrder, TreeOk;
    NextTreeRow(q, k);
    TreeRowOk(q, k);
    StartedOk(q, k);
  }

  lemma StrayStarts(q: ReadQuery, i: nat)
    requires InOrder(q) && i < |q.traversals| && Strays(q, i)
    ensures var from := q.traversals[i].fromAlias; from in Started(q, i) && Started(q, i)[from] == NodeV(Width(q))
  {
    hide DistinctAliases, TreeRow;
    TreeRowOk(q, i);
    StartedOk(q, i);
    DisjointNodes(q, i);
  }

  /** A stray start stays in the second copy. */
  lemma {:induction false} StraysStay(q: ReadQuery, i: nat, k: nat)
    requires InOrder(q) && i < k <= |q.traversals| && Strays(q, i)
    ensures q.traversals[i].fromAlias in TreeRow(q, k) && TreeRow(q, k)[q.traversals[i].fromAlias] == NodeV(Width(q))
    decreases k
  {
    hide DistinctAliases, TreeRow, Started, TreeOk, Bound, BoundNodes;
    OwnAliasesAreFresh(q, true, k - 1, i);
    NodesAreBound(q, true, i);
    NextTreeRow(q, k - 1);
    if i < k - 1 {
      StraysStay(q, i, k - 1);
      TreeRowKeeps(q, k - 1, q.traversals[i].fromAlias);
    } else {
      StrayStarts(q, i);
    }
  }

  /** So do the aliases of a required traversal. */
  lemma {:induction false} OwnStay(q: ReadQuery, i: nat, k: nat)
    requires InOrder(q) && i < k <= |q.traversals| && !q.traversals[i].optional
    ensures var t, row := q.traversals[i], TreeRow(q, k);
            && t.edgeAlias in row && row[t.edgeAlias] == TreeEdge(q, i)
            && t.target.alias in row && row[t.target.alias] == NodeV(TargetId(q, i))
    decreases k
  {
    hide TreeEdge, TargetId, TreeRow, InOrder;
    var t := q.traversals[i];
    if i < k - 1 {
      OwnStay(q, i, k - 1);
      OwnApart(q, i, k - 1);
      TreeRowKeeps(q, k - 1, t.edgeAlias);
      TreeRowKeeps(q, k - 1, t.target.alias);
    } else {
      OwnBound(q, i);
    }
  }

  lemma OwnApart(q: ReadQuery, i: nat, k: nat)
    requires InOrder(q) && i < k < |q.traversals|
    ensures q.traversals[i].edgeAlias !in OwnAliases(q.traversals[k])
    ensures q.traversals[i].target.alias !in OwnAliases(q.traversals[k])
  {
    assert OwnAliases(q.traversals[i]) !! OwnAliases(q.traversals[k]);
    assert q.traversals[i].edgeAlias in OwnAliases(q.traversals[i]);
    assert q.traversals[i].target.alias in OwnAliases(q.traversals[i]);
  }

  lemma OwnBound(q: ReadQuery, i: nat)
    requires InOrder(q) && i < |q.traversals| && !q.traversals[i].optional
    ensures var t, row := q.traversals[i], TreeRow(q, i + 1);
            && t.edgeAlias in row && row[t.edgeAlias] == TreeEdge(q, i)
            && t.target.alias in row && row[t.target.alias] == NodeV(TargetId(q, i))
  {
    hide TreeEdge, TargetId, InOrder, Started;
    OwnAliasesAreNew(q, i);
  }

  // ---- relationships: each required traversal has its own ----

  /** Loops where the traversal starts, then one relationship to its target. */
  function Branch(q: ReadQuery, x: Sample, k: nat): seq<RelData>
    requires k < |q.traversals|
  {
    var t := q.traversals[k];
    var relType, from, to := Alternatives(t.edgeLabel)[0], FromId(q, k), TargetId(q, k);
    seq(Need(t), j =>
      if j + 1 < Need(t) then RelData(relType, from, from, map[])
      else if t.direction == In then RelData(relType, to, from, PropsOf(x, t.edgeAlias))
      else RelData(relType, from, to, PropsOf(x, t.edgeAlias)))
  }

  function Branches(q: ReadQuery, x: Sample, k: nat): seq<RelData>
    requires k <= |q.traversals|
  {
    if k == 0 then []
    else if q.traversals[k - 1].optional then Branches(q, x, k - 1)
    else Branches(q, x, k - 1) + Branch(q, x, k - 1)
  }

  function Tree(q: ReadQuery, x: Sample): Graph {
    Graph(seq(Width(q) + Width(q), id requires 0 <= id < Width(q) + Width(q) =>
                NodeData(Labelling(q, |q.traversals|), NodeProps(q, x, id))),
          Branches(q, x, |q.traversals|))
  }

  lemma {:induction false} BranchesAre(q: ReadQuery, x: Sample, i: nat, k: nat)
    requires i < k <= |q.traversals| && !q.traversals[i].optional
    ensures Offset(q, i) + Need(q.traversals[i]) == Offset(q, i + 1) <= Offset(q, k) == |Branches(q, x, k)|
    ensures forall r :: Offset(q, i) <= r < Offset(q, i + 1) ==>
              Branches(q, x, k)[r] == Branch(q, x, i)[r - Offset(q, i)]
    decreases k
  {
    hide Branch;
    BranchesCount(q, x, k);
    BranchesCount(q, x, k - 1);
    BranchSize(q, x, k - 1);
    if i + 1 < k {
      BranchesAre(q, x, i, k - 1);
    }
  }

  lemma BranchSize(q: ReadQuery, x: Sample, k: nat)
    requires k < |q.traversals|
    ensures |Branch(q, x, k)| == Need(q.traversals[k])
  {
  }

  lemma {:induction false} BranchesCount(q: ReadQuery, x: Sample, k: nat)
    requires k <= |q.traversals|
    ensures |Branches(q, x, k)| == Offset(q, k)
  {
    hide Branch;
    if k > 0 {
      BranchesCount(q, x, k - 1);
      BranchSize(q, x, k - 1);
    }
  }

  lemma {:induction false} OffsetGrows(q: ReadQuery, i: nat, k: nat)
    requires i <= k <= |q.traversals|
    ensures Offset(q, i) <= Offset(q, k)
  {
    if i < k {
      OffsetGrows(q, i, k - 1);
    }
  }

  /** Both ends of every relationship are nodes of one copy. */
  ghost predicate OneSided(q: ReadQuery, rels: seq<RelData>) {
    forall r :: 0 <= r < |rels| ==>
      && rels[r].source < Width(q) + Width(q) && rels[r].target < Width(q) + Width(q)
      && SideOf(q, rels[r].source) == SideOf(q, rels[r].target)
  }

  lemma {:induction false} BranchesOneSided(q: ReadQuery, x: Sample, k: nat)
    requires InOrder(q) && k <= |q.traversals|
    ensures OneSided(q, Branches(q, x, k))
  {
    hide Branch, FromId, TargetId, InOrder;
    if k > 0 {
      BranchesOneSided(q, x, k - 1);
      if !q.traversals[k - 1].optional {
        BranchOneSided(q, x, k - 1);
      }
    }
  }

  lemma BranchOneSided(q: ReadQuery, x: Sample, k: nat)
    requires InOrder(q) && k < |q.traversals|
    ensures OneSided(q, Branch(q, x, k))
  {
    hide FromId, InOrder, Alternatives;
    TreeRowOk(q, k);
    StartedOk(q, k);
  }

  lemma TreeIsValid(q: ReadQuery, x: Sample)
    requires InOrder(q)
    ensures ValidGraph(Tree(q, x)) && OneSided(q, Tree(q, x).rels) && |Tree(q, x).nodes| == Width(q) + Width(q)
  {
    hide Branches, InOrder, NodeProps;
    BranchesOneSided(q, x, |q.traversals|);
  }

  // ---- each required traversal matches ----

  lemma {:induction false} LoopsThenEdge(g: Graph, rels: seq<nat>, from: nat, to: nat, edgeType: string, dir: Direction)
    requires rels != [] && forall j :: 0 <= j < |rels| - 1 ==> Far(g, from, rels[j], edgeType, dir) == Some(from)
    requires Far(g, from, rels[|rels| - 1], edgeType, dir) == Some(to)
    ensures Walk(g, from, rels, edgeType, dir) == Some(to)
    decreases |rels|
  {
    hide Far;
    if |rels| == 1 {
      assert rels[1..] == [];
    } else {
      LoopsThenEdge(g, rels[1..], from, to, edgeType, dir);
    }
  }

  lemma BranchFar(q: ReadQuery, x: Sample, i: nat, j: nat)
    requires i < |q.traversals| && InOrder(q) && !q.traversals[i].optional && j < Need(q.traversals[i])
    ensures var t := q.traversals[i];
            Far(Tree(q, x), FromId(q, i), Offset(q, i) + j, t.edgeLabel, t.direction)
            == Some(if j + 1 < Need(t) then FromId(q, i) else TargetId(q, i))
  {
    hide FromId, TargetId, InOrder, NodeProps, Offset, Branches;
    var t := q.traversals[i];
    AlternativesExist(t.edgeLabel);
    BranchesAre(q, x, i, |q.traversals|);
    assert Tree(q, x).rels[Offset(q, i) + j] == Branch(q, x, i)[j];
    hide Alternatives;
  }

  lemma TreeLinks(q: ReadQuery, x: Sample, i: nat)
    requires i < |q.traversals| && InOrder(q) && DepthsPositive(q) && !q.traversals[i].optional
    ensures Linked(Tree(q, x), q.traversals[i], FromId(q, i), TreeEdge(q, i), TargetId(q, i))
  {
    hide FromId, TargetId, InOrder, Far, Tree, Offset;
    var g, t, from, to := Tree(q, x), q.traversals[i], FromId(q, i), TargetId(q, i);
    TargetFits(q, x, i);
    if TreeEdge(q, i).TrailV? {
      var rels := TreeEdge(q, i).ids;
      forall j | 0 <= j < |rels|
        ensures Far(g, from, rels[j], t.edgeLabel, t.direction) == Some(if j + 1 < Need(t) then from else to)
      {
        BranchFar(q, x, i, j);
      }
      LoopsThenEdge(g, rels, from, to, t.edgeLabel, t.direction);
    } else {
      BranchFar(q, x, i, 0);
    }
  }

  lemma TargetFits(q: ReadQuery, x: Sample, i: nat)
    requires i < |q.traversals| && InOrder(q)
    ensures NodeMatches(Tree(q, x), TargetId(q, i), q.traversals[i].target)
  {
    hide FromId, InOrder, NodeProps, Branches;
    LabelsAreCarried(q, |q.traversals|);
  }

  lemma TreeRels(q: ReadQuery, i: nat)
    requires i < |q.traversals| && !q.traversals[i].optional
    ensures forall r :: r in RelsOf(TreeEdge(q, i)) ==> Offset(q, i) <= r < Offset(q, i + 1)
  {
  }

  // ---- the filter reads there what it reads in the sample ----

  ghost predicate SameReads(g: Graph, row: Row, g': Graph, row': Row, names: set<string>) {
    forall a, p :: a in names ==> Lookup(g, row, PropertyRef(a, p)) == Lookup(g', row', PropertyRef(a, p))
  }

  lemma {:induction false} FilterReadsSame(g: Graph, row: Row, g': Graph, row': Row, f: FilterExpression)
    requires SameReads(g, row, g', row', ReferencedAliases(f))
    ensures EvalFilter(g, row, f) == EvalFilter(g', row', f)
    decreases f
  {
    hide Lookup;
    match f {
      case Pred(p) =>
        assert p.field == PropertyRef(p.field.alias, p.field.property);
        assert p.field.alias in ReferencedAliases(f);
      case Not(inner) => FilterReadsSame(g, row, g', row', inner);
      case And(parts) => FiltersReadSame(g, row, g', row', parts);
      case Or(parts) => FiltersReadSame(g, row, g', row', parts);
    }
  }

  lemma {:induction false} FiltersReadSame(g: Graph, row: Row, g': Graph, row': Row, parts: List<FilterExpression>)
    requires SameReads(g, row, g', row', AliasesOfAll(parts))
    ensures EvalAll(g, row, parts) == EvalAll(g', row', parts)
    ensures EvalAny(g, row, parts) == EvalAny(g', row', parts)
    decreases parts
  {
    hide Lookup;
    match parts {
      case Nil =>
      case Cons(p, rest) =>
        FilterReadsSame(g, row, g', row', p);
        FiltersReadSame(g, row, g', row', rest);
    }
  }

  lemma {:induction false} BoundIs(q: ReadQuery, k: nat, a: string)
    requires k <= |q.traversals| && a in Bound(q, false, k)
    ensures a == q.start.alias
            || exists i :: 0 <= i < k && !q.traversals[i].optional && a in OwnAliases(q.traversals[i])
  {
    if k > 0 && a in Bound(q, false, k - 1) {
      BoundIs(q, k - 1, a);
    }
  }

  lemma TreeReads(q: ReadQuery, x: Sample)
    requires InOrder(q) && DepthsPositive(q) && Kinded(x.g, q, |q.traversals|, x.row)
    ensures SameReads(Tree(q, x), TreeRow(q, |q.traversals|), x.g, x.row, Bound(q, false, |q.traversals|))
  {
    hide Tree, TreeRow, InOrder, Kinded, Lookup;
    var n := |q.traversals|;
    forall a, p | a in Bound(q, false, n)
      ensures Lookup(Tree(q, x), TreeRow(q, n), PropertyRef(a, p)) == Lookup(x.g, x.row, PropertyRef(a, p))
    {
      BoundIs(q, n, a);
      if a == q.start.alias {
        StartReads(q, x, p);
      } else {
        var i :| 0 <= i < n && !q.traversals[i].optional && a in OwnAliases(q.traversals[i]);
        OwnReads(q, x, i, p);
      }
    }
  }

  lemma StartReads(q: ReadQuery, x: Sample, p: Option<string>)
    requires InOrder(q) && Kinded(x.g, q, |q.traversals|, x.row)
    ensures Lookup(Tree(q, x), TreeRow(q, |q.traversals|), PropertyRef(q.start.alias, p))
         == Lookup(x.g, x.row, PropertyRef(q.start.alias, p))
  {
    hide InOrder, Branches, TreeRow, KindedAt, Labelling;
    TreeRowOk(q, |q.traversals|);
    assert Tree(q, x).nodes[0].props == PropsOf(x, q.start.alias);
  }

  lemma OwnReads(q: ReadQuery, x: Sample, i: nat, p: Option<string>)
    requires InOrder(q) && DepthsPositive(q) && Kinded(x.g, q, |q.traversals|, x.row)
    requires i < |q.traversals| && !q.traversals[i].optional
    ensures var t, n := q.traversals[i], |q.traversals|;
            forall a :: a in OwnAliases(t) ==>
              Lookup(Tree(q, x), TreeRow(q, n), PropertyRef(a, p)) == Lookup(x.g, x.row, PropertyRef(a, p))
  {
    hide InOrder, TreeRow, FromId, Offset, Tree, Labelling;
    var t, n := q.traversals[i], |q.traversals|;
    assert KindedAt(x.g, t, x.row);
    OwnStay(q, i, n);
    TargetProps(q, x, i);
    EdgeProps(q, x, i);
  }

  lemma TargetProps(q: ReadQuery, x: Sample, i: nat)
    requires i < |q.traversals|
    ensures TargetId(q, i) < |Tree(q, x).nodes|
    ensures Tree(q, x).nodes[TargetId(q, i)].props == PropsOf(x, q.traversals[i].target.alias)
  {
    hide FromId, Branches, Labelling;
  }

  lemma EdgeProps(q: ReadQuery, x: Sample, i: nat)
    requires i < |q.traversals| && !q.traversals[i].optional && DepthsPositive(q)
    ensures IsPlain(q.traversals[i]) ==>
              Offset(q, i) < |Tree(q, x).rels|
              && Tree(q, x).rels[Offset(q, i)].props == PropsOf(x, q.traversals[i].edgeAlias)
  {
    hide FromId, TargetId, Branches, Offset, NodeProps;
    if IsPlain(q.traversals[i]) {
      BranchesAre(q, x, i, |q.traversals|);
      assert Branch(q, x, i)[0].props == PropsOf(x, q.traversals[i].edgeAlias);
    }
  }
}
