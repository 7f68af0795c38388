/**
 What a read query asks for, stated on final rows without reference to clauses, their order or their
 text: a row binds every alias, each required traversal links its two nodes, each optional one does so
 or is null because nothing links, and the filter is true.
 */
module Reference {
  import opened Common
  import opened Ast
  import opened WherePart
  import opened Comparisons
  import opened MatchPart
  import opened Semantics

  // ---- names ----

  /** Start, edge and target aliases, without repetition: what `validate` accepts. */
  ghost predicate DistinctAliases(q: ReadQuery) {
    && (forall i :: 0 <= i < |q.traversals| ==>
          q.traversals[i].edgeAlias != q.traversals[i].target.alias
          && q.traversals[i].edgeAlias != q.start.alias && q.traversals[i].target.alias != q.start.alias)
    && (forall i, j :: 0 <= i < j < |q.traversals| ==> OwnAliases(q.traversals[i]) !! OwnAliases(q.traversals[j]))
  }

  function OwnAliases(t: EdgeTraversal): set<string> {
    {t.edgeAlias, t.target.alias}
  }

  /** The aliases the first `k` traversals bind, taking the required or the optional ones. */
  function Bound(q: ReadQuery, optional: bool, k: nat): set<string>
    requires k <= |q.traversals|
  {
    if k == 0 then (if optional then {} else {q.start.alias})
    else if q.traversals[k - 1].optional == optional then Bound(q, optional, k - 1) + OwnAliases(q.traversals[k - 1])
    else Bound(q, optional, k - 1)
  }

  function BoundNodes(q: ReadQuery, optional: bool, k: nat): set<string>
    requires k <= |q.traversals|
  {
    if k == 0 then (if optional then {} else {q.start.alias})
    else if q.traversals[k - 1].optional == optional
            then BoundNodes(q, optional, k - 1) + {q.traversals[k - 1].target.alias}
    else BoundNodes(q, optional, k - 1)
  }

  function Aliases(q: ReadQuery): set<string> {
    Bound(q, false, |q.traversals|) + Bound(q, true, |q.traversals|)
  }

  /** Every traversal starts from a node bound before it; a required one from a required node. */
  ghost predicate Scoped(q: ReadQuery) {
    && DistinctAliases(q)
    && forall i :: 0 <= i < |q.traversals| ==> ScopedFrom(q, i)
  }

  ghost predicate ScopedFrom(q: ReadQuery, i: nat)
    requires i < |q.traversals|
  {
    var from := q.traversals[i].fromAlias;
    if q.traversals[i].optional then from in BoundNodes(q, false, |q.traversals|) + BoundNodes(q, true, i)
    else from in BoundNodes(q, false, i)
  }

  // ---- what a traversal asks ----

  predicate NodeMatches(g: Graph, id: nat, node: Node) {
    && id < |g.nodes|
    && (node.nodeLabel != "" ==> node.nodeLabel in g.nodes[id].labels)
    && (node.prefixLabel.Some? && node.prefixLabel.value != "" ==> node.prefixLabel.value in g.nodes[id].labels)
  }

  /** One relationship, or a trail whose length lies in the depth range. */
  ghost predicate Linked(g: Graph, t: EdgeTraversal, from: nat, edge: Value, to: nat) {
    && NodeMatches(g, to, t.target)
    && if t.depth == None || t.depth == Some(Depth(1, 1)) then
         edge.RelV? && Far(g, from, edge.id, t.edgeLabel, t.direction) == Some(to)
       else
         edge.TrailV? && t.depth.value.min <= |edge.ids| <= t.depth.value.max && NoDup(edge.ids)
         && Walk(g, from, edge.ids, t.edgeLabel, t.direction) == Some(to)
  }

  ghost predicate Holds(g: Graph, t: EdgeTraversal, row: Row) {
    && t.fromAlias in row && t.edgeAlias in row && t.target.alias in row
    && row[t.fromAlias].NodeV? && row[t.target.alias].NodeV?
    && Linked(g, t, row[t.fromAlias].id, row[t.edgeAlias], row[t.target.alias].id)
  }

  ghost predicate NothingLinks(g: Graph, t: EdgeTraversal, from: Value) {
    from.NodeV? ==> forall edge, to :: !Linked(g, t, from.id, edge, to)
  }

  ghost predicate OptionalHolds(g: Graph, t: EdgeTraversal, row: Row) {
    || Holds(g, t, row)
    || (&& t.fromAlias in row && t.edgeAlias in row && t.target.alias in row
        && row[t.edgeAlias] == NullV && row[t.target.alias] == NullV && NothingLinks(g, t, row[t.fromAlias]))
  }

  ghost predicate StartHolds(g: Graph, q: ReadQuery, row: Row) {
    q.start.alias in row && row[q.start.alias].NodeV? && NodeMatches(g, row[q.start.alias].id, q.start)
  }

  /** Between `i` and `j` every required traversal continues from where the required one before it ended. */
  ghost predicate SameChain(q: ReadQuery, i: nat, j: nat)
    requires i < j < |q.traversals|
  {
    forall k :: i < k <= j && !q.traversals[k].optional ==> q.traversals[k].fromAlias == Endpoint(q, k)
  }

  /** Along one chain no relationship is used twice. */
  ghost predicate ChainsAreTrails(q: ReadQuery, row: Row) {
    forall i, j :: 0 <= i < j < |q.traversals| ==> Apart(q, i, j, row)
  }

  ghost predicate Apart(q: ReadQuery, i: nat, j: nat, row: Row)
    requires i < j < |q.traversals|
  {
    var a, b := q.traversals[i], q.traversals[j];
    !a.optional && !b.optional && SameChain(q, i, j) && a.edgeAlias in row && b.edgeAlias in row ==>
      RelsOf(row[a.edgeAlias]) !! RelsOf(row[b.edgeAlias])
  }

  /** Relationship `r` has one of the types and leads from `a` to `b` in the direction asked. */
  ghost predicate Leads(g: Graph, a: nat, r: nat, b: nat, edgeLabel: string, d: Direction) {
    && r < |g.rels| && g.rels[r].relType in Alternatives(edgeLabel)
    && ((d != In && g.rels[r].source == a && g.rels[r].target == b)
        || (d != Out && g.rels[r].source == b && g.rels[r].target == a))
  }

  /** Relationship after relationship from stop to stop. */
  ghost predicate LeadOn(g: Graph, stops: seq<nat>, rels: seq<nat>, edgeLabel: string, d: Direction) {
    |stops| == |rels| + 1 && forall k :: 0 <= k < |rels| ==> Leads(g, stops[k], rels[k], stops[k + 1], edgeLabel, d)
  }

  lemma FarLeads(g: Graph, a: nat, r: nat, b: nat, edgeLabel: string, d: Direction)
    ensures Far(g, a, r, edgeLabel, d) == Some(b) <==> Leads(g, a, r, b, edgeLabel, d)
  {
    hide Alternatives;
  }

  lemma {:induction false} WalkLeads(g: Graph, from: nat, rels: seq<nat>, edgeLabel: string, d: Direction, to: nat)
    requires Walk(g, from, rels, edgeLabel, d) == Some(to)
    ensures exists stops :: LeadOn(g, stops, rels, edgeLabel, d) && stops[0] == from && stops[|rels|] == to
    decreases rels
  {
    hide Far, Leads;
    if rels == [] {
      assert LeadOn(g, [from], rels, edgeLabel, d);
    } else {
      var next := Far(g, from, rels[0], edgeLabel, d).value;
      FarLeads(g, from, rels[0], next, edgeLabel, d);
      WalkLeads(g, next, rels[1..], edgeLabel, d, to);
      var rest :| LeadOn(g, rest, rels[1..], edgeLabel, d) && rest[0] == next && rest[|rels| - 1] == to;
      var stops := [from] + rest;
      forall k | 0 <= k < |rels| ensures Leads(g, stops[k], rels[k], stops[k + 1], edgeLabel, d) {
        assert k > 0 ==> Leads(g, rest[k - 1], rels[1..][k - 1], rest[k], edgeLabel, d);
      }
      assert LeadOn(g, stops, rels, edgeLabel, d);
    }
  }

  lemma {:induction false} LeadsWalk(g: Graph, stops: seq<nat>, rels: seq<nat>, edgeLabel: string, d: Direction)
    requires LeadOn(g, stops, rels, edgeLabel, d)
    ensures Walk(g, stops[0], rels, edgeLabel, d) == Some(stops[|rels|])
    decreases rels
  {
    hide Far, Leads;
    if rels != [] {
      assert Leads(g, stops[0], rels[0], stops[1], edgeLabel, d);
      FarLeads(g, stops[0], rels[0], stops[1], edgeLabel, d);
      LeadsWalk(g, stops[1..], rels[1..], edgeLabel, d);
    }
  }

  /**
   What a traversal links: nodes joined by one relationship of a listed type in its direction, or by so many different
   ones in a row as its depth allows.
   */
  lemma LinkedMeans(g: Graph, t: EdgeTraversal, from: nat, edge: Value, to: nat)
    ensures Linked(g, t, from, edge, to) <==>
            && NodeMatches(g, to, t.target)
            && match edge
               case RelV(r) => (t.depth == None || t.depth == Some(Depth(1, 1)))
                               && Leads(g, from, r, to, t.edgeLabel, t.direction)
               case TrailV(rels) =>
                 && t.depth.Some? && t.depth != Some(Depth(1, 1)) && t.depth.value.min <= |rels| <= t.depth.value.max
                 && NoDup(rels)
                 && exists stops :: LeadOn(g, stops, rels, t.edgeLabel, t.direction) && stops[0] == from
                                    && stops[|rels|] == to
               case _ => false
  {
    hide Far, Walk, Leads, NodeMatches;
    match edge
    case RelV(r) => FarLeads(g, from, r, to, t.edgeLabel, t.direction);
    case TrailV(rels) =>
      if Walk(g, from, rels, t.edgeLabel, t.direction) == Some(to) {
        WalkLeads(g, from, rels, t.edgeLabel, t.direction, to);
      }
      if stops :| LeadOn(g, stops, rels, t.edgeLabel, t.direction) && stops[0] == from && stops[|rels|] == to {
        LeadsWalk(g, stops, rels, t.edgeLabel, t.direction);
      }
    case _ =>
  }

  // ---- what a filter asks ----

  function EvalFilter(g: Graph, row: Row, f: FilterExpression): Tri {
    match f
    case Pred(p) => Asks(g, row, p)
    case And(parts) => EvalAll(g, row, parts)
    case Or(parts) => EvalAny(g, row, parts)
    case Not(inner) => Not3(EvalFilter(g, row, inner))
  }

  function EvalAll(g: Graph, row: Row, parts: List<FilterExpression>): Tri {
    match parts
    case Nil => True
    case Cons(p, rest) => And3(EvalFilter(g, row, p), EvalAll(g, row, rest))
  }

  function EvalAny(g: Graph, row: Row, parts: List<FilterExpression>): Tri {
    match parts
    case Nil => False
    case Cons(p, rest) => Or3(EvalFilter(g, row, p), EvalAny(g, row, rest))
  }

  predicate Passes(g: Graph, row: Row, filter: Option<FilterExpression>) {
    filter.Some? ==> EvalFilter(g, row, filter.value) == True
  }

  // ---- answers ----

  ghost predicate IsAnswer(g: Graph, q: ReadQuery, row: Row) {
    && row.Keys == Aliases(q)
    && StartHolds(g, q, row)
    && (forall i :: 0 <= i < |q.traversals| ==>
          if q.traversals[i].optional then OptionalHolds(g, q.traversals[i], row) else Holds(g, q.traversals[i], row))
    && ChainsAreTrails(q, row)
    && Passes(g, row, q.filter)
  }

  /** A filter reads nothing but the aliases it references. */
  lemma {:induction false} FilterReads(g: Graph, row: Row, row': Row, f: FilterExpression)
    requires forall a :: a in ReferencedAliases(f) ==> (a in row <==> a in row') && (a in row ==> row[a] == row'[a])
    ensures EvalFilter(g, row, f) == EvalFilter(g, row', f)
    decreases f
  {
    match f {
      case Pred(p) => assert p.field.alias in ReferencedAliases(f);
      case And(parts) => FiltersRead(g, row, row', parts);
      case Or(parts) => FiltersRead(g, row, row', parts);
      case Not(inner) => FilterReads(g, row, row', inner);
    }
  }

  lemma {:induction false} FiltersRead(g: Graph, row: Row, row': Row, parts: List<FilterExpression>)
    requires forall a :: a in AliasesOfAll(parts) ==> (a in row <==> a in row') && (a in row ==> row[a] == row'[a])
    ensures EvalAll(g, row, parts) == EvalAll(g, row', parts)
    ensures EvalAny(g, row, parts) == EvalAny(g, row', parts)
    decreases parts
  {
    match parts {
      case Nil =>
      case Cons(p, rest) =>
        FilterReads(g, row, row', p);
        FiltersRead(g, row, row', rest);
    }
  }

  /** The emitted step asks the same of a relationship as the traversal does. */
  lemma LinkIsLinked(g: Graph, t: EdgeTraversal, from: nat, edge: Value, to: nat)
    ensures Link(g, StepOf(t), from, edge, to) <==> Linked(g, t, from, edge, to)
  {
    NodePatternMatches(g, to, t.target);
  }

  lemma NodePatternMatches(g: Graph, id: nat, node: Node)
    ensures NodeFits(g, id, Labels(node)) <==> NodeMatches(g, id, node)
  {
    var labels := Labels(node);
    if NodeFits(g, id, labels) {
      if node.nodeLabel != "" {
        assert labels[0] == node.nodeLabel;
      }
      if node.prefixLabel.Some? && node.prefixLabel.value != "" {
        assert labels[|labels| - 1] == node.prefixLabel.value;
      }
    }
  }
}
