/** What direction correction does to the answers of a whole query. */
module DirectionAnswers {
  import opened Common
  import opened Ast
  import opened Dsl
  import opened MatchPart
  import opened Semantics
  import opened Reference
  import opened RequiredPart
  import opened Directions
  import opened DirectionMatches
  import opened DocumentOrder

  function LoweredStep(start: string, prefix: Option<string>, s: DslTraversal): EdgeTraversal {
    EdgeTraversal(FromAlias(start, s), s.edgeLabel, s.edgeAlias, s.direction,
                  Node(s.targetLabel, s.targetAlias, prefix), s.depth, s.optional)
  }

  /** The start and the traversals of the query are those of the document. */
  ghost predicate Lowers(q: ReadQuery, start: string, startLabel: string, steps: seq<DslTraversal>) {
    && q.start == Node(startLabel, start, q.start.prefixLabel) && |q.traversals| == |steps|
    && forall i :: 0 <= i < |steps| ==> q.traversals[i] == LoweredStep(start, q.start.prefixLabel, steps[i])
  }

  // ---- the labels the correction knows are those of an answer's nodes ----

  ghost predicate LabelKnown(g: Graph, labels: AliasLabels, row: Row, a: string) {
    a in labels && (a in row && row[a].NodeV? && labels[a] != "" ==> Labelled(g, row[a].id, labels[a]))
  }

  lemma {:induction false} LabelsAreKnown(g: Graph, q: ReadQuery, row: Row, startLabel: string,
                                          steps: seq<DslTraversal>, k: nat)
    requires InOrder(q) && Lowers(q, q.start.alias, startLabel, steps) && IsAnswer(g, q, row) && k <= |steps|
    ensures forall a :: a in BoundNodes(q, false, k) + BoundNodes(q, true, k) ==>
              LabelKnown(g, LabelsBefore(q.start.alias, startLabel, steps, k), row, a)
  {
    hide InOrder, Aliases, ChainsAreTrails, Passes, Linked, NothingLinks;
    if k > 0 {
      LabelsAreKnown(g, q, row, startLabel, steps, k - 1);
      var t := q.traversals[k - 1];
      assert t == LoweredStep(q.start.alias, q.start.prefixLabel, steps[k - 1]);
      NewTarget(q, k - 1);
      TargetMatches(g, q, row, k - 1);
    }
  }

  lemma NewTarget(q: ReadQuery, k: nat)
    requires InOrder(q) && k < |q.traversals|
    ensures q.traversals[k].target.alias !in BoundNodes(q, false, k) + BoundNodes(q, true, k)
  {
    OwnAliasesAreNew(q, k);
    NodesAreBound(q, false, k);
    NodesAreBound(q, true, k);
  }

  lemma TargetMatches(g: Graph, q: ReadQuery, row: Row, i: nat)
    requires i < |q.traversals| && IsAnswer(g, q, row)
    ensures var t := q.traversals[i];
            t.target.alias in row && (row[t.target.alias].NodeV? ==> NodeMatches(g, row[t.target.alias].id, t.target))
  {
    hide Aliases, ChainsAreTrails, Passes, StartHolds, Walk, Far, NodeMatches, NothingLinks;
    var t := q.traversals[i];
    assert if t.optional then OptionalHolds(g, t, row) else Holds(g, t, row);
  }

  // ---- one traversal ----

  /** The trail a link stands for. */
  function TrailOf(edge: Value): seq<nat> {
    match edge
    case RelV(id) => [id]
    case TrailV(ids) => ids
    case _ => []
  }

  predicate DepthValid(s: DslTraversal) {
    s.depth.Some? ==> 1 <= s.depth.value.min <= s.depth.value.max
  }

  lemma LinkedIsMatch(g: Graph, s: DslTraversal, d: Direction, start: string, prefix: Option<string>, fromLabel: string,
                      from: nat, edge: Value, to: nat)
    requires Labelled(g, from, fromLabel) && s.targetLabel != "" && DepthValid(s)
    ensures var t := LoweredStep(start, prefix, s.(direction := d));
            var plain := s.depth == None || s.depth == Some(Depth(1, 1));
            Linked(g, t, from, edge, to) <==>
            && NodeMatches(g, to, t.target) && (if plain then edge.RelV? else edge.TrailV?)
            && Matches(g, s, fromLabel, d, from, TrailOf(edge), to)
  {
    if edge.RelV? {
      var one := [edge.id];
      assert one[1..] == [];
      assert Walk(g, from, one, s.edgeLabel, d)
          == match Far(g, from, one[0], s.edgeLabel, d)
             case Some(next) => Walk(g, next, one[1..], s.edgeLabel, d)
             case None => None;
    }
  }

  /** The step is left alone, or turned without loss, or, where it has to mean the same, narrowed without loss. */
  ghost predicate Harmless(schema: seq<SchemaRel>, live: seq<SchemaRel>, sides: iset<string>, labels: AliasLabels,
                           start: string, s: DslTraversal, exactly: bool) {
    var d := Corrected(schema, labels, start, s);
    d == s.direction || (!Lossy(schema, live, s, labels[FromAlias(start, s)], sides)
                         && (exactly || s.optional ==> s.direction == Both))
  }

  lemma LinkKept(g: Graph, first: seq<string>, schema: seq<SchemaRel>, live: seq<SchemaRel>, sides: iset<string>,
                 labels: AliasLabels, s: DslTraversal, start: string, prefix: Option<string>,
                 from: nat, edge: Value, to: nat, exactly: bool)
    requires PlainTypes(schema) && Describes(live, g, first, sides)
    requires DepthValid(s) && Harmless(schema, live, sides, labels, start, s, exactly)
    requires FromAlias(start, s) in labels
             && (labels[FromAlias(start, s)] != "" ==> Labelled(g, from, labels[FromAlias(start, s)]))
    ensures var t := LoweredStep(start, prefix, s);
            var t' := LoweredStep(start, prefix, s.(direction := Corrected(schema, labels, start, s)));
            && (Linked(g, t, from, edge, to) ==> Linked(g, t', from, edge, to))
            && (exactly || s.optional ==> (Linked(g, t', from, edge, to) ==> Linked(g, t, from, edge, to)))
  {
    hide Exists, PlainTypes, Describes, Lossy, Matches, Linked, NodeMatches, DepthValid;
    var d := Corrected(schema, labels, start, s);
    assert s.(direction := s.direction) == s;
    if d != s.direction {
      var fromLabel := labels[FromAlias(start, s)];
      assert d == Chosen(schema, s, fromLabel);
      LinkedIsMatch(g, s, s.direction, start, prefix, fromLabel, from, edge, to);
      LinkedIsMatch(g, s, d, start, prefix, fromLabel, from, edge, to);
      if Matches(g, s, fromLabel, s.direction, from, TrailOf(edge), to) {
        MatchIsKept(g, first, schema, live, s, fromLabel, sides, from, TrailOf(edge), to);
      }
      if s.direction == Both && Matches(g, s, fromLabel, d, from, TrailOf(edge), to) {
        NarrowingAddsNothing(g, schema, s, fromLabel, from, TrailOf(edge), to);
      }
    }
  }

  // ---- the whole query ----

  /** The query and the same query over corrected steps. */
  ghost predicate Correction(schema: seq<SchemaRel>, q: ReadQuery, q': ReadQuery, startLabel: string,
                             before: seq<DslTraversal>, after: seq<DslTraversal>) {
    && |before| == |after| && IsCorrection(schema, q.start.alias, startLabel, before, after, |before|)
    && q' == q.(traversals := q'.traversals)
    && Lowers(q, q.start.alias, startLabel, before) && Lowers(q', q.start.alias, startLabel, after)
  }

  lemma SameShape(schema: seq<SchemaRel>, q: ReadQuery, q': ReadQuery, startLabel: string,
                  before: seq<DslTraversal>, after: seq<DslTraversal>)
    requires Correction(schema, q, q', startLabel, before, after)
    ensures |q'.traversals| == |q.traversals|
    ensures forall i :: 0 <= i < |q.traversals| ==>
              q'.traversals[i] == q.traversals[i].(direction := q'.traversals[i].direction)
  {
    hide Corrected;
  }

  lemma {:induction false} SameBounds(q: ReadQuery, q': ReadQuery, k: nat)
    requires q' == q.(traversals := q'.traversals) && |q'.traversals| == |q.traversals| && k <= |q.traversals|
    requires forall i :: 0 <= i < |q.traversals| ==>
               q'.traversals[i] == q.traversals[i].(direction := q'.traversals[i].direction)
    ensures Endpoint(q, k) == Endpoint(q', k)
    ensures Bound(q, false, k) == Bound(q', false, k) && BoundNodes(q, false, k) == BoundNodes(q', false, k)
    ensures Bound(q, true, k) == Bound(q', true, k) && BoundNodes(q, true, k) == BoundNodes(q', true, k)
  {
    if k > 0 {
      SameBounds(q, q', k - 1);
      assert q'.traversals[k - 1] == q.traversals[k - 1].(direction := q'.traversals[k - 1].direction);
    }
  }

  lemma SameDistinct(q: ReadQuery, q': ReadQuery)
    requires DistinctAliases(q) && q' == q.(traversals := q'.traversals) && |q'.traversals| == |q.traversals|
    requires forall i :: 0 <= i < |q.traversals| ==>
               q'.traversals[i] == q.traversals[i].(direction := q'.traversals[i].direction)
    ensures DistinctAliases(q')
  {
    assert forall i :: 0 <= i < |q.traversals| ==> OwnAliases(q'.traversals[i]) == OwnAliases(q.traversals[i]);
  }

  lemma SameScope(q: ReadQuery, q': ReadQuery, row: Row)
    requires q' == q.(traversals := q'.traversals) && |q'.traversals| == |q.traversals|
    requires forall i :: 0 <= i < |q.traversals| ==>
               q'.traversals[i] == q.traversals[i].(direction := q'.traversals[i].direction)
    ensures Aliases(q) == Aliases(q') && (ChainsAreTrails(q, row) <==> ChainsAreTrails(q', row))
    ensures InOrder(q) ==> InOrder(q')
  {
    hide Bound, BoundNodes, Endpoint;
    SameBounds(q, q', |q.traversals|);
    forall k | 0 <= k <= |q.traversals|
      ensures Endpoint(q, k) == Endpoint(q', k)
      ensures BoundNodes(q, false, k) == BoundNodes(q', false, k) && BoundNodes(q, true, k) == BoundNodes(q', true, k)
    {
      SameBounds(q, q', k);
    }
    if DistinctAliases(q) {
      SameDistinct(q, q');
    }
    forall i, j | 0 <= i < j < |q.traversals| ensures Apart(q, i, j, row) <==> Apart(q', i, j, row) {
      assert SameChain(q, i, j) <==> SameChain(q', i, j);
    }
  }

  /** One traversal of an answer, under links kept from `t` to `t'` and, if it is optional, back. */
  lemma TraversalKept(g: Graph, t: EdgeTraversal, t': EdgeTraversal, row: Row)
    requires t' == t.(direction := t'.direction)
    requires t.fromAlias in row && row[t.fromAlias].NodeV? ==>
               forall edge, to :: (Linked(g, t, row[t.fromAlias].id, edge, to) ==>
                                   Linked(g, t', row[t.fromAlias].id, edge, to))
                 && (t.optional ==> (Linked(g, t', row[t.fromAlias].id, edge, to) ==>
                                     Linked(g, t, row[t.fromAlias].id, edge, to)))
    ensures Holds(g, t, row) ==> Holds(g, t', row)
    ensures t.optional && OptionalHolds(g, t, row) ==> OptionalHolds(g, t', row)
  {
    hide Linked;
  }

  /** Steps turned without loss, optional ones only narrowed: every answer is still an answer. */
  lemma AnswersKept(g: Graph, first: seq<string>, schema: seq<SchemaRel>, live: seq<SchemaRel>, sides: iset<string>,
                    q: ReadQuery, q': ReadQuery, startLabel: string,
                    before: seq<DslTraversal>, after: seq<DslTraversal>, row: Row)
    requires PlainTypes(schema) && Describes(live, g, first, sides) && InOrder(q)
             && Correction(schema, q, q', startLabel, before, after)
    requires forall i :: 0 <= i < |before| ==> DepthValid(before[i])
    requires forall i :: 0 <= i < |before| ==>
               Harmless(schema, live, sides, LabelsBefore(q.start.alias, startLabel, before, i), q.start.alias,
                        before[i], false)
    requires IsAnswer(g, q, row)
    ensures IsAnswer(g, q', row)
  {
    hide PlainTypes, Describes, Harmless, Linked, Aliases, ChainsAreTrails, Passes, StartHolds, Holds, OptionalHolds,
    Corrected;
    hide LabelsBefore, InOrder, DepthValid;
    SameShape(schema, q, q', startLabel, before, after);
    SameScope(q, q', row);
    forall i | 0 <= i < |q.traversals|
      ensures if q'.traversals[i].optional then OptionalHolds(g, q'.traversals[i], row)
              else Holds(g, q'.traversals[i], row)
    {
      TraversalLinks(g, first, schema, live, sides, q, q', startLabel, before, after, row, i, false);
      TraversalKept(g, q.traversals[i], q'.traversals[i], row);
    }
    SameStart(g, q, q', row);
  }

  lemma SameStart(g: Graph, q: ReadQuery, q': ReadQuery, row: Row)
    requires q'.start == q.start
    ensures StartHolds(g, q, row) <==> StartHolds(g, q', row)
  {
  }

  lemma TraversalLinks(g: Graph, first: seq<string>, schema: seq<SchemaRel>, live: seq<SchemaRel>, sides: iset<string>,
                       q: ReadQuery, q': ReadQuery, startLabel: string,
                       before: seq<DslTraversal>, after: seq<DslTraversal>, row: Row, i: nat, exactly: bool)
    requires PlainTypes(schema) && Describes(live, g, first, sides) && InOrder(q)
             && Correction(schema, q, q', startLabel, before, after)
    requires i < |before| && DepthValid(before[i])
    requires Harmless(schema, live, sides, LabelsBefore(q.start.alias, startLabel, before, i), q.start.alias, before[i],
                      exactly)
    requires IsAnswer(g, q, row) || IsAnswer(g, q', row)
    ensures var t, t' := q.traversals[i], q'.traversals[i];
            t.fromAlias in row && row[t.fromAlias].NodeV? ==>
              forall edge, to :: (Linked(g, t, row[t.fromAlias].id, edge, to) ==>
                                  Linked(g, t', row[t.fromAlias].id, edge, to))
                && (exactly || t.optional ==> (Linked(g, t', row[t.fromAlias].id, edge, to) ==>
                                               Linked(g, t, row[t.fromAlias].id, edge, to)))
  {
    hide PlainTypes, Describes, Harmless, Linked, IsAnswer, Corrected, LabelsBefore, DepthValid, BoundNodes,
    DistinctAliases;
    var start, labels := q.start.alias, LabelsBefore(q.start.alias, startLabel, before, i);
    SameShape(schema, q, q', startLabel, before, after);
    SameScope(q, q', row);
    if IsAnswer(g, q, row) {
      LabelsAreKnown(g, q, row, startLabel, before, i);
    } else {
      LabelsAreKnown(g, q', row, startLabel, after, i);
      LabelsIgnoreDirections(schema, start, startLabel, before, after, i);
      SameBounds(q, q', i);
    }
    var t := q.traversals[i];
    assert t.fromAlias in BoundNodes(q, false, i) + BoundNodes(q, true, i);
    assert LabelKnown(g, labels, row, t.fromAlias);
    if t.fromAlias in row && row[t.fromAlias].NodeV? {
      forall edge, to
        ensures Linked(g, t, row[t.fromAlias].id, edge, to) ==>
                  Linked(g, q'.traversals[i], row[t.fromAlias].id, edge, to)
        ensures exactly || t.optional ==>
                  (Linked(g, q'.traversals[i], row[t.fromAlias].id, edge, to) ==>
                   Linked(g, t, row[t.fromAlias].id, edge, to))
      {
        LinkKept(g, first, schema, live, sides, labels, before[i], start, q.start.prefixLabel, row[t.fromAlias].id,
                 edge, to, exactly);
      }
    }
  }

  /** Steps only narrowed, and without loss: the corrected query has exactly the same answers. */
  lemma NarrowingKeepsAnswers(g: Graph, first: seq<string>, schema: seq<SchemaRel>, live: seq<SchemaRel>,
                              sides: iset<string>,
                              q: ReadQuery, q': ReadQuery, startLabel: string,
                              before: seq<DslTraversal>, after: seq<DslTraversal>, row: Row)
    requires PlainTypes(schema) && Describes(live, g, first, sides) && InOrder(q)
             && Correction(schema, q, q', startLabel, before, after)
    requires forall i :: 0 <= i < |before| ==> DepthValid(before[i])
    requires forall i :: 0 <= i < |before| ==>
               Harmless(schema, live, sides, LabelsBefore(q.start.alias, startLabel, before, i), q.start.alias,
                        before[i], true)
    ensures IsAnswer(g, q, row) <==> IsAnswer(g, q', row)
  {
    hide PlainTypes, Describes, Harmless, Linked, Aliases, ChainsAreTrails, Passes, StartHolds, Holds, OptionalHolds,
    Corrected;
    hide LabelsBefore, InOrder, DepthValid;
    SameShape(schema, q, q', startLabel, before, after);
    SameScope(q, q', row);
    SameStart(g, q, q', row);
    if IsAnswer(g, q, row) || IsAnswer(g, q', row) {
      forall i | 0 <= i < |q.traversals|
        ensures Holds(g, q.traversals[i], row) <==> Holds(g, q'.traversals[i], row)
        ensures OptionalHolds(g, q.traversals[i], row) <==> OptionalHolds(g, q'.traversals[i], row)
      {
        TraversalLinks(g, first, schema, live, sides, q, q', startLabel, before, after, row, i, true);
        SameTraversal(g, q.traversals[i], q'.traversals[i], row);
      }
    }
  }

  lemma SameTraversal(g: Graph, t: EdgeTraversal, t': EdgeTraversal, row: Row)
    requires t' == t.(direction := t'.direction)
    requires t.fromAlias in row && row[t.fromAlias].NodeV? ==>
               forall edge, to :: Linked(g, t, row[t.fromAlias].id, edge, to) <==>
                        Linked(g, t', row[t.fromAlias].id, edge, to)
    ensures Holds(g, t, row) <==> Holds(g, t', row)
    ensures OptionalHolds(g, t, row) <==> OptionalHolds(g, t', row)
  {
    hide Linked;
  }
}
