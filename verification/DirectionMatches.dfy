/**
 What direction correction (src/core/pipeline.rs) does to the matches of a step. It looks at the two ends only, so over
 several hops it can turn a step away from matches the schema allows; exactly when is decided on the schema.
 */
module DirectionMatches {
  import opened Common
  import opened Ast
  import opened Dsl
  import opened Semantics
  import opened Matching
  import opened Directions

  // ---- the schema of a graph ----

  /** Relationship `r` is of this type and joins nodes with these first labels. */
  predicate Joins(g: Graph, first: seq<string>, r: nat, relType: string, a: string, b: string) {
    && r < |g.rels| && g.rels[r].source < |first| && g.rels[r].target < |first|
    && g.rels[r].relType == relType && first[g.rels[r].source] == a && first[g.rels[r].target] == b
  }

  /** What introspection (src/db/introspect.rs) reports: the pairs of first labels that relationships join. */
  ghost predicate Introspected(g: Graph, first: seq<string>, live: seq<SchemaRel>) {
    forall relType, a, b :: Exists(live, relType, a, b) <==> exists r :: Joins(g, first, r, relType, a, b)
  }

  /** Every node has a first label; the others, such as prefix, domain and scope labels, are among `sides`. */
  ghost predicate Labels(g: Graph, first: seq<string>, sides: iset<string>) {
    |first| == |g.nodes| && forall n :: 0 <= n < |g.nodes| ==>
      first[n] in g.nodes[n].labels && forall a :: a in g.nodes[n].labels ==> a == first[n] || a in sides
  }

  ghost predicate Describes(live: seq<SchemaRel>, g: Graph, first: seq<string>, sides: iset<string>) {
    ValidGraph(g) && Labels(g, first, sides) && Introspected(g, first, live)
  }

  /** A schema names single types; a step may name a union `A|B`. */
  ghost predicate PlainTypes(schema: seq<SchemaRel>) {
    forall i :: 0 <= i < |schema| ==> NoBar(schema[i].relType)
  }

  predicate Labelled(g: Graph, n: nat, nodeLabel: string) {
    n < |g.nodes| && nodeLabel in g.nodes[n].labels
  }

  function Shortest(s: DslTraversal): nat {
    match s.depth case Some(d) => d.min case None => 1
  }

  function Longest(s: DslTraversal): nat {
    match s.depth case Some(d) => d.max case None => 1
  }

  /** A trail the step asks for, between nodes with the labels its ends are known by. */
  ghost predicate Matches(g: Graph, s: DslTraversal, fromLabel: string, d: Direction, from: nat, rels: seq<nat>,
                          to: nat) {
    && Labelled(g, from, fromLabel) && Labelled(g, to, s.targetLabel)
    && Shortest(s) <= |rels| <= Longest(s) && NoDup(rels)
    && Walk(g, from, rels, s.edgeLabel, d) == Some(to)
  }

  /** The direction a step from `fromLabel` is corrected to. */
  function Chosen(schema: seq<SchemaRel>, s: DslTraversal, fromLabel: string): Direction {
    Decided(s.direction, Exists(schema, s.edgeLabel, fromLabel, s.targetLabel),
            Exists(schema, s.edgeLabel, s.targetLabel, fromLabel))
  }

  // ---- routes through the schema ----

  /** The schema has a relationship that can be followed from label `a` to label `b` in direction `d`. */
  predicate SchemaStep(schema: seq<SchemaRel>, relType: string, d: Direction, a: string, b: string) {
    (d != In && Exists(schema, relType, a, b)) || (d != Out && Exists(schema, relType, b, a))
  }

  /** It has one that direction `d` cannot follow. */
  predicate Against(schema: seq<SchemaRel>, relType: string, d: Direction, a: string, b: string) {
    if d == In then Exists(schema, relType, a, b) else Exists(schema, relType, b, a)
  }

  predicate StepAt(schema: seq<SchemaRel>, relType: string, d: Direction, labels: seq<string>, k: nat)
    requires k < |labels| - 1
  {
    SchemaStep(schema, relType, d, labels[k], labels[k + 1])
  }

  predicate AgainstAt(schema: seq<SchemaRel>, relType: string, d: Direction, labels: seq<string>, k: nat)
    requires k < |labels| - 1
  {
    Against(schema, relType, d, labels[k], labels[k + 1])
  }

  predicate SchemaWalk(schema: seq<SchemaRel>, relType: string, d: Direction, labels: seq<string>) {
    forall k :: 0 <= k < |labels| - 1 ==> StepAt(schema, relType, d, labels, k)
  }

  predicate SomeAgainst(schema: seq<SchemaRel>, relType: string, d: Direction, labels: seq<string>) {
    exists k :: 0 <= k < |labels| - 1 && AgainstAt(schema, relType, d, labels, k)
  }

  /** A node whose first label is `a` can carry the label a step asks for. */
  predicate Carries(a: string, asked: string, sides: iset<string>) {
    a == asked || asked in sides
  }

  /**
   A walk through the schema, as long as the step allows and in its direction, between nodes it can start and end at.
   */
  predicate Route(live: seq<SchemaRel>, s: DslTraversal, fromLabel: string, labels: seq<string>, sides: iset<string>) {
    && |labels| >= 2 && Carries(labels[0], fromLabel, sides) && Carries(labels[|labels| - 1], s.targetLabel, sides)
    && Shortest(s) <= |labels| - 1 <= Longest(s)
    && SchemaWalk(live, s.edgeLabel, s.direction, labels)
  }

  /**
   The schema the correction reads turns the step, although the graph's own schema has such a walk that the new
   direction cannot follow. The two schemas differ by what the ontology catalog drops.
   */
  ghost predicate Lossy(schema: seq<SchemaRel>, live: seq<SchemaRel>, s: DslTraversal, fromLabel: string,
                        sides: iset<string>) {
    var d := Chosen(schema, s, fromLabel);
    d != s.direction && exists labels ::
      Route(live, s, fromLabel, labels, sides) && SomeAgainst(live, s.edgeLabel, d, labels)
  }

  // ---- a step that is not lossy keeps its matches ----

  lemma OneHop(g: Graph, first: seq<string>, live: seq<SchemaRel>, relType: string, d: Direction, d': Direction,
               from: nat, rel: nat, to: nat)
    requires ValidGraph(g) && |first| == |g.nodes| && Introspected(g, first, live) && NoBar(relType) && d' != Both
    requires from < |g.nodes| && Far(g, from, rel, relType, d) == Some(to)
    ensures to < |g.nodes| && SchemaStep(live, relType, d, first[from], first[to])
    ensures Far(g, from, rel, relType, d') == Some(to) || Against(live, relType, d', first[from], first[to])
  {
    hide Exists;
    SingleAlternative(relType);
    var r := g.rels[rel];
    assert Joins(g, first, rel, relType, first[r.source], first[r.target]);
  }

  /**
   The first labels along a walk: a walk through the schema, followed in direction `d'` too unless some step is
   against it.
   */
  lemma {:induction false} WalkRoute(g: Graph, first: seq<string>, live: seq<SchemaRel>, relType: string, d: Direction,
                                     d': Direction, from: nat, rels: seq<nat>, to: nat)
    returns (labels: seq<string>)
    requires ValidGraph(g) && |first| == |g.nodes| && Introspected(g, first, live) && NoBar(relType) && d' != Both
    requires rels != [] && from < |g.nodes| && Walk(g, from, rels, relType, d) == Some(to)
    ensures to < |g.nodes| && |labels| == |rels| + 1 && labels[0] == first[from] && labels[|rels|] == first[to]
    ensures SchemaWalk(live, relType, d, labels)
    ensures Walk(g, from, rels, relType, d') == Some(to) || SomeAgainst(live, relType, d', labels)
    decreases |rels|
  {
    hide Far, Introspected, ValidGraph, SchemaStep, Against;
    var next := Far(g, from, rels[0], relType, d).value;
    OneHop(g, first, live, relType, d, d', from, rels[0], next);
    if |rels| == 1 {
      assert rels[1..] == [];
      labels := [first[from], first[to]];
      assert AgainstAt(live, relType, d', labels, 0) ==> SomeAgainst(live, relType, d', labels);
    } else {
      var rest := WalkRoute(g, first, live, relType, d, d', next, rels[1..], to);
      labels := [first[from]] + rest;
      LongerRoute(live, relType, d, d', first[from], rest);
    }
  }

  lemma LongerRoute(schema: seq<SchemaRel>, relType: string, d: Direction, d': Direction, a: string, rest: seq<string>)
    requires rest != [] && SchemaStep(schema, relType, d, a, rest[0]) && SchemaWalk(schema, relType, d, rest)
    ensures SchemaWalk(schema, relType, d, [a] + rest)
    ensures Against(schema, relType, d', a, rest[0]) || SomeAgainst(schema, relType, d', rest) ==>
              SomeAgainst(schema, relType, d', [a] + rest)
  {
    hide SchemaStep, Against;
    var labels := [a] + rest;
    forall k | 0 <= k < |labels| - 1 ensures StepAt(schema, relType, d, labels, k) {
      assert k > 0 ==> StepAt(schema, relType, d, rest, k - 1);
    }
    if Against(schema, relType, d', a, rest[0]) {
      assert AgainstAt(schema, relType, d', labels, 0);
    } else if SomeAgainst(schema, relType, d', rest) {
      var k :| 0 <= k < |rest| - 1 && AgainstAt(schema, relType, d', rest, k);
      assert AgainstAt(schema, relType, d', labels, k + 1);
    }
  }

  lemma BarsAreUnknown(schema: seq<SchemaRel>, relType: string, a: string, b: string)
    requires PlainTypes(schema) && !NoBar(relType)
    ensures !Exists(schema, relType, a, b)
  {
  }

  lemma OnlyTurnsOneWay(schema: seq<SchemaRel>, s: DslTraversal, fromLabel: string)
    ensures Chosen(schema, s, fromLabel) == s.direction || Chosen(schema, s, fromLabel) != Both
  {
  }

  /** A union of types is in no schema of single types, so its direction is left alone. */
  lemma UnionsAreKept(schema: seq<SchemaRel>, s: DslTraversal, fromLabel: string)
    requires PlainTypes(schema) && !NoBar(s.edgeLabel)
    ensures Chosen(schema, s, fromLabel) == s.direction
  {
    BarsAreUnknown(schema, s.edgeLabel, fromLabel, s.targetLabel);
    BarsAreUnknown(schema, s.edgeLabel, s.targetLabel, fromLabel);
  }

  lemma MatchIsKept(g: Graph, first: seq<string>, schema: seq<SchemaRel>, live: seq<SchemaRel>, s: DslTraversal,
                    fromLabel: string, sides: iset<string>, from: nat, rels: seq<nat>, to: nat)
    requires PlainTypes(schema) && Describes(live, g, first, sides) && !Lossy(schema, live, s, fromLabel, sides)
    requires Matches(g, s, fromLabel, s.direction, from, rels, to)
    ensures Matches(g, s, fromLabel, Chosen(schema, s, fromLabel), from, rels, to)
  {
    hide Exists, PlainTypes, Introspected, ValidGraph, SchemaWalk, SomeAgainst, NoDup;
    var d := Chosen(schema, s, fromLabel);
    if d != s.direction && rels != [] {
      OnlyTurnsOneWay(schema, s, fromLabel);
      TurnedIsPlain(schema, s, fromLabel);
      var labels := WalkRoute(g, first, live, s.edgeLabel, s.direction, d, from, rels, to);
      assert Route(live, s, fromLabel, labels, sides);
    }
  }

  lemma TurnedIsPlain(schema: seq<SchemaRel>, s: DslTraversal, fromLabel: string)
    requires PlainTypes(schema) && Chosen(schema, s, fromLabel) != s.direction
    ensures NoBar(s.edgeLabel)
  {
    hide Exists, PlainTypes;
    if !NoBar(s.edgeLabel) {
      UnionsAreKept(schema, s, fromLabel);
    }
  }

  // ---- a lossy step loses one: the route as a graph ----

  predicate Forward(schema: seq<SchemaRel>, relType: string, d: Direction, a: string, b: string) {
    if d == In then Exists(schema, relType, a, b) else !Exists(schema, relType, b, a)
  }

  function AlsoAsked(k: nat, n: nat, fromLabel: string, targetLabel: string): set<string> {
    (if k == 0 then {fromLabel} else {}) + (if k == n then {targetLabel} else {})
  }

  /**
   One node for each label of a route, its ends also carrying the labels the step asks for, and each joined to the
   next, against direction `d` wherever the schema has it so.
   */
  function RouteGraph(live: seq<SchemaRel>, s: DslTraversal, fromLabel: string, d: Direction,
                      labels: seq<string>): Graph
    requires labels != []
  {
    var n := |labels| - 1;
    Graph(seq(n + 1, k requires 0 <= k <= n =>
                NodeData({labels[k]} + AlsoAsked(k, n, fromLabel, s.targetLabel), map[])),
          seq(n, k requires 0 <= k < n =>
                if Forward(live, s.edgeLabel, d, labels[k], labels[k + 1]) then RelData(s.edgeLabel, k, k + 1, map[])
                else RelData(s.edgeLabel, k + 1, k, map[])))
  }

  lemma RouteIsListed(live: seq<SchemaRel>, s: DslTraversal, fromLabel: string, d: Direction, labels: seq<string>,
                      sides: iset<string>)
    requires d != Both && Route(live, s, fromLabel, labels, sides)
    ensures var g := RouteGraph(live, s, fromLabel, d, labels);
            && ValidGraph(g) && Labels(g, labels, sides)
            && forall r :: 0 <= r < |g.rels| ==>
                 Exists(live, g.rels[r].relType, labels[g.rels[r].source], labels[g.rels[r].target])
  {
    hide Exists, RouteGraph;
    var g := RouteGraph(live, s, fromLabel, d, labels);
    RouteShape(live, s, fromLabel, d, labels, sides);
    forall r | 0 <= r < |g.rels|
      ensures Exists(live, g.rels[r].relType, labels[g.rels[r].source], labels[g.rels[r].target])
    {
      RouteRelIsListed(live, s, fromLabel, d, labels, r);
    }
  }

  lemma RouteShape(live: seq<SchemaRel>, s: DslTraversal, fromLabel: string, d: Direction, labels: seq<string>,
                   sides: iset<string>)
    requires |labels| >= 2 && Carries(labels[0], fromLabel, sides)
    requires Carries(labels[|labels| - 1], s.targetLabel, sides)
    ensures var g := RouteGraph(live, s, fromLabel, d, labels);
            ValidGraph(g) && Labels(g, labels, sides) && |g.rels| == |labels| - 1
  {
    hide Forward;
  }

  lemma RouteRelIsListed(live: seq<SchemaRel>, s: DslTraversal, fromLabel: string, d: Direction, labels: seq<string>,
                         r: nat)
    requires d != Both && r < |labels| - 1 && StepAt(live, s.edgeLabel, s.direction, labels, r)
    ensures var rel := RouteGraph(live, s, fromLabel, d, labels).rels[r];
            rel.source < |labels| && rel.target < |labels|
            && Exists(live, rel.relType, labels[rel.source], labels[rel.target])
  {
    hide Exists, AlsoAsked;
  }

  // ---- the rest of the schema beside it ----

  function Pairs(live: seq<SchemaRel>): (r: seq<SchemaRel>)
    ensures forall p :: p in r <==> p in live && p.from.Some? && p.to.Some?
  {
    if live == [] then []
    else if live[0].from.Some? && live[0].to.Some? then [live[0]] + Pairs(live[1..])
    else Pairs(live[1..])
  }

  predicate BothEnds(pairs: seq<SchemaRel>) {
    forall p :: p in pairs ==> p.from.Some? && p.to.Some?
  }

  /** The graph and, apart from it, two nodes with a relationship for every pair. */
  function Beside(g: Graph, pairs: seq<SchemaRel>): Graph
    requires BothEnds(pairs)
  {
    Graph(g.nodes + seq(|pairs|, i requires 0 <= i < |pairs| => NodeData({pairs[i].from.value}, map[]))
            + seq(|pairs|, i requires 0 <= i < |pairs| => NodeData({pairs[i].to.value}, map[])),
          g.rels + seq(|pairs|, i requires 0 <= i < |pairs| =>
                         RelData(pairs[i].relType, |g.nodes| + i, |g.nodes| + |pairs| + i, map[])))
  }

  function FirstBeside(first: seq<string>, pairs: seq<SchemaRel>): seq<string>
    requires BothEnds(pairs)
  {
    first + seq(|pairs|, i requires 0 <= i < |pairs| => pairs[i].from.value)
    + seq(|pairs|, i requires 0 <= i < |pairs| => pairs[i].to.value)
  }

  lemma FarBeside(g: Graph, pairs: seq<SchemaRel>, from: nat, rel: nat, relType: string, d: Direction)
    requires ValidGraph(g) && BothEnds(pairs) && from < |g.nodes|
    ensures Far(Beside(g, pairs), from, rel, relType, d) == Far(g, from, rel, relType, d)
  {
    hide Alternatives;
  }

  lemma {:induction false} WalkBeside(g: Graph, pairs: seq<SchemaRel>, from: nat, rels: seq<nat>, relType: string,
                                      d: Direction)
    requires ValidGraph(g) && BothEnds(pairs) && from < |g.nodes|
    ensures Walk(Beside(g, pairs), from, rels, relType, d) == Walk(g, from, rels, relType, d)
    decreases rels
  {
    hide Far, Beside;
    if rels != [] {
      FarBeside(g, pairs, from, rels[0], relType, d);
      if Far(g, from, rels[0], relType, d).Some? {
        FarStays(g, from, rels[0], relType, d);
        WalkBeside(g, pairs, Far(g, from, rels[0], relType, d).value, rels[1..], relType, d);
      }
    }
  }

  lemma FarStays(g: Graph, from: nat, rel: nat, relType: string, d: Direction)
    requires ValidGraph(g) && Far(g, from, rel, relType, d).Some?
    ensures Far(g, from, rel, relType, d).value < |g.nodes|
  {
    hide Alternatives;
  }

  /** With all pairs of the schema beside it, a graph that the schema lists is one that introspection reports so. */
  lemma BesideDescribes(g: Graph, first: seq<string>, live: seq<SchemaRel>, sides: iset<string>)
    requires ValidGraph(g) && Labels(g, first, sides)
    requires forall r :: 0 <= r < |g.rels| ==>
               Exists(live, g.rels[r].relType, first[g.rels[r].source], first[g.rels[r].target])
    ensures Describes(live, Beside(g, Pairs(live)), FirstBeside(first, Pairs(live)), sides)
  {
    assert |first| == |g.nodes|;
    hide Exists, Beside, FirstBeside, Pairs, ValidGraph, Labels;
    var pairs := Pairs(live);
    var all, names := Beside(g, pairs), FirstBeside(first, pairs);
    BesideLabels(g, first, pairs, sides);
    forall relType, a, b ensures Exists(live, relType, a, b) <==> exists r :: Joins(all, names, r, relType, a, b) {
      if Exists(live, relType, a, b) {
        var r := PairIsJoined(g, first, live, relType, a, b);
      }
      if r: nat :| Joins(all, names, r, relType, a, b) {
        JoinIsListed(g, first, live, r, relType, a, b);
      }
    }
  }

  lemma PairIsJoined(g: Graph, first: seq<string>, live: seq<SchemaRel>, relType: string, a: string, b: string)
    returns (r: nat)
    requires |first| == |g.nodes| && Exists(live, relType, a, b)
    ensures Joins(Beside(g, Pairs(live)), FirstBeside(first, Pairs(live)), r, relType, a, b)
  {
    hide Pairs;
    var pairs := Pairs(live);
    assert SchemaRel(relType, Some(a), Some(b)) in pairs;
    var i :| 0 <= i < |pairs| && pairs[i] == SchemaRel(relType, Some(a), Some(b));
    r := |g.rels| + i;
  }

  lemma JoinIsListed(g: Graph, first: seq<string>, live: seq<SchemaRel>, r: nat, relType: string, a: string, b: string)
    requires ValidGraph(g) && |first| == |g.nodes|
    requires forall i :: 0 <= i < |g.rels| ==>
               Exists(live, g.rels[i].relType, first[g.rels[i].source], first[g.rels[i].target])
    requires Joins(Beside(g, Pairs(live)), FirstBeside(first, Pairs(live)), r, relType, a, b)
    ensures Exists(live, relType, a, b)
  {
    hide Pairs;
    var pairs := Pairs(live);
    if r < |g.rels| {
      hide Exists;
      assert Beside(g, pairs).rels[r] == g.rels[r];
    } else {
      var i := r - |g.rels|;
      assert pairs[i] in live && pairs[i] == SchemaRel(relType, Some(a), Some(b));
    }
  }

  lemma BesideLabels(g: Graph, first: seq<string>, pairs: seq<SchemaRel>, sides: iset<string>)
    requires ValidGraph(g) && Labels(g, first, sides) && BothEnds(pairs)
    ensures ValidGraph(Beside(g, pairs)) && Labels(Beside(g, pairs), FirstBeside(first, pairs), sides)
  {
  }

  // ---- walking the route ----

  /** The relationships of the route from its `k`-th node on. */
  function Onwards(k: nat, n: nat): seq<nat>
    requires k <= n
  {
    seq(n - k, i => k + i)
  }

  lemma RouteHop(live: seq<SchemaRel>, s: DslTraversal, fromLabel: string, d: Direction, labels: seq<string>, k: nat)
    requires k < |labels| - 1 && NoBar(s.edgeLabel) && StepAt(live, s.edgeLabel, s.direction, labels, k)
    requires d != Both && s.direction != d
    ensures Far(RouteGraph(live, s, fromLabel, d, labels), k, k, s.edgeLabel, s.direction) == Some(k + 1)
  {
    hide Exists, Alternatives, AlsoAsked;
    SingleAlternative(s.edgeLabel);
    assert s.edgeLabel in [s.edgeLabel];
  }

  lemma {:induction false} RouteIsWalked(live: seq<SchemaRel>, s: DslTraversal, fromLabel: string, d: Direction,
                                         labels: seq<string>, k: nat)
    requires k < |labels| && NoBar(s.edgeLabel) && SchemaWalk(live, s.edgeLabel, s.direction, labels)
    requires d != Both && s.direction != d
    ensures Walk(RouteGraph(live, s, fromLabel, d, labels), k, Onwards(k, |labels| - 1), s.edgeLabel, s.direction)
         == Some(|labels| - 1)
    decreases |labels| - k
  {
    hide RouteGraph, StepAt, Far, NoBar;
    var n := |labels| - 1;
    if k < n {
      RouteHop(live, s, fromLabel, d, labels, k);
      assert Onwards(k, n)[1..] == Onwards(k + 1, n);
      RouteIsWalked(live, s, fromLabel, d, labels, k + 1);
    }
  }

  /** Nothing gets past a step against its direction. */
  lemma {:induction false} RouteIsBlocked(live: seq<SchemaRel>, s: DslTraversal, fromLabel: string, d: Direction,
                                          labels: seq<string>, k: nat, from: nat, rels: seq<nat>)
    requires d != Both && from <= k < |labels| - 1 && AgainstAt(live, s.edgeLabel, d, labels, k)
    ensures var to := Walk(RouteGraph(live, s, fromLabel, d, labels), from, rels, s.edgeLabel, d);
            to.Some? ==> to.value <= k
    decreases rels
  {
    hide Exists, Alternatives, AlsoAsked;
    var g := RouteGraph(live, s, fromLabel, d, labels);
    if rels != [] {
      match Far(g, from, rels[0], s.edgeLabel, d)
      case None =>
      case Some(next) => RouteIsBlocked(live, s, fromLabel, d, labels, k, next, rels[1..]);
    }
  }

  lemma RouteEnds(live: seq<SchemaRel>, s: DslTraversal, fromLabel: string, d: Direction, labels: seq<string>)
    requires labels != []
    ensures var g, n := Beside(RouteGraph(live, s, fromLabel, d, labels), Pairs(live)), |labels| - 1;
            && |RouteGraph(live, s, fromLabel, d, labels).nodes| == |labels|
            && Labelled(g, 0, fromLabel) && Labelled(g, n, s.targetLabel)
            && |Onwards(0, n)| == n && NoDup(Onwards(0, n))
  {
    hide Exists, Pairs;
  }

  /** On the graph of a lossy route the step matches, and corrected it does not match between those nodes at all. */
  lemma LossyStepLoses(schema: seq<SchemaRel>, live: seq<SchemaRel>, s: DslTraversal, fromLabel: string,
                       sides: iset<string>)
    returns (g: Graph, first: seq<string>, rels: seq<nat>, to: nat)
    requires PlainTypes(schema) && Lossy(schema, live, s, fromLabel, sides)
    ensures Describes(live, g, first, sides) && Matches(g, s, fromLabel, s.direction, 0, rels, to)
    ensures forall other :: !Matches(g, s, fromLabel, Chosen(schema, s, fromLabel), 0, other, to)
  {
    hide Exists, PlainTypes, SchemaWalk, Decided, Against, RouteGraph, Walk, NoDup, Labels, Introspected, Onwards;
    hide Labelled, NoBar, Beside, FirstBeside, Pairs, ValidGraph, Carries;
    var d := Chosen(schema, s, fromLabel);
    OnlyTurnsOneWay(schema, s, fromLabel);
    TurnedIsPlain(schema, s, fromLabel);
    var labels :| Route(live, s, fromLabel, labels, sides) && SomeAgainst(live, s.edgeLabel, d, labels);
    var k :| 0 <= k < |labels| - 1 && AgainstAt(live, s.edgeLabel, d, labels, k);
    var route := RouteGraph(live, s, fromLabel, d, labels);
    to, rels := |labels| - 1, Onwards(0, |labels| - 1);
    g, first := Beside(route, Pairs(live)), FirstBeside(labels, Pairs(live));
    RouteIsListed(live, s, fromLabel, d, labels, sides);
    BesideDescribes(route, labels, live, sides);
    RouteEnds(live, s, fromLabel, d, labels);
    RouteIsWalked(live, s, fromLabel, d, labels, 0);
    WalkBeside(route, Pairs(live), 0, rels, s.edgeLabel, s.direction);
    forall other ensures !Matches(g, s, fromLabel, d, 0, other, to) {
      RouteIsBlocked(live, s, fromLabel, d, labels, k, 0, other);
      WalkBeside(route, Pairs(live), 0, other, s.edgeLabel, d);
    }
  }

  /**
   Correcting a step loses no match on any graph that introspection reports as `live`, whatever labels of `sides` its
   nodes carry besides their first, if and only if the step is not lossy.
   */
  lemma CorrectionDecides(schema: seq<SchemaRel>, live: seq<SchemaRel>, s: DslTraversal, fromLabel: string,
                          sides: iset<string>)
    requires PlainTypes(schema)
    ensures (forall g: Graph, first: seq<string>, from: nat, rels: seq<nat>, to: nat ::
               Describes(live, g, first, sides) && Matches(g, s, fromLabel, s.direction, from, rels, to) ==>
                 Matches(g, s, fromLabel, Chosen(schema, s, fromLabel), from, rels, to))
       <==> !Lossy(schema, live, s, fromLabel, sides)
  {
    hide PlainTypes, Describes, Matches, Lossy, Chosen;
    if Lossy(schema, live, s, fromLabel, sides) {
      var g, first, rels, to := LossyStepLoses(schema, live, s, fromLabel, sides);
      assert !Matches(g, s, fromLabel, Chosen(schema, s, fromLabel), 0, rels, to);
    } else {
      forall g: Graph, first: seq<string>, from: nat, rels: seq<nat>, to: nat
        | Describes(live, g, first, sides) && Matches(g, s, fromLabel, s.direction, from, rels, to)
        ensures Matches(g, s, fromLabel, Chosen(schema, s, fromLabel), from, rels, to)
      {
        MatchIsKept(g, first, schema, live, s, fromLabel, sides, from, rels, to);
      }
    }
  }

  // ---- side labels and the catalog ----

  /** No side label is an end label of the schema the correction reads. */
  predicate SidesApart(schema: seq<SchemaRel>, sides: iset<string>) {
    forall i :: 0 <= i < |schema| ==>
      (schema[i].from.Some? ==> schema[i].from.value !in sides) && (schema[i].to.Some? ==> schema[i].to.value !in sides)
  }

  /** Side labels that no relationship of the schema ends at make no difference. */
  lemma ApartSidesAreHarmless(schema: seq<SchemaRel>, live: seq<SchemaRel>, s: DslTraversal, fromLabel: string,
                              sides: iset<string>)
    requires SidesApart(schema, sides)
    ensures Lossy(schema, live, s, fromLabel, sides) <==> Lossy(schema, live, s, fromLabel, iset{})
  {
    hide SchemaWalk, SomeAgainst;
    if Chosen(schema, s, fromLabel) != s.direction {
      TurnedEnds(schema, s, fromLabel);
      assert fromLabel !in sides && s.targetLabel !in sides;
      forall labels ensures Route(live, s, fromLabel, labels, sides) <==> Route(live, s, fromLabel, labels, iset{}) {
      }
    }
  }

  lemma TurnedEnds(schema: seq<SchemaRel>, s: DslTraversal, fromLabel: string)
    requires Chosen(schema, s, fromLabel) != s.direction
    ensures Exists(schema, s.edgeLabel, fromLabel, s.targetLabel)
            || Exists(schema, s.edgeLabel, s.targetLabel, fromLabel)
  {
    hide Exists;
  }

  /** A domain of the ontology catalog: the relation types and the entity types it keeps. */
  datatype CatalogDomain = CatalogDomain(relTypes: set<string>, nodeLabels: set<string>)

  predicate Keeps(c: CatalogDomain, relType: string, a: string, b: string) {
    relType in c.relTypes && a in c.nodeLabels && b in c.nodeLabels
  }

  /** `project_schema` (src/graph/ontology.rs): a pair stays if some domain keeps its type and both its ends. */
  ghost predicate Projected(schema: seq<SchemaRel>, live: seq<SchemaRel>, catalog: seq<CatalogDomain>) {
    forall relType, a, b :: Exists(schema, relType, a, b) <==>
      Exists(live, relType, a, b) && exists i :: 0 <= i < |catalog| && Keeps(catalog[i], relType, a, b)
  }

  lemma KeptBothWays(schema: seq<SchemaRel>, live: seq<SchemaRel>, catalog: seq<CatalogDomain>, relType: string,
                     a: string, b: string)
    requires Projected(schema, live, catalog) && Exists(schema, relType, a, b)
    ensures Exists(schema, relType, b, a) <==> Exists(live, relType, b, a)
  {
    hide Exists;
    var i :| 0 <= i < |catalog| && Keeps(catalog[i], relType, a, b);
    assert Keeps(catalog[i], relType, b, a);
  }

  /** A step of single hops is safe as long as its labels are first labels, catalog or not. */
  lemma SingleHopsAreSafe(schema: seq<SchemaRel>, live: seq<SchemaRel>, catalog: seq<CatalogDomain>, s: DslTraversal,
                          fromLabel: string, sides: iset<string>)
    requires (schema == live || Projected(schema, live, catalog)) && SidesApart(schema, sides) && Longest(s) <= 1
    ensures !Lossy(schema, live, s, fromLabel, sides)
  {
    hide Exists, Projected, SidesApart;
    ApartSidesAreHarmless(schema, live, s, fromLabel, sides);
    if Chosen(schema, s, fromLabel) != s.direction {
      TurnedEnds(schema, s, fromLabel);
      if schema != live && Exists(schema, s.edgeLabel, fromLabel, s.targetLabel) {
        KeptBothWays(schema, live, catalog, s.edgeLabel, fromLabel, s.targetLabel);
      }
      if schema != live && Exists(schema, s.edgeLabel, s.targetLabel, fromLabel) {
        KeptBothWays(schema, live, catalog, s.edgeLabel, s.targetLabel, fromLabel);
      }
    }
  }

  /** Where the two labels asked for may stand beside others, the ends of the walk do not matter. */
  lemma SharedSidesDecide(schema: seq<SchemaRel>, live: seq<SchemaRel>, s: DslTraversal, fromLabel: string,
                          sides: iset<string>)
    requires fromLabel in sides && s.targetLabel in sides
    ensures Lossy(schema, live, s, fromLabel, sides) <==>
            Chosen(schema, s, fromLabel) != s.direction
            && exists labels :: |labels| >= 2 && Shortest(s) <= |labels| - 1 <= Longest(s)
                 && SchemaWalk(live, s.edgeLabel, s.direction, labels)
                 && SomeAgainst(live, s.edgeLabel, Chosen(schema, s, fromLabel), labels)
  {
    hide SchemaWalk, SomeAgainst, Chosen;
    forall labels ensures Route(live, s, fromLabel, labels, sides) <==>
                          |labels| >= 2 && Shortest(s) <= |labels| - 1 <= Longest(s)
                          && SchemaWalk(live, s.edgeLabel, s.direction, labels)
    {
    }
  }

  /** There every turned step that may be one hop is lossy: the pair that turned it, met the other way round. */
  lemma SharedSidesLose(schema: seq<SchemaRel>, live: seq<SchemaRel>, s: DslTraversal, fromLabel: string,
                        sides: iset<string>)
    requires Chosen(schema, s, fromLabel) != s.direction && Shortest(s) <= 1 <= Longest(s)
    requires fromLabel in sides && s.targetLabel in sides
    requires forall relType, a, b :: Exists(schema, relType, a, b) ==> Exists(live, relType, a, b)
    ensures Lossy(schema, live, s, fromLabel, sides)
  {
    hide Exists;
    var labels := [s.targetLabel, fromLabel];
    assert StepAt(live, s.edgeLabel, s.direction, labels, 0);
    assert Route(live, s, fromLabel, labels, sides);
    assert AgainstAt(live, s.edgeLabel, Chosen(schema, s, fromLabel), labels, 0);
  }

  /** Two people, one of them first of all an employee, and a company one owns and that owns the other. */
  function Owners(): Graph {
    Graph([NodeData({"Employee", "Person"}, map[]), NodeData({"Company"}, map[]), NodeData({"Person"}, map[])],
          [RelData("OWNS", 0, 1, map[]), RelData("OWNS", 1, 2, map[])])
  }

  function OwnersSchema(): seq<SchemaRel> {
    [SchemaRel("OWNS", Some("Employee"), Some("Company")), SchemaRel("OWNS", Some("Company"), Some("Person"))]
  }

  lemma OwnersDescribed()
    ensures Describes(OwnersSchema(), Owners(), ["Employee", "Company", "Person"], iset{"Person"})
  {
    var g, live, first := Owners(), OwnersSchema(), ["Employee", "Company", "Person"];
    assert live[0] == SchemaRel("OWNS", Some("Employee"), Some("Company"));
    assert live[1] == SchemaRel("OWNS", Some("Company"), Some("Person"));
    forall relType, a, b ensures Exists(live, relType, a, b) <==> exists r :: Joins(g, first, r, relType, a, b) {
      OwnersPair(relType, a, b);
    }
  }

  lemma OwnersPair(relType: string, a: string, b: string)
    ensures Exists(OwnersSchema(), relType, a, b) <==>
            exists r :: Joins(Owners(), ["Employee", "Company", "Person"], r, relType, a, b)
  {
    var g, live, first := Owners(), OwnersSchema(), ["Employee", "Company", "Person"];
    assert Joins(g, first, 0, relType, a, b) <==> live[0] == SchemaRel(relType, Some(a), Some(b));
    assert Joins(g, first, 1, relType, a, b) <==> live[1] == SchemaRel(relType, Some(a), Some(b));
  }

  /** What a person owns: the one match is turned away, because the schema knows the owner by another label. */
  lemma OwnerIsLost(s: DslTraversal)
    requires s.edgeLabel == "OWNS" && s.targetLabel == "Company" && s.direction == Out && s.depth == None
    ensures Describes(OwnersSchema(), Owners(), ["Employee", "Company", "Person"], iset{"Person"})
    ensures Chosen(OwnersSchema(), s, "Person") == In
    ensures Matches(Owners(), s, "Person", Out, 0, [0], 1) && !Matches(Owners(), s, "Person", In, 0, [0], 1)
  {
    hide Describes;
    OwnersDescribed();
    assert OwnersSchema()[1] == SchemaRel("OWNS", Some("Company"), Some("Person"));
    SingleAlternative("OWNS");
    hide Alternatives, Exists;
    assert [0][1..] == [] && Far(Owners(), 0, 0, "OWNS", Out) == Some(1) && Far(Owners(), 0, 0, "OWNS", In) == None;
  }

  /** A turned step of several hops is lossy as soon as one label can be passed through from end to end. */
  lemma PassageIsLossy(schema: seq<SchemaRel>, live: seq<SchemaRel>, s: DslTraversal, fromLabel: string, middle: string,
                       sides: iset<string>)
    requires Chosen(schema, s, fromLabel) != s.direction && s.direction != Both && Shortest(s) <= 2 <= Longest(s)
    requires SchemaStep(live, s.edgeLabel, s.direction, fromLabel, middle)
    requires SchemaStep(live, s.edgeLabel, s.direction, middle, s.targetLabel)
    ensures Lossy(schema, live, s, fromLabel, sides)
  {
    hide Exists;
    var labels := [fromLabel, middle, s.targetLabel];
    assert Route(live, s, fromLabel, labels, sides);
    assert AgainstAt(live, s.edgeLabel, Chosen(schema, s, fromLabel), labels, 0);
  }

  /** Narrowing `Both` invents no match. */
  lemma NarrowingAddsNothing(g: Graph, schema: seq<SchemaRel>, s: DslTraversal, fromLabel: string, from: nat,
                             rels: seq<nat>, to: nat)
    requires s.direction == Both && Matches(g, s, fromLabel, Chosen(schema, s, fromLabel), from, rels, to)
    ensures Matches(g, s, fromLabel, Both, from, rels, to)
  {
    hide Exists;
    NarrowerWalk(g, from, rels, s.edgeLabel, Chosen(schema, s, fromLabel));
  }

  lemma {:induction false} NarrowerWalk(g: Graph, from: nat, rels: seq<nat>, relType: string, d: Direction)
    ensures Walk(g, from, rels, relType, d).Some? ==>
              Walk(g, from, rels, relType, Both) == Walk(g, from, rels, relType, d)
    decreases rels
  {
    hide Alternatives;
    if rels != [] {
      match Far(g, from, rels[0], relType, d)
      case None =>
      case Some(next) => NarrowerWalk(g, next, rels[1..], relType, d);
    }
  }
}
