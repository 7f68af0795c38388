/** MATCH and OPTIONAL MATCH emission (src/builder/match_part.rs) and what it reads back as. */
module MatchPart {
  import opened Common
  import opened Ast
  import opened Cypher
  import opened Cursors
  import opened WherePart
  import opened WhereReading

  // ---- the pieces of a pattern ----

  /** The labels after the alias: the node's own, if any, then the query prefix, if any. */
  function Labels(node: Node): seq<string> {
    (if node.nodeLabel == "" then [] else [node.nodeLabel])
    + (match node.prefixLabel
       case Some(p) => if p == "" then [] else [p]
       case None => [])
  }

  /** `1..1` is the plain single hop. */
  function PrintedDepth(t: EdgeTraversal): Option<Depth> {
    if t.depth == Some(Depth(1, 1)) then None else t.depth
  }

  function EdgeToken(t: EdgeTraversal): Token {
    EdgeTok(t.edgeAlias, t.edgeLabel, t.direction, PrintedDepth(t))
  }

  function NodeToken(node: Node): Token {
    NodeTok(node.alias, Labels(node))
  }

  function Tail(t: EdgeTraversal): seq<Token> {
    [EdgeToken(t), NodeToken(t.target)]
  }

  /** The alias `current_endpoint` holds after the first `k` traversals. */
  function Endpoint(q: ReadQuery, k: nat): string
    requires k <= |q.traversals|
  {
    if k == 0 then q.start.alias
    else if q.traversals[k - 1].optional then Endpoint(q, k - 1)
    else q.traversals[k - 1].target.alias
  }

  function RequiredText(q: ReadQuery, k: nat): seq<Token>
    requires k <= |q.traversals|
  {
    if k == 0 then [KwMatch, NodeToken(q.start)]
    else
      var t := q.traversals[k - 1];
      if t.optional then RequiredText(q, k - 1)
      else if t.fromAlias == Endpoint(q, k - 1) then RequiredText(q, k - 1) + Tail(t)
      else RequiredText(q, k - 1) + ([KwMatch, NodeTok(t.fromAlias, [])] + Tail(t))
  }

  function OptionalText(q: ReadQuery, k: nat): seq<Token>
    requires k <= |q.traversals|
  {
    if k == 0 then []
    else
      var t := q.traversals[k - 1];
      if t.optional then OptionalText(q, k - 1) + ([KwOptionalMatch, NodeTok(t.fromAlias, [])] + Tail(t))
      else OptionalText(q, k - 1)
  }

  // ---- the writers ----

  method WriteMatch(cur: Cursor, q: ReadQuery)
    modifies cur`buf
    ensures cur.buf == old(cur.buf) + RequiredText(q, |q.traversals|)
  {
    cur.buf := cur.buf + [KwMatch];
    WriteNode(cur, q.start);
    var currentEndpoint := q.start.alias;
    for i := 0 to |q.traversals|
      invariant currentEndpoint == Endpoint(q, i)
      invariant cur.buf == old(cur.buf) + RequiredText(q, i)
    {
      var t := q.traversals[i];
      if t.optional {
        continue;
      }
      if t.fromAlias != currentEndpoint {
        cur.buf := cur.buf + [KwMatch];
        cur.buf := cur.buf + [NodeTok(t.fromAlias, [])];
      }
      WriteTraversalTail(cur, t);
      currentEndpoint := t.target.alias;
    }
  }

  method WriteOptionalMatches(cur: Cursor, q: ReadQuery)
    modifies cur`buf
    ensures cur.buf == old(cur.buf) + OptionalText(q, |q.traversals|)
  {
    for i := 0 to |q.traversals|
      invariant cur.buf == old(cur.buf) + OptionalText(q, i)
    {
      var t := q.traversals[i];
      if t.optional {
        cur.buf := cur.buf + [KwOptionalMatch];
        cur.buf := cur.buf + [NodeTok(t.fromAlias, [])];
        WriteTraversalTail(cur, t);
      }
    }
  }

  method WriteNode(cur: Cursor, node: Node)
    modifies cur`buf
    ensures cur.buf == old(cur.buf) + [NodeToken(node)]
  {
    var prefixSuffix := match node.prefixLabel
      case Some(p) => if p != "" then [p] else []
      case None => [];
    assert Labels(node) == (if node.nodeLabel == "" then [] else [node.nodeLabel]) + prefixSuffix;
    if node.nodeLabel == "" {
      if prefixSuffix == [] {
        cur.buf := cur.buf + [NodeTok(node.alias, [])];
      } else {
        assert [] + prefixSuffix == prefixSuffix;
        cur.buf := cur.buf + [NodeTok(node.alias, prefixSuffix)];
      }
    } else {
      cur.buf := cur.buf + [NodeTok(node.alias, [node.nodeLabel] + prefixSuffix)];
    }
  }

  method WriteTraversalTail(cur: Cursor, t: EdgeTraversal)
    modifies cur`buf
    ensures cur.buf == old(cur.buf) + Tail(t)
  {
    var depth := match t.depth
      case Some(d) => if d.min == 1 && d.max == 1 then None else Some(d)
      case None => None;
    cur.buf := cur.buf + [EdgeTok(t.edgeAlias, t.edgeLabel, t.direction, depth)];
    WriteNode(cur, t.target);
  }

  // ---- clauses ----

  /** A clause as emitted: its pattern and the filter, numbered from `n`, written right behind it. */
  datatype Item = Item(optional: bool, path: Path, filter: Option<FilterExpression>, n: nat)

  function StepOf(t: EdgeTraversal): Step {
    Step(t.edgeAlias, t.edgeLabel, t.direction, PrintedDepth(t), NodePattern(t.target.alias, Labels(t.target)))
  }

  function StepText(s: Step): seq<Token> {
    [EdgeTok(s.edge, s.edgeType, s.direction, s.depth), NodeTok(s.target.alias, s.target.labels)]
  }

  function StepsText(steps: seq<Step>): seq<Token> {
    if steps == [] then [] else StepText(steps[0]) + StepsText(steps[1..])
  }

  function PathText(p: Path): seq<Token> {
    [NodeTok(p.start.alias, p.start.labels)] + StepsText(p.steps)
  }

  function ConditionText(item: Item): seq<Token> {
    match item.filter
    case Some(f) => [KwWhere] + Print(f, item.n)
    case None => []
  }

  function ItemText(item: Item): seq<Token> {
    [if item.optional then KwOptionalMatch else KwMatch] + (PathText(item.path) + ConditionText(item))
  }

  function ItemsText(items: seq<Item>): seq<Token> {
    if items == [] then [] else ItemText(items[0]) + ItemsText(items[1..])
  }

  function ClauseOf(item: Item): Clause {
    Clause(item.optional, item.path, match item.filter case Some(f) => Some(Numbered(f, item.n)) case None => None)
  }

  function ClausesOf(items: seq<Item>): seq<Clause> {
    seq(|items|, i requires 0 <= i < |items| => ClauseOf(items[i]))
  }

  // ---- reading clauses ----

  function ReadSteps(ts: seq<Token>, i: nat): (r: (seq<Step>, nat))
    requires i <= |ts|
    ensures i <= r.1 <= |ts|
    decreases |ts| - i
  {
    if i + 1 < |ts| && ts[i].EdgeTok? && ts[i + 1].NodeTok? then
      var (steps, j) := ReadSteps(ts, i + 2);
      ([Step(ts[i].edge, ts[i].edgeType, ts[i].direction, ts[i].depth, NodePattern(ts[i + 1].alias, ts[i + 1].labels))]
       + steps, j)
    else ([], i)
  }

  function ReadClause(ts: seq<Token>, i: nat): (r: Option<(Clause, nat)>)
    requires i <= |ts|
    ensures r.Some? ==> i < r.value.1 <= |ts|
  {
    if i + 1 < |ts| && ts[i] in {KwMatch, KwOptionalMatch} && ts[i + 1].NodeTok? then
      var (steps, j) := ReadSteps(ts, i + 2);
      var path := Path(NodePattern(ts[i + 1].alias, ts[i + 1].labels), steps);
      if j < |ts| && ts[j] == KwWhere then
        match ParseOr(ts, j + 1)
        case Some((e, k)) => Some((Clause(ts[i] == KwOptionalMatch, path, Some(e)), k))
        case None => None
      else Some((Clause(ts[i] == KwOptionalMatch, path, None), j))
    else None
  }

  predicate OpensClause(t: Token) {
    t in {KwMatch, KwOptionalMatch}
  }

  /** The MATCH clauses from `i` on, and the position behind them. */
  function ReadClauses(ts: seq<Token>, i: nat): (r: Option<(seq<Clause>, nat)>)
    requires i <= |ts|
    ensures r.Some? ==> i <= r.value.1 <= |ts|
    decreases |ts| - i
  {
    if i == |ts| || !OpensClause(ts[i]) then Some(([], i))
    else
      match ReadClause(ts, i)
      case None => None
      case Some((c, j)) =>
        match ReadClauses(ts, j)
        case None => None
        case Some((cs, k)) => Some(([c] + cs, k))
  }

  /** What may stand behind the last MATCH clause. */
  predicate MatchEnds(ts: seq<Token>, i: nat) {
    i == |ts| || (i < |ts| && (ts[i].WithTok? || ts[i].CollectTok? || ts[i].ReturnTok?))
  }

  predicate ClauseEnds(ts: seq<Token>, i: nat) {
    MatchEnds(ts, i) || (i < |ts| && OpensClause(ts[i]))
  }

  lemma {:induction false} StepsRead(ts: seq<Token>, i: nat, steps: seq<Step>)
    requires Occurs(ts, i, StepsText(steps))
    requires var j := i + |StepsText(steps)|; ClauseEnds(ts, j) || ts[j] == KwWhere
    ensures ReadSteps(ts, i) == (steps, i + |StepsText(steps)|)
    decreases |steps|
  {
    if steps != [] {
      OccursSplit(ts, i, StepText(steps[0]), StepsText(steps[1..]));
      assert ts[i..i + 2][0] == ts[i] && ts[i..i + 2][1] == ts[i + 1];
      StepsRead(ts, i + 2, steps[1..]);
      assert [steps[0]] + steps[1..] == steps;
    }
  }

  lemma ClausePieces(ts: seq<Token>, i: nat, item: Item)
    requires Occurs(ts, i, ItemText(item))
    ensures i + 1 < |ts| && ts[i] == (if item.optional then KwOptionalMatch else KwMatch)
    ensures ts[i + 1] == NodeTok(item.path.start.alias, item.path.start.labels)
    ensures Occurs(ts, i + 2, StepsText(item.path.steps))
    ensures var j := i + 2 + |StepsText(item.path.steps)|;
            && Occurs(ts, j, ConditionText(item)) && j + |ConditionText(item)| == i + |ItemText(item)|
            && (item.filter.Some? ==>
                  j < |ts| && ts[j] == KwWhere && Occurs(ts, j + 1, Print(item.filter.value, item.n)))
  {
    hide Print, StepsText;
    var start := NodeTok(item.path.start.alias, item.path.start.labels);
    OccursFirst(ts, i, ItemText(item));
    OccursSplit(ts, i, [ts[i]], PathText(item.path) + ConditionText(item));
    OccursSplit(ts, i + 1, PathText(item.path), ConditionText(item));
    OccursFirst(ts, i + 1, PathText(item.path));
    OccursSplit(ts, i + 1, [start], StepsText(item.path.steps));
    if item.filter.Some? {
      var j := i + 2 + |StepsText(item.path.steps)|;
      OccursFirst(ts, j, ConditionText(item));
      OccursSplit(ts, j, [KwWhere], Print(item.filter.value, item.n));
    }
  }

  lemma ClauseReads(ts: seq<Token>, i: nat, item: Item)
    requires Occurs(ts, i, ItemText(item)) && ClauseEnds(ts, i + |ItemText(item)|)
    requires item.filter.Some? ==> Full(item.filter.value)
    ensures i < |ts|
    ensures ReadClause(ts, i) == Some((ClauseOf(item), i + |ItemText(item)|))
  {
    hide Print, ReadSteps, StepsText, Numbered, Occurs, ItemText;
    ClausePieces(ts, i, item);
    StepsRead(ts, i + 2, item.path.steps);
    if item.filter.Some? {
      var j := i + 3 + |StepsText(item.path.steps)|;
      UnaryReads(item.filter.value, item.n, ts, j);
      OperandAlone(ts, j, Numbered(item.filter.value, item.n), i + |ItemText(item)|);
    }
  }

  /** Every emitted text reads back as its clauses. */
  lemma {:induction false} ClausesRead(ts: seq<Token>, i: nat, items: seq<Item>)
    requires Occurs(ts, i, ItemsText(items)) && MatchEnds(ts, i + |ItemsText(items)|)
    requires forall item :: item in items && item.filter.Some? ==> Full(item.filter.value)
    ensures ReadClauses(ts, i) == Some((ClausesOf(items), i + |ItemsText(items)|))
    decreases |items|
  {
    hide ItemText, ReadClause, ClauseOf, Full;
    if items == [] {
      assert ClausesOf(items) == [];
    } else {
      OccursSplit(ts, i, ItemText(items[0]), ItemsText(items[1..]));
      var j := i + |ItemText(items[0])|;
      ItemStarts(ts, i, items[0]);
      if items[1..] != [] {
        OccursSplit(ts, j, ItemText(items[1]), ItemsText(items[1..][1..]));
        ItemStarts(ts, j, items[1]);
      }
      ClauseReads(ts, i, items[0]);
      ClausesRead(ts, j, items[1..]);
      assert ClausesOf(items) == [ClauseOf(items[0])] + ClausesOf(items[1..]);
    }
  }

  lemma ItemStarts(ts: seq<Token>, i: nat, item: Item)
    requires Occurs(ts, i, ItemText(item))
    ensures i < |ts| && OpensClause(ts[i])
  {
    OccursFirst(ts, i, ItemText(item));
  }
}
