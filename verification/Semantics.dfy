/**
 What the emitted clauses mean over a property graph, following openCypher: bags of rows, nulls,
 three-valued conditions, relationship uniqueness within one MATCH clause, and a WHERE that
 filters the matches of the clause it is attached to.
 */
module Semantics {
  import opened Common
  import opened Ast
  import opened Cypher

  // ---- graphs and rows ----

  datatype NodeData = NodeData(labels: set<string>, props: map<string, Literal>)

  datatype RelData = RelData(relType: string, source: nat, target: nat, props: map<string, Literal>)

  /** Nodes and relationships are known by their positions. */
  datatype Graph = Graph(nodes: seq<NodeData>, rels: seq<RelData>)

  datatype Value = NullV | NodeV(id: nat) | RelV(id: nat) | TrailV(ids: seq<nat>) | SetV(members: set<Value>)

  type Row = map<string, Value>

  // ---- three-valued conditions ----

  datatype Tri = True | False | Unknown

  function Not3(a: Tri): Tri {
    match a case True => False case False => True case Unknown => Unknown
  }

  function And3(a: Tri, b: Tri): Tri {
    if a == False || b == False then False else if a == True && b == True then True else Unknown
  }

  function Or3(a: Tri, b: Tri): Tri {
    if a == True || b == True then True else if a == False && b == False then False else Unknown
  }

  function Truth(b: bool): Tri {
    if b then True else False
  }

  /** What a comparison finds on its left: a stored value or a whole entity. */
  datatype Operand = Stored(value: Literal) | Entity

  predicate Numeric(v: Literal) {
    v.Int? || v.Float?
  }

  function Number(v: Literal): real
    requires Numeric(v)
  {
    if v.Int? then v.i as real else v.r
  }

  function Equal(a: Literal, b: Literal): Tri {
    if a == Null || b == Null then Unknown
    else if Numeric(a) && Numeric(b) then Truth(Number(a) == Number(b))
    else Truth(a == b)
  }

  function Less(a: Literal, b: Literal): Tri {
    if Numeric(a) && Numeric(b) then Truth(Number(a) < Number(b))
    else if a.Str? && b.Str? then Truth(TextLess(a.text, b.text))
    else Unknown
  }

  /**
   Nothing is a member of an empty list, a null neither; otherwise a null on either side leaves an unmatched test
   unknown.
   */
  function MemberOf(a: Literal, items: seq<Literal>): Tri {
    if items == [] then False else Or3(Equal(a, items[0]), MemberOf(a, items[1..]))
  }

  predicate Infix(a: string, b: string) {
    b <= a || (a != "" && Infix(a[1..], b))
  }

  function OnStrings(a: Literal, b: Literal, holds: bool): Tri {
    if a.Str? && b.Str? then Truth(holds) else Unknown
  }

  function Compare(op: CypherOp, left: Operand, right: Literal): Tri {
    match left
    case Entity =>
      (match op
       case OpEq => if right == Null then Unknown else False
       case OpNeq => if right == Null then Unknown else True
       case OpIn => if right.ListOf? && Null !in right.items then False else Unknown
       case _ => Unknown)
    case Stored(a) =>
      match op
      case OpEq => Equal(a, right)
      case OpNeq => Not3(Equal(a, right))
      case OpLt => Less(a, right)
      case OpGt => Less(right, a)
      case OpLte => Or3(Less(a, right), if Less(a, right) == Unknown then Unknown else Equal(a, right))
      case OpGte => Or3(Less(right, a), if Less(right, a) == Unknown then Unknown else Equal(a, right))
      case OpIn => if right.ListOf? then MemberOf(a, right.items) else Unknown
      case OpContains => OnStrings(a, right, a.Str? && right.Str? && Infix(a.text, right.text))
      case OpStartsWith => OnStrings(a, right, a.Str? && right.Str? && right.text <= a.text)
      case OpEndsWith =>
        OnStrings(a, right, a.Str? && right.Str? && |right.text| <= |a.text|
                            && a.text[|a.text| - |right.text|..] == right.text)
  }

  function Property(props: map<string, Literal>, name: string): Literal {
    if name in props then props[name] else Null
  }

  function OperandOf(g: Graph, v: Value, property: Option<string>): Operand {
    match v
    case NullV => Stored(Null)
    case NodeV(id) =>
      (match property
       case Some(p) => Stored(if id < |g.nodes| then Property(g.nodes[id].props, p) else Null)
       case None => Entity)
    case RelV(id) =>
      (match property
       case Some(p) => Stored(if id < |g.rels| then Property(g.rels[id].props, p) else Null)
       case None => Entity)
    case _ => if property.Some? then Stored(Null) else Entity
  }

  /** An alias the row does not bind reads as null. */
  function Lookup(g: Graph, row: Row, p: PropertyRef): Operand {
    if p.alias in row then OperandOf(g, row[p.alias], p.property) else Stored(Null)
  }

  /** `v IN [a, b, ...]` over entities: a null on either side leaves an unmatched test unknown. */
  function ValueAmong(row: Row, v: Value, names: seq<string>): Tri {
    if names == [] then False
    else
      var w := if names[0] in row then row[names[0]] else NullV;
      Or3(if v == NullV || w == NullV then Unknown else Truth(v == w), ValueAmong(row, v, names[1..]))
  }

  function Evaluate(g: Graph, params: map<string, Literal>, row: Row, e: Expr): Tri {
    match e
    case Cmp(lhs, op, param) => Compare(op, Lookup(g, row, lhs), if param in params then params[param] else Null)
    case Member(alias, among) =>
      if alias in row then ValueAmong(row, row[alias], among) else Unknown
    case AndE(es) => EvaluateAnd(g, params, row, es)
    case OrE(es) => EvaluateOr(g, params, row, es)
    case NotE(arg) => Not3(Evaluate(g, params, row, arg))
  }

  function EvaluateAnd(g: Graph, params: map<string, Literal>, row: Row, es: List<Expr>): Tri {
    match es
    case Nil => True
    case Cons(e, rest) => And3(Evaluate(g, params, row, e), EvaluateAnd(g, params, row, rest))
  }

  function EvaluateOr(g: Graph, params: map<string, Literal>, row: Row, es: List<Expr>): Tri {
    match es
    case Nil => False
    case Cons(e, rest) => Or3(Evaluate(g, params, row, e), EvaluateOr(g, params, row, rest))
  }

  // ---- hops ----

  predicate NodeFits(g: Graph, id: nat, labels: seq<string>) {
    id < |g.nodes| && forall i :: 0 <= i < |labels| ==> labels[i] in g.nodes[id].labels
  }

  /** The alternatives of an edge label `A|B|C`. */
  function Alternatives(s: string): seq<string> {
    if s == "" then [""]
    else
      var rest := Alternatives(s[1..]);
      if s[0] == '|' then [""] + rest
      else if rest == [] then [[s[0]]] else [[s[0]] + rest[0]] + rest[1..]
  }

  lemma {:induction false} AlternativesAppend(a: string, b: string)
    requires NoBar(a)
    ensures Alternatives(a + "|" + b) == [a] + Alternatives(b)
  {
    if a == "" {
      assert a + "|" + b == "|" + b;
      assert ("|" + b)[1..] == b;
    } else {
      assert (a + "|" + b)[1..] == a[1..] + "|" + b;
      AlternativesAppend(a[1..], b);
      assert [a[0]] + a[1..] == a;
    }
  }

  lemma {:induction false} SingleAlternative(a: string)
    requires NoBar(a)
    ensures Alternatives(a) == [a]
  {
    if a != "" {
      SingleAlternative(a[1..]);
      assert [a[0]] + a[1..] == a;
    }
  }

  /** Where relationship `rel` leads from node `from` in direction `dir`, if it touches `from` that way. */
  function Far(g: Graph, from: nat, rel: nat, edgeType: string, dir: Direction): Option<nat> {
    if rel >= |g.rels| || g.rels[rel].relType !in Alternatives(edgeType) then None
    else if dir != In && g.rels[rel].source == from then Some(g.rels[rel].target)
    else if dir != Out && g.rels[rel].target == from then Some(g.rels[rel].source)
    else None
  }

  /** Following a list of relationships from a node. */
  function Walk(g: Graph, from: nat, rels: seq<nat>, edgeType: string, dir: Direction): Option<nat>
    decreases rels
  {
    if rels == [] then Some(from)
    else
      match Far(g, from, rels[0], edgeType, dir)
      case Some(next) => Walk(g, next, rels[1..], edgeType, dir)
      case None => None
  }

  function RelsOf(v: Value): set<nat> {
    match v
    case RelV(id) => {id}
    case TrailV(ids) => set i | 0 <= i < |ids| :: ids[i]
    case _ => {}
  }

  /** Step `s` leads from `from` to `to` along the relationships `edge` stands for. */
  ghost predicate Link(g: Graph, s: Step, from: nat, edge: Value, to: nat) {
    && NodeFits(g, to, s.target.labels)
    && match s.depth
       case None => edge.RelV? && Far(g, from, edge.id, s.edgeType, s.direction) == Some(to)
       case Some(d) =>
         edge.TrailV? && d.min <= |edge.ids| <= d.max && NoDup(edge.ids)
         && Walk(g, from, edge.ids, s.edgeType, s.direction) == Some(to)
  }

  // ---- enumerating matches ----

  /** One way to take a step: what the edge alias gets, and where it leads. */
  datatype Hop = Hop(edge: Value, to: nat)

  ghost function HopAlong(g: Graph, from: nat, s: Step, used: set<nat>): nat -> seq<Hop> {
    (rel: nat) =>
      match Far(g, from, rel, s.edgeType, s.direction)
      case Some(to) => if rel in used then [] else [Hop(RelV(rel), to)]
      case None => []
  }

  /** A trail and the node it reaches. */
  datatype Trail = Trail(rels: seq<nat>, to: nat)

  ghost function Prefixed(rel: nat): Trail -> seq<Trail> {
    (t: Trail) => [Trail([rel] + t.rels, t.to)]
  }

  ghost function TrailsAlong(g: Graph, from: nat, s: Step, length: nat, used: set<nat>): nat -> seq<Trail>
    decreases length, 0
  {
    (rel: nat) =>
      match Far(g, from, rel, s.edgeType, s.direction)
      case Some(next) =>
        if rel in used || length == 0 then [] else FlatMap(Trails(g, next, s, length - 1, used + {rel}), Prefixed(rel))
      case None => []
  }

  /** Every trail of exactly `length` unused relationships. */
  ghost function Trails(g: Graph, from: nat, s: Step, length: nat, used: set<nat>): seq<Trail>
    decreases length, 1
  {
    if length == 0 then [Trail([], from)]
    else FlatMap(Upto(|g.rels|), TrailsAlong(g, from, s, length, used))
  }

  ghost function TrailsBetween(g: Graph, from: nat, s: Step, min: nat, max: nat, used: set<nat>): seq<Trail>
    decreases max
  {
    if max < min then []
    else if max == 0 then Trails(g, from, s, 0, used)
    else TrailsBetween(g, from, s, min, max - 1, used) + Trails(g, from, s, max, used)
  }

  ghost function TrailHop(): Trail -> seq<Hop> {
    (t: Trail) => [Hop(TrailV(t.rels), t.to)]
  }

  ghost function Hops(g: Graph, from: nat, s: Step, used: set<nat>): seq<Hop> {
    match s.depth
    case None => FlatMap(Upto(|g.rels|), HopAlong(g, from, s, used))
    case Some(d) => FlatMap(TrailsBetween(g, from, s, d.min, d.max, used), TrailHop())
  }

  /** A row being matched: the node the pattern has reached and the relationships its clause has used. */
  datatype Partial = Partial(row: Row, at: nat, used: set<nat>)

  /** Bind a fresh alias, or check the binding it already has. */
  function BindAlias(row: Row, alias: string, v: Value): Option<Row> {
    if alias !in row then Some(row[alias := v]) else if row[alias] == v then Some(row) else None
  }

  ghost function TakeHop(g: Graph, p: Partial, s: Step): Hop -> seq<Partial> {
    (h: Hop) =>
      if !NodeFits(g, h.to, s.target.labels) then []
      else
        match BindAlias(p.row, s.edge, h.edge)
        case None => []
        case Some(row) =>
          match BindAlias(row, s.target.alias, NodeV(h.to))
          case None => []
          case Some(row') => [Partial(row', h.to, p.used + RelsOf(h.edge))]
  }

  ghost function Expand(g: Graph, s: Step): Partial -> seq<Partial> {
    (p: Partial) => FlatMap(Hops(g, p.at, s, p.used), TakeHop(g, p, s))
  }

  ghost function StartAt(g: Graph, row: Row, n: NodePattern): nat -> seq<Partial> {
    (id: nat) => if NodeFits(g, id, n.labels) then [Partial(row[n.alias := NodeV(id)], id, {})] else []
  }

  ghost function Starts(g: Graph, row: Row, n: NodePattern): seq<Partial> {
    if n.alias !in row then FlatMap(Upto(|g.nodes|), StartAt(g, row, n))
    else if row[n.alias].NodeV? && NodeFits(g, row[n.alias].id, n.labels) then [Partial(row, row[n.alias].id, {})]
    else []
  }

  ghost function PathPartials(g: Graph, row: Row, path: Path): seq<Partial>
    decreases |path.steps|
  {
    if path.steps == [] then Starts(g, row, path.start)
    else
      var last := |path.steps| - 1;
      FlatMap(PathPartials(g, row, Path(path.start, path.steps[..last])), Expand(g, path.steps[last]))
  }

  ghost function PathPartialsFn(g: Graph, path: Path): Row -> seq<Partial> {
    (row: Row) => PathPartials(g, row, path)
  }

  ghost function Keep(g: Graph, params: map<string, Literal>, condition: Option<Expr>): Partial -> seq<Row> {
    (p: Partial) =>
      if condition.Some? && Evaluate(g, params, p.row, condition.value) != True then [] else [p.row]
  }

  function PathAliases(path: Path): set<string> {
    {path.start.alias} + (set i | 0 <= i < |path.steps| :: path.steps[i].edge)
    + (set i | 0 <= i < |path.steps| :: path.steps[i].target.alias)
  }

  /** The row an OPTIONAL MATCH without a match leaves: its new aliases are null. */
  function Padded(row: Row, path: Path): Row {
    (map a | a in PathAliases(path) - row.Keys :: NullV) + row
  }

  /**
   One row through one clause: its condition filters the clause's own matches, and an optional clause never drops the
   row.
   */
  ghost function ClauseRows(g: Graph, params: map<string, Literal>, c: Clause): Row -> seq<Row> {
    (row: Row) =>
      var kept := FlatMap(PathPartials(g, row, c.path), Keep(g, params, c.condition));
      if c.optional && kept == [] then [Padded(row, c.path)] else kept
  }

  ghost function RunClause(g: Graph, params: map<string, Literal>, c: Clause, rows: seq<Row>): seq<Row> {
    FlatMap(rows, ClauseRows(g, params, c))
  }

  ghost function RunClauses(g: Graph, params: map<string, Literal>, cs: seq<Clause>): seq<Row>
    decreases |cs|
  {
    if cs == [] then [map[]]
    else RunClause(g, params, cs[|cs| - 1], RunClauses(g, params, cs[..|cs| - 1]))
  }
}
