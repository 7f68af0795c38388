/** The emitted text as tokens, and the clauses those tokens read back as. */
module Cypher {
  import opened Common
  import opened Ast

  datatype CypherOp = OpEq | OpNeq | OpGt | OpGte | OpLt | OpLte | OpIn | OpContains | OpStartsWith | OpEndsWith

  datatype Token =
    | KwMatch
    | KwOptionalMatch
    | KwWhere
    | NodeTok(alias: string, labels: seq<string>)
    | EdgeTok(edge: string, edgeType: string, direction: Direction, depth: Option<Depth>)
    | LParen
    | RParen
    | KwAnd
    | KwOr
    | KwNot
    | CmpTok(lhs: PropertyRef, op: CypherOp, param: string)
    | MemberTok(alias: string, among: seq<string>)
    | WithTok(names: seq<string>)
    | CollectTok(names: seq<string>, item: string, column: string)
    | ReturnTok(distinct: bool, columns: seq<ReturnClause>, score: seq<string>, sources: bool)
    | KwOrderBy
    | NullKeyTok(key: string)
    | KeyTok(key: string, order: SortOrder)
    | LimitTok(count: nat)

  /** A boolean expression as the database's parser builds it. */
  datatype Expr =
    | Cmp(lhs: PropertyRef, op: CypherOp, param: string)
    | Member(alias: string, among: seq<string>)
    | AndE(conj: List<Expr>)
    | OrE(disj: List<Expr>)
    | NotE(arg: Expr)

  datatype NodePattern = NodePattern(alias: string, labels: seq<string>)

  datatype Step = Step(edge: string, edgeType: string, direction: Direction, depth: Option<Depth>, target: NodePattern)

  datatype Path = Path(start: NodePattern, steps: seq<Step>)

  /** `[OPTIONAL] MATCH path [WHERE expr]`: the WHERE belongs to its own clause. */
  datatype Clause = Clause(optional: bool, path: Path, condition: Option<Expr>)

  // ---- reading expressions: NOT binds tighter than AND, AND tighter than OR ----

  /** An expression and the position after it. */
  type Parsed = Option<(Expr, nat)>

  function ParseUnary(ts: seq<Token>, i: nat): (r: Parsed)
    requires i <= |ts|
    ensures r.Some? ==> i < r.value.1 <= |ts|
    decreases |ts| - i, 0
  {
    if i == |ts| then None
    else match ts[i]
      case KwNot =>
        (match ParseUnary(ts, i + 1)
         case Some((e, j)) => Some((NotE(e), j))
         case None => None)
      case LParen =>
        (match ParseOr(ts, i + 1)
         case Some((e, j)) => if j < |ts| && ts[j] == RParen then Some((e, j + 1)) else None
         case None => None)
      case CmpTok(lhs, op, param) => Some((Cmp(lhs, op, param), i + 1))
      case MemberTok(alias, among) => Some((Member(alias, among), i + 1))
      case _ => None
  }

  function ParseAnd(ts: seq<Token>, i: nat): (r: Parsed)
    requires i <= |ts|
    ensures r.Some? ==> i < r.value.1 <= |ts|
    decreases |ts| - i, 1
  {
    match ParseUnary(ts, i)
    case None => None
    case Some((e, j)) =>
      match ParseTail(KwAnd, ts, j)
      case None => None
      case Some((es, k)) => Some((if es.Nil? then e else AndE(Cons(e, es)), k))
  }

  function ParseOr(ts: seq<Token>, i: nat): (r: Parsed)
    requires i <= |ts|
    ensures r.Some? ==> i < r.value.1 <= |ts|
    decreases |ts| - i, 2
  {
    match ParseAnd(ts, i)
    case None => None
    case Some((e, j)) =>
      match ParseTail(KwOr, ts, j)
      case None => None
      case Some((es, k)) => Some((if es.Nil? then e else OrE(Cons(e, es)), k))
  }

  /** The `sep`-separated operands after the first one. */
  function ParseTail(sep: Token, ts: seq<Token>, i: nat): (r: Option<(List<Expr>, nat)>)
    requires i <= |ts|
    ensures r.Some? ==> i <= r.value.1 <= |ts|
    decreases |ts| - i, 0
  {
    if i == |ts| || ts[i] != sep then Some((Nil, i))
    else
      match (if sep == KwAnd then ParseUnary(ts, i + 1) else ParseAnd(ts, i + 1))
      case None => None
      case Some((e, j)) =>
        match ParseTail(sep, ts, j)
        case None => None
        case Some((es, k)) => Some((Cons(e, es), k))
  }

  /** A whole condition: an expression with nothing left over. */
  function ParseCondition(ts: seq<Token>): Option<Expr> {
    match ParseOr(ts, 0)
    case Some((e, j)) => if j == |ts| then Some(e) else None
    case None => None
  }

  /** `text` stands at position `i`. */
  ghost predicate Occurs(ts: seq<Token>, i: nat, text: seq<Token>) {
    i + |text| <= |ts| && ts[i..i + |text|] == text
  }

  lemma OccursSplit(ts: seq<Token>, i: nat, a: seq<Token>, b: seq<Token>)
    requires Occurs(ts, i, a + b)
    ensures Occurs(ts, i, a) && Occurs(ts, i + |a|, b)
  {
    var whole := ts[i..i + |a + b|];
    assert ts[i..i + |a|] == whole[..|a|] == a;
    assert ts[i + |a|..i + |a| + |b|] == whole[|a|..] == b;
  }

  lemma OccursFirst(ts: seq<Token>, i: nat, text: seq<Token>)
    requires Occurs(ts, i, text) && text != []
    ensures i < |ts| && ts[i] == text[0]
  {
    assert ts[i..i + |text|][0] == ts[i];
  }
}
