/** WHERE emission (src/builder/where_part.rs) and what its output reads back as. */
module WherePart {
  import opened Common
  import opened Ast
  import opened Normalize
  import opened Cypher
  import opened Cursors

  // ---- referenced aliases ----

  function ReferencedAliases(f: FilterExpression): set<string> {
    match f
    case Pred(p) => {p.field.alias}
    case And(parts) => AliasesOfAll(parts)
    case Or(parts) => AliasesOfAll(parts)
    case Not(inner) => ReferencedAliases(inner)
  }

  function AliasesOfAll(parts: List<FilterExpression>): set<string> {
    match parts
    case Nil => {}
    case Cons(p, rest) => ReferencedAliases(p) + AliasesOfAll(rest)
  }

  /** `collect_referenced_aliases`: adds to the set it is handed. */
  method CollectReferencedAliases(f: FilterExpression, into: set<string>) returns (out: set<string>)
    ensures out == into + ReferencedAliases(f)
    decreases f
  {
    match f {
      case Pred(p) => out := into + {p.field.alias};
      case And(parts) => out := CollectFromAll(parts, into);
      case Or(parts) => out := CollectFromAll(parts, into);
      case Not(inner) => out := CollectReferencedAliases(inner, into);
    }
  }

  method CollectFromAll(parts: List<FilterExpression>, into: set<string>) returns (out: set<string>)
    ensures out == into + AliasesOfAll(parts)
    decreases parts
  {
    out := into;
    var rest := parts;
    while rest.Cons?
      invariant rest == parts || rest < parts
      invariant out + AliasesOfAll(rest) == into + AliasesOfAll(parts)
      decreases rest
    {
      out := CollectReferencedAliases(rest.head, out);
      rest := rest.tail;
    }
  }

  // ---- predicates ----

  predicate CaseInsensitive(op: ComparisonOp) {
    op in {EqCi, NeqCi, InCi, ContainsCi, StartsWithCi, EndsWithCi}
  }

  function Operator(op: ComparisonOp): CypherOp {
    match op
    case Eq => OpEq
    case Neq => OpNeq
    case Gt => OpGt
    case Gte => OpGte
    case Lt => OpLt
    case Lte => OpLte
    case In_ => OpIn
    case Contains => OpContains
    case StartsWith => OpStartsWith
    case EndsWith => OpEndsWith
    case EqCi => OpEq
    case NeqCi => OpNeq
    case InCi => OpIn
    case ContainsCi => OpContains
    case StartsWithCi => OpStartsWith
    case EndsWithCi => OpEndsWith
  }

  function NormalizedProperty(p: PropertyRef): PropertyRef {
    match p.property
    case Some(prop) => PropertyRef(p.alias, Some(ShadowName(prop)))
    case None => p
  }

  function LeftSide(p: Predicate): PropertyRef {
    if CaseInsensitive(p.op) then NormalizedProperty(p.field) else p.field
  }

  function BoundValue(p: Predicate): Literal {
    if CaseInsensitive(p.op) then NormalizeLiteral(p.value) else p.value
  }

  // ---- what the writers bind and print, as functions of the next parameter number ----

  function LeafCount(f: FilterExpression): nat {
    match f
    case Pred(_) => 1
    case And(parts) => CountAll(parts)
    case Or(parts) => CountAll(parts)
    case Not(inner) => LeafCount(inner)
  }

  function CountAll(parts: List<FilterExpression>): nat {
    match parts
    case Nil => 0
    case Cons(p, rest) => LeafCount(p) + CountAll(rest)
  }

  /** The parameter table after writing `f`. */
  function Params(f: FilterExpression, n: nat, table: map<string, Literal>): map<string, Literal>
    decreases f
  {
    match f
    case Pred(p) => table[ParamName(n) := BoundValue(p)]
    case And(parts) => ParamsAll(parts, n, table)
    case Or(parts) => ParamsAll(parts, n, table)
    case Not(inner) => Params(inner, n, table)
  }

  function ParamsAll(parts: List<FilterExpression>, n: nat, table: map<string, Literal>): map<string, Literal>
    decreases parts
  {
    match parts
    case Nil => table
    case Cons(p, rest) => ParamsAll(rest, n + LeafCount(p), Params(p, n, table))
  }

  function Print(f: FilterExpression, n: nat): seq<Token>
    decreases f
  {
    match f
    case Pred(p) => [CmpTok(LeftSide(p), Operator(p.op), ParamName(n))]
    case And(parts) => PrintJoined(parts, KwAnd, n)
    case Or(parts) => PrintJoined(parts, KwOr, n)
    case Not(inner) => [KwNot, LParen] + Print(inner, n) + [RParen]
  }

  function PrintJoined(parts: List<FilterExpression>, sep: Token, n: nat): seq<Token>
    decreases parts, 1
  {
    match parts
    case Nil => []
    case Cons(p, Nil) => Print(p, n)
    case Cons(p, rest) => [LParen] + (Print(p, n) + PrintRest(rest, sep, n + LeafCount(p))) + [RParen]
  }

  /** Each remaining operand behind its separator. */
  function PrintRest(parts: List<FilterExpression>, sep: Token, n: nat): seq<Token>
    decreases parts, 0
  {
    match parts
    case Nil => []
    case Cons(p, rest) => [sep] + (Print(p, n) + PrintRest(rest, sep, n + LeafCount(p)))
  }

  // ---- the writers ----

  /** `write_where`: lower into a local buffer first, then lay down the keyword if anything came out. */
  method WriteWhere(cur: Cursor, f: FilterExpression)
    modifies cur`buf, cur`params, cur`nextId
    ensures cur.buf == old(cur.buf)
      + (if Print(f, old(cur.nextId)) == [] then [] else [KwWhere] + Print(f, old(cur.nextId)))
    ensures cur.nextId == old(cur.nextId) + LeafCount(f)
    ensures cur.params == Params(f, old(cur.nextId), old(cur.params))
  {
    var s := WriteExpr(cur, f, []);
    if s != [] {
      cur.buf := cur.buf + [KwWhere];
      cur.buf := cur.buf + s;
    }
  }

  method WriteExpr(cur: Cursor, f: FilterExpression, prefix: seq<Token>) returns (out: seq<Token>)
    modifies cur`params, cur`nextId
    ensures out == prefix + Print(f, old(cur.nextId))
    ensures cur.nextId == old(cur.nextId) + LeafCount(f)
    ensures cur.params == Params(f, old(cur.nextId), old(cur.params))
    decreases f
  {
    match f {
      case Pred(p) =>
        out := WritePredicate(cur, p, prefix);
      case And(parts) =>
        out := WriteJoined(cur, parts, KwAnd, prefix);
      case Or(parts) =>
        out := WriteJoined(cur, parts, KwOr, prefix);
      case Not(inner) =>
        out := WriteExpr(cur, inner, prefix + [KwNot, LParen]);
        out := out + [RParen];
    }
  }

  method WriteJoined(cur: Cursor, parts: List<FilterExpression>, sep: Token, prefix: seq<Token>)
    returns (out: seq<Token>)
    modifies cur`params, cur`nextId
    ensures out == prefix + PrintJoined(parts, sep, old(cur.nextId))
    ensures cur.nextId == old(cur.nextId) + CountAll(parts)
    ensures cur.params == ParamsAll(parts, old(cur.nextId), old(cur.params))
    decreases parts
  {
    hide Print, Params, LeafCount, PrintJoined, PrintRest, CountAll, ParamsAll;
    JoinedParts(parts, sep, cur.nextId, cur.params);
    out := prefix;
    if parts.Nil? {
      return;
    }
    if parts.tail.Nil? {
      out := WriteExpr(cur, parts.head, out);
      return;
    }
    out := WriteExpr(cur, parts.head, out + [LParen]);
    var rest := parts.tail;
    ghost var n, table, whole := cur.nextId, cur.params, out + PrintRest(rest, sep, cur.nextId);
    assert whole + [RParen] == prefix + PrintJoined(parts, sep, old(cur.nextId));
    while rest.Cons?
      invariant rest < parts
      invariant out + PrintRest(rest, sep, cur.nextId) == whole
      invariant cur.nextId + CountAll(rest) == n + CountAll(parts.tail)
      invariant ParamsAll(rest, cur.nextId, cur.params) == ParamsAll(parts.tail, n, table)
      decreases rest
    {
      RestParts(rest, sep, cur.nextId, cur.params);
      out := out + [sep];
      out := WriteExpr(cur, rest.head, out);
      rest := rest.tail;
    }
    RestParts(Nil, sep, cur.nextId, cur.params);
    out := out + [RParen];
  }

  lemma JoinedParts(parts: List<FilterExpression>, sep: Token, n: nat, table: map<string, Literal>)
    ensures parts.Nil? ==>
              PrintJoined(parts, sep, n) == [] && CountAll(parts) == 0 && ParamsAll(parts, n, table) == table
    ensures parts.Cons? ==>
              && CountAll(parts) == LeafCount(parts.head) + CountAll(parts.tail)
              && ParamsAll(parts, n, table) ==
                   ParamsAll(parts.tail, n + LeafCount(parts.head), Params(parts.head, n, table))
              && PrintJoined(parts, sep, n)
                 == if parts.tail.Nil? then Print(parts.head, n)
                    else [LParen]
                         + (Print(parts.head, n) + PrintRest(parts.tail, sep, n + LeafCount(parts.head))) + [RParen]
    ensures CountAll(Nil) == 0 && forall m, t :: ParamsAll(Nil, m, t) == t
  {
  }

  lemma RestParts(rest: List<FilterExpression>, sep: Token, n: nat, table: map<string, Literal>)
    ensures rest.Nil? ==> PrintRest(rest, sep, n) == [] && CountAll(rest) == 0 && ParamsAll(rest, n, table) == table
    ensures rest.Cons? ==>
              && PrintRest(rest, sep, n) == [sep] +
                   (Print(rest.head, n) + PrintRest(rest.tail, sep, n + LeafCount(rest.head)))
              && CountAll(rest) == LeafCount(rest.head) + CountAll(rest.tail)
              && ParamsAll(rest, n, table) ==
                   ParamsAll(rest.tail, n + LeafCount(rest.head), Params(rest.head, n, table))
  {
  }

  method WritePredicate(cur: Cursor, p: Predicate, prefix: seq<Token>) returns (out: seq<Token>)
    modifies cur`params, cur`nextId
    ensures out == prefix + Print(Pred(p), old(cur.nextId))
    ensures cur.nextId == old(cur.nextId) + 1
    ensures cur.params == Params(Pred(p), old(cur.nextId), old(cur.params))
  {
    var placeholder := cur.BindValue(BoundValue(p));
    out := prefix + [CmpTok(LeftSide(p), Operator(p.op), placeholder)];
  }
}
