/** What the database reads when it parses an emitted WHERE. */
module WhereReading {
  import opened Common
  import opened Ast
  import opened Cypher
  import opened Normalize
  import opened Cursors
  import opened WherePart
  import opened Comparisons

  /** No And/Or node without operands anywhere in the tree. */
  predicate Full(f: FilterExpression) {
    match f
    case Pred(_) => true
    case And(parts) => parts.Cons? && AllFull(parts)
    case Or(parts) => parts.Cons? && AllFull(parts)
    case Not(inner) => Full(inner)
  }

  predicate AllFull(parts: List<FilterExpression>) {
    match parts
    case Nil => true
    case Cons(p, rest) => Full(p) && AllFull(rest)
  }

  /** The tree with one-operand And/Or nodes collapsed and its leaves numbered from `n`. */
  function Numbered(f: FilterExpression, n: nat): Expr {
    match f
    case Pred(p) => Cmp(LeftSide(p), Operator(p.op), ParamName(n))
    case And(Cons(p, Nil)) => Numbered(p, n)
    case And(parts) => AndE(NumberedAll(parts, n))
    case Or(Cons(p, Nil)) => Numbered(p, n)
    case Or(parts) => OrE(NumberedAll(parts, n))
    case Not(inner) => NotE(Numbered(inner, n))
  }

  function NumberedAll(parts: List<FilterExpression>, n: nat): List<Expr> {
    match parts
    case Nil => Nil
    case Cons(p, rest) => Cons(Numbered(p, n), NumberedAll(rest, n + LeafCount(p)))
  }

  // ---- the reader over the printed pieces ----

  lemma NegationOccurs(ts: seq<Token>, i: nat, body: seq<Token>)
    requires Occurs(ts, i, [KwNot, LParen] + body + [RParen])
    ensures i + 1 < |ts| && ts[i] == KwNot && ts[i + 1] == LParen && Occurs(ts, i + 2, body)
    ensures var j := i + 2 + |body|; j < |ts| && ts[j] == RParen
  {
    OccursSplit(ts, i, [KwNot, LParen] + body, [RParen]);
    OccursSplit(ts, i, [KwNot, LParen], body);
    assert ts[i..i + 2][0] == KwNot && ts[i..i + 2][1] == LParen;
    OccursFirst(ts, i + 2 + |body|, [RParen]);
  }

  /** An operand not followed by a separator is read alone at every level above. */
  lemma OperandAlone(ts: seq<Token>, i: nat, e: Expr, j: nat)
    requires i <= |ts| && ParseUnary(ts, i) == Some((e, j))
    requires j == |ts| || ts[j] != KwAnd
    ensures ParseAnd(ts, i) == Some((e, j))
    ensures (j == |ts| || ts[j] != KwOr) ==> ParseOr(ts, i) == Some((e, j))
  {
  }

  lemma OperandMissing(ts: seq<Token>, i: nat)
    requires i <= |ts| && ParseUnary(ts, i).None?
    ensures ParseAnd(ts, i).None? && ParseOr(ts, i).None?
  {
  }

  /** The reader over a parenthesis, given what it makes of the inside. */
  lemma Parenthesised(ts: seq<Token>, i: nat, r: Parsed)
    requires i < |ts| && ts[i] == LParen && ParseOr(ts, i + 1) == r
    requires r.Some? ==> r.value.1 < |ts| && ts[r.value.1] == RParen
    ensures ParseUnary(ts, i) == if r.Some? then Some((r.value.0, r.value.1 + 1)) else None
  {
  }

  /** The reader over two or more operands between the same separators. */
  lemma ListInside(ts: seq<Token>, i: nat, sep: Token, e: Expr, mid: nat, tail: Option<(List<Expr>, nat)>)
    requires sep in {KwAnd, KwOr} && i <= |ts| && ParseUnary(ts, i) == Some((e, mid))
    requires mid < |ts| && ts[mid] == sep && ParseTail(sep, ts, mid) == tail
    requires tail.Some? ==> tail.value.0.Cons? && tail.value.1 < |ts| && ts[tail.value.1] == RParen
    ensures ParseOr(ts, i)
         == if tail.None? then None
            else Some((if sep == KwAnd then AndE(Cons(e, tail.value.0)) else OrE(Cons(e, tail.value.0)), tail.value.1))
  {
    if sep == KwOr {
      OperandAlone(ts, i, e, mid);
    }
  }

  /** No operand of an expression can begin here. */
  predicate Ends(ts: seq<Token>, i: nat) {
    i >= |ts| || !(ts[i] in {KwNot, LParen} || ts[i].CmpTok? || ts[i].MemberTok?)
  }

  /** The reader at `i` takes exactly the text of `f`, or fails when `f` is not full. */
  ghost predicate ReadsAs(ts: seq<Token>, i: nat, f: FilterExpression, n: nat) {
    i <= |ts| && ParseUnary(ts, i) == if Full(f) then Some((Numbered(f, n), i + |Print(f, n)|)) else None
  }

  /** Full trees read back as the same tree; any other fails to parse. */
  lemma {:induction false} UnaryReads(f: FilterExpression, n: nat, ts: seq<Token>, i: nat)
    requires Occurs(ts, i, Print(f, n))
    requires Full(f) || Ends(ts, i + |Print(f, n)|)
    ensures ReadsAs(ts, i, f, n)
    decreases f
  {
    match f {
      case Pred(p) =>
        OccursFirst(ts, i, Print(f, n));
      case Not(inner) =>
        NegationOccurs(ts, i, Print(inner, n));
        UnaryReads(inner, n, ts, i + 2);
        NegationReads(inner, n, ts, i);
      case And(parts) =>
        ListTextReads(parts, KwAnd, n, ts, i);
      case Or(parts) =>
        ListTextReads(parts, KwOr, n, ts, i);
    }
  }

  lemma NegationReads(inner: FilterExpression, n: nat, ts: seq<Token>, i: nat)
    requires i + 1 < |ts| && ts[i] == KwNot && ts[i + 1] == LParen && ReadsAs(ts, i + 2, inner, n)
    requires var j := i + 2 + |Print(inner, n)|; j < |ts| && ts[j] == RParen
    ensures ReadsAs(ts, i, Not(inner), n)
  {
    var j := i + 2 + |Print(inner, n)|;
    if Full(inner) {
      OperandAlone(ts, i + 2, Numbered(inner, n), j);
      Parenthesised(ts, i + 1, Some((Numbered(inner, n), j)));
    } else {
      OperandMissing(ts, i + 2);
      Parenthesised(ts, i + 1, None);
    }
    assert |Print(Not(inner), n)| == |[KwNot, LParen] + Print(inner, n) + [RParen]|;
  }

  function Whole(parts: List<FilterExpression>, sep: Token): FilterExpression {
    if sep == KwAnd then And(parts) else Or(parts)
  }

  lemma {:induction false} ListTextReads(parts: List<FilterExpression>, sep: Token, n: nat, ts: seq<Token>, i: nat)
    requires sep in {KwAnd, KwOr}
    requires Occurs(ts, i, PrintJoined(parts, sep, n))
    requires Full(Whole(parts, sep)) || Ends(ts, i + |PrintJoined(parts, sep, n)|)
    ensures ReadsAs(ts, i, Whole(parts, sep), n)
    decreases parts, 1
  {
    match parts {
      case Nil =>
        assert Print(Whole(parts, sep), n) == [];
      case Cons(p, Nil) =>
        SingletonPrints(p, sep, n);
        UnaryReads(p, n, ts, i);
      case Cons(p, rest) =>
        ListReads(p, rest, sep, n, ts, i);
    }
  }

  lemma SingletonPrints(p: FilterExpression, sep: Token, n: nat)
    requires sep in {KwAnd, KwOr}
    ensures Print(Whole(Cons(p, Nil), sep), n) == PrintJoined(Cons(p, Nil), sep, n) == Print(p, n)
    ensures Full(Whole(Cons(p, Nil), sep)) == Full(p)
    ensures Numbered(Whole(Cons(p, Nil), sep), n) == Numbered(p, n)
  {
    assert AllFull(Cons(p, Nil)) == (Full(p) && AllFull(Nil));
  }

  lemma {:induction false} ListReads(p: FilterExpression, rest: List<FilterExpression>, sep: Token, n: nat,
                                     ts: seq<Token>, i: nat)
    requires sep in {KwAnd, KwOr} && rest.Cons?
    requires Occurs(ts, i, PrintJoined(Cons(p, rest), sep, n))
    ensures ReadsAs(ts, i, Whole(Cons(p, rest), sep), n)
    decreases Cons(p, rest), 0
  {
    hide Print, Occurs;
    var m, mid := n + LeafCount(p), i + 1 + |Print(p, n)|;
    ListOccurs(ts, i, Print(p, n), PrintRest(rest, sep, m));
    OccursFirst(ts, mid, PrintRest(rest, sep, m));
    UnaryReads(p, n, ts, i + 1);
    TailReads(rest, sep, m, ts, mid);
    ListStep(p, rest, sep, n, ts, i);
  }

  lemma ListOccurs(ts: seq<Token>, i: nat, first: seq<Token>, more: seq<Token>)
    requires Occurs(ts, i, [LParen] + (first + more) + [RParen])
    ensures i < |ts| && ts[i] == LParen
    ensures Occurs(ts, i + 1, first) && Occurs(ts, i + 1 + |first|, more)
    ensures var j := i + 1 + |first| + |more|; j < |ts| && ts[j] == RParen
  {
    OccursFirst(ts, i, [LParen] + (first + more) + [RParen]);
    OccursSplit(ts, i, [LParen] + (first + more), [RParen]);
    OccursSplit(ts, i, [LParen], first + more);
    OccursSplit(ts, i + 1, first, more);
    OccursFirst(ts, i + 1 + |first + more|, [RParen]);
  }

  /** The tail of a list up to its closing parenthesis at `j`. */
  ghost predicate TailReadsAs(ts: seq<Token>, sep: Token, i: nat, parts: List<FilterExpression>, n: nat, j: nat) {
    i <= |ts| && ParseTail(sep, ts, i) == if AllFull(parts) then Some((NumberedAll(parts, n), j)) else None
  }

  lemma ListStep(p: FilterExpression, rest: List<FilterExpression>, sep: Token, n: nat, ts: seq<Token>, i: nat)
    requires sep in {KwAnd, KwOr} && rest.Cons? && i < |ts| && ts[i] == LParen
    requires ReadsAs(ts, i + 1, p, n)
    requires var mid := i + 1 + |Print(p, n)|;
             var j := mid + |PrintRest(rest, sep, n + LeafCount(p))|;
             && mid < |ts| && ts[mid] == sep && j < |ts| && ts[j] == RParen
             && TailReadsAs(ts, sep, mid, rest, n + LeafCount(p), j)
    ensures ReadsAs(ts, i, Whole(Cons(p, rest), sep), n)
  {
    hide Print, PrintJoined, PrintRest, Full, AllFull, Numbered, NumberedAll, LeafCount, ParseUnary, ParseAnd, ParseOr,
    ParseTail, Whole;
    ListLength(p, rest, sep, n);
    WholeNumbered(p, rest, sep, n);
    var mid, m := i + 1 + |Print(p, n)|, n + LeafCount(p);
    var j, f := mid + |PrintRest(rest, sep, m)|, Whole(Cons(p, rest), sep);
    if Full(p) {
      ListInside(ts, i + 1, sep, Numbered(p, n), mid, ParseTail(sep, ts, mid));
    } else {
      OperandMissing(ts, i + 1);
    }
    Parenthesised(ts, i, ParseOr(ts, i + 1));
    assert ParseUnary(ts, i) == if Full(f) then Some((Numbered(f, n), j + 1)) else None;
  }

  lemma WholeNumbered(p: FilterExpression, rest: List<FilterExpression>, sep: Token, n: nat)
    requires sep in {KwAnd, KwOr} && rest.Cons?
    ensures Full(Whole(Cons(p, rest), sep)) == (Full(p) && AllFull(rest))
    ensures NumberedAll(rest, n + LeafCount(p)).Cons?
    ensures var es := Cons(Numbered(p, n), NumberedAll(rest, n + LeafCount(p)));
            Numbered(Whole(Cons(p, rest), sep), n) == if sep == KwAnd then AndE(es) else OrE(es)
  {
  }

  lemma ListLength(p: FilterExpression, rest: List<FilterExpression>, sep: Token, n: nat)
    requires sep in {KwAnd, KwOr} && rest.Cons?
    ensures |Print(Whole(Cons(p, rest), sep), n)| == |Print(p, n)| + |PrintRest(rest, sep, n + LeafCount(p))| + 2
  {
    assert Print(Whole(Cons(p, rest), sep), n) == PrintJoined(Cons(p, rest), sep, n)
        == [LParen] + (Print(p, n) + PrintRest(rest, sep, n + LeafCount(p))) + [RParen];
  }

  lemma {:induction false} TailReads(parts: List<FilterExpression>, sep: Token, n: nat, ts: seq<Token>, i: nat)
    requires sep in {KwAnd, KwOr} && Occurs(ts, i, PrintRest(parts, sep, n))
    requires var j := i + |PrintRest(parts, sep, n)|; j < |ts| && ts[j] == RParen
    ensures TailReadsAs(ts, sep, i, parts, n, i + |PrintRest(parts, sep, n)|)
    decreases parts, 0
  {
    hide Print, Occurs;
    match parts {
      case Nil =>
      case Cons(p, rest) =>
        TailPieces(p, rest, sep, n, ts, i);
        UnaryReads(p, n, ts, i + 1);
        TailReads(rest, sep, n + LeafCount(p), ts, i + 1 + |Print(p, n)|);
        TailStep(p, rest, sep, n, ts, i, i + |PrintRest(parts, sep, n)|);
    }
  }

  lemma TailPieces(p: FilterExpression, rest: List<FilterExpression>, sep: Token, n: nat, ts: seq<Token>, i: nat)
    requires sep in {KwAnd, KwOr} && Occurs(ts, i, PrintRest(Cons(p, rest), sep, n))
    requires var j := i + |PrintRest(Cons(p, rest), sep, n)|; j < |ts| && ts[j] == RParen
    ensures i < |ts| && ts[i] == sep && Occurs(ts, i + 1, Print(p, n))
    ensures var next := i + 1 + |Print(p, n)|;
            && Occurs(ts, next, PrintRest(rest, sep, n + LeafCount(p)))
            && next < |ts| && (ts[next] == sep || ts[next] == RParen)
            && next + |PrintRest(rest, sep, n + LeafCount(p))| == i + |PrintRest(Cons(p, rest), sep, n)|
  {
    hide Print, PrintRest, Occurs;
    var a, b := Print(p, n), PrintRest(rest, sep, n + LeafCount(p));
    RestPrints(Cons(p, rest), sep, n);
    RestPrints(rest, sep, n + LeafCount(p));
    OperandOccurs(ts, i, sep, a, b);
    if rest.Cons? {
      OccursFirst(ts, i + 1 + |a|, b);
    }
  }

  lemma RestPrints(parts: List<FilterExpression>, sep: Token, n: nat)
    ensures parts.Nil? ==> PrintRest(parts, sep, n) == []
    ensures parts.Cons? ==> (
              PrintRest(parts, sep, n)
              == [sep] + (Print(parts.head, n) + PrintRest(parts.tail, sep, n + LeafCount(parts.head))))
    ensures parts.Cons? ==> PrintRest(parts, sep, n) != [] && PrintRest(parts, sep, n)[0] == sep
  {
    hide Print;
  }

  lemma OperandOccurs(ts: seq<Token>, i: nat, sep: Token, operand: seq<Token>, more: seq<Token>)
    requires Occurs(ts, i, [sep] + (operand + more))
    ensures i < |ts| && ts[i] == sep
    ensures Occurs(ts, i + 1, operand) && Occurs(ts, i + 1 + |operand|, more)
  {
    OccursFirst(ts, i, [sep] + (operand + more));
    OccursSplit(ts, i, [sep], operand + more);
    OccursSplit(ts, i + 1, operand, more);
  }

  lemma TailStep(p: FilterExpression, rest: List<FilterExpression>, sep: Token, n: nat, ts: seq<Token>, i: nat, j: nat)
    requires sep in {KwAnd, KwOr} && i < |ts| && ts[i] == sep && ReadsAs(ts, i + 1, p, n)
    requires var next := i + 1 + |Print(p, n)|;
             && next < |ts| && (ts[next] == sep || ts[next] == RParen)
             && TailReadsAs(ts, sep, next, rest, n + LeafCount(p), j)
    ensures TailReadsAs(ts, sep, i, Cons(p, rest), n, j)
  {
    if Full(p) && sep == KwOr {
      OperandAlone(ts, i + 1, Numbered(p, n), i + 1 + |Print(p, n)|);
    }
  }

  /** The printed WHERE is a legal condition exactly when no And/Or is empty, and then it reads as the same tree. */
  lemma WhereReadsBack(f: FilterExpression, n: nat)
    ensures ParseCondition(Print(f, n)).Some? <==> Full(f)
    ensures Full(f) ==> ParseCondition(Print(f, n)) == Some(Numbered(f, n))
  {
    var ts := Print(f, n);
    assert Occurs(ts, 0, ts);
    UnaryReads(f, n, ts, 0);
    if Full(f) {
      OperandAlone(ts, 0, Numbered(f, n), |ts|);
    }
  }

  // ---- reading the filter back ----

  function PlainOp(op: CypherOp): ComparisonOp {
    match op
    case OpEq => Eq
    case OpNeq => Neq
    case OpGt => Gt
    case OpGte => Gte
    case OpLt => Lt
    case OpLte => Lte
    case OpIn => In_
    case OpContains => Contains
    case OpStartsWith => StartsWith
    case OpEndsWith => EndsWith
  }

  function IgnoringCase(op: CypherOp): Option<ComparisonOp> {
    match op
    case OpEq => Some(EqCi)
    case OpNeq => Some(NeqCi)
    case OpIn => Some(InCi)
    case OpContains => Some(ContainsCi)
    case OpStartsWith => Some(StartsWithCi)
    case OpEndsWith => Some(EndsWithCi)
    case _ => None
  }

  /** The predicate a comparison stands for: on a shadow property it is about the shadowed one and ignores case. */
  function ReadLeaf(lhs: PropertyRef, op: CypherOp, value: Literal): Predicate {
    if lhs.property.Some? && SHADOW_PREFIX <= lhs.property.value && IgnoringCase(op).Some? then
      Predicate(PropertyRef(lhs.alias, Some(lhs.property.value[|SHADOW_PREFIX|..])), IgnoringCase(op).value, value)
    else
      Predicate(lhs, PlainOp(op), value)
  }

  /** The filter an expression stands for, its placeholders replaced by what they are bound to. */
  function Decode(e: Expr, params: map<string, Literal>): Option<FilterExpression> {
    match e
    case Cmp(lhs, op, param) => if param in params then Some(Pred(ReadLeaf(lhs, op, params[param]))) else None
    case Member(_, _) => None
    case AndE(es) => (match DecodeAll(es, params) case Some(parts) => Some(And(parts)) case None => None)
    case OrE(es) => (match DecodeAll(es, params) case Some(parts) => Some(Or(parts)) case None => None)
    case NotE(arg) => (match Decode(arg, params) case Some(inner) => Some(Not(inner)) case None => None)
  }

  function DecodeAll(es: List<Expr>, params: map<string, Literal>): Option<List<FilterExpression>> {
    match es
    case Nil => Some(Nil)
    case Cons(e, rest) =>
      match (Decode(e, params), DecodeAll(rest, params))
      case (Some(f), Some(fs)) => Some(Cons(f, fs))
      case _ => None
  }

  /** The filter itself, one-operand nodes collapsed and the literals of case-insensitive leaves normalised. */
  function Tidied(f: FilterExpression): FilterExpression {
    match f
    case Pred(p) => Pred(Predicate(p.field, p.op, Wanted(p.op, p.value)))
    case And(Cons(p, Nil)) => Tidied(p)
    case And(parts) => And(TidiedAll(parts))
    case Or(Cons(p, Nil)) => Tidied(p)
    case Or(parts) => Or(TidiedAll(parts))
    case Not(inner) => Not(Tidied(inner))
  }

  function TidiedAll(parts: List<FilterExpression>): List<FilterExpression> {
    match parts
    case Nil => Nil
    case Cons(p, rest) => Cons(Tidied(p), TidiedAll(rest))
  }

  /** Its own property is no shadow, and it ignores the case of a property, not of a whole entity. */
  predicate Ordinary(p: Predicate) {
    match p.op
    case EqCi | NeqCi | InCi | ContainsCi | StartsWithCi | EndsWithCi => p.field.property.Some?
    case Eq | Neq | In_ | Contains | StartsWith | EndsWith =>
      p.field.property.Some? ==> !(SHADOW_PREFIX <= p.field.property.value)
    case _ => true
  }

  predicate OrdinaryLeaves(f: FilterExpression) {
    match f
    case Pred(p) => Ordinary(p)
    case And(parts) => AllOrdinary(parts)
    case Or(parts) => AllOrdinary(parts)
    case Not(inner) => OrdinaryLeaves(inner)
  }

  predicate AllOrdinary(parts: List<FilterExpression>) {
    match parts
    case Nil => true
    case Cons(p, rest) => OrdinaryLeaves(p) && AllOrdinary(rest)
  }

  /** The values bound for a filter, left to right. */
  function Leaves(f: FilterExpression): seq<Literal> {
    match f
    case Pred(p) => [BoundValue(p)]
    case And(parts) => LeavesOfAll(parts)
    case Or(parts) => LeavesOfAll(parts)
    case Not(inner) => Leaves(inner)
  }

  function LeavesOfAll(parts: List<FilterExpression>): seq<Literal> {
    match parts
    case Nil => []
    case Cons(p, rest) => Leaves(p) + LeavesOfAll(rest)
  }

  function At(params: map<string, Literal>, k: nat): Option<Literal> {
    if ParamName(k) in params then Some(params[ParamName(k)]) else None
  }

  /** `params` holds `values` under p`n`, p`n+1`, ... */
  ghost predicate Carries(params: map<string, Literal>, n: nat, values: seq<Literal>) {
    forall k: nat :: n <= k < n + |values| ==> At(params, k) == Some(values[k - n])
  }

  /** Outside p`n` .. p`n+count-1` the two tables agree. */
  ghost predicate Adds(params: map<string, Literal>, table: map<string, Literal>, n: nat, count: nat) {
    forall k: nat :: !(n <= k < n + count) ==> At(params, k) == At(table, k)
  }

  /** Writing a filter binds its leaves left to right to consecutive placeholders and touches no other. */
  lemma {:induction false} LeavesAreBound(f: FilterExpression, n: nat, table: map<string, Literal>)
    ensures |Leaves(f)| == LeafCount(f)
    ensures Carries(Params(f, n, table), n, Leaves(f))
    ensures Adds(Params(f, n, table), table, n, LeafCount(f))
    decreases f
  {
    match f {
      case Pred(p) => OneIsBound(table, n, BoundValue(p));
      case Not(inner) => LeavesAreBound(inner, n, table);
      case And(parts) => AllLeavesAreBound(parts, n, table);
      case Or(parts) => AllLeavesAreBound(parts, n, table);
    }
  }

  lemma OneIsBound(table: map<string, Literal>, n: nat, value: Literal)
    ensures Carries(table[ParamName(n) := value], n, [value])
    ensures Adds(table[ParamName(n) := value], table, n, 1)
  {
    forall k: nat | k != n ensures At(table[ParamName(n) := value], k) == At(table, k) {
      if ParamName(k) == ParamName(n) {
        ParamNameInjective(k, n);
      }
    }
  }

  lemma {:induction false} AllLeavesAreBound(parts: List<FilterExpression>, n: nat, table: map<string, Literal>)
    ensures |LeavesOfAll(parts)| == CountAll(parts)
    ensures Carries(ParamsAll(parts, n, table), n, LeavesOfAll(parts))
    ensures Adds(ParamsAll(parts, n, table), table, n, CountAll(parts))
    decreases parts
  {
    match parts {
      case Nil =>
      case Cons(p, rest) =>
        var mid, m := Params(p, n, table), n + LeafCount(p);
        LeavesAreBound(p, n, table);
        AllLeavesAreBound(rest, m, mid);
    }
  }

  lemma LeafReadsBack(p: Predicate)
    ensures ReadLeaf(LeftSide(p), Operator(p.op), BoundValue(p)) == Predicate(p.field, p.op, Wanted(p.op, p.value)) <==>
            Ordinary(p)
  {
    hide NormalizeLiteral;
    if p.field.property.Some? {
      var name := p.field.property.value;
      assert ShadowName(name)[|SHADOW_PREFIX|..] == name;
      assert p.field == PropertyRef(p.field.alias, Some(name));
    }
  }

  lemma {:induction false} DecodeNumbered(f: FilterExpression, n: nat, params: map<string, Literal>)
    requires Carries(params, n, Leaves(f))
    ensures Decode(Numbered(f, n), params).Some?
    ensures Decode(Numbered(f, n), params) == Some(Tidied(f)) <==> OrdinaryLeaves(f)
    decreases f
  {
    hide Ordinary, ReadLeaf, LeftSide, Operator, BoundValue, Wanted, Carries;
    match f {
      case Pred(p) =>
        assert At(params, n) == Some(Leaves(f)[0]) by {
          FirstLeaf(params, n, Leaves(f));
        }
        LeafReadsBack(p);
      case Not(inner) =>
        DecodeNumbered(inner, n, params);
      case And(parts) =>
        DecodeAllNumbered(parts, n, params);
      case Or(parts) =>
        DecodeAllNumbered(parts, n, params);
    }
  }

  lemma FirstLeaf(params: map<string, Literal>, n: nat, values: seq<Literal>)
    requires Carries(params, n, values) && values != []
    ensures At(params, n) == Some(values[0])
  {
  }

  lemma {:induction false} DecodeAllNumbered(parts: List<FilterExpression>, n: nat, params: map<string, Literal>)
    requires Carries(params, n, LeavesOfAll(parts))
    ensures DecodeAll(NumberedAll(parts, n), params).Some?
    ensures DecodeAll(NumberedAll(parts, n), params) == Some(TidiedAll(parts)) <==> AllOrdinary(parts)
    ensures parts.Cons? && parts.tail.Nil? ==>
              Decode(Numbered(parts.head, n), params).Some?
              && (Decode(Numbered(parts.head, n), params) == Some(Tidied(parts.head)) <==> OrdinaryLeaves(parts.head))
    decreases parts
  {
    match parts {
      case Nil =>
      case Cons(p, rest) =>
        LeavesAreBound(p, n, params);
        DecodeNumbered(p, n, params);
        DecodeAllNumbered(rest, n + LeafCount(p), params);
    }
  }

  /**
   Printing, parsing and reading back with the table the writer filled, whatever was bound before: the filter returns,
   every comparison as it was, exactly if its leaves are ordinary.
   */
  lemma WhereRoundTrip(f: FilterExpression, n: nat, table: map<string, Literal>)
    requires Full(f)
    ensures ParseCondition(Print(f, n)).Some?
    ensures Decode(ParseCondition(Print(f, n)).value, Params(f, n, table)) == Some(Tidied(f)) <==> OrdinaryLeaves(f)
  {
    WhereReadsBack(f, n);
    LeavesAreBound(f, n, table);
    DecodeNumbered(f, n, Params(f, n, table));
  }

  // ---- the text carries no literal ----

  predicate SameShape(f: FilterExpression, g: FilterExpression) {
    match f
    case Pred(p) => g.Pred? && g.p.field == p.field && g.p.op == p.op
    case And(parts) => g.And? && SameShapes(parts, g.parts)
    case Or(parts) => g.Or? && SameShapes(parts, g.parts)
    case Not(inner) => g.Not? && SameShape(inner, g.inner)
  }

  predicate SameShapes(fs: List<FilterExpression>, gs: List<FilterExpression>) {
    match fs
    case Nil => gs.Nil?
    case Cons(f, rest) => gs.Cons? && SameShape(f, gs.head) && SameShapes(rest, gs.tail)
  }

  /** Two filters that differ only in their literals print the same text and bind as many parameters. */
  lemma {:induction false} TextIgnoresLiterals(f: FilterExpression, g: FilterExpression, n: nat)
    requires SameShape(f, g)
    ensures Print(f, n) == Print(g, n) && LeafCount(f) == LeafCount(g)
    decreases f
  {
    match f {
      case Pred(p) =>
      case Not(inner) => TextIgnoresLiterals(inner, g.inner, n);
      case And(parts) => TextsIgnoreLiterals(parts, g.parts, KwAnd, n);
      case Or(parts) => TextsIgnoreLiterals(parts, g.parts, KwOr, n);
    }
  }

  lemma {:induction false} TextsIgnoreLiterals(fs: List<FilterExpression>, gs: List<FilterExpression>, sep: Token,
                                               n: nat)
    requires SameShapes(fs, gs)
    ensures PrintJoined(fs, sep, n) == PrintJoined(gs, sep, n) && PrintRest(fs, sep, n) == PrintRest(gs, sep, n)
    ensures CountAll(fs) == CountAll(gs)
    decreases fs
  {
    match fs {
      case Nil =>
      case Cons(f, rest) =>
        TextIgnoresLiterals(f, gs.head, n);
        TextsIgnoreLiterals(rest, gs.tail, sep, n + LeafCount(f));
    }
  }
}
