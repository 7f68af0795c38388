/**
 What each comparison of a filter (src/ast/query.rs) asks of the value it finds, stated on values and without
 reference to the text written for it; and that the operator, property and parameter written ask exactly that.
 */
module Comparisons {
  import opened Common
  import opened Ast
  import opened Normalize
  import opened WherePart
  import opened Semantics

  // ---- values ----

  /** Numbers are the same if they have the same value, however they are stored. */
  predicate Same(a: Literal, b: Literal) {
    if Numeric(a) && Numeric(b) then Number(a) == Number(b) else a == b
  }

  predicate Comparable(a: Literal, b: Literal) {
    (Numeric(a) && Numeric(b)) || (a.Str? && b.Str?)
  }

  /** `a` is a proper beginning of `b`, or has the smaller character where they first differ. */
  predicate Earlier(a: string, b: string) {
    exists k :: 0 <= k < |b| && k <= |a| && a[..k] == b[..k] && (k == |a| || a[k] < b[k])
  }

  predicate Before(a: Literal, b: Literal)
    requires Comparable(a, b)
  {
    if a.Str? then Earlier(a.text, b.text) else Number(a) < Number(b)
  }

  /** `b` stands in `a` from position `k` on. */
  predicate StandsAt(a: string, b: string, k: nat) {
    k + |b| <= |a| && a[k..k + |b|] == b
  }

  predicate Among(a: Literal, items: seq<Literal>) {
    exists i :: 0 <= i < |items| && items[i] != Null && Same(a, items[i])
  }

  // ---- comparisons ----

  function Decided(known: bool, holds: bool): Tri {
    if !known then Unknown else if holds then True else False
  }

  /** A whole node or relationship is the same as no literal. */
  function OfEntity(op: ComparisonOp, wanted: Literal): Tri {
    match op
    case Eq | EqCi => Decided(wanted != Null, false)
    case Neq | NeqCi => Decided(wanted != Null, true)
    case In_ | InCi => Decided(wanted.ListOf? && Null !in wanted.items, false)
    case _ => Unknown
  }

  predicate OfTexts(op: ComparisonOp, a: string, b: string) {
    match op
    case Contains | ContainsCi => exists k :: 0 <= k <= |a| && StandsAt(a, b, k)
    case StartsWith | StartsWithCi => StandsAt(a, b, 0)
    case EndsWith | EndsWithCi => |b| <= |a| && StandsAt(a, b, |a| - |b|)
    case _ => false
  }

  /** Membership is unknown if a null is involved and nothing else decides. */
  function OfMembers(a: Literal, items: seq<Literal>): Tri {
    if a != Null && Among(a, items) then True else Decided(items == [] || (a != Null && Null !in items), false)
  }

  function OfValue(op: ComparisonOp, a: Literal, b: Literal): Tri {
    match op
    case Eq | EqCi => Decided(a != Null && b != Null, Same(a, b))
    case Neq | NeqCi => Decided(a != Null && b != Null, !Same(a, b))
    case Lt => Decided(Comparable(a, b), Comparable(a, b) && Before(a, b))
    case Gt => Decided(Comparable(a, b), Comparable(a, b) && Before(b, a))
    case Lte => Decided(Comparable(a, b), Comparable(a, b) && !Before(b, a))
    case Gte => Decided(Comparable(a, b), Comparable(a, b) && !Before(a, b))
    case In_ | InCi => if b.ListOf? then OfMembers(a, b.items) else Unknown
    case _ => Decided(a.Str? && b.Str?, a.Str? && b.Str? && OfTexts(op, a.text, b.text))
  }

  function Says(op: ComparisonOp, found: Operand, wanted: Literal): Tri {
    match found
    case Entity => OfEntity(op, wanted)
    case Stored(a) => OfValue(op, a, wanted)
  }

  // ---- predicates ----

  /** A comparison that ignores case compares with the normal form of its literal. */
  function Wanted(op: ComparisonOp, value: Literal): Literal {
    match op
    case EqCi | NeqCi | InCi | ContainsCi | StartsWithCi | EndsWithCi => NormalizeLiteral(value)
    case _ => value
  }

  /** It finds the normal form stored beside the property. */
  function Found(g: Graph, row: Row, op: ComparisonOp, field: PropertyRef): Operand {
    match op
    case EqCi | NeqCi | InCi | ContainsCi | StartsWithCi | EndsWithCi =>
      (match field.property
       case Some(name) => Lookup(g, row, PropertyRef(field.alias, Some(SHADOW_PREFIX + name)))
       case None => Lookup(g, row, field))
    case _ => Lookup(g, row, field)
  }

  function Asks(g: Graph, row: Row, p: Predicate): Tri {
    Says(p.op, Found(g, row, p.op, p.field), Wanted(p.op, p.value))
  }

  // ---- the written comparison asks the same ----

  lemma SameFirst(a: string, b: string, k: nat)
    requires 0 < k <= |a| && k <= |b| && a[..k] == b[..k]
    ensures a[0] == b[0]
  {
    assert a[..k][0] == b[..k][0];
  }

  lemma {:induction false} TextLessIsEarlier(a: string, b: string)
    ensures TextLess(a, b) <==> Earlier(a, b)
  {
    if a != "" && b != "" && a[0] == b[0] {
      TextLessIsEarlier(a[1..], b[1..]);
      if Earlier(a[1..], b[1..]) {
        var k :| 0 <= k < |b[1..]| && k <= |a[1..]| && a[1..][..k] == b[1..][..k]
                 && (k == |a[1..]| || a[1..][k] < b[1..][k]);
        assert a[..k + 1] == [a[0]] + a[1..][..k] == b[..k + 1];
      }
      if Earlier(a, b) {
        var k :| 0 <= k < |b| && k <= |a| && a[..k] == b[..k] && (k == |a| || a[k] < b[k]);
        assert k > 0;
        assert a[1..][..k - 1] == a[..k][1..] == b[..k][1..] == b[1..][..k - 1];
      }
    } else if b != "" {
      assert a[..0] == b[..0];
      if a != "" && Earlier(a, b) {
        var k :| 0 <= k < |b| && k <= |a| && a[..k] == b[..k] && (k == |a| || a[k] < b[k]);
        if k > 0 {
          SameFirst(a, b, k);
        }
      }
    }
  }

  lemma {:induction false} TextOrder(a: string, b: string)
    ensures TextLess(a, b) || a == b <==> !TextLess(b, a)
    ensures TextLess(a, b) ==> a != b
  {
    if a != "" && b != "" && a[0] == b[0] {
      TextOrder(a[1..], b[1..]);
      assert a == [a[0]] + a[1..] && b == [b[0]] + b[1..];
    }
  }

  lemma {:induction false} InfixIsSomewhere(a: string, b: string)
    ensures Infix(a, b) <==> exists k :: 0 <= k <= |a| && StandsAt(a, b, k)
  {
    if b <= a {
      assert StandsAt(a, b, 0);
    } else if a == "" {
    } else {
      InfixIsSomewhere(a[1..], b);
      if k :| 0 <= k <= |a[1..]| && StandsAt(a[1..], b, k) {
        assert StandsAt(a, b, k + 1);
      }
      if k :| 0 <= k <= |a| && StandsAt(a, b, k) {
        assert k > 0;
        assert StandsAt(a[1..], b, k - 1);
      }
    }
  }

  lemma {:induction false} MembersAre(a: Literal, items: seq<Literal>)
    ensures MemberOf(a, items) == OfMembers(a, items)
  {
    if items != [] {
      var rest := items[1..];
      MembersAre(a, rest);
      assert Among(a, items) <==> (items[0] != Null && Same(a, items[0])) || Among(a, rest) by {
        if i :| 0 <= i < |items| && items[i] != Null && Same(a, items[i]) {
          assert i > 0 ==> rest[i - 1] == items[i];
        }
      }
      assert Null in items <==> items[0] == Null || Null in rest;
    }
  }

  lemma OrderIs(op: ComparisonOp, a: Literal, b: Literal)
    requires op in {Lt, Gt, Lte, Gte}
    ensures Compare(Operator(op), Stored(a), b) == OfValue(op, a, b)
  {
    hide Earlier, TextLess;
    if a.Str? && b.Str? {
      TextLessIsEarlier(a.text, b.text);
      TextLessIsEarlier(b.text, a.text);
      TextOrder(a.text, b.text);
      TextOrder(b.text, a.text);
    }
  }

  lemma TextsAre(op: ComparisonOp, a: Literal, b: Literal)
    requires op !in {Lt, Gt, Lte, Gte, Eq, Neq, In_, EqCi, NeqCi, InCi}
    ensures Compare(Operator(op), Stored(a), b) == OfValue(op, a, b)
  {
    if a.Str? && b.Str? {
      InfixIsSomewhere(a.text, b.text);
      hide Infix;
      assert b.text <= a.text <==> StandsAt(a.text, b.text, 0);
    }
  }

  /** The operator written for a comparison decides what the comparison says, for all sixteen of them. */
  lemma OperatorSays(op: ComparisonOp, found: Operand, wanted: Literal)
    ensures Compare(Operator(op), found, wanted) == Says(op, found, wanted)
  {
    match found
    case Entity =>
    case Stored(a) =>
      match op
      case Eq | EqCi | Neq | NeqCi =>
      case In_ | InCi => if wanted.ListOf? { MembersAre(a, wanted.items); }
      case Lt | Gt | Lte | Gte => OrderIs(op, a, wanted);
      case _ => TextsAre(op, a, wanted);
  }

  /** The written predicate, with its parameter, asks what the filter's predicate asks. */
  lemma WrittenAsks(g: Graph, row: Row, p: Predicate)
    ensures Compare(Operator(p.op), Lookup(g, row, LeftSide(p)), BoundValue(p)) == Asks(g, row, p)
  {
    hide Says, Compare, Operator, Lookup;
    OperatorSays(p.op, Lookup(g, row, LeftSide(p)), BoundValue(p));
  }

  /** Nothing is found to be anything; only membership in an empty list is decided. */
  lemma NothingAsked(g: Graph, row: Row, p: Predicate)
    requires Found(g, row, p.op, p.field).Stored?
    ensures p.op in {In_, InCi} && p.value == ListOf([]) ==> Asks(g, row, p) == False
    ensures Found(g, row, p.op, p.field) == Stored(Null) ==>
              Asks(g, row, p) == if p.op in {In_, InCi} && p.value == ListOf([]) then False else Unknown
  {
  }
}
