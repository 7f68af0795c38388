/**
 The first phase of `build_read_with` (src/builder/cypher.rs): MATCH, WHERE and OPTIONAL MATCH, where the
 filter is written, and whether the emitted clauses answer the query.
 */
module ReadCompiler {
  import opened Common
  import opened Ast
  import opened Cypher
  import opened Cursors
  import opened WherePart
  import opened WhereReading
  import opened MatchPart
  import opened Semantics
  import opened Matching
  import opened Reference
  import opened RequiredPart
  import opened OptionalPart

  // ---- the builder ----

  function OptionalTargets(q: ReadQuery): set<string> {
    set i | 0 <= i < |q.traversals| && q.traversals[i].optional :: q.traversals[i].target.alias
  }

  /** `filter_needs_optional_scope`: only optional target aliases count. */
  predicate NeedsOptionalScope(f: FilterExpression, q: ReadQuery) {
    OptionalTargets(q) != {} && ReferencedAliases(f) * OptionalTargets(q) != {}
  }

  method FilterNeedsOptionalScope(f: FilterExpression, q: ReadQuery) returns (needs: bool)
    ensures needs <==> NeedsOptionalScope(f, q)
  {
    var optionalAliases: set<string> := {};
    for i := 0 to |q.traversals|
      invariant optionalAliases == set k | 0 <= k < i && q.traversals[k].optional :: q.traversals[k].target.alias
    {
      if q.traversals[i].optional {
        optionalAliases := optionalAliases + {q.traversals[i].target.alias};
      }
    }
    assert optionalAliases == OptionalTargets(q);
    if optionalAliases == {} {
      return false;
    }
    var referenced := CollectReferencedAliases(f, {});
    needs := exists a :: a in referenced && a in optionalAliases;
  }

  predicate Deferred(q: ReadQuery) {
    q.filter.Some? && NeedsOptionalScope(q.filter.value, q)
  }

  function WhereText(q: ReadQuery): seq<Token> {
    match q.filter
    case None => []
    case Some(f) => if Print(f, 0) == [] then [] else [KwWhere] + Print(f, 0)
  }

  function BindingText(q: ReadQuery): seq<Token> {
    var n := |q.traversals|;
    if Deferred(q) then RequiredText(q, n) + OptionalText(q, n) + WhereText(q)
    else RequiredText(q, n) + WhereText(q) + OptionalText(q, n)
  }

  function BindingParams(q: ReadQuery): map<string, Literal> {
    match q.filter
    case None => map[]
    case Some(f) => Params(f, 0, map[])
  }

  datatype BuildError = EmptyReturn

  /** The clauses that bind the query's aliases, or the error for a query that projects nothing. */
  method BuildBindings(q: ReadQuery, contributed: seq<(string, SortOrder)>) returns (r: Result<Cursor, BuildError>)
    ensures q.projection == [] ==> r == Err(EmptyReturn)
    ensures q.projection != [] ==>
              r.Ok? && fresh(r.value) && r.value.buf == BindingText(q) && r.value.params == BindingParams(q)
              && r.value.extraOrderBy == contributed
  {
    hide Print, Params, RequiredText, OptionalText, NeedsOptionalScope;
    if q.projection == [] {
      return Err(EmptyReturn);
    }
    var cur := new Cursor(contributed);
    WriteMatch(cur, q);
    var deferWhere := false;
    if q.filter.Some? {
      deferWhere := FilterNeedsOptionalScope(q.filter.value, q);
    }
    if deferWhere {
      WriteOptionalMatches(cur, q);
      WriteWhere(cur, q.filter.value);
    } else {
      if q.filter.Some? {
        WriteWhere(cur, q.filter.value);
      }
      WriteOptionalMatches(cur, q);
    }
    r := Ok(cur);
  }

  // ---- the clauses the text reads back as ----

  function PlainItems(optional: bool, paths: seq<Path>): seq<Item> {
    seq(|paths|, i requires 0 <= i < |paths| => Item(optional, paths[i], None, 0))
  }

  function OptionalPaths(q: ReadQuery, k: nat): seq<Path>
    requires k <= |q.traversals|
  {
    if k == 0 then []
    else if q.traversals[k - 1].optional then OptionalPaths(q, k - 1) + [OptionalPath(q.traversals[k - 1])]
    else OptionalPaths(q, k - 1)
  }

  /** The same items with the filter written behind the last one. */
  function WithFilter(items: seq<Item>, filter: Option<FilterExpression>): seq<Item>
    requires items != []
  {
    items[..|items| - 1] + [items[|items| - 1].(filter := filter, n := 0)]
  }

  function Items(q: ReadQuery): seq<Item> {
    var n := |q.traversals|;
    var required, optional := PlainItems(false, RequiredPaths(q, n)), PlainItems(true, OptionalPaths(q, n));
    if Deferred(q) && optional != [] then required + WithFilter(optional, q.filter)
    else WithFilter(required, q.filter) + optional
  }

  lemma {:induction false} ItemsTextAppend(a: seq<Item>, b: seq<Item>)
    ensures ItemsText(a + b) == ItemsText(a) + ItemsText(b)
  {
    hide ItemText;
    if a == [] {
      assert a + b == b;
    } else {
      assert (a + b)[1..] == a[1..] + b;
      ItemsTextAppend(a[1..], b);
    }
  }

  lemma ItemsTextOne(item: Item)
    ensures ItemsText([item]) == ItemText(item)
  {
    hide ItemText;
    assert ItemsText([item][1..]) == [];
  }

  lemma {:induction false} StepsTextSnoc(steps: seq<Step>, s: Step)
    ensures StepsText(steps + [s]) == StepsText(steps) + StepText(s)
  {
    if steps == [] {
      assert steps + [s] == [s] && [s][1..] == [];
    } else {
      assert (steps + [s])[1..] == steps[1..] + [s];
      StepsTextSnoc(steps[1..], s);
    }
  }

  lemma LongerText(p: Path, s: Step)
    ensures ItemText(Item(false, Longer(p, s), None, 0)) == ItemText(Item(false, p, None, 0)) + StepText(s)
  {
    StepsTextSnoc(p.steps, s);
    hide StepsText, StepText;
    assert PathText(Longer(p, s)) == PathText(p) + StepText(s);
  }

  lemma PlainItemsSnoc(optional: bool, paths: seq<Path>, p: Path)
    ensures PlainItems(optional, paths + [p]) == PlainItems(optional, paths) + [Item(optional, p, None, 0)]
  {
  }

  lemma SingleStepText(t: EdgeTraversal, optional: bool)
    ensures ItemText(Item(optional, OptionalPath(t), None, 0))
         == [if optional then KwOptionalMatch else KwMatch] + ([NodeTok(t.fromAlias, [])] + Tail(t))
  {
    assert [StepOf(t)][1..] == [];
    assert StepsText([StepOf(t)]) == StepText(StepOf(t)) + StepsText([]) == Tail(t);
  }

  lemma {:induction false} RequiredItemsText(q: ReadQuery, k: nat)
    requires k <= |q.traversals|
    ensures ItemsText(PlainItems(false, RequiredPaths(q, k))) == RequiredText(q, k)
  {
    hide ItemText, Tail, StepOf, ItemsText, PlainItems;
    if k == 0 {
      StartText(q);
    } else {
      RequiredItemsText(q, k - 1);
      var t, paths := q.traversals[k - 1], RequiredPaths(q, k - 1);
      if !t.optional {
        if t.fromAlias == Endpoint(q, k - 1) {
          var init, last := paths[..|paths| - 1], paths[|paths| - 1];
          assert paths == init + [last];
          PlainItemsSnoc(false, init, last);
          PlainItemsSnoc(false, init, Longer(last, StepOf(t)));
          ItemsTextAppend(PlainItems(false, init), [Item(false, last, None, 0)]);
          ItemsTextAppend(PlainItems(false, init), [Item(false, Longer(last, StepOf(t)), None, 0)]);
          ItemsTextOne(Item(false, last, None, 0));
          ItemsTextOne(Item(false, Longer(last, StepOf(t)), None, 0));
          LongerText(last, StepOf(t));
          StepIsTail(t);
        } else {
          PlainItemsSnoc(false, paths, OptionalPath(t));
          ItemsTextAppend(PlainItems(false, paths), [Item(false, OptionalPath(t), None, 0)]);
          ItemsTextOne(Item(false, OptionalPath(t), None, 0));
          SingleStepText(t, false);
          assert [KwMatch, NodeTok(t.fromAlias, [])] + Tail(t) == [KwMatch] + ([NodeTok(t.fromAlias, [])] + Tail(t));
        }
      }
    }
  }

  lemma StepIsTail(t: EdgeTraversal)
    ensures StepText(StepOf(t)) == Tail(t)
  {
  }

  lemma StartText(q: ReadQuery)
    ensures ItemsText(PlainItems(false, RequiredPaths(q, 0))) == RequiredText(q, 0)
  {
    var item := Item(false, Path(NodePattern(q.start.alias, Labels(q.start)), []), None, 0);
    assert PlainItems(false, RequiredPaths(q, 0)) == [item];
    ItemsTextOne(item);
  }

  lemma {:induction false} OptionalItemsText(q: ReadQuery, k: nat)
    requires k <= |q.traversals|
    ensures ItemsText(PlainItems(true, OptionalPaths(q, k))) == OptionalText(q, k)
  {
    hide ItemText, Tail, StepOf;
    if k > 0 {
      OptionalItemsText(q, k - 1);
      var t, paths := q.traversals[k - 1], OptionalPaths(q, k - 1);
      if t.optional {
        PlainItemsSnoc(true, paths, OptionalPath(t));
        ItemsTextAppend(PlainItems(true, paths), [Item(true, OptionalPath(t), None, 0)]);
        ItemsTextOne(Item(true, OptionalPath(t), None, 0));
        SingleStepText(t, true);
        assert [KwOptionalMatch, NodeTok(t.fromAlias, [])] + Tail(t) ==
                 [KwOptionalMatch] + ([NodeTok(t.fromAlias, [])] + Tail(t));
      }
    }
  }

  lemma {:induction false} FullPrints(f: FilterExpression, n: nat)
    requires Full(f)
    ensures Print(f, n) != []
    decreases f
  {
    match f {
      case And(Cons(p, Nil)) => FullPrints(p, n);
      case Or(Cons(p, Nil)) => FullPrints(p, n);
      case _ =>
    }
  }

  lemma FilteredItemText(item: Item, q: ReadQuery)
    requires item.filter.None? && (q.filter.Some? ==> Full(q.filter.value))
    ensures ItemText(item.(filter := q.filter, n := 0)) == ItemText(item) + WhereText(q)
  {
    hide PathText;
    if q.filter.Some? {
      FullPrints(q.filter.value, 0);
    }
  }

  lemma LastItemText(init: seq<Item>, last: Item, filtered: Item, more: seq<Token>)
    requires ItemText(filtered) == ItemText(last) + more
    ensures ItemsText(init + [filtered]) == ItemsText(init + [last]) + more
  {
    hide ItemText, ItemsText;
    ItemsTextAppend(init, [last]);
    ItemsTextAppend(init, [filtered]);
    ItemsTextOne(last);
    ItemsTextOne(filtered);
  }

  lemma FilterText(items: seq<Item>, q: ReadQuery)
    requires items != [] && items[|items| - 1].filter.None? && (q.filter.Some? ==> Full(q.filter.value))
    ensures ItemsText(WithFilter(items, q.filter)) == ItemsText(items) + WhereText(q)
  {
    hide ItemText, ItemsText, WhereText;
    var init, last := items[..|items| - 1], items[|items| - 1];
    assert items == init + [last];
    FilteredItemText(last, q);
    LastItemText(init, last, last.(filter := q.filter, n := 0), WhereText(q));
  }

  lemma OptionalPathsExist(q: ReadQuery, k: nat, i: nat)
    requires i < k <= |q.traversals| && q.traversals[i].optional
    ensures OptionalPaths(q, k) != []
  {
    if i < k - 1 {
      OptionalPathsExist(q, k - 1, i);
    }
  }

  /** The emitted text is the text of its items. */
  lemma BindingTextIsItems(q: ReadQuery)
    requires q.filter.Some? ==> Full(q.filter.value)
    ensures BindingText(q) == ItemsText(Items(q))
  {
    hide WhereText, RequiredText, OptionalText;
    var n := |q.traversals|;
    var required, optional := PlainItems(false, RequiredPaths(q, n)), PlainItems(true, OptionalPaths(q, n));
    RequiredItemsText(q, n);
    OptionalItemsText(q, n);
    if Deferred(q) {
      var a :| a in OptionalTargets(q);
      var i :| 0 <= i < n && q.traversals[i].optional && q.traversals[i].target.alias == a;
      OptionalPathsExist(q, n, i);
      FilterText(optional, q);
      ItemsTextAppend(required, WithFilter(optional, q.filter));
    } else {
      FilterText(required, q);
      ItemsTextAppend(WithFilter(required, q.filter), optional);
    }
  }

  /** Whatever query is compiled and whatever follows, the database reads back the intended clauses and conditions. */
  lemma BindingsReadBack(q: ReadQuery, ts: seq<Token>)
    requires q.filter.Some? ==> Full(q.filter.value)
    requires Occurs(ts, 0, BindingText(q)) && MatchEnds(ts, |BindingText(q)|)
    ensures ReadClauses(ts, 0) == Some((ClausesOf(Items(q)), |BindingText(q)|))
  {
    hide BindingText, Items, ItemsText, ClausesOf, ReadClauses, Full;
    BindingTextIsItems(q);
    ItemsAreFull(q);
    ClausesRead(ts, 0, Items(q));
  }

  lemma ItemsAreFull(q: ReadQuery)
    requires q.filter.Some? ==> Full(q.filter.value)
    ensures forall item :: item in Items(q) && item.filter.Some? ==> Full(item.filter.value)
  {
    hide Full, RequiredPaths, OptionalPaths, Deferred;
  }

  // ---- what the clauses answer ----

  /** The rows the database binds for the emitted text. */
  ghost function EmittedRows(g: Graph, q: ReadQuery): seq<Row> {
    RunClauses(g, BindingParams(q), ClausesOf(Items(q)))
  }

  /** The emitted clauses bind each answer once and nothing else. */
  ghost predicate AnswersExactly(g: Graph, q: ReadQuery) {
    NoDup(EmittedRows(g, q)) && forall row :: row in EmittedRows(g, q) <==> IsAnswer(g, q, row)
  }

  lemma FilterIsSameCondition(g: Graph, q: ReadQuery)
    ensures SameCondition(g, BindingParams(q), Condition(q), q.filter)
  {
    match q.filter
    case None =>
    case Some(f) =>
      LeavesAreBound(f, 0, map[]);
      forall row ensures Evaluate(g, BindingParams(q), row, Numbered(f, 0)) == EvalFilter(g, row, f) {
        EvaluateNumbered(g, BindingParams(q), row, f, 0);
      }
  }

  lemma BareItems(paths: seq<Path>)
    ensures ClausesOf(PlainItems(false, paths)) == Bare(paths)
  {
  }

  lemma {:induction false} OptionalItems(q: ReadQuery, k: nat)
    requires k <= |q.traversals|
    ensures ClausesOf(PlainItems(true, OptionalPaths(q, k))) == OptionalClauses(q, k)
  {
    if k > 0 {
      OptionalItems(q, k - 1);
      var t := q.traversals[k - 1];
      if t.optional {
        PlainItemsSnoc(true, OptionalPaths(q, k - 1), OptionalPath(t));
        assert ClausesOf(PlainItems(true, OptionalPaths(q, k - 1)) + [Item(true, OptionalPath(t), None, 0)])
            == ClausesOf(PlainItems(true, OptionalPaths(q, k - 1))) + [Clause(true, OptionalPath(t), None)];
      }
    }
  }

  function Condition(q: ReadQuery): Option<Expr> {
    match q.filter case Some(f) => Some(Numbered(f, 0)) case None => None
  }

  /** Not deferred: the condition sits on the last required clause. */
  lemma EarlyClauses(q: ReadQuery)
    requires !Deferred(q)
    ensures ClausesOf(Items(q)) == RequiredClauses(q, Condition(q)) + OptionalClauses(q, |q.traversals|)
  {
    var n := |q.traversals|;
    var paths := RequiredPaths(q, n);
    var required, optional := PlainItems(false, paths), PlainItems(true, OptionalPaths(q, n));
    OptionalItems(q, n);
    assert ClausesOf(WithFilter(required, q.filter)) == RequiredClauses(q, Condition(q));
    assert ClausesOf(WithFilter(required, q.filter) + optional)
        == ClausesOf(WithFilter(required, q.filter)) + ClausesOf(optional);
  }

  lemma JoinedIsAnswer(g: Graph, q: ReadQuery, row: Row)
    ensures Joined(g, q, q.filter, |q.traversals|, row) <==> IsAnswer(g, q, row)
  {
    RequiredOkIsRequiredHold(g, q, |q.traversals|, row);
    hide Holds, OptionalHolds, StartHolds, Apart, RequiredOk;
  }

  /** The filter names aliases a WHERE behind the required clauses can see. */
  ghost predicate FilterInScope(q: ReadQuery) {
    q.filter.Some? ==>
      ReferencedAliases(q.filter.value) <=
        if Deferred(q) then Aliases(q) else Bound(q, false, |q.traversals|)
  }

  /** A filter that is not deferred is a sound pushdown: the clauses bind exactly the answers. */
  lemma EarlyWhereIsExact(g: Graph, q: ReadQuery)
    requires ValidGraph(g) && Scoped(q) && FilterInScope(q) && !Deferred(q)
    ensures AnswersExactly(g, q)
  {
    hide Scoped, IsAnswer, Joined, SameCondition;
    EarlyClauses(q);
    FilterIsSameCondition(g, q);
    OptionalRows(g, BindingParams(q), q, Condition(q), q.filter, |q.traversals|);
    forall row ensures JoinedFn(g, q, q.filter, |q.traversals|)(row) <==> IsAnswer(g, q, row) {
      JoinedIsAnswer(g, q, row);
    }
  }
}
