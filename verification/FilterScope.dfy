/** Which names the written conditions refer to, and when every one of them is bound where it is used. */
module FilterScope {
  import opened Common
  import opened Ast
  import opened Cypher
  import opened WherePart
  import opened WhereReading
  import opened MatchPart
  import opened Semantics
  import opened Reference
  import opened RequiredPart
  import opened OptionalPart
  import opened ReadCompiler
  import opened Deferral

  function Names(e: Expr): set<string> {
    match e
    case Cmp(lhs, _, _) => {lhs.alias}
    case Member(alias, among) => {alias} + Elements(among)
    case AndE(es) => NamesOfAll(es)
    case OrE(es) => NamesOfAll(es)
    case NotE(arg) => Names(arg)
  }

  function NamesOfAll(es: List<Expr>): set<string> {
    match es
    case Nil => {}
    case Cons(e, rest) => Names(e) + NamesOfAll(rest)
  }

  /** The names the first `k` clauses bind. */
  function BoundBy(cs: seq<Clause>, k: nat): set<string>
    requires k <= |cs|
  {
    if k == 0 then {} else BoundBy(cs, k - 1) + PathAliases(cs[k - 1].path)
  }

  /** No condition refers to a name that neither its own clause nor an earlier one binds. */
  ghost predicate InScope(cs: seq<Clause>) {
    forall i :: 0 <= i < |cs| && cs[i].condition.Some? ==> Names(cs[i].condition.value) <= BoundBy(cs, i + 1)
  }

  lemma {:induction false} NumberedNames(f: FilterExpression, n: nat)
    ensures Names(Numbered(f, n)) == ReferencedAliases(f)
    decreases f
  {
    match f {
      case Pred(p) => assert LeftSide(p).alias == p.field.alias;
      case Not(inner) => NumberedNames(inner, n);
      case And(parts) => NumberedAllNames(parts, n);
      case Or(parts) => NumberedAllNames(parts, n);
    }
  }

  lemma {:induction false} NumberedAllNames(parts: List<FilterExpression>, n: nat)
    ensures NamesOfAll(NumberedAll(parts, n)) == AliasesOfAll(parts)
    decreases parts
  {
    match parts {
      case Nil =>
      case Cons(p, rest) =>
        NumberedNames(p, n);
        NumberedAllNames(rest, n + LeafCount(p));
    }
  }

  lemma {:induction false} BoundByAppend(a: seq<Clause>, b: seq<Clause>, k: nat)
    requires k <= |b|
    ensures BoundBy(a + b, |a| + k) == BoundBy(a, |a|) + BoundBy(b, k)
  {
    hide PathAliases;
    if k == 0 {
      BoundByPrefix(a, b, |a|);
    } else {
      BoundByAppend(a, b, k - 1);
    }
  }

  lemma {:induction false} BoundByPrefix(a: seq<Clause>, b: seq<Clause>, k: nat)
    requires k <= |a|
    ensures BoundBy(a + b, k) == BoundBy(a, k)
  {
    hide PathAliases;
    if k > 0 {
      BoundByPrefix(a, b, k - 1);
    }
  }

  lemma BoundByOne(c: Clause)
    ensures BoundBy([c], 1) == PathAliases(c.path)
  {
  }

  lemma LongerAliases(p: Path, s: Step)
    ensures PathAliases(Longer(p, s)) == PathAliases(p) + {s.edge, s.target.alias}
  {
    var q := Longer(p, s);
    assert q.steps[|p.steps|] == s && forall i :: 0 <= i < |p.steps| ==> q.steps[i] == p.steps[i];
  }

  lemma SingleAliases(t: EdgeTraversal)
    ensures PathAliases(OptionalPath(t)) == {t.fromAlias} + OwnAliases(t)
  {
    assert OptionalPath(t).steps[0] == StepOf(t);
  }

  /** The required patterns bind the start and what the required traversals name. */
  lemma {:induction false} RequiredBinds(q: ReadQuery, k: nat)
    requires Scoped(q) && k <= |q.traversals|
    ensures BoundBy(Bare(RequiredPaths(q, k)), |RequiredPaths(q, k)|) == Bound(q, false, k)
  {
    hide PathAliases, StepOf, Scoped, BoundBy, Bare;
    if k == 0 {
      StartAliases(q);
    } else {
      RequiredBinds(q, k - 1);
      var t, paths := q.traversals[k - 1], RequiredPaths(q, k - 1);
      if !t.optional {
        RequiredFrom(q, k - 1);
        NextRequiredBinds(q, k - 1, paths);
      }
    }
  }

  lemma RequiredFrom(q: ReadQuery, k: nat)
    requires Scoped(q) && k < |q.traversals| && !q.traversals[k].optional
    ensures q.traversals[k].fromAlias in Bound(q, false, k)
  {
    assert ScopedFrom(q, k);
    NodesAreBound(q, false, k);
  }

  lemma StartAliases(q: ReadQuery)
    ensures BoundBy(Bare(RequiredPaths(q, 0)), |RequiredPaths(q, 0)|) == {q.start.alias}
  {
    var p := Path(NodePattern(q.start.alias, Labels(q.start)), []);
    assert RequiredPaths(q, 0) == [p] && Bare([p]) == [Clause(false, p, None)];
    BoundByOne(Clause(false, p, None));
    assert PathAliases(p) == {q.start.alias};
  }

  lemma NextRequiredBinds(q: ReadQuery, k: nat, paths: seq<Path>)
    requires k < |q.traversals| && !q.traversals[k].optional && paths == RequiredPaths(q, k)
    requires q.traversals[k].fromAlias in BoundBy(Bare(paths), |paths|)
    ensures BoundBy(Bare(RequiredPaths(q, k + 1)), |RequiredPaths(q, k + 1)|)
         == BoundBy(Bare(paths), |paths|) + OwnAliases(q.traversals[k])
  {
    hide PathAliases;
    var t, init, last := q.traversals[k], paths[..|paths| - 1], paths[|paths| - 1];
    if t.fromAlias == Endpoint(q, k) {
      var longer := Longer(last, StepOf(t));
      assert paths == init + [last];
      BareSnoc(init, last);
      BareSnoc(init, longer);
      BoundByAppend(Bare(init), [Clause(false, last, None)], 1);
      BoundByAppend(Bare(init), [Clause(false, longer, None)], 1);
      BoundByOne(Clause(false, last, None));
      BoundByOne(Clause(false, longer, None));
      LongerAliases(last, StepOf(t));
    } else {
      BareSnoc(paths, OptionalPath(t));
      BoundByAppend(Bare(paths), [Clause(false, OptionalPath(t), None)], 1);
      BoundByOne(Clause(false, OptionalPath(t), None));
      SingleAliases(t);
    }
  }

  /** The optional clauses bind what their traversals name, besides the nodes they start from. */
  lemma {:induction false} OptionalBinds(q: ReadQuery, k: nat, before: set<string>)
    requires Scoped(q) && k <= |q.traversals| && before == Bound(q, false, |q.traversals|)
    ensures before + BoundBy(OptionalClauses(q, k), |OptionalClauses(q, k)|) == before + Bound(q, true, k)
  {
    hide PathAliases, Scoped, OptionalPath;
    if k > 0 {
      OptionalBinds(q, k - 1, before);
      var t := q.traversals[k - 1];
      if t.optional {
        OptionalFrom(q, k - 1);
        SingleAliases(t);
        BoundByAppend(OptionalClauses(q, k - 1), [Clause(true, OptionalPath(t), None)], 1);
        BoundByOne(Clause(true, OptionalPath(t), None));
      }
    }
  }

  lemma OptionalFrom(q: ReadQuery, k: nat)
    requires Scoped(q) && k < |q.traversals| && q.traversals[k].optional
    ensures q.traversals[k].fromAlias in Bound(q, false, |q.traversals|) + Bound(q, true, k)
  {
    assert ScopedFrom(q, k);
    NodesAreBound(q, false, |q.traversals|);
    NodesAreBound(q, true, k);
  }

  lemma ConditionNames(q: ReadQuery)
    ensures Condition(q).Some? <==> q.filter.Some?
    ensures q.filter.Some? ==> Names(Condition(q).value) == ReferencedAliases(q.filter.value)
  {
    if q.filter.Some? {
      NumberedNames(q.filter.value, 0);
    }
  }

  /** One condition among clauses without any. */
  lemma OneCondition(a: seq<Clause>, c: Clause, b: seq<Clause>)
    requires forall i :: 0 <= i < |a| ==> a[i].condition.None?
    requires forall i :: 0 <= i < |b| ==> b[i].condition.None?
    ensures InScope(a + [c] + b) <==>
            (c.condition.Some? ==> Names(c.condition.value) <= BoundBy(a, |a|) + PathAliases(c.path))
  {
    hide Names, PathAliases;
    var cs := a + [c] + b;
    BoundByAppend(a, [c], 1);
    BoundByOne(c);
    BoundByPrefix(a + [c], b, |a| + 1);
    assert cs[|a|] == c;
    assert forall i :: 0 <= i < |cs| && i != |a| ==> cs[i].condition.None?;
  }

  lemma {:induction false} NoOptionalConditions(q: ReadQuery, k: nat)
    requires k <= |q.traversals|
    ensures forall i :: 0 <= i < |OptionalClauses(q, k)| ==> OptionalClauses(q, k)[i].condition.None?
  {
    if k > 0 {
      NoOptionalConditions(q, k - 1);
    }
  }

  lemma EarlyScope(q: ReadQuery)
    requires Scoped(q) && !Deferred(q)
    ensures InScope(ClausesOf(Items(q))) <==>
            (q.filter.Some? ==> ReferencedAliases(q.filter.value) <= Bound(q, false, |q.traversals|))
  {
    hide InScope, RequiredPaths, OptionalClauses, Items, PathAliases, Deferred, Condition, Bound;
    var n := |q.traversals|;
    var paths := RequiredPaths(q, n);
    var init, last := paths[..|paths| - 1], paths[|paths| - 1];
    EarlyClauses(q);
    ConditionNames(q);
    NoOptionalConditions(q, n);
    OneCondition(Bare(init), Clause(false, last, Condition(q)), OptionalClauses(q, n));
    RequiredBinds(q, n);
    assert paths == init + [last];
    BareSnoc(init, last);
    BoundByAppend(Bare(init), [Clause(false, last, None)], 1);
    BoundByOne(Clause(false, last, None));
  }

  lemma LateScope(q: ReadQuery)
    requires Scoped(q) && Deferred(q)
    ensures InScope(ClausesOf(Items(q))) <==> ReferencedAliases(q.filter.value) <= Aliases(q)
  {
    hide InScope, RequiredPaths, OptionalClauses, Items, PathAliases, Condition, Bound, NeedsOptionalScope;
    var n := |q.traversals|;
    DeferredHasLast(q);
    var last := LastOptional(q, n).value;
    var t, paths := q.traversals[last], RequiredPaths(q, n);
    LateClauses(q, last);
    ConditionNames(q);
    NoOptionalConditions(q, last);
    var a := RequiredClauses(q, None) + OptionalClauses(q, last);
    assert RequiredClauses(q, None) == Bare(paths) by {
      BareSnoc(paths[..|paths| - 1], paths[|paths| - 1]);
      assert paths == paths[..|paths| - 1] + [paths[|paths| - 1]];
    }
    OneCondition(a, Clause(true, OptionalPath(t), Condition(q)), []);
    assert a + [Clause(true, OptionalPath(t), Condition(q))] + [] == a + [Clause(true, OptionalPath(t), Condition(q))];
    BoundByAppend(Bare(paths), OptionalClauses(q, last), |OptionalClauses(q, last)|);
    RequiredBinds(q, n);
    OptionalBinds(q, last, Bound(q, false, n));
    SingleAliases(t);
    LastBinds(q, last);
  }

  lemma LastBinds(q: ReadQuery, last: nat)
    requires Scoped(q) && LastOptional(q, |q.traversals|) == Some(last)
    ensures var bound := Bound(q, false, |q.traversals|) + Bound(q, true, last);
            q.traversals[last].fromAlias in bound && Aliases(q) == bound + OwnAliases(q.traversals[last])
  {
    AliasesSplit(q, last);
    OptionalFrom(q, last);
  }

  /** Every name the conditions use is bound where they stand exactly if the filter is in scope. */
  lemma ScopeIsKept(q: ReadQuery)
    requires Scoped(q)
    ensures InScope(ClausesOf(Items(q))) <==> FilterInScope(q)
  {
    hide InScope, Items, Scoped, Deferred, Aliases, Bound;
    if Deferred(q) {
      LateScope(q);
      DeferredFilter(q);
    } else {
      EarlyScope(q);
    }
  }

  lemma DeferredFilter(q: ReadQuery)
    ensures Deferred(q) ==> q.filter.Some?
  {
  }

  /**
   For a filter over names of the query: an unbound name is written exactly if no optional target is named but the edge
   of an optional traversal is, because deferral looks at targets only.
   */
  lemma OnlyOptionalEdgesEscape(q: ReadQuery)
    requires Scoped(q) && q.filter.Some? && ReferencedAliases(q.filter.value) <= Aliases(q)
    ensures !InScope(ClausesOf(Items(q))) <==>
            !Deferred(q) && exists i :: 0 <= i < |q.traversals| && q.traversals[i].optional
                                        && q.traversals[i].edgeAlias in ReferencedAliases(q.filter.value)
  {
    hide InScope, Items;
    var names, n := ReferencedAliases(q.filter.value), |q.traversals|;
    ScopeIsKept(q);
    forall i | 0 <= i < n && q.traversals[i].optional
      ensures q.traversals[i].edgeAlias !in Bound(q, false, n)
    {
      OwnAliasesAreFresh(q, false, i, n);
    }
    if !Deferred(q) && !(names <= Bound(q, false, n)) {
      var a :| a in names && a !in Bound(q, false, n);
      var i := OptionalOwner(q, n, a);
      assert q.traversals[i].target.alias in OptionalTargets(q);
    }
  }

  lemma {:induction false} OptionalOwner(q: ReadQuery, k: nat, a: string) returns (i: nat)
    requires k <= |q.traversals| && a in Bound(q, true, k)
    ensures i < k && q.traversals[i].optional && a in OwnAliases(q.traversals[i])
  {
    if q.traversals[k - 1].optional && a in OwnAliases(q.traversals[k - 1]) {
      i := k - 1;
    } else {
      i := OptionalOwner(q, k - 1, a);
    }
  }
}
