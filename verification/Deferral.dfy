/**
 The deferred filter. A WHERE written behind the last OPTIONAL MATCH belongs to that clause: it picks
 among the clause's matches and drops no row. What the clauses then bind is characterised exactly.
 */
module Deferral {
  import opened Common
  import opened Ast
  import opened Cypher
  import opened MatchPart
  import opened Semantics
  import opened Matching
  import opened Reference
  import opened RequiredPart
  import opened OptionalPart
  import opened ReadCompiler

  /** The last optional traversal among the first `k`. */
  function LastOptional(q: ReadQuery, k: nat): (r: Option<nat>)
    requires k <= |q.traversals|
    ensures r.None? ==> forall i :: 0 <= i < k ==> !q.traversals[i].optional
    ensures r.Some? ==> r.value < k && q.traversals[r.value].optional
                        && forall i :: r.value < i < k ==> !q.traversals[i].optional
  {
    if k == 0 then None
    else if q.traversals[k - 1].optional then Some(k - 1)
    else LastOptional(q, k - 1)
  }

  lemma {:induction false} NoneAfterLast(q: ReadQuery, last: nat, k: nat)
    requires last < k <= |q.traversals| && forall i :: last < i < k ==> !q.traversals[i].optional
    ensures OptionalClauses(q, k) == OptionalClauses(q, last + 1)
    ensures Bound(q, true, k) == Bound(q, true, last + 1)
  {
    if last + 1 < k {
      NoneAfterLast(q, last, k - 1);
    }
  }

  lemma DeferredHasLast(q: ReadQuery)
    requires Deferred(q)
    ensures LastOptional(q, |q.traversals|).Some?
  {
    var a :| a in OptionalTargets(q);
    var i :| 0 <= i < |q.traversals| && q.traversals[i].optional && q.traversals[i].target.alias == a;
  }

  lemma LateClauses(q: ReadQuery, last: nat)
    requires Deferred(q) && LastOptional(q, |q.traversals|) == Some(last)
    ensures ClausesOf(Items(q))
         == RequiredClauses(q, None) + OptionalClauses(q, last)
          + [Clause(true, OptionalPath(q.traversals[last]), Condition(q))]
  {
    var n := |q.traversals|;
    var paths := RequiredPaths(q, n);
    var c := Clause(true, OptionalPath(q.traversals[last]), None);
    var c' := c.(condition := Condition(q));
    var required, optional := PlainItems(false, paths), PlainItems(true, OptionalPaths(q, n));
    OptionalItems(q, n);
    NoneAfterLast(q, last, n);
    assert ClausesOf(optional) == OptionalClauses(q, last) + [c];
    OptionalPathsExist(q, n, last);
    assert ClausesOf(required) == RequiredClauses(q, None);
    assert ClausesOf(WithFilter(optional, q.filter)) == OptionalClauses(q, last) + [c'] by {
      var m := |optional| - 1;
      assert forall i :: 0 <= i < m ==> ClausesOf(optional)[i] == ClauseOf(optional[i]) == OptionalClauses(q, last)[i];
      assert ClausesOf(optional)[m] == ClauseOf(optional[m]) == c;
    }
    assert ClausesOf(required + WithFilter(optional, q.filter))
        == ClausesOf(required) + ClausesOf(WithFilter(optional, q.filter));
  }

  /** What a deferred filter leaves: everything but the last optional traversal as asked, and that one filtered. */
  ghost predicate IsDeferredRow(g: Graph, q: ReadQuery, last: nat, row: Row)
    requires last < |q.traversals|
  {
    var t := q.traversals[last];
    && row.Keys == Aliases(q)
    && StartHolds(g, q, row)
    && (forall i :: 0 <= i < |q.traversals| && i != last ==>
          if q.traversals[i].optional then OptionalHolds(g, q.traversals[i], row) else Holds(g, q.traversals[i], row))
    && ChainsAreTrails(q, row)
    && t.edgeAlias in row && t.target.alias in row
    && (|| (Holds(g, t, row) && Passes(g, row, q.filter))
        || (row[t.edgeAlias] == NullV && row[t.target.alias] == NullV && NothingPasses(g, t, q.filter, row)))
  }

  /** The last optional traversal binds what the others do not. */
  lemma AliasesSplit(q: ReadQuery, last: nat)
    requires Scoped(q) && LastOptional(q, |q.traversals|) == Some(last)
    ensures var bound := Bound(q, false, |q.traversals|) + Bound(q, true, last);
            Aliases(q) == bound + OwnAliases(q.traversals[last]) && bound !! OwnAliases(q.traversals[last])
  {
    OwnAliasesAreFresh(q, false, last, |q.traversals|);
    OwnAliasesAreFresh(q, true, last, last);
    NoneAfterLast(q, last, |q.traversals|);
  }

  lemma StepIsDeferredRow(g: Graph, q: ReadQuery, last: nat, row: Row)
    requires Scoped(q) && LastOptional(q, |q.traversals|) == Some(last)
    ensures StepAfter(g, q, None, last, q.filter, row) <==> IsDeferredRow(g, q, last, row)
  {
    hide Holds, OptionalHolds, StartHolds, Apart, RequiredOk, Linked, Passes, Bound, BoundNodes, Aliases;
    var n, t, before := |q.traversals|, q.traversals[last], Before(q, last, row);
    var bound := Bound(q, false, n) + Bound(q, true, last);
    AliasesSplit(q, last);
    FromIsBound(q, last);
    if before.Keys == bound && t.edgeAlias in row && t.target.alias in row {
      JoinedReads(g, q, None, last, before, row);
      RequiredOkIsRequiredHold(g, q, n, row);
      assert row.Keys == Aliases(q) <==> row == With(before, t, row[t.edgeAlias], row[t.target.alias]);
      if row.Keys == Aliases(q) {
        SameNothing(g, t, q.filter, before, row);
      }
      PassesNothing(g, before);
      OthersHold(g, q, last, row);
    }
  }

  lemma SameNothing(g: Graph, t: EdgeTraversal, f: Option<FilterExpression>, before: Row, row: Row)
    requires t.fromAlias in before && t.fromAlias in row && before[t.fromAlias] == row[t.fromAlias]
    requires t.edgeAlias in row && t.target.alias in row
    requires row == With(before, t, row[t.edgeAlias], row[t.target.alias])
    ensures NothingPasses(g, t, f, row) == NothingPasses(g, t, f, before)
  {
    hide Linked, Passes;
    assert forall e, to :: With(row, t, e, to) == With(before, t, e, to);
  }

  lemma PassesNothing(g: Graph, row: Row)
    ensures Passes(g, row, None)
  {
  }

  lemma OthersHold(g: Graph, q: ReadQuery, last: nat, row: Row)
    requires LastOptional(q, |q.traversals|) == Some(last)
    ensures (forall i :: 0 <= i < |q.traversals| && i != last ==>
               if q.traversals[i].optional then OptionalHolds(g, q.traversals[i], row)
                  else Holds(g, q.traversals[i], row))
       <==> OptionalsHold(g, q, last, row)
            && (forall i :: 0 <= i < |q.traversals| && !q.traversals[i].optional ==> Holds(g, q.traversals[i], row))
  {
    hide Holds, OptionalHolds;
  }

  /** A deferred filter: the clauses bind each of these rows once and nothing else. */
  lemma LateWhereIsExact(g: Graph, q: ReadQuery, last: nat)
    requires ValidGraph(g) && Scoped(q) && Deferred(q) && LastOptional(q, |q.traversals|) == Some(last)
    ensures NoDup(EmittedRows(g, q))
    ensures forall row :: row in EmittedRows(g, q) <==> IsDeferredRow(g, q, last, row)
  {
    hide Scoped, IsDeferredRow, StepAfter, SameCondition, Joined, RunClause, NoDup, Deferred;
    var params := BindingParams(q);
    var cs := RequiredClauses(q, None) + OptionalClauses(q, last);
    var c := Clause(true, OptionalPath(q.traversals[last]), Condition(q));
    LateClauses(q, last);
    assert (cs + [c])[..|cs|] == cs;
    NoCondition(g, params);
    OptionalRows(g, params, q, None, None, last);
    FilterIsSameCondition(g, q);
    NextClause(g, params, q, None, last, RunClauses(g, params, cs), Condition(q), q.filter);
    forall row ensures StepAfterFn(g, q, None, last, q.filter)(row) <==> IsDeferredRow(g, q, last, row) {
      StepIsDeferredRow(g, q, last, row);
    }
  }

  /** The rows a deferred filter wrongly keeps: nothing matched it, so the row stays with nulls. */
  ghost predicate Spurious(g: Graph, q: ReadQuery, last: nat, row: Row)
    requires last < |q.traversals|
  {
    var t := q.traversals[last];
    && t.fromAlias in row && t.edgeAlias in row && t.target.alias in row
    && row[t.edgeAlias] == NullV && row[t.target.alias] == NullV
    && !(NothingLinks(g, t, row[t.fromAlias]) && Passes(g, row, q.filter))
  }

  /** Deferral loses no answer; what it adds are exactly the null-padded rows that fail the filter or had a match. */
  lemma DeferralOnlyAdds(g: Graph, q: ReadQuery, last: nat, row: Row)
    requires ValidGraph(g) && Scoped(q) && Deferred(q) && LastOptional(q, |q.traversals|) == Some(last)
    ensures IsAnswer(g, q, row) <==> row in EmittedRows(g, q) && !Spurious(g, q, last, row)
  {
    hide Linked, Apart, StartHolds;
    LateWhereIsExact(g, q, last);
    var t := q.traversals[last];
    FromIsBound(q, last);
    assert row.Keys == Aliases(q) ==> t.fromAlias in row by {
      NoneAfterLast(q, last, |q.traversals|);
    }
    if IsAnswer(g, q, row) {
      assert OptionalHolds(g, t, row);
    }
  }
}
