/** The deferred filter against the loop graph: exactly which queries the emitted text answers everywhere. */
module DeferralDecision {
  import opened Common
  import opened Ast
  import opened Cypher
  import opened WhereReading
  import opened Semantics
  import opened Matching
  import opened Reference
  import opened RequiredPart
  import opened OptionalPart
  import opened ReadCompiler
  import opened Deferral
  import opened LoopGraphs

  /** A deferred filter that is not true of missing properties drops no row of the loop graph. */
  lemma DeferredFilterIsLost(q: ReadQuery)
    requires Scoped(q) && DepthsValid(q) && Deferred(q) && OnProperties(q.filter.value) && Blank(q.filter.value) != True
    ensures ValidGraph(LoopGraph(q)) && !AnswersExactly(LoopGraph(q), q)
  {
    hide Deferred, OnProperties, LoopGraph, RequiredClauses, OptionalClauses, RunClauses, Scoped;
    var g, params, n := LoopGraph(q), BindingParams(q), |q.traversals|;
    LoopGraphIsValid(q);
    DeferredHasLast(q);
    DeferredHasFilter(q);
    var last := LastOptional(q, n).value;
    LateClauses(q, last);
    NoCondition(g, params);
    RequiredRows(g, params, q, None, None);
    LoopRowNodes(q, n);
    LoopRowMatches(q, n);
    LoopRowJoins(g, q, LoopRow(q, n));
    assert JoinedFn(g, q, None, 0)(LoopRow(q, n));
    assert RunClauses(g, params, RequiredClauses(q, None)) != [];
    OptionalClausesAreOptional(q, last);
    var c := Clause(true, OptionalPath(q.traversals[last]), Condition(q));
    OptionalsKeepRows(g, params, RequiredClauses(q, None), OptionalClauses(q, last) + [c]);
    assert RequiredClauses(q, None) + (OptionalClauses(q, last) + [c])
        == RequiredClauses(q, None) + OptionalClauses(q, last) + [c];
    FilterIsBlank(g, EmittedRows(g, q)[0], q.filter.value);
    assert EmittedRows(g, q)[0] in EmittedRows(g, q);
  }

  lemma LoopRowJoins(g: Graph, q: ReadQuery, row: Row)
    requires RequiredOk(g, q, |q.traversals|, row) && row.Keys == Bound(q, false, |q.traversals|)
    ensures Joined(g, q, None, 0, row)
  {
    hide RequiredOk;
  }

  /** A filter that is true of every row is as good behind the last OPTIONAL MATCH as anywhere. */
  lemma TrueFilterMayWait(g: Graph, q: ReadQuery)
    requires ValidGraph(g) && Scoped(q) && Deferred(q) && OnProperties(q.filter.value) && Blank(q.filter.value) == True
    ensures AnswersExactly(g, q)
  {
    hide Scoped, Deferred, OnProperties, Blank, IsAnswer, EmittedRows, NoDup;
    DeferredHasLast(q);
    DeferredHasFilter(q);
    var last := LastOptional(q, |q.traversals|).value;
    LateWhereIsExact(g, q, last);
    forall row ensures row in EmittedRows(g, q) <==> IsAnswer(g, q, row) {
      DeferralOnlyAdds(g, q, last, row);
      if row in EmittedRows(g, q) {
        forall r: Row ensures Passes(g, r, q.filter) {
          FilterIsBlank(g, r, q.filter.value);
        }
        NotSpurious(g, q, last, row);
      }
    }
  }

  lemma NotSpurious(g: Graph, q: ReadQuery, last: nat, row: Row)
    requires last < |q.traversals| && IsDeferredRow(g, q, last, row) && forall r: Row :: Passes(g, r, q.filter)
    ensures !Spurious(g, q, last, row)
  {
    hide NodeMatches, Far, Walk, StartHolds, OptionalHolds, ChainsAreTrails, Passes;
  }

  /**
   The emitted clauses answer the query on every graph exactly when its filter is not deferred or, being a tautology
   made of empty lists, would hold anyway.
   */
  lemma DeferralDecides(q: ReadQuery)
    requires Scoped(q) && DepthsValid(q) && FilterInScope(q)
    requires q.filter.Some? ==> Full(q.filter.value) && OnProperties(q.filter.value)
    ensures (forall g :: ValidGraph(g) ==> AnswersExactly(g, q)) <==> !Deferred(q) || Blank(q.filter.value) == True
  {
    hide AnswersExactly, Deferred, Scoped, FilterInScope, LoopGraph, Blank;
    DeferredHasFilter(q);
    if Deferred(q) && Blank(q.filter.value) != True {
      DeferredFilterIsLost(q);
    } else {
      forall g | ValidGraph(g) ensures AnswersExactly(g, q) {
        if Deferred(q) {
          TrueFilterMayWait(g, q);
        } else {
          EarlyWhereIsExact(g, q);
        }
      }
    }
  }

  lemma DeferredHasFilter(q: ReadQuery)
    ensures Deferred(q) ==> q.filter.Some?
  {
  }
}
