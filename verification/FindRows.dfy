/**
 A find query up to its RETURN: the answers, what filter handlers bind besides, then the sources stage. Which names
 survive the stage, and which rows it merges.
 */
module FindRows {
  import opened Common
  import opened Ast
  import opened Semantics
  import opened Matching
  import opened Reference
  import opened ReadCompiler
  import opened SourcesStage
  import opened SourcesMeaning

  ghost predicate NoReservedNames(q: ReadQuery) {
    Aliases(q) !! RESERVED
  }

  /**
   What the handlers of a query's typed filters make of a row: any number of rows that bind the same further names.
   */
  type Handlers = Row -> seq<Row>

  ghost predicate Contribute(q: ReadQuery, names: set<string>, handlers: Handlers) {
    && names !! Aliases(q) + RESERVED
    && forall row: Row, row' :: row.Keys == Aliases(q) && row' in handlers(row) ==>
         row'.Keys == Aliases(q) + names && forall a :: a in Aliases(q) ==> row'[a] == row[a]
  }

  /** The contributed sort keys that are names are bound, by the clauses or by the handlers. */
  ghost predicate KeysBound(q: ReadQuery, names: set<string>, extras: seq<(string, SortOrder)>) {
    forall a :: IsPlainKey(extras, a) ==> a in Aliases(q) + names
  }

  lemma {:induction false} BoundAre(q: ReadQuery, optional: bool, k: nat, a: string)
    requires k <= |q.traversals|
    ensures a in Bound(q, optional, k) <==>
            || (!optional && a == q.start.alias)
            || exists i :: 0 <= i < k && q.traversals[i].optional == optional && a in OwnAliases(q.traversals[i])
  {
    if k > 0 {
      BoundAre(q, optional, k - 1, a);
    }
  }

  lemma AliasesAre(q: ReadQuery, a: string)
    ensures a in Aliases(q) <==> a in NodeAliases(q, |q.traversals|) || IsEdgeAlias(q, a)
  {
    var n := |q.traversals|;
    BoundAre(q, false, n, a);
    BoundAre(q, true, n, a);
    if i: nat :| i < n && q.traversals[i].target.alias == a {
      assert a in OwnAliases(q.traversals[i]);
    }
    if i: nat :| i < n && q.traversals[i].edgeAlias == a {
      assert a in OwnAliases(q.traversals[i]);
    }
  }

  /**
   Whatever RETURN, GROUP BY or ORDER BY reads is still in scope; a bound name is lost only if it is an edge nobody
   reads.
   */
  lemma StageKeepsScope(q: ReadQuery, names: set<string>, extras: seq<(string, SortOrder)>, carry: seq<string>,
                        a: string)
    requires IsCarry(q, extras, carry)
    ensures a in Aliases(q) && Reads(q, a) ==> a in carry
    ensures IsPlainKey(extras, a) ==> a in carry
    ensures a in Aliases(q) && a !in carry ==> IsEdgeAlias(q, a) && !Reads(q, a)
    ensures a in carry && KeysBound(q, names, extras) ==> a in Aliases(q) + names
  {
    AliasesAre(q, a);
  }

  lemma RowsAreCarryable(q: ReadQuery, names: set<string>, extras: seq<(string, SortOrder)>, carry: seq<string>,
                         rows: seq<Row>)
    requires IsCarry(q, extras, carry) && NoReservedNames(q) && KeysBound(q, names, extras) && names !! RESERVED
    requires forall row :: row in rows ==> row.Keys == Aliases(q) + names
    ensures Carryable(rows, NodeAliases(q, |q.traversals|), carry)
  {
    forall a | a in carry ensures a in Aliases(q) + names {
      StageKeepsScope(q, names, extras, carry, a);
    }
  }

  /** The rows RETURN sees. */
  ghost function FindRows(g: Graph, q: ReadQuery, handlers: Handlers, carry: seq<string>): seq<Row> {
    StageRows(g, BindingParams(q), NodeAliases(q, |q.traversals|), carry, FlatMap(EmittedRows(g, q), handlers))
  }

  /** The row is what the handlers make of an answer. */
  ghost predicate FromAnswer(g: Graph, q: ReadQuery, handlers: Handlers, row: Row) {
    exists answer :: IsAnswer(g, q, answer) && row in handlers(answer)
  }

  lemma RowsFromAnswers(g: Graph, q: ReadQuery, names: set<string>, handlers: Handlers, row: Row)
    requires AnswersExactly(g, q) && Contribute(q, names, handlers)
    ensures row in FlatMap(EmittedRows(g, q), handlers) <==> FromAnswer(g, q, handlers, row)
    ensures FromAnswer(g, q, handlers, row) ==> row.Keys == Aliases(q) + names
  {
    hide EmittedRows, StartHolds, Holds, OptionalHolds, Passes, ChainsAreTrails, NoDup;
    FlatMapMember(EmittedRows(g, q), handlers, row);
  }

  /**
   Without a deferred filter RETURN sees exactly what the handlers make of the answers, cut to the carried names, with
   their sources, each once.
   */
  lemma FindRowsAreAnswers(g: Graph, q: ReadQuery, names: set<string>, handlers: Handlers,
                           extras: seq<(string, SortOrder)>,
                           carry: seq<string>)
    requires ValidGraph(g) && Scoped(q) && FilterInScope(q) && !Deferred(q)
    requires IsCarry(q, extras, carry) && NoReservedNames(q) && Contribute(q, names, handlers)
             && KeysBound(q, names, extras)
    ensures NoDup(FindRows(g, q, handlers, carry))
    ensures forall out :: out in FindRows(g, q, handlers, carry) <==>
              exists row :: FromAnswer(g, q, handlers, row)
                     && out == Staged(g, row, NodeAliases(q, |q.traversals|), carry)
  {
    hide IsCarry, Staged, StageRows, EmittedRows, Scoped, FilterInScope, Deferred, AnswersExactly, FromAnswer;
    var nodes, rows := NodeAliases(q, |q.traversals|), FlatMap(EmittedRows(g, q), handlers);
    EarlyWhereIsExact(g, q);
    forall row ensures row in rows <==> FromAnswer(g, q, handlers, row)
               ensures row in rows ==> row.Keys == Aliases(q) + names
    {
      RowsFromAnswers(g, q, names, handlers, row);
    }
    RowsAreCarryable(q, names, extras, carry, rows);
    StageExact(g, BindingParams(q), nodes, carry, rows);
  }

  /** Two rows become one exactly when they differ in nothing but edges and handler names no later clause reads. */
  lemma StageMerges(g: Graph, q: ReadQuery, names: set<string>, extras: seq<(string, SortOrder)>, carry: seq<string>,
                    row: Row, row': Row)
    requires IsCarry(q, extras, carry) && NoReservedNames(q) && KeysBound(q, names, extras)
             && names !! Aliases(q) + RESERVED
    requires row.Keys == Aliases(q) + names && row'.Keys == Aliases(q) + names
    ensures var nodes := NodeAliases(q, |q.traversals|);
            Staged(g, row, nodes, carry) == Staged(g, row', nodes, carry) <==>
            forall a :: a in row && row[a] != row'[a] ==>
                          !IsPlainKey(extras, a) && (a in names || (a !in nodes && IsEdgeAlias(q, a) && !Reads(q, a)))
  {
    var nodes := NodeAliases(q, |q.traversals|);
    forall a ensures a in Aliases(q) <==> a in nodes || IsEdgeAlias(q, a) {
      AliasesAre(q, a);
    }
    SourcesRead(g, row, nodes, carry);
    SourcesRead(g, row', nodes, carry);
    forall a | a in carry ensures a in row && a in row' && a != SOURCES {
      StageKeepsScope(q, names, extras, carry, a);
    }
    ProjectionsAgree(row, row', carry);
    hide Project, SourcesOf, NodeAliases, Aliases;
    var p, p' := Project(row, carry), Project(row', carry);
    if p != p' {
      WithoutColumn(p, p', SetV(SourcesOf(g, row, nodes)), SetV(SourcesOf(g, row', nodes)));
    }
    forall a | a in row
      ensures a in carry <==> !(!IsPlainKey(extras, a)
                                && (a in names || (a !in nodes && IsEdgeAlias(q, a) && !Reads(q, a))))
    {
    }
  }

  lemma ProjectionsAgree(row: Row, row': Row, names: seq<string>)
    requires forall a :: a in names ==> a in row && a in row' && a != SOURCES
    ensures Project(row, names) == Project(row', names) <==> forall a :: a in names ==> row[a] == row'[a]
    ensures SOURCES !in Project(row, names) && SOURCES !in Project(row', names)
  {
    var p, p' := Project(row, names), Project(row', names);
    assert p.Keys == p'.Keys == (set a | a in names);
    assert forall a :: a in names ==> p[a] == row[a] && p'[a] == row'[a];
  }
}
