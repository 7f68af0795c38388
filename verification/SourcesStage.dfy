/**
 The sources stage of `build_read_with` (src/builder/cypher.rs): every bound name a later clause reads is carried
 through a WITH, the Source nodes of the row's nodes are looked up and collected, one row per carried tuple.
 */
module SourcesStage {
  import opened Common
  import opened Builtins
  import opened Ast
  import opened Cypher
  import opened Cursors
  import opened WhereReading
  import opened MatchPart

  const SRC := "__src__"
  const NEAR := "__sn__"
  const SOURCES := "__sources__"

  /** Names the stage uses for itself, the anonymous relationship included. */
  const RESERVED: set<string> := {"", SRC, NEAR, SOURCES}

  // ---- the names carried through the WITH ----

  /** Start and target aliases in order, each once. */
  function NodeAliases(q: ReadQuery, k: nat): (r: seq<string>)
    requires k <= |q.traversals|
    ensures NoDup(r)
    ensures forall a :: a in r <==> a == q.start.alias || exists i :: 0 <= i < k && q.traversals[i].target.alias == a
  {
    if k == 0 then [q.start.alias]
    else
      var init, a := NodeAliases(q, k - 1), q.traversals[k - 1].target.alias;
      if a in init then init else init + [a]
  }

  method CollectNodeAliases(q: ReadQuery) returns (out: seq<string>)
    ensures out == NodeAliases(q, |q.traversals|)
  {
    out := [q.start.alias];
    var seen := {q.start.alias};
    for i := 0 to |q.traversals|
      invariant out == NodeAliases(q, i) && forall a :: a in seen <==> a in out
    {
      var a := q.traversals[i].target.alias;
      if a !in seen {
        seen := seen + {a};
        out := out + [a];
      }
    }
  }

  function ReturnAlias(c: ReturnClause): string {
    c.field.alias
  }

  /** Every alias RETURN, GROUP BY or a property ORDER BY key reads. */
  predicate Reads(q: ReadQuery, a: string) {
    || (exists i :: 0 <= i < |q.projection| && ReturnAlias(q.projection[i]) == a)
    || (exists i :: 0 <= i < |q.groupBy| && q.groupBy[i].alias == a)
    || (exists i :: 0 <= i < |q.sort| && q.sort[i].key.Property? && q.sort[i].key.field.alias == a)
  }

  method CollectReferenced(q: ReadQuery) returns (out: set<string>)
    ensures forall a :: a in out <==> Reads(q, a)
  {
    out := {};
    for i := 0 to |q.projection|
      invariant forall a :: a in out <==> exists k :: 0 <= k < i && ReturnAlias(q.projection[k]) == a
    {
      out := out + {ReturnAlias(q.projection[i])};
    }
    ghost var projected := out;
    for i := 0 to |q.groupBy|
      invariant forall a :: a in out <==> a in projected || exists k :: 0 <= k < i && q.groupBy[k].alias == a
    {
      out := out + {q.groupBy[i].alias};
    }
    ghost var grouped := out;
    for i := 0 to |q.sort|
      invariant forall a :: a in out <==>
                  a in grouped || exists k :: 0 <= k < i && q.sort[k].key.Property? && q.sort[k].key.field.alias == a
    {
      if q.sort[i].key.Property? {
        out := out + {q.sort[i].key.field.alias};
      }
    }
  }

  predicate IsEdgeAlias(q: ReadQuery, a: string) {
    exists i :: 0 <= i < |q.traversals| && q.traversals[i].edgeAlias == a
  }

  predicate IsPlainKey(extras: seq<(string, SortOrder)>, a: string) {
    PlainIdent(a) && exists i :: 0 <= i < |extras| && extras[i].0 == a
  }

  /** What the WITH must keep: node aliases, contributed keys that are names, edge aliases read later. */
  predicate MustCarry(q: ReadQuery, extras: seq<(string, SortOrder)>, a: string) {
    a in NodeAliases(q, |q.traversals|) || IsPlainKey(extras, a) || (IsEdgeAlias(q, a) && Reads(q, a))
  }

  /** Exactly the names to carry, each once, the node aliases first. */
  ghost predicate IsCarry(q: ReadQuery, extras: seq<(string, SortOrder)>, carry: seq<string>) {
    && NoDup(carry) && NodeAliases(q, |q.traversals|) <= carry
    && forall a :: a in carry <==> MustCarry(q, extras, a)
  }

  method CarryNames(q: ReadQuery, cur: Cursor) returns (carry: seq<string>)
    ensures IsCarry(q, cur.extraOrderBy, carry)
  {
    hide NodeAliases;
    var extras := cur.extraOrderBy;
    carry := CollectNodeAliases(q);
    ghost var nodes := carry;
    for i := 0 to |extras|
      invariant NoDup(carry) && nodes <= carry
      invariant forall a :: a in carry <==> a in nodes || IsPlainKey(extras[..i], a)
    {
      var key := extras[i].0;
      assert forall a :: IsPlainKey(extras[..i + 1], a) <==>
               IsPlainKey(extras[..i], a) || (a == key && PlainIdent(a)) by {
        PlainKeysGrow(extras, i);
      }
      if PlainIdent(key) && key !in carry {
        carry := carry + [key];
      }
    }
    assert extras[..|extras|] == extras;
    ghost var before := carry;
    var referenced := CollectReferenced(q);
    var left := referenced;
    while left != {}
      invariant left <= referenced && NoDup(carry) && nodes <= carry
      invariant forall a :: a in carry <==> a in before || (a in referenced - left && IsEdgeAlias(q, a))
      decreases |left|
    {
      var a :| a in left;
      left := left - {a};
      if IsEdgeAlias(q, a) && a !in carry {
        carry := carry + [a];
      }
    }
  }

  lemma PlainKeysGrow(extras: seq<(string, SortOrder)>, i: nat)
    requires i < |extras|
    ensures forall a :: IsPlainKey(extras[..i + 1], a) <==>
              IsPlainKey(extras[..i], a) || (a == extras[i].0 && PlainIdent(a))
  {
    forall a | IsPlainKey(extras[..i + 1], a)
      ensures IsPlainKey(extras[..i], a) || a == extras[i].0
    {
      var k :| 0 <= k < |extras[..i + 1]| && extras[..i + 1][k].0 == a;
      assert k < i ==> extras[..i][k].0 == a;
    }
    forall a | IsPlainKey(extras[..i], a) || (a == extras[i].0 && PlainIdent(a))
      ensures IsPlainKey(extras[..i + 1], a)
    {
      if IsPlainKey(extras[..i], a) {
        var k :| 0 <= k < |extras[..i]| && extras[..i][k].0 == a;
        assert extras[..i + 1][k].0 == a;
      } else {
        assert extras[..i + 1][i].0 == a;
      }
    }
  }

  // ---- the emitted stage ----

  function StageEdge(): Token {
    EdgeTok("", MENTION_REL + "|" + PART_OF_REL, In, None)
  }

  function StageText(nodes: seq<string>, carry: seq<string>): seq<Token> {
    [WithTok(carry), KwOptionalMatch, NodeTok(SRC, [SOURCE_LABEL]), StageEdge(), NodeTok(NEAR, []),
     KwWhere, MemberTok(NEAR, nodes), CollectTok(carry, SRC, SOURCES)]
  }

  method WriteSourcesStage(cur: Cursor, q: ReadQuery) returns (carry: seq<string>)
    modifies cur`buf
    ensures IsCarry(q, cur.extraOrderBy, carry)
    ensures cur.buf == old(cur.buf) + StageText(NodeAliases(q, |q.traversals|), carry)
  {
    hide IsCarry, NodeAliases;
    var aliases := CollectNodeAliases(q);
    carry := CarryNames(q, cur);
    cur.buf := cur.buf + [WithTok(carry)]
      + [KwOptionalMatch, NodeTok(SRC, [SOURCE_LABEL]), StageEdge(), NodeTok(NEAR, [])]
      + [KwWhere, MemberTok(NEAR, aliases)] + [CollectTok(carry, SRC, SOURCES)];
  }

  function SourcesStep(): Step {
    Step("", MENTION_REL + "|" + PART_OF_REL, In, None, NodePattern(NEAR, []))
  }

  function SourcesPath(): Path {
    Path(NodePattern(SRC, [SOURCE_LABEL]), [SourcesStep()])
  }

  function SourcesClause(nodes: seq<string>): Clause {
    Clause(true, SourcesPath(), Some(Member(NEAR, nodes)))
  }

  lemma StageTokens(ts: seq<Token>, i: nat, nodes: seq<string>, carry: seq<string>)
    requires Occurs(ts, i, StageText(nodes, carry))
    ensures i + 8 <= |ts| && forall k :: i <= k < i + 8 ==> ts[k] == StageText(nodes, carry)[k - i]
  {
    hide StageText;
    var text := ts[i..i + |StageText(nodes, carry)|];
    assert forall k :: 0 <= k < |text| ==> text[k] == ts[i + k];
    StageLength(nodes, carry);
  }

  lemma StageLength(nodes: seq<string>, carry: seq<string>)
    ensures |StageText(nodes, carry)| == 8
  {
  }

  /** The stage between its two WITHs reads back as the lookup clause. */
  lemma StageReadsBack(ts: seq<Token>, i: nat, nodes: seq<string>, carry: seq<string>)
    requires Occurs(ts, i, StageText(nodes, carry))
    ensures i + 8 <= |ts| && ts[i] == WithTok(carry) && ts[i + 7] == CollectTok(carry, SRC, SOURCES)
    ensures ReadClause(ts, i + 1) == Some((SourcesClause(nodes), i + 7))
  {
    hide Occurs, ParseOr, ParseAnd;
    StageTokens(ts, i, nodes, carry);
    assert ReadSteps(ts, i + 5) == ([], i + 5);
    assert [SourcesStep()] + [] == [SourcesStep()];
    assert ReadSteps(ts, i + 3) == ([SourcesStep()], i + 5);
    assert ParseUnary(ts, i + 6) == Some((Member(NEAR, nodes), i + 7));
    OperandAlone(ts, i + 6, Member(NEAR, nodes), i + 7);
  }
}
