/** Alias repair and the alias checks of the DSL parser (src/dsl/parser.rs). */
module EdgeAliases {
  import opened Common
  import opened Ast
  import opened Dsl
  import opened Reference

  function Suffixed(base: string, n: nat): string {
    base + "_" + Decimal(n)
  }

  lemma SuffixedInjective(a: string, m: nat, b: string, n: nat)
    requires Suffixed(a, m) == Suffixed(b, n)
    ensures a == b && m == n
  {
    hide Decimal;
    LastUnderscore(a, m);
    LastUnderscore(b, n);
    var s := Suffixed(a, m);
    assert s[..|a|] == a && s[..|b|] == b;
    assert s[|a| + 1..] == Decimal(m) && s[|b| + 1..] == Decimal(n);
    DecimalRoundTrip(m);
    DecimalRoundTrip(n);
  }

  lemma LastUnderscore(a: string, m: nat)
    ensures |a| < |Suffixed(a, m)| && Suffixed(a, m)[|a|] == '_'
    ensures forall i :: |a| < i < |Suffixed(a, m)| ==> Suffixed(a, m)[i] != '_'
  {
    hide Decimal;
  }

  /** The first free `base_n`. */
  ghost predicate IsFresh(base: string, taken: set<string>, r: string) {
    exists n: nat :: n >= 2 && r == Suffixed(base, n) && r !in taken && forall k :: 2 <= k < n ==>
             Suffixed(base, k) in taken
  }

  lemma FreshMeans(base: string, taken: set<string>, r: string)
    requires IsFresh(base, taken, r)
    ensures exists n: nat :: n >= 2 && r == base + "_" + Decimal(n) && r !in taken && forall k :: 2 <= k < n ==>
              base + "_" + Decimal(k) in taken
  {
    var n: nat :| n >= 2 && r == Suffixed(base, n) && r !in taken && forall k :: 2 <= k < n ==>
      Suffixed(base, k) in taken;
    assert forall k :: 2 <= k < n ==> base + "_" + Decimal(k) == Suffixed(base, k);
  }

  function Probed(base: string, n: nat): set<string> {
    set k | 2 <= k < n :: Suffixed(base, k)
  }

  lemma {:induction false} ProbedCount(base: string, n: nat)
    requires n >= 2
    ensures |Probed(base, n)| == n - 2
  {
    if n == 2 {
      assert Probed(base, 2) == {};
    } else {
      ProbedCount(base, n - 1);
      var last := Suffixed(base, n - 1);
      assert last !in Probed(base, n - 1) by {
        if last in Probed(base, n - 1) {
          var k :| 2 <= k < n - 1 && Suffixed(base, k) == last;
          SuffixedInjective(base, k, base, n - 1);
        }
      }
      assert Probed(base, n) == Probed(base, n - 1) + {last};
    }
  }

  /** Stops within one more probe than there are taken names. */
  method FreshAlias(base: string, taken: set<string>) returns (alias: string, probes: nat)
    ensures IsFresh(base, taken, alias)
    ensures 1 <= probes <= |taken| + 1
  {
    hide Suffixed;
    var n := 2;
    while true
      invariant n >= 2 && Probed(base, n) <= taken
      invariant forall k :: 2 <= k < n ==> Suffixed(base, k) in taken
      invariant n - 2 <= |taken|
      decreases |taken| + 2 - n
    {
      var candidate := Suffixed(base, n);
      if candidate !in taken {
        return candidate, n - 1;
      }
      n := n + 1;
      ProbedCount(base, n);
      SubsetSize(Probed(base, n), taken);
    }
  }

  // ---- the repair ----

  function NodeList(start: string, ts: seq<DslTraversal>): seq<string> {
    [start] + seq(|ts|, i requires 0 <= i < |ts| => ts[i].targetAlias)
  }

  function EdgeList(ts: seq<DslTraversal>): seq<string> {
    seq(|ts|, i requires 0 <= i < |ts| => ts[i].edgeAlias)
  }

  /** An edge keeps its alias unless a node or an edge before it has it, and gets the first free suffix otherwise. */
  ghost predicate RepairStep(nodes: set<string>, earlier: seq<string>, alias: string, repaired: string) {
    if alias !in nodes + Elements(earlier) then repaired == alias
       else IsFresh(alias, nodes + Elements(earlier), repaired)
  }

  /** The first `n` edge aliases repaired. */
  ghost predicate IsRepair(nodes: set<string>, es: seq<string>, es': seq<string>, n: nat)
    requires n <= |es| == |es'|
  {
    forall i :: 0 <= i < n ==> RepairStep(nodes, es'[..i], es[i], es'[i])
  }

  lemma RepairNext(nodes: set<string>, es: seq<string>, es': seq<string>, i: nat, alias: string)
    requires i < |es| == |es'| && IsRepair(nodes, es, es', i) && RepairStep(nodes, es'[..i], es[i], alias)
    ensures IsRepair(nodes, es, es'[i := alias], i + 1)
    ensures Elements(es'[i := alias][..i + 1]) == Elements(es'[..i]) + {alias}
  {
    hide RepairStep;
    var next := es'[i := alias];
    assert next[..i + 1] == es'[..i] + [alias];
    forall k | 0 <= k <= i ensures RepairStep(nodes, next[..k], es[k], next[k]) {
      assert next[..k] == es'[..k];
    }
  }

  lemma StartTaken(start: string, ts: seq<DslTraversal>)
    ensures |NodeList(start, ts)| == |ts| + 1 && Elements(NodeList(start, ts)[..1]) == {start}
    ensures forall us :: |EdgeList(us)| == |us|
  {
    assert NodeList(start, ts)[..1] == [start];
  }

  lemma TargetTaken(start: string, ts: seq<DslTraversal>, i: nat)
    requires i < |ts|
    ensures i + 2 <= |NodeList(start, ts)|
    ensures Elements(NodeList(start, ts)[..i + 2]) == Elements(NodeList(start, ts)[..i + 1]) + {ts[i].targetAlias}
  {
    assert NodeList(start, ts)[..i + 2] == NodeList(start, ts)[..i + 1] + [ts[i].targetAlias];
  }

  lemma EdgeAt(ts: seq<DslTraversal>, i: nat)
    requires i < |ts|
    ensures i < |EdgeList(ts)| && EdgeList(ts)[i] == ts[i].edgeAlias
  {
  }

  lemma EdgeSet(ts: seq<DslTraversal>, i: nat, alias: string)
    requires i < |ts|
    ensures i < |EdgeList(ts)| && EdgeList(ts[i := ts[i].(edgeAlias := alias)]) == EdgeList(ts)[i := alias]
  {
  }

  lemma IsStep(nodes: set<string>, earlier: seq<string>, alias: string, repaired: string, taken: set<string>)
    requires taken == nodes + Elements(earlier)
    requires if alias in taken then IsFresh(alias, taken, repaired) else repaired == alias
    ensures RepairStep(nodes, earlier, alias, repaired)
  {
  }

  /** The document with repaired edge aliases, and nothing else changed. */
  ghost predicate Repaired(start: string, ts: seq<DslTraversal>, ts': seq<DslTraversal>) {
    && |ts| == |ts'|
    && (forall i :: 0 <= i < |ts| ==> ts'[i] == ts[i].(edgeAlias := ts'[i].edgeAlias))
    && IsRepair(Elements(NodeList(start, ts)), EdgeList(ts), EdgeList(ts'), |ts|)
  }

  method DedupeEdgeAliases(doc: DslDocument)
    modifies doc
    ensures doc.query == old(doc.query).(traversals := doc.query.traversals)
    ensures Repaired(doc.query.start, old(doc.query).traversals, doc.query.traversals)
  {
    hide IsFresh, IsRepair, NodeList, EdgeList, Elements, RepairStep;
    var start, traversals := doc.query.start, doc.query.traversals;
    ghost var before := traversals;
    StartTaken(start, before);
    var taken := {start};
    for i := 0 to |traversals|
      invariant traversals == before && doc.query == old(doc.query)
                && taken == Elements(NodeList(start, before)[..i + 1])
    {
      TargetTaken(start, before, i);
      taken := taken + {traversals[i].targetAlias};
    }
    ghost var nodes := Elements(NodeList(start, before));
    assert NodeList(start, before)[..|before| + 1] == NodeList(start, before);
    NothingRepaired(nodes, EdgeList(before));
    for i := 0 to |traversals|
      invariant doc.query == old(doc.query).(traversals := traversals) && |traversals| == |before|
      invariant forall k :: 0 <= k < |before| ==> traversals[k] == before[k].(edgeAlias := traversals[k].edgeAlias)
      invariant forall k :: i <= k < |before| ==> traversals[k] == before[k]
      invariant IsRepair(nodes, EdgeList(before), EdgeList(traversals), i)
      invariant taken == nodes + Elements(EdgeList(traversals)[..i])
    {
      var alias := traversals[i].edgeAlias;
      EdgeAt(before, i);
      if alias in taken {
        var probes;
        alias, probes := FreshAlias(alias, taken);
      }
      IsStep(nodes, EdgeList(traversals)[..i], before[i].edgeAlias, alias, taken);
      RepairNext(nodes, EdgeList(before), EdgeList(traversals), i, alias);
      EdgeSet(traversals, i, alias);
      taken := taken + {alias};
      traversals := traversals[i := traversals[i].(edgeAlias := alias)];
      doc.query := doc.query.(traversals := traversals);
    }
  }

  /** The alias part of `validate`: the first alias seen twice, in order start, edge, target, edge, target. */
  method ValidateAliases(query: DslQuery) returns (duplicate: Option<string>)
    ensures duplicate.None? <==> NoDup(AliasList(query.start, query.traversals))
    ensures duplicate.Some? ==> exists i, j :: 0 <= i < j < |AliasList(query.start, query.traversals)|
                                               && AliasList(query.start, query.traversals)[i] ==
                                                    AliasList(query.start, query.traversals)[j] == duplicate.value
  {
    hide AliasList;
    var all := AliasList(query.start, query.traversals);
    var aliases: set<string> := {};
    for i := 0 to |all|
      invariant forall a :: a in aliases <==> a in all[..i]
      invariant NoDup(all[..i])
    {
      if all[i] in aliases {
        var k :| 0 <= k < i && all[..i][k] == all[i];
        assert all[k] == all[i];
        return Some(all[i]);
      }
      aliases := aliases + {all[i]};
      assert all[..i + 1] == all[..i] + [all[i]];
    }
    assert all[..|all|] == all;
    duplicate := None;
  }

  // ---- what the repair achieves ----

  function AliasList(start: string, ts: seq<DslTraversal>): seq<string> {
    if ts == [] then [start]
    else AliasList(start, ts[..|ts| - 1]) + [ts[|ts| - 1].edgeAlias, ts[|ts| - 1].targetAlias]
  }

  lemma {:induction false} AliasListParts(start: string, ts: seq<DslTraversal>)
    ensures NoDup(AliasList(start, ts)) <==>
            NoDup(NodeList(start, ts)) && NoDup(EdgeList(ts)) && forall a :: a in EdgeList(ts) ==>
              a !in NodeList(start, ts)
    ensures forall a :: a in AliasList(start, ts) <==> a in NodeList(start, ts) || a in EdgeList(ts)
  {
    if ts == [] {
      assert NodeList(start, ts) == [start] && EdgeList(ts) == [];
    } else {
      var init, t := ts[..|ts| - 1], ts[|ts| - 1];
      AliasListParts(start, init);
      assert NodeList(start, ts) == NodeList(start, init) + [t.targetAlias]
             && EdgeList(ts) == EdgeList(init) + [t.edgeAlias];
      PartsSnoc(AliasList(start, init), NodeList(start, init), EdgeList(init), t.edgeAlias, t.targetAlias);
      assert AliasList(start, ts) == AliasList(start, init) + [t.edgeAlias] + [t.targetAlias];
    }
  }

  lemma PartsSnoc(all: seq<string>, ns: seq<string>, es: seq<string>, e: string, n: string)
    requires NoDup(all) <==> NoDup(ns) && NoDup(es) && forall a :: a in es ==> a !in ns
    requires forall a :: a in all <==> a in ns || a in es
    ensures NoDup(all + [e] + [n]) <==> NoDup(ns + [n]) && NoDup(es + [e]) && forall a :: a in es + [e] ==>
              a !in ns + [n]
    ensures forall a :: a in all + [e] + [n] <==> a in ns + [n] || a in es + [e]
  {
    hide NoDup;
    NoDupSnoc(ns, n);
    NoDupSnoc(es, e);
    NoDupSnoc(all, e);
    NoDupSnoc(all + [e], n);
    assert forall a :: a in es + [e] <==> a in es || a == e;
    assert forall a :: a in ns + [n] <==> a in ns || a == n;
    assert forall a :: a in all + [e] <==> a in all || a == e;
  }

  lemma NothingRepaired(nodes: set<string>, es: seq<string>)
    ensures IsRepair(nodes, es, es, 0) && Elements(es[..0]) == {}
  {
  }

  lemma NoDupSnoc(s: seq<string>, x: string)
    ensures NoDup(s + [x]) <==> NoDup(s) && x !in s
  {
    var t := s + [x];
    assert forall i :: 0 <= i < |s| ==> t[i] == s[i];
    if NoDup(t) {
      assert forall i :: 0 <= i < |s| ==> t[i] != t[|s|];
    }
  }

  lemma RepairedEdges(nodes: set<string>, es: seq<string>, es': seq<string>)
    requires |es| == |es'| && IsRepair(nodes, es, es', |es|)
    ensures NoDup(es') && forall a :: a in es' ==> a !in nodes
  {
    forall i | 0 <= i < |es| ensures es'[i] !in nodes + Elements(es'[..i]) {
      assert RepairStep(nodes, es'[..i], es[i], es'[i]);
    }
    forall i, j | 0 <= i < j < |es| ensures es'[i] != es'[j] {
      assert es'[..j][i] == es'[i];
    }
  }

  /** After the repair the aliases are free of duplicates exactly if the node aliases were; no node alias changed. */
  lemma RepairDecides(start: string, ts: seq<DslTraversal>, ts': seq<DslTraversal>)
    requires Repaired(start, ts, ts')
    ensures NoDup(AliasList(start, ts')) <==> NoDup(NodeList(start, ts))
    ensures NodeList(start, ts') == NodeList(start, ts)
  {
    hide NoDup, AliasList, IsRepair;
    assert NodeList(start, ts') == NodeList(start, ts);
    RepairedEdges(Elements(NodeList(start, ts)), EdgeList(ts), EdgeList(ts'));
    AliasListParts(start, ts');
  }

  /** A second repair changes nothing. */
  lemma RepairTwice(start: string, ts: seq<DslTraversal>, ts': seq<DslTraversal>, ts'': seq<DslTraversal>)
    requires Repaired(start, ts, ts') && Repaired(start, ts', ts'')
    ensures ts'' == ts'
  {
    hide NoDup, IsRepair;
    assert NodeList(start, ts') == NodeList(start, ts);
    RepairedEdges(Elements(NodeList(start, ts)), EdgeList(ts), EdgeList(ts'));
    SameSoFar(Elements(NodeList(start, ts)), EdgeList(ts'), EdgeList(ts''), |ts|);
    assert EdgeList(ts'')[..|ts|] == EdgeList(ts'') && EdgeList(ts')[..|ts|] == EdgeList(ts');
    forall i | 0 <= i < |ts| ensures ts''[i] == ts'[i] {
      assert EdgeList(ts'')[i] == EdgeList(ts')[i];
    }
  }

  lemma {:induction false} SameSoFar(nodes: set<string>, es: seq<string>, es': seq<string>, n: nat)
    requires n <= |es| == |es'| && IsRepair(nodes, es, es', |es|)
    requires NoDup(es) && forall a :: a in es ==> a !in nodes
    ensures es'[..n] == es[..n]
  {
    if n > 0 {
      SameSoFar(nodes, es, es', n - 1);
      assert RepairStep(nodes, es'[..n - 1], es[n - 1], es'[n - 1]);
      assert es[n - 1] in es;
      assert forall k :: 0 <= k < n - 1 ==> es[..n - 1][k] == es[k];
      assert es'[..n] == es'[..n - 1] + [es'[n - 1]] && es[..n] == es[..n - 1] + [es[n - 1]];
    }
  }

  /** A repaired alias is still an identifier. */
  lemma FreshIsIdentifier(base: string, taken: set<string>, r: string)
    requires PlainIdent(base) && IsFresh(base, taken, r)
    ensures PlainIdent(r)
  {
  }

  // ---- what the compiler needs ----

  /** The same aliases on a lowered query. */
  function Documented(q: ReadQuery): seq<DslTraversal> {
    seq(|q.traversals|, i requires 0 <= i < |q.traversals| =>
      var t := q.traversals[i];
      DslTraversal(Some(t.fromAlias), t.edgeLabel, t.edgeAlias, t.direction, t.target.nodeLabel, t.target.alias,
                   t.depth, t.optional))
  }

  /** Passing the alias check is what the compiler's theorems ask of a query's names. */
  lemma CheckedIsDistinct(q: ReadQuery)
    ensures NoDup(AliasList(q.start.alias, Documented(q))) <==> DistinctAliases(q)
  {
    var ts, ns, es := Documented(q), NodeList(q.start.alias, Documented(q)), EdgeList(Documented(q));
    AliasListParts(q.start.alias, ts);
    assert forall i :: 0 <= i < |ts| ==>
             ns[i + 1] == q.traversals[i].target.alias && es[i] == q.traversals[i].edgeAlias;
    if NoDup(ns) && NoDup(es) && forall a :: a in es ==> a !in ns {
      DistinctFromLists(q, ns, es);
    }
    if DistinctAliases(q) {
      ListsFromDistinct(q, ns, es);
    }
  }

  lemma DistinctFromLists(q: ReadQuery, ns: seq<string>, es: seq<string>)
    requires |ns| == |q.traversals| + 1 && |es| == |q.traversals| && ns[0] == q.start.alias
    requires forall i :: 0 <= i < |q.traversals| ==>
               ns[i + 1] == q.traversals[i].target.alias && es[i] == q.traversals[i].edgeAlias
    requires NoDup(ns) && NoDup(es) && forall a :: a in es ==> a !in ns
    ensures DistinctAliases(q)
  {
    forall i | 0 <= i < |q.traversals|
      ensures q.traversals[i].edgeAlias != q.traversals[i].target.alias && q.traversals[i].edgeAlias != q.start.alias
      ensures q.traversals[i].target.alias != q.start.alias
    {
      assert es[i] in es && ns[i + 1] in ns && ns[0] in ns && ns[0] != ns[i + 1];
    }
    forall i, j | 0 <= i < j < |q.traversals| ensures OwnAliases(q.traversals[i]) !! OwnAliases(q.traversals[j]) {
      assert es[i] in es && es[j] in es && ns[i + 1] in ns && ns[j + 1] in ns && ns[i + 1] != ns[j + 1]
             && es[i] != es[j];
    }
  }

  lemma ListsFromDistinct(q: ReadQuery, ns: seq<string>, es: seq<string>)
    requires |ns| == |q.traversals| + 1 && |es| == |q.traversals| && ns[0] == q.start.alias
    requires forall i :: 0 <= i < |q.traversals| ==>
               ns[i + 1] == q.traversals[i].target.alias && es[i] == q.traversals[i].edgeAlias
    requires DistinctAliases(q)
    ensures NoDup(ns) && NoDup(es) && forall a :: a in es ==> a !in ns
  {
    forall i, j | 0 <= i < j < |q.traversals|
      ensures es[i] != es[j] && ns[i + 1] != ns[j + 1] && es[i] != ns[j + 1] && es[j] != ns[i + 1]
    {
      assert OwnAliases(q.traversals[i]) !! OwnAliases(q.traversals[j]);
      assert es[i] in OwnAliases(q.traversals[i]) && ns[i + 1] in OwnAliases(q.traversals[i]);
      assert es[j] in OwnAliases(q.traversals[j]) && ns[j + 1] in OwnAliases(q.traversals[j]);
    }
    forall k | 0 <= k < |es| ensures ns[k + 1] != ns[0] && es[k] != ns[0] && es[k] != ns[k + 1] {
      var t := q.traversals[k];
      assert t.edgeAlias != t.target.alias && t.edgeAlias != q.start.alias && t.target.alias != q.start.alias;
    }
    forall i, j | 0 <= i < j < |ns| ensures ns[i] != ns[j] {
      var k := j - 1;
      if i == 0 {
        assert es[k] != ns[0] && ns[k + 1] != ns[0];
      } else {
        var l := i - 1;
        assert es[l] != es[k] && ns[l + 1] != ns[k + 1];
      }
    }
    forall i, j | 0 <= i < |es| && 0 <= j < |ns| ensures es[i] != ns[j] {
      if j > 0 {
        var k := j - 1;
        assert i == k || es[i] != es[k];
        assert es[i] != ns[k + 1];
      }
    }
  }
}
