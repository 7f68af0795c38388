/**
 When alias repair is lossless. An alias that clashes with nothing can still lose its name: a clash before it may have
 been given that name. Which lists are safe is decided by counting on the input.
 */
module AliasLoss {
  import opened Common
  import opened Dsl
  import opened EdgeAliases

  /** A node or an earlier edge of the document has the alias of edge `i`. */
  predicate Clashes(nodes: set<string>, es: seq<string>, i: nat)
    requires i < |es|
  {
    es[i] in nodes + Elements(es[..i])
  }

  /** The clashes of alias `base` before position `c`. */
  function ClashesOf(nodes: set<string>, es: seq<string>, base: string, c: nat): set<nat>
    requires c <= |es|
  {
    set j | 0 <= j < c && es[j] == base && Clashes(nodes, es, j)
  }

  /** The numbers below `n` under which `base` is an alias of a node or of an edge before `c`. */
  function UsedBelow(nodes: set<string>, es: seq<string>, base: string, n: nat, c: nat): set<nat>
    requires c <= |es|
  {
    set k | 2 <= k < n && Suffixed(base, k) in nodes + Elements(es[..c])
  }

  /**
   Edge `i` clashes with nothing and has the name of a numbered `es[c]`, an earlier clash, by the time of which the
   lower numbers are used up: by aliases of the document, or by the clashes of the same alias before it.
   */
  predicate Robs(nodes: set<string>, es: seq<string>, c: nat, i: nat, n: nat) {
    && c < i < |es| && n >= 2 && es[i] == Suffixed(es[c], n) && Clashes(nodes, es, c) && !Clashes(nodes, es, i)
    && |UsedBelow(nodes, es, es[c], n, c)| + |ClashesOf(nodes, es, es[c], c)| >= n - 2
  }

  /** Every one of the first `m` edges that clashes with nothing keeps its alias. */
  ghost predicate Kept(nodes: set<string>, es: seq<string>, es': seq<string>, m: nat)
    requires m <= |es| == |es'|
  {
    forall i :: 0 <= i < m && !Clashes(nodes, es, i) ==> es'[i] == es[i]
  }

  // ---- counting ----

  /** The suffix numbers below `n`. */
  function Numbers(n: nat): (r: set<nat>)
    requires n >= 2
    ensures |r| == n - 2 && forall k :: k in r <==> 2 <= k < n
  {
    if n == 2 then {} else Numbers(n - 1) + {n - 1}
  }

  /** Partners that are nobody else's: at least as many. */
  lemma {:induction false} Partners(a: set<nat>, b: set<nat>, pairs: set<(nat, nat)>)
    requires forall x :: x in a ==> exists y :: y in b && (x, y) in pairs
    requires forall x, x', y :: (x, y) in pairs && (x', y) in pairs ==> x == x'
    ensures |a| <= |b|
    decreases |a|
  {
    if a != {} {
      var x :| x in a;
      var y :| y in b && (x, y) in pairs;
      forall x' | x' in a - {x} ensures exists y' :: y' in b - {y} && (x', y') in pairs {
        var y' :| y' in b && (x', y') in pairs;
        assert y' != y;
      }
      Partners(a - {x}, b - {y}, pairs);
    }
  }

  // ---- reading the repair ----

  /** What a renamed edge gets. */
  lemma RenamedTo(nodes: set<string>, es: seq<string>, es': seq<string>, i: nat) returns (n: nat)
    requires |es| == |es'| && IsRepair(nodes, es, es', |es|) && i < |es| && es'[i] != es[i]
    ensures n >= 2 && es'[i] == Suffixed(es[i], n) && es'[i] !in nodes + Elements(es'[..i])
    ensures forall k :: 2 <= k < n ==> Suffixed(es[i], k) in nodes + Elements(es'[..i])
  {
    assert RepairStep(nodes, es'[..i], es[i], es'[i]);
    n :| n >= 2 && es'[i] == Suffixed(es[i], n) && es'[i] !in nodes + Elements(es'[..i])
      && forall k :: 2 <= k < n ==> Suffixed(es[i], k) in nodes + Elements(es'[..i]);
  }

  /** A clash is renamed as long as what clashes with nothing keeps its name. */
  lemma ClashIsRenamed(nodes: set<string>, es: seq<string>, es': seq<string>, i: nat)
    requires |es| == |es'| && IsRepair(nodes, es, es', |es|) && i < |es| && Kept(nodes, es, es', i)
    ensures nodes + Elements(es[..i]) <= nodes + Elements(es'[..i])
    ensures Clashes(nodes, es, i) ==> es'[i] != es[i]
  {
    forall a | a in Elements(es[..i]) && a !in nodes ensures a in Elements(es'[..i]) {
      var j := FirstUse(nodes, es, a, i);
      assert es'[..i][j] == a;
    }
    assert RepairStep(nodes, es'[..i], es[i], es'[i]);
    if Clashes(nodes, es, i) {
      var n: nat :| es'[i] == Suffixed(es[i], n);
      assert |es'[i]| > |es[i]|;
    }
  }

  lemma {:induction false} FirstUse(nodes: set<string>, es: seq<string>, a: string, i: nat) returns (j: nat)
    requires i <= |es| && a in Elements(es[..i]) && a !in nodes
    ensures j < i && es[j] == a && !Clashes(nodes, es, j)
    decreases i
  {
    j :| 0 <= j < i && es[..i][j] == a;
    if Clashes(nodes, es, j) {
      j := FirstUse(nodes, es, a, j);
    }
  }

  // ---- a loss needs a robbery ----

  /** The taken number below `n` that no alias of the document has was given to a clash of the same alias. */
  lemma GivenToClash(nodes: set<string>, es: seq<string>, es': seq<string>, c: nat, k: nat) returns (l: nat)
    requires |es| == |es'| && IsRepair(nodes, es, es', |es|) && c < |es| && Kept(nodes, es, es', c)
    requires Suffixed(es[c], k) in nodes + Elements(es'[..c]) && Suffixed(es[c], k) !in nodes + Elements(es[..c])
    ensures l in ClashesOf(nodes, es, es[c], c) && es'[l] == Suffixed(es[c], k)
  {
    hide Suffixed, IsRepair;
    l :| 0 <= l < c && es'[..c][l] == Suffixed(es[c], k);
    assert es[..c][l] == es[l];
    var m := RenamedTo(nodes, es, es', l);
    SuffixedInjective(es[l], m, es[c], k);
  }

  lemma LossIsRobbery(nodes: set<string>, es: seq<string>, es': seq<string>, i: nat) returns (c: nat, n: nat)
    requires |es| == |es'| && IsRepair(nodes, es, es', |es|) && i < |es| && Kept(nodes, es, es', i)
    requires !Clashes(nodes, es, i) && es'[i] != es[i]
    ensures Robs(nodes, es, c, i, n)
  {
    hide Suffixed, RepairStep;
    assert es[i] in Elements(es'[..i]) by {
      assert RepairStep(nodes, es'[..i], es[i], es'[i]);
      AtHand(nodes, es'[..i], es[i], es'[i]);
    }
    c :| 0 <= c < i && es'[..i][c] == es[i];
    assert es[..i][c] == es[c];
    n := RenamedTo(nodes, es, es', c);
    var base, all := es[c], Numbers(n);
    var used, clashes := UsedBelow(nodes, es, base, n, c), ClashesOf(nodes, es, base, c);
    var pairs := set k, l | 2 <= k < n && 0 <= l < c && es'[l] == Suffixed(base, k) :: (k, l);
    forall k | k in all - used ensures exists l :: l in clashes && (k, l) in pairs {
      var l := GivenToClash(nodes, es, es', c, k);
    }
    forall x, x', l | (x, l) in pairs && (x', l) in pairs ensures x == x' {
      SuffixedInjective(base, x, base, x');
    }
    assert used <= all;
    Partners(all - used, clashes, pairs);
  }

  lemma AtHand(nodes: set<string>, earlier: seq<string>, alias: string, repaired: string)
    requires RepairStep(nodes, earlier, alias, repaired) && repaired != alias
    ensures alias in nodes + Elements(earlier)
  {
  }

  // ---- a robbery is a loss ----

  /**
   If nothing is lost, each clash of the same alias up to `c` gets a number below `n` that no alias before `c` uses.
   */
  lemma ClashGetsNumber(nodes: set<string>, es: seq<string>, es': seq<string>, c: nat, i: nat, n: nat, l: nat)
    returns (k: nat)
    requires |es| == |es'| && IsRepair(nodes, es, es', |es|) && Kept(nodes, es, es', |es|)
    requires c < i < |es| && !Clashes(nodes, es, i) && n >= 2 && es[i] == Suffixed(es[c], n)
    requires l <= c && es[l] == es[c] && Clashes(nodes, es, l)
    ensures 2 <= k < n && k !in UsedBelow(nodes, es, es[c], n, c) && es'[l] == Suffixed(es[c], k)
  {
    hide Suffixed, IsRepair;
    RepairedEdges(nodes, es, es');
    ClashIsRenamed(nodes, es, es', l);
    k := RenamedTo(nodes, es, es', l);
    NotYetTaken(nodes, es', l, i);
    assert es'[i] == es[i] && es'[i] != es'[l];
    LongerThanBase(es[c], k);
    GivenIsNew(nodes, es, es', c, l);
  }

  lemma GivenIsNew(nodes: set<string>, es: seq<string>, es': seq<string>, c: nat, l: nat)
    requires |es| == |es'| && NoDup(es') && Kept(nodes, es, es', |es|) && (forall a :: a in es' ==> a !in nodes)
    requires c < |es| && l < |es| && es'[l] != es[l]
    ensures es'[l] !in nodes + Elements(es[..c])
  {
    assert es'[l] in es';
    if es'[l] in Elements(es[..c]) {
      var j := FirstUse(nodes, es, es'[l], c);
    }
  }

  lemma LongerThanBase(base: string, k: nat)
    ensures Suffixed(base, k) != base
  {
    assert |Suffixed(base, k)| > |base|;
  }

  lemma NotYetTaken(nodes: set<string>, es': seq<string>, l: nat, i: nat)
    requires l < i < |es'| && NoDup(es') && forall a :: a in es' ==> a !in nodes
    ensures es'[i] !in nodes + Elements(es'[..l])
  {
    assert es'[i] in es';
    assert forall j :: 0 <= j < l ==> es'[..l][j] == es'[j];
  }

  lemma RobberyIsLoss(nodes: set<string>, es: seq<string>, es': seq<string>, c: nat, i: nat, n: nat)
    requires |es| == |es'| && IsRepair(nodes, es, es', |es|) && Robs(nodes, es, c, i, n)
    ensures !Kept(nodes, es, es', |es|)
  {
    hide Suffixed, IsRepair, Kept;
    if Kept(nodes, es, es', |es|) {
      var base, all := es[c], Numbers(n);
      var used, clashes := UsedBelow(nodes, es, base, n, c), ClashesOf(nodes, es, base, c) + {c};
      assert used <= all && c !in ClashesOf(nodes, es, base, c);
      var pairs := set l, k | 0 <= l <= c && 2 <= k < n && es'[l] == Suffixed(base, k) :: (l, k);
      RepairedEdges(nodes, es, es');
      forall l | l in clashes ensures exists k :: k in all - used && (l, k) in pairs {
        var k := ClashGetsNumber(nodes, es, es', c, i, n, l);
        assert k in all - used && (l, k) in pairs;
      }
      Partners(clashes, all - used, pairs);
    }
  }

  lemma {:induction false} FirstLoss(nodes: set<string>, es: seq<string>, es': seq<string>, m: nat) returns (i: nat)
    requires m <= |es| == |es'| && !Kept(nodes, es, es', m)
    ensures i < m && Kept(nodes, es, es', i) && !Clashes(nodes, es, i) && es'[i] != es[i]
  {
    if Kept(nodes, es, es', m - 1) {
      i := m - 1;
    } else {
      i := FirstLoss(nodes, es, es', m - 1);
    }
  }

  /** Every edge that clashes with nothing keeps its alias if and only if no clash robs one. */
  lemma LosslessExactlyWhen(start: string, ts: seq<DslTraversal>, ts': seq<DslTraversal>)
    requires Repaired(start, ts, ts')
    ensures var nodes, es := Elements(NodeList(start, ts)), EdgeList(ts);
            (forall i :: 0 <= i < |ts| && !Clashes(nodes, es, i) ==> ts'[i].edgeAlias == ts[i].edgeAlias)
            <==> !exists c, i, n :: Robs(nodes, es, c, i, n)
  {
    hide IsRepair, Robs, Clashes, NodeList;
    var nodes, es, es' := Elements(NodeList(start, ts)), EdgeList(ts), EdgeList(ts');
    if Kept(nodes, es, es', |es|) {
      forall c: nat, i: nat, n: nat ensures !Robs(nodes, es, c, i, n) {
        if Robs(nodes, es, c, i, n) {
          RobberyIsLoss(nodes, es, es', c, i, n);
        }
      }
      forall i | 0 <= i < |ts| && !Clashes(nodes, es, i) ensures ts'[i].edgeAlias == ts[i].edgeAlias {
        assert es'[i] == es[i];
      }
    } else {
      var i := FirstLoss(nodes, es, es', |es|);
      var c, n := LossIsRobbery(nodes, es, es', i);
      assert ts'[i].edgeAlias != ts[i].edgeAlias;
    }
  }
}
