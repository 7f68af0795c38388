/**
 Crash and re-run: when running the statements of an insert again, or after a crash part-way, ends where one clean
 run ends.
 */
module Rerun {
  import opened Semantics
  import opened Insert
  import opened Merge
  import opened MergeRels
  import opened MergeTwice
  import opened Ingest

  function AllNodeOps(ss: seq<Statement>): seq<NodeOp>
    decreases |ss|
  {
    if ss == [] then [] else AllNodeOps(ss[..|ss| - 1]) + NodeOpsOf(ss[|ss| - 1])
  }

  function AllRelOps(ss: seq<Statement>): seq<RelOp>
    decreases |ss|
  {
    if ss == [] then [] else AllRelOps(ss[..|ss| - 1]) + RelOpsOf(ss[|ss| - 1])
  }

  /** Node statements first. */
  predicate NodesFirst(ss: seq<Statement>) {
    forall i, j :: 0 <= i < j < |ss| && ss[j].MergeNodes? ==> ss[i].MergeNodes?
  }

  lemma StatementsNodesFirst(q: InsertQuery, k: nat)
    requires k <= |Statements(q)|
    ensures NodesFirst(Statements(q)[..k])
  {
  }

  lemma {:induction false} RunOpsAppend(nodes: seq<NodeData>, a: seq<NodeOp>, b: seq<NodeOp>)
    ensures RunOps(nodes, a + b) == RunOps(RunOps(nodes, a), b)
    decreases |b|
  {
    hide RunOp;
    if b == [] {
      assert a + b == a;
    } else {
      assert (a + b)[..|a + b| - 1] == a + b[..|b| - 1];
      RunOpsAppend(nodes, a, b[..|b| - 1]);
    }
  }

  lemma {:induction false} RunRelsAppend(nodes: seq<NodeData>, rels: Rels, a: seq<RelOp>, b: seq<RelOp>)
    ensures RunRels(nodes, rels, a + b) == RunRels(nodes, RunRels(nodes, rels, a), b)
    decreases |b|
  {
    hide RunRel;
    if b == [] {
      assert a + b == a;
    } else {
      assert (a + b)[..|a + b| - 1] == a + b[..|b| - 1];
      RunRelsAppend(nodes, rels, a, b[..|b| - 1]);
    }
  }

  lemma {:induction false} NoRelOps(ss: seq<Statement>)
    requires forall i :: 0 <= i < |ss| ==> ss[i].MergeNodes?
    ensures AllRelOps(ss) == []
    decreases |ss|
  {
    if ss != [] {
      NoRelOps(ss[..|ss| - 1]);
    }
  }

  /** A run is all node rows, then all relation rows over the finished nodes. */
  lemma {:induction false} RunIsTwoPhases(g: Store, ss: seq<Statement>)
    requires NodesFirst(ss)
    ensures RunAll(g, ss)
         == Store(RunOps(g.nodes, AllNodeOps(ss)), RunRels(RunOps(g.nodes, AllNodeOps(ss)), g.rels, AllRelOps(ss)))
    decreases |ss|
  {
    hide RunOps, RunRels;
    NoOps(g);
    if ss != [] {
      var init, s := ss[..|ss| - 1], ss[|ss| - 1];
      RunIsTwoPhases(g, init);
      RunOpsAppend(g.nodes, AllNodeOps(init), NodeOpsOf(s));
      var nodes := RunOps(g.nodes, AllNodeOps(init));
      RunRelsAppend(nodes, g.rels, AllRelOps(init), RelOpsOf(s));
      NoOps(Store(nodes, RunRels(nodes, g.rels, AllRelOps(init))));
      if s.MergeNodes? {
        NoRelOps(init);
        NoOps(Store(RunOps(nodes, NodeOpsOf(s)), g.rels));
        NoOps(Store(nodes, g.rels));
      } else {
        assert AllNodeOps(init) + [] == AllNodeOps(init);
      }
    }
  }

  lemma NoOps(g: Store)
    ensures RunOps(g.nodes, []) == g.nodes && RunRels(g.nodes, g.rels, []) == g.rels
  {
  }

  /** Rows that, on this graph, do not disturb each other's matching. */
  ghost predicate Undisturbed(g: Store, ss: seq<Statement>) {
    KeysKept(AllNodeOps(ss)) && KeysApart(g.nodes, AllNodeOps(ss))
  }

  lemma {:induction false} OpsAppend(a: seq<Statement>, b: seq<Statement>)
    ensures AllNodeOps(a + b) == AllNodeOps(a) + AllNodeOps(b)
    ensures AllRelOps(a + b) == AllRelOps(a) + AllRelOps(b)
    decreases |b|
  {
    hide NodeOpsOf, RelOpsOf;
    if b == [] {
      assert a + b == a;
    } else {
      var init, last := b[..|b| - 1], b[|b| - 1];
      assert (a + b)[..|a + b| - 1] == a + init && (a + b)[|a + b| - 1] == last;
      OpsAppend(a, init);
      assert AllNodeOps(b) == AllNodeOps(init) + NodeOpsOf(last) && AllRelOps(b) == AllRelOps(init) + RelOpsOf(last);
    }
  }

  lemma {:induction false} NoNodeOps(ss: seq<Statement>)
    requires forall i :: 0 <= i < |ss| ==> ss[i].MergeRels?
    ensures AllNodeOps(ss) == []
    decreases |ss|
  {
    if ss != [] {
      NoNodeOps(ss[..|ss| - 1]);
    }
  }

  /** A crash cuts the node rows, or it comes after all of them and cuts the relation rows. */
  lemma CutsOnePhase(ss: seq<Statement>, k: nat)
    requires NodesFirst(ss) && k <= |ss|
    ensures AllRelOps(ss[..k]) == [] || AllNodeOps(ss[k..]) == []
    ensures AllNodeOps(ss) == AllNodeOps(ss[..k]) + AllNodeOps(ss[k..])
    ensures AllRelOps(ss) == AllRelOps(ss[..k]) + AllRelOps(ss[k..])
  {
    hide NodeOpsOf, RelOpsOf, AllNodeOps, AllRelOps;
    assert ss == ss[..k] + ss[k..];
    OpsAppend(ss[..k], ss[k..]);
    if k == |ss| || ss[k].MergeNodes? {
      if k == |ss| {
        NoNodeOps(ss[k..]);
      } else {
        NoRelOps(ss[..k]);
      }
    } else {
      NoNodeOps(ss[k..]);
    }
  }

  lemma {:induction false} RelsAfterCrash(nodes: seq<NodeData>, rels: Rels, a: seq<RelOp>, b: seq<RelOp>)
    ensures RunRels(nodes, RunRels(nodes, rels, a), a + b) == RunRels(nodes, rels, a + b)
  {
    RunRelsAppend(nodes, RunRels(nodes, rels, a), a, b);
    RelsTwice(nodes, rels, a);
    RunRelsAppend(nodes, rels, a, b);
  }

  /** The nodes after a crash and a full run, and then whole graphs: relation rows never make a difference. */
  lemma CrashIsAboutNodes(g: Store, ss: seq<Statement>, k: nat)
    requires NodesFirst(ss) && k <= |ss|
    ensures var ops, cut := AllNodeOps(ss), |AllNodeOps(ss[..k])|;
            && cut <= |ops|
            && (RunAll(RunAll(g, ss[..k]), ss) == RunAll(g, ss)
                <==> RunOps(RunOps(g.nodes, ops[..cut]), ops) == RunOps(g.nodes, ops))
  {
    hide RunOps, RunRels, AllNodeOps, AllRelOps, RunAll;
    var done, rest := ss[..k], ss[k..];
    CutsOnePhase(ss, k);
    var ops, cut := AllNodeOps(ss), |AllNodeOps(done)|;
    assert ops[..cut] == AllNodeOps(done);
    RunIsTwoPhases(g, done);
    RunIsTwoPhases(g, ss);
    RunIsTwoPhases(RunAll(g, done), ss);
    var nodes, again := RunOps(g.nodes, ops), RunOps(RunOps(g.nodes, ops[..cut]), ops);
    if again == nodes {
      if AllRelOps(done) == [] {
        NoOps(Store(RunOps(g.nodes, ops[..cut]), g.rels));
      } else {
        assert ops[..cut] == ops;
        RelsAfterCrash(nodes, g.rels, AllRelOps(done), AllRelOps(rest));
      }
    }
  }

  /** A crash after any number of statements, then a full run: the same graph as one clean run. */
  lemma CrashThenRerun(g: Store, q: InsertQuery, k: nat)
    requires Undisturbed(g, Statements(q)) && Settles(AllNodeOps(Statements(q))) && k <= |Statements(q)|
    ensures RunAll(RunAll(g, Statements(q)[..k]), Statements(q)) == RunAll(g, Statements(q))
  {
    hide Statements, RunAll, AllNodeOps, Settles, RunOps;
    StatementsNodesFirst(q, |Statements(q)|);
    assert Statements(q)[..|Statements(q)|] == Statements(q);
    CrashIsAboutNodes(g, Statements(q), k);
    NodesAfterCrash(g.nodes, AllNodeOps(Statements(q)), |AllNodeOps(Statements(q)[..k])|);
  }

  /** Running the same statements twice leaves what running them once leaves. */
  lemma RunTwice(g: Store, ss: seq<Statement>)
    requires NodesFirst(ss) && Undisturbed(g, ss) && Settles(AllNodeOps(ss))
    ensures RunAll(RunAll(g, ss), ss) == RunAll(g, ss)
  {
    hide RunAll, AllNodeOps, Settles, RunOps, KeysKept, KeysApart;
    assert ss[..|ss|] == ss;
    CrashIsAboutNodes(g, ss, |ss|);
    NodesAfterCrash(g.nodes, AllNodeOps(ss), |AllNodeOps(ss)|);
  }

  /** An insert may crash anywhere on any graph and be run again if and only if its rows settle. */
  lemma RerunDecides(q: InsertQuery)
    requires Undisturbed(Store([], map[]), Statements(q))
    ensures (forall g: Store, k: nat :: Undisturbed(g, Statements(q)) && k <= |Statements(q)| ==>
               RunAll(RunAll(g, Statements(q)[..k]), Statements(q)) == RunAll(g, Statements(q)))
       <==> Settles(AllNodeOps(Statements(q)))
  {
    hide Statements, RunAll, AllNodeOps, Settles, RunOps, KeysKept, KeysApart;
    var ss, empty := Statements(q), Store([], map[]);
    if Settles(AllNodeOps(ss)) {
      forall g: Store, k: nat | Undisturbed(g, ss) && k <= |ss|
        ensures RunAll(RunAll(g, ss[..k]), ss) == RunAll(g, ss) {
        CrashThenRerun(g, q, k);
      }
    } else {
      StatementsNodesFirst(q, |ss|);
      var all := |ss|;
      assert ss[..all] == ss;
      CrashIsAboutNodes(empty, ss, all);
      UnsettledChanges(AllNodeOps(ss));
      var ops := AllNodeOps(ss);
      assert ops[..|ops|] == ops;
      assert RunAll(RunAll(empty, ss[..all]), ss) != RunAll(empty, ss);
    }
  }
}
