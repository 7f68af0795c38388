/**
 Running node rows again: what a second run, or a run after a crash, adds to a node is what the rows before its birth
 add. The row lists without such additions are exactly those that can be run again on every graph.
 */
module MergeTwice {
  import opened Common
  import opened Ast
  import opened Semantics
  import opened Merge

  // ---- rows about a node as one SET ----

  function Overlay(base: NodeData, ops: seq<NodeOp>, from: nat, k: nat): map<string, Literal>
    requires k <= |ops|
  {
    if k <= from then map[]
    else if Hits(base, ops[k - 1]) then Overlay(base, ops, from, k - 1) + ops[k - 1].row.props
    else Overlay(base, ops, from, k - 1)
  }

  function Scopes(base: NodeData, ops: seq<NodeOp>, from: nat, k: nat): set<string>
    requires k <= |ops|
  {
    if k <= from then {}
    else if Hits(base, ops[k - 1]) then Scopes(base, ops, from, k - 1) + ops[k - 1].scopes
    else Scopes(base, ops, from, k - 1)
  }

  function Get(props: map<string, Literal>, k: string): Option<Literal> {
    if k in props then Some(props[k]) else None
  }

  lemma SetLookup(props: map<string, Literal>, new_: map<string, Literal>, k: string)
    ensures Get(SetProps(props, new_), k)
         == if k !in new_ then Get(props, k) else if new_[k] == Null then None else Some(new_[k])
  {
  }

  lemma SameLookups(a: map<string, Literal>, b: map<string, Literal>)
    requires forall k :: Get(a, k) == Get(b, k)
    ensures a == b
  {
    forall k ensures k in a <==> k in b {
      assert Get(a, k) == Get(b, k);
    }
    forall k | k in a ensures a[k] == b[k] {
      assert Get(a, k) == Get(b, k);
    }
  }

  /** One SET after another is a single one with the later values winning. */
  lemma SetTwice(props: map<string, Literal>, a: map<string, Literal>, b: map<string, Literal>)
    ensures SetProps(SetProps(props, a), b) == SetProps(props, a + b)
  {
    hide SetProps;
    forall k ensures Get(SetProps(SetProps(props, a), b), k) == Get(SetProps(props, a + b), k) {
      SetLookup(SetProps(props, a), b, k);
      SetLookup(props, a, k);
      SetLookup(props, a + b, k);
    }
    SameLookups(SetProps(SetProps(props, a), b), SetProps(props, a + b));
  }

  lemma SetAgain(props: map<string, Literal>, a: map<string, Literal>)
    ensures SetProps(SetProps(props, a), a) == SetProps(props, a) && SetProps(props, map[]) == props
  {
    SetTwice(props, a, a);
    assert a + a == a;
  }

  lemma {:induction false} FinalIsOverlay(base: NodeData, ops: seq<NodeOp>, from: nat, k: nat)
    requires k <= |ops|
    ensures FinalFrom(base, ops, from, k)
         == NodeData(base.labels + Scopes(base, ops, from, k), SetProps(base.props, Overlay(base, ops, from, k)))
  {
    hide Hits, SetProps;
    if k <= from {
      SetAgain(base.props, map[]);
    } else {
      FinalIsOverlay(base, ops, from, k - 1);
      SetTwice(base.props, Overlay(base, ops, from, k - 1), ops[k - 1].row.props);
    }
  }

  lemma {:induction false} SameOverlay(a: NodeData, b: NodeData, ops: seq<NodeOp>, from: nat, k: nat)
    requires k <= |ops| && forall i :: 0 <= i < |ops| ==> (Hits(a, ops[i]) <==> Hits(b, ops[i]))
    ensures Overlay(a, ops, from, k) == Overlay(b, ops, from, k) && Scopes(a, ops, from, k) == Scopes(b, ops, from, k)
  {
    hide Hits;
    if k > from {
      SameOverlay(a, b, ops, from, k - 1);
    }
  }

  lemma {:induction false} OverlaySplits(base: NodeData, ops: seq<NodeOp>, from: nat, mid: nat, k: nat)
    requires from <= mid <= k <= |ops|
    ensures Overlay(base, ops, from, k) == Overlay(base, ops, from, mid) + Overlay(base, ops, mid, k)
    ensures Scopes(base, ops, from, k) == Scopes(base, ops, from, mid) + Scopes(base, ops, mid, k)
  {
    hide Hits;
    if k > mid {
      OverlaySplits(base, ops, from, mid, k - 1);
    }
  }

  // ---- running over a finished node ----

  /** What a SET of `v` leaves. */
  function Left(v: Literal): Option<Literal> {
    if v == Null then None else Some(v)
  }

  /**
   The rows before `birth` give the node no label it lacks at the end, and every property they write is written again
   from `birth` on or is what the node started with.
   */
  ghost predicate Quiet(base: NodeData, ops: seq<NodeOp>, birth: nat)
    requires birth <= |ops|
  {
    && Scopes(base, ops, 0, birth) <= base.labels + Scopes(base, ops, birth, |ops|)
    && forall key :: key in Overlay(base, ops, 0, birth) && key !in Overlay(base, ops, birth, |ops|) ==>
         Get(base.props, key) == Left(Overlay(base, ops, 0, birth)[key])
  }

  /** A full run over a node that has seen rows `birth` to `k`, as one overlay of the node's start. */
  lemma RunOverFinished(base: NodeData, ops: seq<NodeOp>, birth: nat, k: nat)
    requires KeysKept(ops) && Apart(base.labels, ops) && birth <= k <= |ops|
    ensures FinalFrom(FinalFrom(base, ops, birth, k), ops, 0, |ops|) == FinalFrom(base, ops, 0, |ops|)
  {
    hide Hits, SetProps, KeysKept, Apart, Overlay, Scopes, FinalFrom;
    var n, now := |ops|, FinalFrom(base, ops, birth, k);
    forall i | 0 <= i < |ops| ensures Hits(now, ops[i]) <==> Hits(base, ops[i]) {
      HitsKept(base, ops, birth, k, i);
    }
    SameOverlay(now, base, ops, 0, n);
    FinalIsOverlay(base, ops, birth, k);
    FinalIsOverlay(now, ops, 0, n);
    FinalIsOverlay(base, ops, 0, n);
    var before, part, all := Overlay(base, ops, 0, birth), Overlay(base, ops, birth, k), Overlay(base, ops, 0, n);
    SetTwice(base.props, part, all);
    OverlaySplits(base, ops, 0, birth, n);
    OverlaySplits(base, ops, birth, k, n);
    assert part + all == all;
  }

  /** The run leaves the node as a run without a crash does exactly if the node is quiet. */
  lemma QuietDecides(base: NodeData, ops: seq<NodeOp>, birth: nat, k: nat)
    requires KeysKept(ops) && Apart(base.labels, ops) && birth <= k <= |ops|
    ensures FinalFrom(FinalFrom(base, ops, birth, k), ops, 0, |ops|) == FinalFrom(base, ops, birth, |ops|)
       <==> Quiet(base, ops, birth)
  {
    hide Hits, SetProps, KeysKept, Apart, Overlay, Scopes, FinalFrom;
    var n := |ops|;
    RunOverFinished(base, ops, birth, k);
    FinalIsOverlay(base, ops, 0, n);
    FinalIsOverlay(base, ops, birth, n);
    OverlaySplits(base, ops, 0, birth, n);
    var early, late := Overlay(base, ops, 0, birth), Overlay(base, ops, birth, n);
    forall key ensures Get(SetProps(base.props, early + late), key) == Get(SetProps(base.props, late), key)
                  <==> (key in early && key !in late ==> Get(base.props, key) == Left(early[key]))
    {
      SetLookup(base.props, early + late, key);
      SetLookup(base.props, late, key);
    }
    if Quiet(base, ops, birth) {
      SameLookups(SetProps(base.props, early + late), SetProps(base.props, late));
      assert base.labels + (Scopes(base, ops, 0, birth) + Scopes(base, ops, birth, n)) ==
               base.labels + Scopes(base, ops, birth, n);
    }
  }

  // ---- the nodes of a second run ----

  /** The bases of a run after a crash at row `k`: what stood there, then what the clean run makes later. */
  lemma {:induction false} BasesAfterCrash(nodes: seq<NodeData>, ops: seq<NodeOp>, k: nat, m: nat)
    requires KeysKept(ops) && KeysApart(nodes, ops) && k <= |ops| && m <= |ops|
    ensures var stood := Bases(nodes, ops, k);
            |Bases(nodes, ops, if m < k then k else m)| >= |stood|
            && Bases(Finals(stood, ops, k), ops, m)
            == Existing(Finals(stood, ops, k)) + Bases(nodes, ops, if m < k then k else m)[|stood|..]
    ensures m >= k ==> Bases(nodes, ops, k) <= Bases(nodes, ops, m)
  {
    hide Hits, Fresh, KeysKept, KeysApart, AnyHit, SomeHit, FinalFrom, Sound;
    var stood := Bases(nodes, ops, k);
    var now := Finals(stood, ops, k);
    if m > 0 {
      BasesAfterCrash(nodes, ops, k, m - 1);
      BasesSound(nodes, ops, k);
      FinalsHit(stood, ops, k, m - 1);
      if m <= k {
        BasesHit(nodes, ops, k);
        SomeHitExists(now, ops[m - 1]);
        assert stood[|stood|..] == [] && Existing(now) + [] == Existing(now);
        assert AnyHit(Existing(now), ops[m - 1]);
      } else {
        SameHits(stood, now, Bases(nodes, ops, m - 1)[|stood|..], ops[m - 1]);
        assert stood + Bases(nodes, ops, m - 1)[|stood|..] == Bases(nodes, ops, m - 1);
      }
    }
  }

  lemma SomeHitExists(nodes: seq<NodeData>, op: NodeOp)
    ensures AnyHit(Existing(nodes), op) <==> SomeHit(nodes, op)
  {
    hide Hits;
    if SomeHit(nodes, op) {
      var i :| 0 <= i < |nodes| && Hits(nodes[i], op);
      assert Hits(Existing(nodes)[i].node, op);
    }
  }

  lemma SameHits(stood: seq<Base>, now: seq<NodeData>, later: seq<Base>, op: NodeOp)
    requires |stood| == |now| && forall n :: 0 <= n < |stood| ==> (Hits(now[n], op) <==> Hits(stood[n].node, op))
    ensures AnyHit(Existing(now) + later, op) <==> AnyHit(stood + later, op)
  {
    hide Hits;
    var a, b := Existing(now) + later, stood + later;
    assert |a| == |b| && forall n :: 0 <= n < |a| ==> (Hits(a[n].node, op) <==> Hits(b[n].node, op));
    assert forall n :: 0 <= n < |b| && Hits(b[n].node, op) ==> Hits(a[n].node, op);
  }

  lemma ApartAfter(nodes: seq<NodeData>, ops: seq<NodeOp>, k: nat)
    requires KeysKept(ops) && KeysApart(nodes, ops) && k <= |ops|
    ensures KeysApart(Finals(Bases(nodes, ops, k), ops, k), ops)
  {
    hide Hits, KeysKept, FinalFrom, Bases;
    BasesSound(nodes, ops, k);
    var bases := Bases(nodes, ops, k);
    var now := Finals(bases, ops, k);
    forall n | 0 <= n < |now| ensures Apart(now[n].labels, ops) {
      forall i | 0 <= i < |ops| ensures ops[i].pattern.labels <= now[n].labels <==>
               ops[i].pattern.labels <= bases[n].node.labels {
        HitsKept(bases[n].node, ops, bases[n].birth, k, i);
      }
    }
  }

  /** A crash at row `k` and a full run agree with a clean run exactly if every node there at the crash is quiet. */
  lemma CrashAgrees(nodes: seq<NodeData>, ops: seq<NodeOp>, k: nat)
    requires KeysKept(ops) && KeysApart(nodes, ops) && k <= |ops|
    ensures RunOps(RunOps(nodes, ops[..k]), ops) == RunOps(nodes, ops)
       <==> forall i :: 0 <= i < |Bases(nodes, ops, k)| ==>
              Bases(nodes, ops, k)[i].birth <= |ops|
              && Quiet(Bases(nodes, ops, k)[i].node, ops, Bases(nodes, ops, k)[i].birth)
  {
    hide Hits, KeysKept, KeysApart, FinalFrom, Quiet, RunOps, Bases, Apart;
    var n, stood := |ops|, Bases(nodes, ops, k);
    var now := Finals(stood, ops, k);
    assert ops[..n] == ops;
    ClosedForm(nodes, ops, k);
    ClosedForm(nodes, ops, n);
    ApartAfter(nodes, ops, k);
    ClosedForm(now, ops, n);
    BasesAfterCrash(nodes, ops, k, n);
    BasesSound(nodes, ops, k);
    var clean, again := RunOps(nodes, ops), RunOps(now, ops);
    assert |clean| == |again|;
    forall i | 0 <= i < |stood| ensures again[i] == clean[i] <==> Quiet(stood[i].node, ops, stood[i].birth) {
      QuietDecides(stood[i].node, ops, stood[i].birth, k);
    }
    assert forall i :: |stood| <= i < |clean| ==> again[i] == clean[i];
  }

  // ---- which rows make nodes ----

  /** No earlier row's own node would match row `j`. */
  predicate Maker(ops: seq<NodeOp>, j: nat)
    requires j < |ops|
  {
    forall i :: 0 <= i < j ==> !Hits(Fresh(ops[i]), ops[j])
  }

  /** Every node a row can make is left alone by the rows before it. */
  ghost predicate Settles(ops: seq<NodeOp>) {
    forall j :: 0 <= j < |ops| && Maker(ops, j) ==> Quiet(Fresh(ops[j]), ops, j)
  }

  lemma HitsThrough(n: NodeData, a: NodeOp, b: NodeOp)
    requires Hits(n, a) && Hits(Fresh(a), b)
    ensures Hits(n, b)
  {
    EqualIsEquivalence(n.props[a.pattern.key], a.row.id, b.row.id);
  }

  /** Whatever the graph, a node is there from the start or is made by a maker. */
  lemma {:induction false} MadeByMakers(nodes: seq<NodeData>, ops: seq<NodeOp>, k: nat, i: nat)
    requires KeysKept(ops) && k <= |ops| && i < |Bases(nodes, ops, k)|
    ensures var b := Bases(nodes, ops, k)[i];
            b.birth == 0 || (b.birth < |ops| && b.node == Fresh(ops[b.birth]) && Maker(ops, b.birth))
  {
    hide Hits, Fresh, KeysKept, AnyHit;
    if k > 0 {
      var before := Bases(nodes, ops, k - 1);
      if i < |before| {
        MadeByMakers(nodes, ops, k - 1, i);
      } else {
        BasesHit(nodes, ops, k - 1);
        UnmatchedIsMaker(before, ops, k - 1);
      }
    }
  }

  lemma UnmatchedIsMaker(bases: seq<Base>, ops: seq<NodeOp>, j: nat)
    requires j < |ops| && EachHit(bases, ops, j) && !AnyHit(bases, ops[j])
    ensures Maker(ops, j)
  {
    hide Hits, Fresh;
    forall i | 0 <= i < j ensures !Hits(Fresh(ops[i]), ops[j]) {
      assert AnyHit(bases, ops[i]);
      var n :| 0 <= n < |bases| && Hits(bases[n].node, ops[i]);
      if Hits(Fresh(ops[i]), ops[j]) {
        HitsThrough(bases[n].node, ops[i], ops[j]);
      }
    }
  }

  /** On the empty graph every maker makes its node. */
  lemma {:induction false} MakersMake(ops: seq<NodeOp>, k: nat, j: nat)
    requires j < k <= |ops| && Maker(ops, j)
    ensures Base(Fresh(ops[j]), j) in Bases([], ops, k)
  {
    hide Hits, Fresh, AnyHit;
    if j < k - 1 {
      MakersMake(ops, k - 1, j);
    } else {
      AllMade(ops, j);
      var before := Bases([], ops, j);
      if AnyHit(before, ops[j]) {
        MatchedBy(before, ops[j]);
      }
      assert Bases([], ops, k) == before + [Base(Fresh(ops[j]), j)];
    }
  }

  lemma MatchedBy(bases: seq<Base>, op: NodeOp)
    requires AnyHit(bases, op)
    ensures exists i :: 0 <= i < |bases| && Hits(bases[i].node, op)
  {
  }

  lemma {:induction false} AllMade(ops: seq<NodeOp>, k: nat)
    requires k <= |ops|
    ensures forall i :: 0 <= i < |Bases([], ops, k)| ==>
              Bases([], ops, k)[i].birth < k && Bases([], ops, k)[i].node == Fresh(ops[Bases([], ops, k)[i].birth])
  {
    hide AnyHit, Fresh;
    if k > 0 {
      AllMade(ops, k - 1);
    }
  }

  lemma FirstIsQuiet(base: NodeData, ops: seq<NodeOp>)
    ensures Quiet(base, ops, 0)
  {
  }

  /** A crash at any row, then a full run: the nodes of one clean run. */
  lemma NodesAfterCrash(nodes: seq<NodeData>, ops: seq<NodeOp>, k: nat)
    requires KeysKept(ops) && KeysApart(nodes, ops) && Settles(ops) && k <= |ops|
    ensures RunOps(RunOps(nodes, ops[..k]), ops) == RunOps(nodes, ops)
  {
    hide KeysKept, KeysApart, Quiet, RunOps, Bases, Maker, Fresh;
    var stood := Bases(nodes, ops, k);
    forall i | 0 <= i < |stood| ensures stood[i].birth <= |ops| && Quiet(stood[i].node, ops, stood[i].birth) {
      MadeByMakers(nodes, ops, k, i);
      if stood[i].birth == 0 {
        FirstIsQuiet(stood[i].node, ops);
      }
    }
    CrashAgrees(nodes, ops, k);
  }

  /** Outside that the empty graph already shows it: running everything twice changes a node. */
  lemma UnsettledChanges(ops: seq<NodeOp>)
    requires KeysKept(ops) && KeysApart([], ops) && !Settles(ops)
    ensures RunOps(RunOps([], ops), ops) != RunOps([], ops)
  {
    hide KeysKept, KeysApart, Quiet, RunOps, Bases, Maker, Fresh;
    var j :| 0 <= j < |ops| && Maker(ops, j) && !Quiet(Fresh(ops[j]), ops, j);
    MakersMake(ops, |ops|, j);
    assert ops[..|ops|] == ops;
    CrashAgrees([], ops, |ops|);
  }

  /** Any crash on any graph can be run again if and only if the rows settle. */
  lemma SettlingDecides(ops: seq<NodeOp>)
    requires KeysKept(ops) && KeysApart([], ops)
    ensures (forall nodes: seq<NodeData>, k: nat :: KeysApart(nodes, ops) && k <= |ops| ==>
               RunOps(RunOps(nodes, ops[..k]), ops) == RunOps(nodes, ops))
       <==> Settles(ops)
  {
    hide KeysKept, KeysApart, Settles, RunOps;
    if Settles(ops) {
      forall nodes: seq<NodeData>, k: nat | KeysApart(nodes, ops) && k <= |ops|
        ensures RunOps(RunOps(nodes, ops[..k]), ops) == RunOps(nodes, ops)
      {
        NodesAfterCrash(nodes, ops, k);
      }
    } else {
      UnsettledChanges(ops);
      assert ops[..|ops|] == ops;
      var all := |ops|;
      assert RunOps(RunOps([], ops[..all]), ops) != RunOps([], ops);
    }
  }
}
