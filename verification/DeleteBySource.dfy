/**
 Deleting a source (src/ingest/delete.rs, `delete_by_source` in src/core/pipeline.rs): discover, vector sweep and
 detach-delete, with a crash possible between any two.
 */
module DeleteBySource {
  import opened Common
  import opened Builtins

  datatype NodeInfo = NodeInfo(labels: set<string>, name: Option<string>)

  /** An edge from, of a type, to. */
  type Edge = (nat, string, nat)

  datatype State = State(nodes: map<nat, NodeInfo>, edges: set<Edge>, vectors: set<(string, nat)>)

  function PrefixLabels(prefix: Option<string>): set<string> {
    if prefix.Some? && prefix.value != "" then {prefix.value} else {}
  }

  predicate HasLabels(g: State, n: nat, labels: set<string>) {
    n in g.nodes && labels <= g.nodes[n].labels
  }

  // ---- what a run is about, node by node ----

  /** Has the label, and the prefix label unless there is none or it is empty. */
  predicate Labelled(g: State, n: nat, nodeLabel: string, prefix: Option<string>) {
    && n in g.nodes && nodeLabel in g.nodes[n].labels
    && (prefix.Some? && prefix.value != "" ==> prefix.value in g.nodes[n].labels)
  }

  predicate IsSource(g: State, s: nat, prefix: Option<string>) {
    Labelled(g, s, SOURCE_LABEL, prefix)
  }

  predicate IsNamed(g: State, s: nat, name: string, prefix: Option<string>) {
    IsSource(g, s, prefix) && g.nodes[s].name == Some(name)
  }

  predicate IsChunkOf(g: State, c: nat, s: nat, prefix: Option<string>) {
    Labelled(g, c, CHUNK_LABEL, prefix) && (c, PART_OF_REL, s) in g.edges
  }

  predicate Mentions(g: State, e: nat, s: nat) {
    e in g.nodes && (e, MENTION_REL, s) in g.edges
  }

  /** Mentions this source and no other of the prefix. */
  ghost predicate OnlyHere(g: State, e: nat, s: nat, prefix: Option<string>) {
    Mentions(g, e, s) && forall o :: IsSource(g, o, prefix) && Mentions(g, e, o) ==> o == s
  }

  /** A source of the name that nothing mentions or something mentions alone. */
  ghost predicate Found(g: State, name: string, prefix: Option<string>, s: nat) {
    IsNamed(g, s, name, prefix) && ((forall e :: !Mentions(g, e, s)) || exists e :: OnlyHere(g, e, s, prefix))
  }

  /** The source, its orphans and its chunks. */
  ghost predicate Goes(g: State, s: nat, prefix: Option<string>, n: nat) {
    n == s || OnlyHere(g, n, s, prefix) || IsChunkOf(g, n, s, prefix)
  }

  ghost function Orphans(g: State, s: nat, prefix: Option<string>): set<nat> {
    set e | e in g.nodes && OnlyHere(g, e, s, prefix)
  }

  ghost function Chunks(g: State, s: nat, prefix: Option<string>): set<nat> {
    set c | c in g.nodes && IsChunkOf(g, c, s, prefix)
  }

  /**
   The state `steps` writing steps into a run for `s`: first the vectors of what goes are swept, then the nodes go with
   every edge at them. Everything else is as it was.
   */
  ghost predicate Left(g: State, end: State, s: nat, prefix: Option<string>, steps: nat) {
    && (forall n: nat :: n in end.nodes <==> n in g.nodes && !(steps >= 2 && Goes(g, s, prefix, n)))
    && (forall n: nat :: n in end.nodes ==> end.nodes[n] == g.nodes[n])
    && (forall e: Edge :: e in end.edges <==>
          e in g.edges && !(steps >= 2 && (Goes(g, s, prefix, e.0) || Goes(g, s, prefix, e.2))))
    && (forall v: (string, nat) :: v in end.vectors <==> v in g.vectors && !(steps >= 1 && Goes(g, s, prefix, v.1)))
  }

  // ---- the discover query, stage by stage ----

  function SourcesNamed(g: State, name: string, prefix: Option<string>): set<nat> {
    set s | s in g.nodes && HasLabels(g, s, {SOURCE_LABEL} + PrefixLabels(prefix)) && g.nodes[s].name == Some(name)
  }

  /** The first OPTIONAL MATCH: who mentions the source; a null when nobody does. */
  function Mentioning(g: State, s: nat): set<Option<nat>> {
    var es := set e | e in g.nodes && (e, MENTION_REL, s) in g.edges :: Some(e);
    if es == {} then {None} else es
  }

  /** The second one, collected: the sources of this prefix a node mentions. */
  function MentionedBy(g: State, e: nat, prefix: Option<string>): set<nat> {
    set o | o in g.nodes && HasLabels(g, o, {SOURCE_LABEL} + PrefixLabels(prefix)) && (e, MENTION_REL, o) in g.edges
  }

  /** The WHERE over the groups. */
  predicate Passes(g: State, s: nat, e: Option<nat>, prefix: Option<string>) {
    match e
    case None => true
    case Some(id) => var mentioned := MentionedBy(g, id, prefix); |mentioned| == 1 && s in mentioned
  }

  function Kept(g: State, s: nat, prefix: Option<string>): set<Option<nat>> {
    set e | e in Mentioning(g, s) && Passes(g, s, e, prefix)
  }

  function OrphanIds(g: State, s: nat, prefix: Option<string>): set<nat> {
    set e | e in Kept(g, s, prefix) && e.Some? :: e.value
  }

  function ChunkIds(g: State, s: nat, prefix: Option<string>): set<nat> {
    set c | c in g.nodes && HasLabels(g, c, {CHUNK_LABEL} + PrefixLabels(prefix)) && (c, PART_OF_REL, s) in g.edges
  }

  /** A source whose groups were all filtered out has no row left. */
  predicate HasRow(g: State, name: string, prefix: Option<string>, s: nat) {
    s in SourcesNamed(g, name, prefix) && Kept(g, s, prefix) != {}
  }

  function Doomed(g: State, s: nat, prefix: Option<string>): set<nat> {
    {s} + OrphanIds(g, s, prefix) + ChunkIds(g, s, prefix)
  }

  // ---- the two writing steps ----

  function Swept(g: State, ids: set<nat>): State {
    g.(vectors := set v | v in g.vectors && v.1 !in ids)
  }

  function Detached(g: State, ids: set<nat>): State {
    g.(nodes := map n | n in g.nodes && n !in ids :: g.nodes[n],
       edges := set e | e in g.edges && e.0 !in ids && e.2 !in ids)
  }

  /** The state after `steps` of the writing steps for source `s`. */
  function After(g: State, s: nat, prefix: Option<string>, steps: nat): State {
    var ids := Doomed(g, s, prefix);
    if steps == 0 then g else if steps == 1 then Swept(g, ids) else Detached(Swept(g, ids), ids)
  }

  // ---- what is an orphan, and when the source is found ----

  lemma SingletonIs(xs: set<nat>, x: nat)
    ensures |xs| == 1 && x in xs <==> xs == {x}
  {
    if |xs| == 1 && x in xs {
      assert |xs - {x}| == 0;
      assert xs == {x} + (xs - {x});
    }
  }

  lemma LabelsAre(g: State, n: nat, nodeLabel: string, prefix: Option<string>)
    ensures HasLabels(g, n, {nodeLabel} + PrefixLabels(prefix)) <==> Labelled(g, n, nodeLabel, prefix)
  {
    if prefix.Some? && prefix.value != "" && HasLabels(g, n, {nodeLabel} + PrefixLabels(prefix)) {
      assert prefix.value in {nodeLabel} + PrefixLabels(prefix);
    }
    assert nodeLabel in {nodeLabel} + PrefixLabels(prefix);
  }

  lemma NamedAre(g: State, name: string, prefix: Option<string>, s: nat)
    ensures s in SourcesNamed(g, name, prefix) <==> IsNamed(g, s, name, prefix)
  {
    LabelsAre(g, s, SOURCE_LABEL, prefix);
  }

  /** The chunks the query collects: nodes with the chunk label, and the prefix label, that are part of this source. */
  lemma ChunksAre(g: State, s: nat, prefix: Option<string>, c: nat)
    ensures c in ChunkIds(g, s, prefix) <==> IsChunkOf(g, c, s, prefix)
  {
    LabelsAre(g, c, CHUNK_LABEL, prefix);
  }

  lemma OrphansAre(g: State, s: nat, prefix: Option<string>, e: nat)
    requires IsSource(g, s, prefix)
    ensures e in OrphanIds(g, s, prefix) <==> OnlyHere(g, e, s, prefix)
  {
    var mentioned := MentionedBy(g, e, prefix);
    SingletonIs(mentioned, s);
    forall o: nat ensures o in mentioned <==> IsSource(g, o, prefix) && (e, MENTION_REL, o) in g.edges {
      LabelsAre(g, o, SOURCE_LABEL, prefix);
    }
    hide Labelled;
    MentioningAre(g, s, e);
    if OnlyHere(g, e, s, prefix) {
      forall o | o in mentioned ensures o == s {
        assert Mentions(g, e, o);
      }
      assert mentioned == {s};
      assert Some(e) in Kept(g, s, prefix);
    }
    if e in OrphanIds(g, s, prefix) {
      assert Some(e) in Kept(g, s, prefix) && mentioned == {s};
      forall o | IsSource(g, o, prefix) && Mentions(g, e, o) ensures o == s {
        assert o in mentioned;
      }
    }
  }

  lemma MentioningAre(g: State, s: nat, e: nat)
    ensures Some(e) in Mentioning(g, s) <==> Mentions(g, e, s)
    ensures None in Mentioning(g, s) ==> !Mentions(g, e, s)
    ensures (forall x :: !Mentions(g, x, s)) ==> None in Mentioning(g, s)
  {
    var es := set x | x in g.nodes && (x, MENTION_REL, s) in g.edges :: Some(x);
    assert Mentions(g, e, s) ==> Some(e) in es;
    assert forall y :: y in es ==> y.Some? && Mentions(g, y.value, s);
  }

  /**
   A source is found exactly if nothing mentions it or something mentions it alone. A source all of whose entities are
   shared yields no row: it is reported as not found and nothing is deleted.
   */
  lemma FoundExactlyWhen(g: State, name: string, prefix: Option<string>, s: nat)
    ensures HasRow(g, name, prefix, s) <==> Found(g, name, prefix, s)
  {
    hide SourcesNamed, Labelled, OnlyHere, Mentions;
    NamedAre(g, name, prefix, s);
    if IsNamed(g, s, name, prefix) {
      if e :| OnlyHere(g, e, s, prefix) {
        OrphansAre(g, s, prefix, e);
      }
      if forall e :: !Mentions(g, e, s) {
        MentioningAre(g, s, 0);
        assert None in Kept(g, s, prefix);
      }
      if k :| k in Kept(g, s, prefix) {
        if k.Some? {
          assert k.value in OrphanIds(g, s, prefix);
          OrphansAre(g, s, prefix, k.value);
        } else {
          forall e ensures !Mentions(g, e, s) {
            MentioningAre(g, s, e);
          }
        }
      }
    }
  }

  lemma DoomedGo(g: State, s: nat, prefix: Option<string>, n: nat)
    requires IsSource(g, s, prefix)
    ensures n in Doomed(g, s, prefix) <==> Goes(g, s, prefix, n)
  {
    OrphansAre(g, s, prefix, n);
    ChunksAre(g, s, prefix, n);
  }

  /** What the two writing steps leave, spelled node by node. */
  lemma AfterIsLeft(g: State, s: nat, prefix: Option<string>, steps: nat)
    requires IsSource(g, s, prefix)
    ensures Left(g, After(g, s, prefix, steps), s, prefix, steps)
  {
    hide Goes, Doomed;
    forall n: nat ensures n in Doomed(g, s, prefix) <==> Goes(g, s, prefix, n) {
      DoomedGo(g, s, prefix, n);
    }
  }

  /** Two states that are left by the same run are the same. */
  lemma LeftIsUnique(g: State, end: State, end': State, s: nat, prefix: Option<string>, steps: nat)
    requires Left(g, end, s, prefix, steps) && Left(g, end', s, prefix, steps)
    ensures end == end'
  {
    hide Goes;
    assert end.nodes == end'.nodes && end.edges == end'.edges && end.vectors == end'.vectors;
  }

  /** The summary counts the orphans and the chunks. */
  lemma CountsAre(g: State, s: nat, prefix: Option<string>)
    requires IsSource(g, s, prefix)
    ensures OrphanIds(g, s, prefix) == Orphans(g, s, prefix) && ChunkIds(g, s, prefix) == Chunks(g, s, prefix)
  {
    hide OrphanIds, ChunkIds;
    forall n: nat ensures n in OrphanIds(g, s, prefix) <==> OnlyHere(g, n, s, prefix)
      ensures n in ChunkIds(g, s, prefix) <==> IsChunkOf(g, n, s, prefix)
    {
      OrphansAre(g, s, prefix, n);
      ChunksAre(g, s, prefix, n);
    }
  }

  datatype Summary = Summary(sourceFound: bool, orphanEntities: nat, chunks: nat, sources: nat)

  class Backend {
    var state: State
    /** How many more writing statements succeed before one fails. */
    var budget: Option<nat>

    constructor (state: State, budget: Option<nat>)
      ensures this.state == state && this.budget == budget
    {
      this.state, this.budget := state, budget;
    }

    /** The first row of the discover query. */
    method Discover(name: string, prefix: Option<string>) returns (row: Option<(nat, set<nat>, set<nat>)>)
      ensures row.None? <==> forall s :: !HasRow(state, name, prefix, s)
      ensures row.Some? ==> HasRow(state, name, prefix, row.value.0)
                            && row.value == (row.value.0, OrphanIds(state, row.value.0, prefix),
                                             ChunkIds(state, row.value.0, prefix))
    {
      var rows := set s | s in SourcesNamed(state, name, prefix) && HasRow(state, name, prefix, s);
      if rows == {} {
        assert forall s :: HasRow(state, name, prefix, s) ==> s in rows;
        return None;
      }
      var s :| s in rows;
      row := Some((s, OrphanIds(state, s, prefix), ChunkIds(state, s, prefix)));
    }

    method Sweep(ids: set<nat>) returns (ok: bool)
      modifies this
      ensures ok <==> old(budget) != Some(0)
      ensures state == if ok then Swept(old(state), ids) else old(state)
      ensures budget == if ok && old(budget).Some? then Some(old(budget).value - 1) else old(budget)
    {
      ok := budget != Some(0);
      if ok {
        state := Swept(state, ids);
        budget := if budget.Some? then Some(budget.value - 1) else None;
      }
    }

    method DetachDelete(ids: set<nat>) returns (ok: bool)
      modifies this
      ensures ok <==> old(budget) != Some(0)
      ensures state == if ok then Detached(old(state), ids) else old(state)
      ensures budget == if ok && old(budget).Some? then Some(old(budget).value - 1) else old(budget)
    {
      ok := budget != Some(0);
      if ok {
        state := Detached(state, ids);
        budget := if budget.Some? then Some(budget.value - 1) else None;
      }
    }

    /** `s` is the source the run was about, if it found one. */
    method Delete(name: string, prefix: Option<string>) returns (r: Option<Summary>, s: Option<nat>, steps: nat)
      modifies this
      ensures s.None? <==> forall x :: !Found(old(state), name, prefix, x)
      ensures s.None? ==> r == Some(Summary(false, 0, 0, 0)) && state == old(state)
      ensures s.Some? ==>
                && Found(old(state), name, prefix, s.value) && Left(old(state), state, s.value, prefix, steps)
                && state == After(old(state), s.value, prefix, steps)
                && steps == (if old(budget).None? || old(budget).value > 2 then 2 else old(budget).value)
                && (r.Some? <==> steps == 2)
                && (r.Some? ==> r.value == Summary(true, |Orphans(old(state), s.value, prefix)|,
                                                   |Chunks(old(state), s.value, prefix)|, 1))
    {
      hide HasRow, OrphanIds, ChunkIds, Swept, Detached, Found, Left, OnlyHere, IsChunkOf;
      hide Orphans, Chunks;
      ghost var g := state;
      forall x ensures HasRow(g, name, prefix, x) <==> Found(g, name, prefix, x) {
        FoundExactlyWhen(g, name, prefix, x);
      }
      steps := 0;
      var row := Discover(name, prefix);
      if row.None? {
        return Some(Summary(false, 0, 0, 0)), None, 0;
      }
      var (source, orphans, chunks) := row.value;
      assert IsSource(g, source, prefix) by {
        FoundIsSource(g, name, prefix, source);
      }
      forall k: nat ensures Left(g, After(g, source, prefix, k), source, prefix, k) {
        AfterIsLeft(g, source, prefix, k);
      }
      CountsAre(g, source, prefix);
      s := Some(source);
      var ids := {source} + orphans + chunks;
      var swept := Sweep(ids);
      if !swept {
        assert state == After(g, source, prefix, 0);
        return None, s, 0;
      }
      var deleted := DetachDelete(ids);
      if !deleted {
        assert state == After(g, source, prefix, 1);
        return None, s, 1;
      }
      assert state == After(g, source, prefix, 2);
      r, steps := Some(Summary(true, |orphans|, |chunks|, 1)), 2;
    }
  }

  lemma FoundIsSource(g: State, name: string, prefix: Option<string>, s: nat)
    requires Found(g, name, prefix, s)
    ensures IsSource(g, s, prefix) && IsNamed(g, s, name, prefix)
  {
  }

  // ---- runs with a crash anywhere ----

  /** Every vector belongs to a node that is there. */
  predicate NoStrayVectors(g: State) {
    forall v :: v in g.vectors ==> v.1 in g.nodes
  }

  /** The sweep comes before the delete, so a crash anywhere leaves no vector behind whose node is gone. */
  lemma NeverStray(g: State, s: nat, prefix: Option<string>, steps: nat)
    requires NoStrayVectors(g)
    ensures NoStrayVectors(After(g, s, prefix, steps))
  {
  }

  /**
   Exactly the source, its orphans and its chunks go; every other node, a chunk of another source too, keeps its data,
   its vectors and its remaining edges.
   */
  lemma NothingElseGoes(g: State, name: string, prefix: Option<string>, s: nat, n: nat)
    requires Found(g, name, prefix, s) && n in g.nodes
    ensures var end := After(g, s, prefix, 2);
            if n == s || OnlyHere(g, n, s, prefix) || IsChunkOf(g, n, s, prefix)
            then n !in end.nodes && forall c :: (c, n) !in end.vectors
            else n in end.nodes && end.nodes[n] == g.nodes[n]
                 && (forall c :: (c, n) in end.vectors <==> (c, n) in g.vectors)
                 && forall t, m: nat :: (n, t, m) in end.edges <==> (n, t, m) in g.edges && !Goes(g, s, prefix, m)
  {
    hide OnlyHere, IsChunkOf, After;
    FoundIsSource(g, name, prefix, s);
    AfterIsLeft(g, s, prefix, 2);
    var end := After(g, s, prefix, 2);
    forall t, m: nat ensures (n, t, m) in end.edges <==>
                    (n, t, m) in g.edges && !Goes(g, s, prefix, n) && !Goes(g, s, prefix, m) {
      var e: Edge := (n, t, m);
      assert e in end.edges <==> e in g.edges && !(Goes(g, s, prefix, e.0) || Goes(g, s, prefix, e.2));
    }
  }

  /** An entity another source of the prefix mentions survives with its vectors, at whatever point the run stops. */
  lemma SharedSurvives(g: State, name: string, prefix: Option<string>, s: nat, e: nat, other: nat, steps: nat)
    requires Found(g, name, prefix, s) && Mentions(g, e, other) && IsSource(g, other, prefix) && other != s
    requires e != s && !IsChunkOf(g, e, s, prefix)
    ensures var end := After(g, s, prefix, steps);
            && e in end.nodes && end.nodes[e] == g.nodes[e]
            && forall c :: (c, e) in end.vectors <==> (c, e) in g.vectors
  {
    hide IsChunkOf, After, Labelled;
    FoundIsSource(g, name, prefix, s);
    AfterIsLeft(g, s, prefix, steps);
  }

  /** Discovery reads no vector, so a sweep does not change what the next run finds. */
  lemma SweepHidesNothing(g: State, ids: set<nat>, name: string, prefix: Option<string>, s: nat)
    ensures HasRow(Swept(g, ids), name, prefix, s) <==> HasRow(g, name, prefix, s)
    ensures Doomed(Swept(g, ids), s, prefix) == Doomed(g, s, prefix)
  {
    var h := Swept(g, ids);
    assert SourcesNamed(h, name, prefix) == SourcesNamed(g, name, prefix);
    assert Mentioning(h, s) == Mentioning(g, s);
    forall e: nat ensures MentionedBy(h, e, prefix) == MentionedBy(g, e, prefix) {
    }
    assert Kept(h, s, prefix) == Kept(g, s, prefix);
    assert OrphanIds(h, s, prefix) == OrphanIds(g, s, prefix);
    assert ChunkIds(h, s, prefix) == ChunkIds(g, s, prefix);
  }

  /** All vectors a sweep for `s` removes are ones a sweep for `x` removes too. */
  ghost predicate SweepsWithin(g: State, s: nat, x: nat, prefix: Option<string>) {
    forall v :: v in g.vectors && Goes(g, s, prefix, v.1) ==> Goes(g, x, prefix, v.1)
  }

  /**
   A run for a name that crashed before or after its sweep, then a full run for the name. The re-run chooses among the
   sources the first run could choose from. It ends where one clean run for its source ends exactly if the first run
   had swept nothing yet, or nothing that its own source keeps; so it always does when the name has one source.
   */
  lemma CrashThenRerun(g: State, name: string, prefix: Option<string>, s: nat, steps: nat, x: nat)
    requires Found(g, name, prefix, s) && steps < 2
    ensures Found(After(g, s, prefix, steps), name, prefix, x) <==> Found(g, name, prefix, x)
    ensures Found(g, name, prefix, x) ==>
              (After(After(g, s, prefix, steps), x, prefix, 2) == After(g, x, prefix, 2)
               <==> steps == 0 || SweepsWithin(g, s, x, prefix))
    ensures SweepsWithin(g, s, s, prefix)
    ensures Found(g, name, prefix, x) && (forall y :: IsNamed(g, y, name, prefix) ==> y == s) ==> x == s
  {
    var ids, others := Doomed(g, s, prefix), Doomed(g, x, prefix);
    FoundExactlyWhen(g, name, prefix, x);
    FoundExactlyWhen(After(g, s, prefix, steps), name, prefix, x);
    SweepHidesNothing(g, ids, name, prefix, s);
    SweepHidesNothing(g, ids, name, prefix, x);
    SweepHidesNothing(g, others, name, prefix, x);
    FoundIsSource(g, name, prefix, s);
    hide Doomed, Kept, Goes, Found;
    if steps == 1 && Found(g, name, prefix, x) {
      FoundIsSource(g, name, prefix, x);
      SweptTwice(g, ids, others);
      forall n: nat ensures n in ids <==> Goes(g, s, prefix, n)
                    ensures n in others <==> Goes(g, x, prefix, n) {
        DoomedGo(g, s, prefix, n);
        DoomedGo(g, x, prefix, n);
      }
    }
    if Found(g, name, prefix, x) {
      FoundIsSource(g, name, prefix, x);
    }
  }

  lemma SweptTwice(g: State, ids: set<nat>, others: set<nat>)
    ensures Detached(Swept(Swept(g, ids), others), others) == Detached(Swept(g, others), others) <==>
            forall v :: v in g.vectors && v.1 in ids ==> v.1 in others
  {
    var both, one := Swept(Swept(g, ids), others), Swept(g, others);
    assert Detached(both, others).vectors == both.vectors && Detached(one, others).vectors == one.vectors;
    if forall v :: v in g.vectors && v.1 in ids ==> v.1 in others {
      assert both.vectors == one.vectors;
    } else {
      var v :| v in g.vectors && v.1 in ids && v.1 !in others;
      assert v in one.vectors && v !in both.vectors;
    }
  }

  lemma NamedBefore(g: State, end: State, name: string, s: nat, prefix: Option<string>, steps: nat, x: nat)
    requires Left(g, end, s, prefix, steps)
    ensures IsNamed(end, x, name, prefix) ==> IsNamed(g, x, name, prefix) && x in end.nodes
  {
  }

  /**
   After a finished run the source is gone: with no second source of that name a re-run finds nothing and changes
   nothing.
   */
  lemma FinishedIsFinal(g: State, name: string, prefix: Option<string>, s: nat, x: nat)
    requires Found(g, name, prefix, s) && forall y :: IsNamed(g, y, name, prefix) ==> y == s
    ensures !Found(After(g, s, prefix, 2), name, prefix, x)
  {
    hide OnlyHere, IsChunkOf, After;
    FoundIsSource(g, name, prefix, s);
    AfterIsLeft(g, s, prefix, 2);
    assert Goes(g, s, prefix, s);
    NamedBefore(g, After(g, s, prefix, 2), name, s, prefix, 2, x);
  }

  // ---- the shared-entity case, concretely ----

  /** Two sources that mention the same person, and nothing else. */
  function TwoReports(): State {
    State(map[0 := NodeInfo({SOURCE_LABEL}, Some("a")), 1 := NodeInfo({SOURCE_LABEL}, Some("b")),
              2 := NodeInfo({"Person"}, Some("p"))],
          {(2, MENTION_REL, 0), (2, MENTION_REL, 1)}, {("text", 2)})
  }

  /** The source exists, yet no run ever deletes it. */
  lemma SharedSourceIsNotFound()
    ensures IsNamed(TwoReports(), 0, "a", None) && !Found(TwoReports(), "a", None, 0)
  {
    var g := TwoReports();
    assert Mentions(g, 2, 0) && Mentions(g, 2, 1) && IsSource(g, 1, None);
    forall e ensures !OnlyHere(g, e, 0, None) {
      if Mentions(g, e, 0) {
        assert e == 2;
      }
    }
  }
}
