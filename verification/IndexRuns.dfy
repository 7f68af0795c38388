/** What holds over any sequence of `ensure_indexed` calls, whatever their models, failing wherever they fail. */
module IndexRuns {
  import opened ModelCalls
  import opened EmbeddingStores
  import opened Indexing
  import opened PointIds

  /** The model an id is made with, and its dimension. */
  datatype Setting = Setting(model: string, dim: nat)

  datatype Run = Run(setting: Setting, passages: seq<Passage>, chunks: nat, vectors: seq<Vector>,
                     made: seq<seq<string>>, ok: bool)

  function IdUnder(setting: Setting, p: Passage): Id {
    PointId(setting.model, setting.dim, p)
  }

  function BacklogOf(stored: Points, run: Run): seq<Entry> {
    Backlog(stored, run.setting.model, run.setting.dim, run.passages)
  }

  ghost predicate IsRun(before: Points, after: Points, run: Run) {
    Ran(before, after, BacklogOf(before, run), run.chunks, run.vectors, run.made, run.ok)
  }

  /** `states[i]` is what the store holds before run `i`. */
  ghost predicate IsHistory(states: seq<Points>, runs: seq<Run>) {
    && |states| == |runs| + 1
    && forall i :: 0 <= i < |runs| ==> IsRun(states[i], states[i + 1], runs[i])
  }

  ghost predicate Keeps(before: Points, after: Points) {
    forall id :: id in before ==> id in after && after[id] == before[id]
  }

  predicate Stored(points: Points, run: Run) {
    forall i :: 0 <= i < |run.passages| ==> IdUnder(run.setting, run.passages[i]) in points
  }

  lemma RunKeeps(before: Points, after: Points, run: Run)
    requires IsRun(before, after, run)
    ensures Keeps(before, after)
    ensures run.ok ==> Stored(after, run)
    ensures forall id :: id in after ==> id in before || exists p :: p in run.passages && IdUnder(run.setting, p) == id
  {
    hide PointId, Backlog;
    BacklogIsFresh(before, run.setting.model, run.setting.dim, run.passages);
    var entries := BacklogOf(before, run);
    forall id | id in after && id !in before ensures exists p :: p in run.passages && IdUnder(run.setting, p) == id {
      var i :| 0 <= i < |entries| && entries[i].id == id;
      assert entries[i] in entries;
      var k: nat :| EntryFor(entries[i], run.setting.model, run.setting.dim, run.passages, k);
      assert run.passages[k] in run.passages && IdUnder(run.setting, run.passages[k]) == id;
    }
  }

  /** Points are never lost or overwritten, and what a successful call indexed stays indexed. */
  lemma {:induction false} StoredForever(states: seq<Points>, runs: seq<Run>, i: nat, j: nat)
    requires IsHistory(states, runs) && i <= j <= |runs|
    ensures Keeps(states[i], states[j])
    ensures i < j && runs[i].ok ==> Stored(states[j], runs[i])
    decreases j
  {
    hide IsRun, IdUnder;
    if i < j {
      StoredForever(states, runs, i, j - 1);
      RunKeeps(states[j - 1], states[j], runs[j - 1]);
    }
  }

  /** An id enters the store in one run only: what a run embeds was not there before it, and is never embedded again. */
  lemma EmbeddedOnce(states: seq<Points>, runs: seq<Run>, i: nat, j: nat, e: Entry)
    requires IsHistory(states, runs) && i < j < |runs|
    requires e.id in states[i + 1]
    ensures !Listed(BacklogOf(states[j], runs[j]), e.id)
  {
    hide PointId, Backlog, IsRun;
    StoredForever(states, runs, i + 1, j);
    BacklogIsFresh(states[j], runs[j].setting.model, runs[j].setting.dim, runs[j].passages);
  }

  // ---- switching models ----

  ghost predicate AllShaped(passages: seq<Passage>) {
    forall p :: p in passages ==> Shaped(p)
  }

  ghost predicate SettingsMeet(a: Setting, b: Setting) {
    Meet(a.model, a.dim, b.model, b.dim)
  }

  /** Whatever a store that began empty holds was asked for by an earlier run. */
  lemma {:induction false} Origin(states: seq<Points>, runs: seq<Run>, j: nat, id: Id) returns (i: nat, p: Passage)
    requires IsHistory(states, runs) && states[0] == map[] && j <= |runs| && id in states[j]
    ensures i < j && p in runs[i].passages && IdUnder(runs[i].setting, p) == id
    decreases j
  {
    hide IsRun, IdUnder;
    RunKeeps(states[j - 1], states[j], runs[j - 1]);
    if id in states[j - 1] {
      i, p := Origin(states, runs, j - 1, id);
    } else {
      i := j - 1;
      p :| p in runs[i].passages && IdUnder(runs[i].setting, p) == id;
    }
  }

  /**
   Through any history over models that do not meet, a point a run finds already indexed was asked for by an earlier
   run of its own model and dimension: a switch never reuses a vector of another model.
   */
  lemma SwitchesNeverMix(states: seq<Points>, runs: seq<Run>, j: nat, p: Passage) returns (i: nat)
    requires IsHistory(states, runs) && states[0] == map[] && j < |runs|
    requires forall k :: 0 <= k < |runs| ==> AllShaped(runs[k].passages)
    requires forall k, l :: 0 <= k < |runs| && 0 <= l < |runs| && SettingsMeet(runs[k].setting, runs[l].setting) ==>
               runs[k].setting == runs[l].setting
    requires p in runs[j].passages && IdUnder(runs[j].setting, p) in states[j]
    ensures i < j && runs[i].setting == runs[j].setting
    ensures exists other :: other in runs[i].passages && IdUnder(runs[i].setting, other) == IdUnder(runs[j].setting, p)
  {
    hide IsRun, PointId, Shaped;
    var other;
    i, other := Origin(states, runs, j, IdUnder(runs[j].setting, p));
    assert SettingsMeet(runs[i].setting, runs[j].setting);
  }

  /** Two settings that do meet: the second run finds its passage indexed by the first, with the first one's vector. */
  lemma MeetingMixes(a: Setting, b: Setting, v: Vector) returns (states: seq<Points>, runs: seq<Run>)
    requires SettingsMeet(a, b)
    ensures |runs| == 2 && IsHistory(states, runs) && states[0] == map[]
    ensures runs[0].setting == a && runs[1].setting == b && runs[0].ok && runs[1].ok
    ensures |runs[1].passages| == 1 && Shaped(runs[1].passages[0]) && runs[1].made == []
    ensures IdUnder(b, runs[1].passages[0]) in states[2] && states[2][IdUnder(b, runs[1].passages[0])].vector == v
  {
    hide PointId, Shaped;
    var p, q :| Shaped(p) && Shaped(q) && PointId(a.model, a.dim, p) == PointId(b.model, b.dim, q);
    var id := IdUnder(a, p);
    var full: Points := map[id := Point(v, p.payload)];
    var one, two := Run(a, [p], 1, [v], [[p.text]], true), Run(b, [q], 0, [], [], true);
    states, runs := [map[], full, full], [one, two];
    OneEntry(a, p, map[]);
    OneEntry(b, q, full);
    FirstRun(map[], full, EntryOf(a.model, a.dim, p), v);
    NothingRan(full, []);
    assert IsRun(map[], full, one) && IsRun(full, full, two);
  }

  lemma OneEntry(setting: Setting, p: Passage, stored: Points)
    ensures Backlog(stored, setting.model, setting.dim, [p])
         == if IdUnder(setting, p) in stored then [] else [EntryOf(setting.model, setting.dim, p)]
  {
    hide PointId;
    assert [p][..0] == [];
    NoBacklog(stored, setting.model, setting.dim);
  }

  lemma FirstRun(before: Points, after: Points, e: Entry, v: Vector)
    requires before == map[] && after == map[e.id := Point(v, e.payload)]
    ensures Ran(before, after, [e], 1, [v], [[e.text]], true)
  {
    assert Reach([e], 1) == 1 && Chunk([e], 0) == [e] && Texts([e]) == [e.text];
    assert [e][0].id == e.id && Lists([e], 1, e.id);
    assert forall id :: Lists([e], 1, id) ==> id == e.id;
  }

  /** Every embedder call carries between one and sixteen texts. */
  lemma CallsAreSmall(before: Points, after: Points, run: Run, k: nat)
    requires IsRun(before, after, run) && k < |run.made|
    ensures 0 < |run.made[k]| <= 16
  {
    hide Backlog;
  }

  /** Whatever prefix of its backlog a call stored, the next call for the same passages has exactly the rest. */
  lemma {:induction false} RetryDoesTheRest(before: Points, after: Points, model: string, dim: nat,
                                            passages: seq<Passage>,
                                            n: nat, vectors: seq<Vector>)
    requires n <= |Backlog(before, model, dim, passages)|
    requires Extended(before, after, Backlog(before, model, dim, passages), n, vectors)
    ensures Backlog(after, model, dim, passages) == Backlog(before, model, dim, passages)[n..]
  {
    var entries := Backlog(before, model, dim, passages);
    BacklogIsFresh(before, model, dim, passages);
    RestOf(before, after, model, dim, passages, passages, entries, n);
  }

  /** The same over a prefix of the passages, whose own backlog is a prefix of the whole one. */
  lemma {:induction false} RestOf(before: Points, after: Points, model: string, dim: nat, some: seq<Passage>,
                                  passages: seq<Passage>,
                                  entries: seq<Entry>, n: nat)
    requires some <= passages && entries == Backlog(before, model, dim, passages) && n <= |entries|
             && Fresh(before, entries)
    requires forall id :: id in after <==> id in before || Lists(entries, n, id)
    ensures Backlog(before, model, dim, some) <= entries
    ensures var part := Backlog(before, model, dim, some);
            Backlog(after, model, dim, some) == if |part| <= n then [] else part[n..]
    decreases |some|
  {
    hide PointId;
    BacklogGrows(before, model, dim, some, passages);
    if some != [] {
      var rest, e := some[..|some| - 1], EntryOf(model, dim, some[|some| - 1]);
      RestOf(before, after, model, dim, rest, passages, entries, n);
      NextOfRest(before, after, entries, n, Backlog(before, model, dim, rest), Backlog(after, model, dim, rest), e);
    }
  }

  lemma NextOfRest(before: Points, after: Points, entries: seq<Entry>, n: nat, part: seq<Entry>, left: seq<Entry>,
                   e: Entry)
    requires part <= entries && n <= |entries| && Fresh(before, entries)
    requires forall id :: id in after <==> id in before || Lists(entries, n, id)
    requires left == if |part| <= n then [] else part[n..]
    requires !(e.id in before || Listed(part, e.id)) ==> part + [e] <= entries
    ensures var part' := if e.id in before || Listed(part, e.id) then part else part + [e];
            (if e.id in after || Listed(left, e.id) then left else left + [e]) == if |part'| <= n then []
            else part'[n..]
  {
    hide Fresh;
    if e.id in before || Listed(part, e.id) {
    } else {
      NewIsNext(before, entries, n, part, left, e);
    }
  }

  lemma NewIsNext(before: Points, entries: seq<Entry>, n: nat, part: seq<Entry>, left: seq<Entry>, e: Entry)
    requires part + [e] <= entries && n <= |entries| && Fresh(before, entries)
    requires left == if |part| <= n then [] else part[n..]
    ensures e.id !in before && !Listed(left, e.id) && (Lists(entries, n, e.id) <==> |part| < n)
    ensures |part| >= n ==> left + [e] == (part + [e])[n..]
  {
    var all := part + [e];
    assert forall i :: 0 <= i < |all| ==> entries[i] == all[i];
    assert entries[|part|] == e;
    assert forall i :: 0 <= i < |left| ==> left[i] == entries[n + i];
  }

  lemma {:induction false} BacklogGrows(stored: Points, model: string, dim: nat, some: seq<Passage>,
                                        passages: seq<Passage>)
    requires some <= passages
    ensures Backlog(stored, model, dim, some) <= Backlog(stored, model, dim, passages)
    decreases |passages|
  {
    if some == passages {
    } else {
      assert some <= passages[..|passages| - 1];
      BacklogGrows(stored, model, dim, some, passages[..|passages| - 1]);
    }
  }
}
