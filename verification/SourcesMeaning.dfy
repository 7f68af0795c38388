/**
 What the sources stage does to the rows that enter it: one row per distinct carried tuple, extended with the
 set of Source nodes linked to one of that row's nodes.
 */
module SourcesMeaning {
  import opened Common
  import opened Builtins
  import opened Ast
  import opened Cypher
  import opened Semantics
  import opened Matching
  import opened SourcesStage

  // ---- the clauses around the lookup ----

  function Project(row: Row, names: seq<string>): Row {
    map a | a in names && a in row :: row[a]
  }

  ghost function ProjectFn(names: seq<string>): Row -> seq<Row> {
    (row: Row) => [Project(row, names)]
  }

  /** The distinct tuples over `names`, in order of first appearance. */
  function Groups(rows: seq<Row>, names: seq<string>): (r: seq<Row>)
    ensures NoDup(r)
    ensures forall key :: key in r <==> exists row :: row in rows && Project(row, names) == key
  {
    if rows == [] then []
    else
      var init, key := Groups(rows[..|rows| - 1], names), Project(rows[|rows| - 1], names);
      assert forall row :: row in rows <==> row in rows[..|rows| - 1] || row == rows[|rows| - 1];
      if key in init then init else init + [key]
  }

  /** `collect(DISTINCT __src__)` over one group: nulls are not collected. */
  ghost function Gathered(rows: seq<Row>, names: seq<string>, key: Row): set<Value> {
    set row | row in rows && Project(row, names) == key && SRC in row && row[SRC] != NullV :: row[SRC]
  }

  ghost function Collected(rows: seq<Row>, names: seq<string>): seq<Row> {
    var keys := Groups(rows, names);
    seq(|keys|, i requires 0 <= i < |keys| => keys[i][SOURCES := SetV(Gathered(rows, names, keys[i]))])
  }

  /** WITH carry, the lookup clause, WITH carry and the collected sources. */
  ghost function StageRows(g: Graph, params: map<string, Literal>, nodes: seq<string>, carry: seq<string>,
                           rows: seq<Row>): seq<Row> {
    Collected(RunClause(g, params, SourcesClause(nodes), FlatMap(rows, ProjectFn(carry))), carry)
  }

  // ---- what is asked ----

  /** Relationship `r` leads from one of the row's nodes to the source. */
  ghost predicate Mentions(g: Graph, row: Row, nodes: seq<string>, r: nat, s: nat) {
    && r < |g.rels| && g.rels[r].relType in {MENTION_REL, PART_OF_REL} && g.rels[r].target == s
    && exists a :: a in nodes && a in row && row[a] == NodeV(g.rels[r].source)
  }

  ghost predicate IsSource(g: Graph, row: Row, nodes: seq<string>, s: nat) {
    && s < |g.nodes| && SOURCE_LABEL in g.nodes[s].labels
    && exists r :: Mentions(g, row, nodes, r, s)
  }

  ghost function SourcesOf(g: Graph, row: Row, nodes: seq<string>): set<Value> {
    set s | 0 <= s < |g.nodes| && IsSource(g, row, nodes, s) :: NodeV(s)
  }

  ghost function Staged(g: Graph, row: Row, nodes: seq<string>, carry: seq<string>): Row {
    Project(row, carry)[SOURCES := SetV(SourcesOf(g, row, nodes))]
  }

  ghost predicate Carryable(rows: seq<Row>, nodes: seq<string>, carry: seq<string>) {
    && (forall a :: a in nodes ==> a in carry)
    && (forall a :: a in carry ==> a !in RESERVED)
    && (forall row: Row, a :: row in rows && a in carry ==> a in row)
  }

  // ---- the lookup on one row ----

  lemma StageTypes()
    ensures Alternatives(MENTION_REL + "|" + PART_OF_REL) == [MENTION_REL, PART_OF_REL]
  {
    AlternativesAppend(MENTION_REL, PART_OF_REL);
    SingleAlternative(PART_OF_REL);
  }

  lemma {:induction false} AmongIsMember(row: Row, id: nat, names: seq<string>)
    ensures ValueAmong(row, NodeV(id), names) == True <==> exists a :: a in names && a in row && row[a] == NodeV(id)
  {
    if names != [] {
      AmongIsMember(row, id, names[1..]);
      assert forall a :: a in names <==> a == names[0] || a in names[1..];
    }
  }

  /** A row of the lookup: the source, the relationship and the node it comes from, on top of the row. */
  function Found(row: Row, s: nat, r: nat, near: nat): Row {
    row[SRC := NodeV(s)][""  := RelV(r)][NEAR := NodeV(near)]
  }

  ghost predicate Finds(g: Graph, row: Row, nodes: seq<string>, s: nat, r: nat) {
    s < |g.nodes| && SOURCE_LABEL in g.nodes[s].labels && Mentions(g, row, nodes, r, s)
  }

  ghost predicate Unreserved(row: Row) {
    row.Keys !! RESERVED
  }

  lemma SourceStarts(g: Graph, row: Row, p0: Partial)
    requires Unreserved(row)
    ensures p0 in Starts(g, row, SourcesPath().start) <==>
            p0.at < |g.nodes| && SOURCE_LABEL in g.nodes[p0.at].labels
            && p0 == Partial(row[SRC := NodeV(p0.at)], p0.at, {})
  {
    var start := NodePattern(SRC, [SOURCE_LABEL]);
    assert SourcesPath().start == start;
    FlatMapMember(Upto(|g.nodes|), StartAt(g, row, start), p0);
    SourceFits(g, p0.at);
    if p0.at < |g.nodes| {
      assert Upto(|g.nodes|)[p0.at] == p0.at;
      assert p0.at in Upto(|g.nodes|);
    }
    assert p0 in StartAt(g, row, start)(p0.at) <==>
           NodeFits(g, p0.at, start.labels) && p0 == Partial(row[SRC := NodeV(p0.at)], p0.at, {});
    assert SRC !in row;
  }

  lemma SourcePartials(g: Graph, row: Row, p: Partial)
    requires ValidGraph(g) && Unreserved(row)
    ensures p in PathPartials(g, row, SourcesPath()) <==>
            exists s: nat :: s < |g.nodes| && SOURCE_LABEL in g.nodes[s].labels
                             && Extends(g, Partial(row[SRC := NodeV(s)], s, {}), SourcesStep(), p)
  {
    hide Extends, Starts, Expand, FlatMap, SourcesStep, NodeFits;
    var path, step := SourcesPath(), SourcesStep();
    var starts := Starts(g, row, path.start);
    assert PathPartials(g, row, path) == FlatMap(starts, Expand(g, step)) by {
      assert path.steps[..0] == [];
    }
    FlatMapMember(starts, Expand(g, step), p);
    forall p0: Partial ensures p0 in starts && p in Expand(g, step)(p0) <==>
                               && p0.at < |g.nodes| && SOURCE_LABEL in g.nodes[p0.at].labels
                               && p0 == Partial(row[SRC := NodeV(p0.at)], p0.at, {}) && Extends(g, p0, step, p)
    {
      SourceStarts(g, row, p0);
      if p0 in starts {
        SourceStepAliases();
        ExpandExact(g, p0, step);
      }
    }
    if s: nat :| s < |g.nodes| && SOURCE_LABEL in g.nodes[s].labels
                 && Extends(g, Partial(row[SRC := NodeV(s)], s, {}), step, p) {
      assert p in Expand(g, step)(Partial(row[SRC := NodeV(s)], s, {}));
    }
  }

  lemma SourceStepAliases()
    ensures SourcesStep().edge == "" && SourcesStep().target.alias == NEAR
  {
  }

  lemma SourceFits(g: Graph, id: nat)
    ensures NodeFits(g, id, [SOURCE_LABEL]) <==> id < |g.nodes| && SOURCE_LABEL in g.nodes[id].labels
  {
    assert [SOURCE_LABEL][0] == SOURCE_LABEL;
  }

  lemma SourceStep(g: Graph, row: Row, s: nat, p: Partial)
    requires ValidGraph(g) && Unreserved(row) && s < |g.nodes|
    ensures Extends(g, Partial(row[SRC := NodeV(s)], s, {}), SourcesStep(), p) <==>
            exists r: nat :: r < |g.rels| && g.rels[r].relType in {MENTION_REL, PART_OF_REL} && g.rels[r].target == s
                             && p == Partial(Found(row, s, r, g.rels[r].source), g.rels[r].source, {r})
  {
    StageTypes();
    var p0 := Partial(row[SRC := NodeV(s)], s, {});
    if Extends(g, p0, SourcesStep(), p) {
      var r := p.row[""].id;
      assert p.row == Found(row, s, r, g.rels[r].source);
    }
  }

  /** One row through the lookup. */
  lemma LookupRow(g: Graph, params: map<string, Literal>, nodes: seq<string>, row: Row, x: Row)
    requires ValidGraph(g) && Unreserved(row) && forall a :: a in nodes ==> a !in RESERVED
    ensures x in FlatMap(PathPartials(g, row, SourcesPath()), Keep(g, params, Some(Member(NEAR, nodes)))) <==>
            exists s: nat, r: nat :: Finds(g, row, nodes, s, r) && x == Found(row, s, r, g.rels[r].source)
  {
    hide PathPartials, Extends, Found;
    var partials, keep := PathPartials(g, row, SourcesPath()), Keep(g, params, Some(Member(NEAR, nodes)));
    FlatMapMember(partials, keep, x);
    if x in FlatMap(partials, keep) {
      var p :| p in partials && x in keep(p);
      SourcePartials(g, row, p);
      var s: nat :| s < |g.nodes| && SOURCE_LABEL in g.nodes[s].labels
                    && Extends(g, Partial(row[SRC := NodeV(s)], s, {}), SourcesStep(), p);
      SourceStep(g, row, s, p);
      var r: nat :| r < |g.rels| && g.rels[r].relType in {MENTION_REL, PART_OF_REL} && g.rels[r].target == s
                    && p == Partial(Found(row, s, r, g.rels[r].source), g.rels[r].source, {r});
      KeptNear(g, params, nodes, row, s, r, p);
      assert Finds(g, row, nodes, s, r);
    }
    if s: nat, r: nat :| Finds(g, row, nodes, s, r) && x == Found(row, s, r, g.rels[r].source) {
      var p := Partial(x, g.rels[r].source, {r});
      SourceStep(g, row, s, p);
      SourcePartials(g, row, p);
      KeptNear(g, params, nodes, row, s, r, p);
    }
  }

  lemma KeptNear(g: Graph, params: map<string, Literal>, nodes: seq<string>, row: Row, s: nat, r: nat, p: Partial)
    requires r < |g.rels| && p.row == Found(row, s, r, g.rels[r].source) && forall a :: a in nodes ==> a !in RESERVED
    requires g.rels[r].relType in {MENTION_REL, PART_OF_REL} && g.rels[r].target == s
    ensures Keep(g, params, Some(Member(NEAR, nodes)))(p) == if Mentions(g, row, nodes, r, s) then [p.row] else []
  {
    var near := g.rels[r].source;
    AmongIsMember(p.row, near, nodes);
    assert p.row[NEAR] == NodeV(near);
    assert forall a :: a in nodes && a in p.row ==> a in row && row[a] == p.row[a];
    assert forall a :: a in nodes && a in row ==> a in p.row && row[a] == p.row[a];
  }

  /** The sources a lookup leaves in its rows. */
  ghost function SourcesIn(rows: seq<Row>): set<Value> {
    set x | x in rows && SRC in x && x[SRC] != NullV :: x[SRC]
  }

  lemma FoundSources(g: Graph, nodes: seq<string>, row: Row, kept: seq<Row>)
    requires forall x :: x in kept <==>
               exists s: nat, r: nat :: Finds(g, row, nodes, s, r) && x == Found(row, s, r, g.rels[r].source)
    ensures SourcesIn(kept) == SourcesOf(g, row, nodes)
  {
    forall v | v in SourcesOf(g, row, nodes) ensures v in SourcesIn(kept) {
      var s: nat :| s < |g.nodes| && IsSource(g, row, nodes, s) && v == NodeV(s);
      var r: nat :| Mentions(g, row, nodes, r, s);
      assert Finds(g, row, nodes, s, r);
      assert Found(row, s, r, g.rels[r].source) in kept;
      assert Found(row, s, r, g.rels[r].source)[SRC] == v;
    }
    forall v | v in SourcesIn(kept) ensures v in SourcesOf(g, row, nodes) {
      var x :| x in kept && SRC in x && x[SRC] == v;
      var s: nat, r: nat :| Finds(g, row, nodes, s, r) && x == Found(row, s, r, g.rels[r].source);
      assert IsSource(g, row, nodes, s) && v == NodeV(s);
    }
  }

  /** What the lookup leaves of one carried row: never nothing, the carried part untouched, its sources in `__src__`. */
  lemma LookupSources(g: Graph, params: map<string, Literal>, nodes: seq<string>, carry: seq<string>, row: Row)
    requires ValidGraph(g) && Carryable([row], nodes, carry) && Project(row, carry) == row
    ensures var out := ClauseRows(g, params, SourcesClause(nodes))(row);
            out != [] && (forall x :: x in out ==> Project(x, carry) == row)
            && SourcesIn(out) == SourcesOf(g, row, nodes)
  {
    hide PathPartials, Keep, Project, SourcesOf, SourcesIn, Padded, Found;
    var kept := FlatMap(PathPartials(g, row, SourcesPath()), Keep(g, params, Some(Member(NEAR, nodes))));
    CarriedOnly(row, nodes, carry);
    forall x ensures x in kept <==>
                     exists s: nat, r: nat :: Finds(g, row, nodes, s, r) && x == Found(row, s, r, g.rels[r].source) {
      LookupRow(g, params, nodes, row, x);
    }
    FoundSources(g, nodes, row, kept);
    FoundKeepsCarried(g, nodes, carry, row);
    if kept == [] {
      PaddedLookup(row);
      NoSources(row);
    }
  }

  lemma CarriedOnly(row: Row, nodes: seq<string>, carry: seq<string>)
    requires Carryable([row], nodes, carry) && Project(row, carry) == row
    ensures Unreserved(row) && (forall a :: a in nodes ==> a !in RESERVED)
    ensures (forall a :: a in carry ==> a !in RESERVED && a in row) && (forall a :: a in row ==> a in carry)
  {
    assert row in [row];
    assert forall a :: a in Project(row, carry) ==> a in carry;
  }

  lemma NoSources(row: Row)
    requires Unreserved(row)
    ensures SourcesIn([]) == {} == SourcesIn([map[SRC := NullV, "" := NullV, NEAR := NullV] + row])
  {
  }

  lemma PaddedLookup(row: Row)
    requires Unreserved(row)
    ensures Padded(row, SourcesPath()) == map[SRC := NullV, "" := NullV, NEAR := NullV] + row
  {
    var path := SourcesPath();
    assert path.steps[0].edge == "" && path.steps[0].target.alias == NEAR;
    assert PathAliases(path) == {SRC, "", NEAR};
  }

  lemma FoundKeepsCarried(g: Graph, nodes: seq<string>, carry: seq<string>, row: Row)
    requires (forall a :: a in carry ==> a !in RESERVED && a in row) && (forall a :: a in row ==> a in carry)
    ensures forall s, r, near :: Project(Found(row, s, r, near), carry) == row
    ensures Project(map[SRC := NullV, "" := NullV, NEAR := NullV] + row, carry) == row
  {
  }

  // ---- all rows ----

  lemma ProjectTwice(row: Row, names: seq<string>)
    ensures Project(Project(row, names), names) == Project(row, names)
  {
  }

  lemma SourcesRead(g: Graph, row: Row, nodes: seq<string>, carry: seq<string>)
    requires forall a :: a in nodes ==> a in carry
    ensures SourcesOf(g, Project(row, carry), nodes) == SourcesOf(g, row, nodes)
  {
    forall r, s ensures Mentions(g, Project(row, carry), nodes, r, s) <==> Mentions(g, row, nodes, r, s) {
      assert forall a :: a in nodes ==> (a in Project(row, carry) <==> a in row);
    }
  }

  /** The lookup's rows with a given carried part are those of that part. */
  lemma StageGroup(g: Graph, params: map<string, Literal>, nodes: seq<string>, carry: seq<string>, rows: seq<Row>,
                   key: Row)
    requires ValidGraph(g) && Carryable(rows, nodes, carry)
    ensures var matched := RunClause(g, params, SourcesClause(nodes), FlatMap(rows, ProjectFn(carry)));
            && (key in Groups(matched, carry) <==> exists row :: row in rows && Project(row, carry) == key)
            && (key in Groups(matched, carry) ==> Gathered(matched, carry, key) == SourcesOf(g, key, nodes))
  {
    hide ClauseRows, SourcesOf, Groups;
    var carried, clause := FlatMap(rows, ProjectFn(carry)), ClauseRows(g, params, SourcesClause(nodes));
    var matched := FlatMap(carried, clause);
    forall c ensures c in carried <==> exists row :: row in rows && Project(row, carry) == c {
      FlatMapMember(rows, ProjectFn(carry), c);
    }
    forall c | c in carried
      ensures clause(c) != [] && (forall x :: x in clause(c) ==> Project(x, carry) == c)
      ensures SourcesIn(clause(c)) == SourcesOf(g, c, nodes)
    {
      var row :| row in rows && Project(row, carry) == c;
      ProjectTwice(row, carry);
      LookupSources(g, params, nodes, carry, c);
    }
    forall x ensures x in matched <==> exists c :: c in carried && x in clause(c) {
      FlatMapMember(carried, clause, x);
    }
    GroupIs(matched, carried, clause, carry, key, SourcesOf(g, key, nodes));
  }

  lemma GroupIs(matched: seq<Row>, carried: seq<Row>, clause: Row -> seq<Row>, carry: seq<string>, key: Row,
                sources: set<Value>)
    requires forall c :: c in carried ==> clause(c) != [] && forall x :: x in clause(c) ==> Project(x, carry) == c
    requires forall x :: x in matched <==> exists c :: c in carried && x in clause(c)
    requires key in carried ==> SourcesIn(clause(key)) == sources
    ensures key in Groups(matched, carry) <==> key in carried
    ensures key in carried ==> Gathered(matched, carry, key) == sources
  {
    hide Project, Groups;
    if key in carried {
      var first := clause(key)[0];
      assert first in clause(key) && first in matched;
      assert forall x :: x in matched && Project(x, carry) == key <==> x in clause(key);
    }
  }

  /** One row per distinct carried tuple that entered, with exactly the sources linked to one of its nodes. */
  lemma StageExact(g: Graph, params: map<string, Literal>, nodes: seq<string>, carry: seq<string>, rows: seq<Row>)
    requires ValidGraph(g) && Carryable(rows, nodes, carry)
    ensures NoDup(StageRows(g, params, nodes, carry, rows))
    ensures forall out :: out in StageRows(g, params, nodes, carry, rows)
                          <==> exists row :: row in rows && out == Staged(g, row, nodes, carry)
  {
    hide Groups, RunClause, SourcesOf;
    var matched := RunClause(g, params, SourcesClause(nodes), FlatMap(rows, ProjectFn(carry)));
    var keys, stage := Groups(matched, carry), StageRows(g, params, nodes, carry, rows);
    forall key: Row
      ensures key in keys <==> exists row :: row in rows && Project(row, carry) == key
      ensures key in keys ==> Gathered(matched, carry, key) == SourcesOf(g, key, nodes) && SOURCES !in key
    {
      StageGroup(g, params, nodes, carry, rows, key);
    }
    forall row | row in rows ensures SourcesOf(g, Project(row, carry), nodes) == SourcesOf(g, row, nodes) {
      SourcesRead(g, row, nodes, carry);
    }
    forall i, j | 0 <= i < j < |stage| ensures stage[i] != stage[j] {
      WithoutColumn(keys[i], keys[j], SetV(SourcesOf(g, keys[i], nodes)), SetV(SourcesOf(g, keys[j], nodes)));
    }
    forall out ensures out in stage <==> exists row :: row in rows && out == Staged(g, row, nodes, carry) {
      if row :| row in rows && out == Staged(g, row, nodes, carry) {
        var i :| 0 <= i < |keys| && keys[i] == Project(row, carry);
        assert stage[i] == out;
      }
      if out in stage {
        var i :| 0 <= i < |stage| && stage[i] == out;
        assert keys[i] in keys;
        var row :| row in rows && Project(row, carry) == keys[i];
        assert out == Staged(g, row, nodes, carry);
      }
    }
  }

  lemma WithoutColumn(a: Row, b: Row, u: Value, v: Value)
    requires a != b && SOURCES !in a && SOURCES !in b
    ensures a[SOURCES := u] != b[SOURCES := v]
  {
    assert a[SOURCES := u] - {SOURCES} == a;
    assert b[SOURCES := v] - {SOURCES} == b;
  }
}
