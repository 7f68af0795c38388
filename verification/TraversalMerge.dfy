/** The per-chunk merge of a traversal's rows (src/core/pipeline.rs), with reals for the scores. */
module TraversalMerges {
  import opened Common

  /** Which retrieval channel a row came from; a row without one carries the sum of its score-like fields. */
  datatype Leg = EntityLeg(id: Option<int>) | ChunkLeg | NoLeg

  datatype HitRow = HitRow(
    key: Option<string>,
    leg: Leg,
    contribution: real,
    chunkId: Option<string>,
    chunkText: Option<string>,
    sourceId: Option<string>,
    sourceName: Option<string>,
    entity: Option<(string, string)>)

  datatype ChunkHit = ChunkHit(
    chunkId: Option<string>,
    chunkText: Option<string>,
    sourceId: Option<string>,
    sourceName: Option<string>,
    score: real,
    rerankScore: Option<real>,
    entities: seq<string>,
    entityKeys: set<string>,
    accountedIds: set<int>,
    chunkLegAccounted: bool,
    firstSeen: nat)

  // ---- what a list of rows amounts to ----

  /** The rows of one chunk, in order. */
  function RowsOf(rows: seq<HitRow>, key: string): seq<HitRow> {
    if rows == [] then []
    else
      var init, last := RowsOf(rows[..|rows| - 1], key), rows[|rows| - 1];
      if last.key == Some(key) then init + [last] else init
  }

  /** The chunks seen, in order of first appearance. */
  function KeysOf(rows: seq<HitRow>): (r: seq<string>)
    ensures NoDup(r)
    ensures forall k :: k in r <==> exists i :: 0 <= i < |rows| && rows[i].key == Some(k)
  {
    if rows == [] then []
    else
      var init, last := KeysOf(rows[..|rows| - 1]), rows[|rows| - 1];
      if last.key.None? || last.key.value in init then init else init + [last.key.value]
  }

  /** A row counts unless an earlier row of its channel already did: per entity id, once for the chunk channel. */
  predicate Counts(earlier: seq<HitRow>, row: HitRow) {
    match row.leg
    case EntityLeg(Some(id)) => forall i :: 0 <= i < |earlier| ==> earlier[i].leg != row.leg
    case EntityLeg(None) => true
    case ChunkLeg => forall i :: 0 <= i < |earlier| ==> earlier[i].leg != ChunkLeg
    case NoLeg => true
  }

  function Score(rows: seq<HitRow>): real {
    if rows == [] then 0.0
    else
      var init, last := rows[..|rows| - 1], rows[|rows| - 1];
      Score(init) + (if Counts(init, last) then last.contribution else 0.0)
  }

  /** The first value present, as `fill_if_missing` leaves it. */
  function First(values: seq<Option<string>>): Option<string> {
    if values == [] then None else if values[0].Some? then values[0] else First(values[1..])
  }

  function EntityKeys(rows: seq<HitRow>): set<string> {
    set i | 0 <= i < |rows| && rows[i].entity.Some? :: rows[i].entity.value.0
  }

  /** The first entity under each entity key. */
  function Entities(rows: seq<HitRow>): seq<string> {
    if rows == [] then []
    else
      var init, last := rows[..|rows| - 1], rows[|rows| - 1];
      if last.entity.Some? && last.entity.value.0 !in EntityKeys(init) then Entities(init) + [last.entity.value.1]
         else Entities(init)
  }

  function Ids(rows: seq<HitRow>): set<int> {
    set i | 0 <= i < |rows| && rows[i].leg.EntityLeg? && rows[i].leg.id.Some? :: rows[i].leg.id.value
  }

  predicate HasChunkLeg(rows: seq<HitRow>) {
    exists i :: 0 <= i < |rows| && rows[i].leg == ChunkLeg
  }

  function Field(rows: seq<HitRow>, f: HitRow -> Option<string>): Option<string> {
    First(seq(|rows|, i requires 0 <= i < |rows| => f(rows[i])))
  }

  /** A hit is what its chunk's rows amount to, whatever else was merged between them. */
  ghost predicate IsHit(hit: ChunkHit, rows: seq<HitRow>) {
    && hit.chunkId == Field(rows, (r: HitRow) => r.chunkId)
    && hit.chunkText == Field(rows, (r: HitRow) => r.chunkText)
    && hit.sourceId == Field(rows, (r: HitRow) => r.sourceId)
    && hit.sourceName == Field(rows, (r: HitRow) => r.sourceName)
    && hit.score == Score(rows)
    && hit.rerankScore == None
    && hit.entities == Entities(rows) && hit.entityKeys == EntityKeys(rows)
    && hit.accountedIds == Ids(rows) && hit.chunkLegAccounted == HasChunkLeg(rows)
  }

  /** `order` lists the map's keys once, and every hit's position in it. */
  ghost predicate Merged(order: seq<string>, chunks: map<string, ChunkHit>, rows: seq<HitRow>) {
    && order == KeysOf(rows)
    && (forall k :: k in chunks <==> k in order)
    && (forall k :: k in chunks ==> IsHit(chunks[k], RowsOf(rows, k)))
    && (forall k :: k in chunks ==> chunks[k].firstSeen < |order| && order[chunks[k].firstSeen] == k)
  }

  function NewHit(firstSeen: nat): ChunkHit {
    ChunkHit(None, None, None, None, 0.0, None, [], {}, {}, false, firstSeen)
  }

  function FillIfMissing(slot: Option<string>, value: Option<string>): Option<string> {
    if slot.None? then value else slot
  }

  // ---- one row into one hit ----

  method MergeRow(hit: ChunkHit, row: HitRow, ghost rows: seq<HitRow>) returns (hit': ChunkHit)
    requires IsHit(hit, rows)
    ensures IsHit(hit', rows + [row]) && hit'.firstSeen == hit.firstSeen
  {
    hide Score, Entities, Field;
    FieldSnoc(rows, row, (r: HitRow) => r.chunkId);
    FieldSnoc(rows, row, (r: HitRow) => r.chunkText);
    FieldSnoc(rows, row, (r: HitRow) => r.sourceId);
    FieldSnoc(rows, row, (r: HitRow) => r.sourceName);
    ScoreSnoc(rows, row);
    EntitiesSnoc(rows, row);
    LegsSnoc(rows, row);
    hit' := hit.(chunkId := FillIfMissing(hit.chunkId, row.chunkId),
                 chunkText := FillIfMissing(hit.chunkText, row.chunkText),
                 sourceId := FillIfMissing(hit.sourceId, row.sourceId),
                 sourceName := FillIfMissing(hit.sourceName, row.sourceName));
    match row.leg {
      case EntityLeg(Some(id)) =>
        if id !in hit'.accountedIds {
          hit' := hit'.(accountedIds := hit'.accountedIds + {id}, score := hit'.score + row.contribution);
        }
      case EntityLeg(None) =>
        hit' := hit'.(score := hit'.score + row.contribution);
      case ChunkLeg =>
        if !hit'.chunkLegAccounted {
          hit' := hit'.(score := hit'.score + row.contribution, chunkLegAccounted := true);
        }
      case NoLeg =>
        hit' := hit'.(score := hit'.score + row.contribution);
    }
    if row.entity.Some? && row.entity.value.0 !in hit'.entityKeys {
      hit' := hit'.(entityKeys := hit'.entityKeys + {row.entity.value.0},
                    entities := hit'.entities + [row.entity.value.1]);
    }
  }

  lemma {:induction false} FirstSnoc(values: seq<Option<string>>, v: Option<string>)
    ensures First(values + [v]) == if First(values).Some? then First(values) else v
  {
    if values == [] {
      assert ([] + [v])[1..] == [];
    } else {
      assert (values + [v])[1..] == values[1..] + [v];
      FirstSnoc(values[1..], v);
    }
  }

  lemma FieldSnoc(rows: seq<HitRow>, row: HitRow, f: HitRow -> Option<string>)
    ensures Field(rows + [row], f) == FillIfMissing(Field(rows, f), f(row))
  {
    var values := seq(|rows|, i requires 0 <= i < |rows| => f(rows[i]));
    var all := rows + [row];
    assert seq(|all|, i requires 0 <= i < |all| => f(all[i])) == values + [f(row)];
    FirstSnoc(values, f(row));
  }

  lemma ScoreSnoc(rows: seq<HitRow>, row: HitRow)
    ensures Score(rows + [row]) == Score(rows) + (if Counts(rows, row) then row.contribution else 0.0)
    ensures row.leg.EntityLeg? && row.leg.id.Some? ==> (Counts(rows, row) <==> row.leg.id.value !in Ids(rows))
    ensures row.leg == ChunkLeg ==> (Counts(rows, row) <==> !HasChunkLeg(rows))
  {
    assert (rows + [row])[..|rows|] == rows;
  }

  lemma EntitiesSnoc(rows: seq<HitRow>, row: HitRow)
    ensures row.entity.None? ==>
              Entities(rows + [row]) == Entities(rows) && EntityKeys(rows + [row]) == EntityKeys(rows)
    ensures row.entity.Some? ==>
              && EntityKeys(rows + [row]) == EntityKeys(rows) + {row.entity.value.0}
              && Entities(rows + [row])
                 == if row.entity.value.0 in EntityKeys(rows) then Entities(rows)
                 else Entities(rows) + [row.entity.value.1]
  {
    var all := rows + [row];
    assert all[..|rows|] == rows;
    forall k ensures k in EntityKeys(all) <==> k in EntityKeys(rows) || (row.entity.Some? && k == row.entity.value.0) {
      if row.entity.Some? && k == row.entity.value.0 {
        assert all[|rows|] == row;
      } else if i :| 0 <= i < |rows| && rows[i].entity.Some? && rows[i].entity.value.0 == k {
        assert all[i] == rows[i];
      }
    }
  }

  lemma LegsSnoc(rows: seq<HitRow>, row: HitRow)
    ensures Ids(rows + [row]) == Ids(rows) + (if row.leg.EntityLeg? && row.leg.id.Some? then {row.leg.id.value} else {})
    ensures HasChunkLeg(rows + [row]) <==> HasChunkLeg(rows) || row.leg == ChunkLeg
  {
    var all := rows + [row];
    assert all[|rows|] == row;
    forall i | 0 <= i < |rows| ensures all[i] == rows[i] {
    }
    forall id ensures id in Ids(all) <==> id in Ids(rows) || row.leg == EntityLeg(Some(id)) {
      if i :| 0 <= i < |rows| && rows[i].leg == EntityLeg(Some(id)) {
        assert all[i].leg == EntityLeg(Some(id));
      }
    }
  }

  // ---- the accumulator ----

  class TraversalMerge {
    var order: seq<string>
    var chunks: map<string, ChunkHit>
    /** Every row merged so far. */
    ghost var merged: seq<HitRow>

    ghost predicate Valid()
      reads this
    {
      Merged(order, chunks, merged)
    }

    constructor ()
      ensures Valid() && merged == []
    {
      order, chunks, merged := [], map[], [];
    }

    method Extend(rows: seq<HitRow>)
      requires Valid()
      modifies this
      ensures Valid() && merged == old(merged) + rows
    {
      hide Merged;
      assert old(merged) + rows[..0] == merged;
      for i := 0 to |rows|
        invariant Valid() && merged == old(merged) + rows[..i]
      {
        assert old(merged) + rows[..i + 1] == merged + [rows[i]];
        ExtendOne(rows[i]);
      }
      assert rows[..|rows|] == rows;
    }

    method ExtendOne(row: HitRow)
      requires Valid()
      modifies this
      ensures Valid() && merged == old(merged) + [row]
    {
      hide Merged, IsHit, RowsOf, KeysOf;
      ghost var before := merged;
      merged := merged + [row];
      if row.key.None? {
        SkippedAfter(order, chunks, before, row);
        return;
      }
      var key := row.key.value;
      HitSoFar(order, chunks, before, key);
      ghost var order0, chunks0 := order, chunks;
      if key !in chunks {
        chunks := chunks[key := NewHit(|order|)];
        order := order + [key];
      }
      var hit := MergeRow(chunks[key], row, RowsOf(before, key));
      chunks := chunks[key := hit];
      MergedAfter(order0, chunks0, before, row, hit);
      assert chunks0[key := NewHit(|order0|)][key := hit] == chunks0[key := hit];
    }
  }

  lemma HitSoFar(order: seq<string>, chunks: map<string, ChunkHit>, rows: seq<HitRow>, key: string)
    requires Merged(order, chunks, rows)
    ensures IsHit(if key in chunks then chunks[key] else NewHit(|order|), RowsOf(rows, key))
  {
    hide IsHit, RowsOf;
    FreshHit(rows, key, |order|);
  }

  lemma SkippedAfter(order: seq<string>, chunks: map<string, ChunkHit>, rows: seq<HitRow>, row: HitRow)
    requires Merged(order, chunks, rows) && row.key.None?
    ensures Merged(order, chunks, rows + [row])
  {
    hide IsHit, RowsOf, KeysOf;
    RowSnoc(rows, row);
  }

  lemma MergedAfter(order: seq<string>, chunks: map<string, ChunkHit>, rows: seq<HitRow>, row: HitRow, hit: ChunkHit)
    requires Merged(order, chunks, rows) && row.key.Some? && IsHit(hit, RowsOf(rows, row.key.value) + [row])
    requires hit.firstSeen == if row.key.value in chunks then chunks[row.key.value].firstSeen else |order|
    ensures var key := row.key.value;
            Merged(if key in chunks then order else order + [key], chunks[key := hit], rows + [row])
  {
    hide IsHit, RowsOf, KeysOf;
    RowSnoc(rows, row);
  }

  lemma RowSnoc(rows: seq<HitRow>, row: HitRow)
    ensures forall k :: RowsOf(rows + [row], k) == if row.key == Some(k) then RowsOf(rows, k) + [row]
            else RowsOf(rows, k)
    ensures KeysOf(rows + [row])
         == if row.key.None? || row.key.value in KeysOf(rows) then KeysOf(rows) else KeysOf(rows) + [row.key.value]
  {
    assert (rows + [row])[..|rows|] == rows;
  }

  lemma {:induction false} NoRows(rows: seq<HitRow>, key: string)
    requires forall i :: 0 <= i < |rows| ==> rows[i].key != Some(key)
    ensures RowsOf(rows, key) == []
  {
    if rows != [] {
      NoRows(rows[..|rows| - 1], key);
    }
  }

  lemma FreshHit(rows: seq<HitRow>, key: string, firstSeen: nat)
    ensures key !in KeysOf(rows) ==> IsHit(NewHit(firstSeen), RowsOf(rows, key))
  {
    if key !in KeysOf(rows) {
      NoRows(rows, key);
    }
  }
}
