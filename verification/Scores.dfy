/** What a merged chunk's score is, and what feeding rows again does to it. */
module Scores {
  import opened Common
  import opened TraversalMerges

  /** Rows that count however often they come: no channel, or no entity id. */
  function KeylessSum(rows: seq<HitRow>): real {
    if rows == [] then 0.0
    else
      var last := rows[|rows| - 1];
      KeylessSum(rows[..|rows| - 1]) +
        (if last.leg == NoLeg || last.leg == EntityLeg(None) then last.contribution else 0.0)
  }

  /** The contribution of the first row on a leg, nothing without one. */
  function FirstOn(rows: seq<HitRow>, leg: Leg): real {
    if rows == [] then 0.0 else if rows[0].leg == leg then rows[0].contribution else FirstOn(rows[1..], leg)
  }

  function IdSum(rows: seq<HitRow>, ids: seq<int>): real {
    if ids == [] then 0.0 else FirstOn(rows, EntityLeg(Some(ids[0]))) + IdSum(rows, ids[1..])
  }

  lemma {:induction false} FirstOnSnoc(rows: seq<HitRow>, row: HitRow, leg: Leg)
    ensures FirstOn(rows + [row], leg)
         == if exists i :: 0 <= i < |rows| && rows[i].leg == leg then FirstOn(rows, leg)
            else if row.leg == leg then row.contribution else 0.0
  {
    if rows == [] {
      assert ([] + [row])[1..] == [];
    } else {
      assert (rows + [row])[1..] == rows[1..] + [row];
      FirstOnSnoc(rows[1..], row, leg);
      if i :| 0 <= i < |rows| && rows[i].leg == leg {
        assert i > 0 ==> rows[1..][i - 1] == rows[i];
      }
    }
  }

  lemma {:induction false} NoneOn(rows: seq<HitRow>, leg: Leg)
    ensures (exists i :: 0 <= i < |rows| && rows[i].leg == leg) || FirstOn(rows, leg) == 0.0
  {
    if rows != [] && rows[0].leg != leg {
      NoneOn(rows[1..], leg);
      if i :| 0 <= i < |rows[1..]| && rows[1..][i].leg == leg {
        assert rows[i + 1].leg == leg;
      }
    }
  }

  lemma {:induction false} NoRowsSum(ids: seq<int>)
    ensures IdSum([], ids) == 0.0
  {
    if ids != [] {
      NoRowsSum(ids[1..]);
    }
  }

  lemma {:induction false} IdSumAppend(rows: seq<HitRow>, a: seq<int>, b: seq<int>)
    ensures IdSum(rows, a + b) == IdSum(rows, a) + IdSum(rows, b)
  {
    if a == [] {
      assert a + b == b;
    } else {
      assert (a + b)[1..] == a[1..] + b;
      IdSumAppend(rows, a[1..], b);
    }
  }

  lemma {:induction false} IdSumReads(rows: seq<HitRow>, row: HitRow, ids: seq<int>)
    requires forall id :: id in ids ==> id in Ids(rows)
    ensures IdSum(rows + [row], ids) == IdSum(rows, ids)
  {
    if ids != [] {
      var id := ids[0];
      assert id in ids && id in Ids(rows);
      FirstOnSnoc(rows, row, EntityLeg(Some(id)));
      IdSumReads(rows, row, ids[1..]);
    }
  }

  /**
   A chunk's score is the first contribution of each of its entities, in whatever order they are listed, the first
   one of the chunk channel, and every row that names neither.
   */
  lemma {:induction false} ScoreIsSum(rows: seq<HitRow>, ids: seq<int>)
    requires NoDup(ids) && forall id :: id in ids <==> id in Ids(rows)
    ensures Score(rows) == IdSum(rows, ids) + FirstOn(rows, ChunkLeg) + KeylessSum(rows)
    decreases |rows|, 0
  {
    if rows == [] {
      NoRowsSum(ids);
    } else {
      var init, row := rows[..|rows| - 1], rows[|rows| - 1];
      assert rows == init + [row];
      ScoreSnoc(init, row);
      LegsSnoc(init, row);
      FirstOnSnoc(init, row, ChunkLeg);
      NoneOn(init, ChunkLeg);
      if row.leg.EntityLeg? && row.leg.id.Some? && row.leg.id.value !in Ids(init) {
        NewEntity(init, row, ids);
      } else {
        assert Ids(rows) == Ids(init);
        ScoreIsSum(init, ids);
        IdSumReads(init, row, ids);
        assert KeylessSum(rows) == KeylessSum(init) +
                 (if row.leg == NoLeg || row.leg == EntityLeg(None) then row.contribution else 0.0);
        assert row.leg == ChunkLeg ==> FirstOn(rows, ChunkLeg) == if HasChunkLeg(init) then FirstOn(init, ChunkLeg)
               else row.contribution;
      }
    }
  }

  lemma {:induction false} NewEntity(init: seq<HitRow>, row: HitRow, ids: seq<int>)
    requires row.leg.EntityLeg? && row.leg.id.Some? && row.leg.id.value !in Ids(init)
    requires NoDup(ids) && forall id :: id in ids <==> id in Ids(init + [row])
    ensures Score(init) + row.contribution
         == IdSum(init + [row], ids) + FirstOn(init, ChunkLeg) + KeylessSum(init)
    decreases |init|, 1
  {
    var id := row.leg.id.value;
    LegsSnoc(init, row);
    assert id in ids;
    var k :| 0 <= k < |ids| && ids[k] == id;
    var a, b := ids[..k], ids[k + 1..];
    assert ids == a + [id] + b;
    assert forall x :: x in a + b <==> x in ids && x != id by {
      Without(ids, k);
    }
    Without(ids, k);
    ScoreIsSum(init, a + b);
    IdSumReads(init, row, a + b);
    IdSumAppend(init + [row], a, b);
    IdSumAppend(init + [row], a, [id]);
    IdSumAppend(init + [row], a + [id], b);
    assert [id][1..] == [];
    FirstOnSnoc(init, row, EntityLeg(Some(id)));
  }

  /** So is the score of every hit, over the rows of its own chunk. */
  lemma HitScoreIsSum(order: seq<string>, chunks: map<string, ChunkHit>, rows: seq<HitRow>, key: string, ids: seq<int>)
    requires Merged(order, chunks, rows) && key in chunks
    requires NoDup(ids) && forall id :: id in ids <==> id in Ids(RowsOf(rows, key))
    ensures var mine := RowsOf(rows, key);
            chunks[key].score == IdSum(mine, ids) + FirstOn(mine, ChunkLeg) + KeylessSum(mine)
  {
    hide Score, IdSum, FirstOn, KeylessSum, Field, Entities, Ids;
    ScoreIsSum(RowsOf(rows, key), ids);
  }

  lemma Without(ids: seq<int>, k: nat)
    requires NoDup(ids) && k < |ids|
    ensures NoDup(ids[..k] + ids[k + 1..])
    ensures forall x :: x in ids[..k] + ids[k + 1..] <==> x in ids && x != ids[k]
  {
    var rest := ids[..k] + ids[k + 1..];
    assert forall i :: 0 <= i < |rest| ==> rest[i] == if i < k then ids[i] else ids[i + 1];
    forall x | x in ids && x != ids[k] ensures x in rest {
      var i :| 0 <= i < |ids| && ids[i] == x;
      assert rest[if i < k then i else i - 1] == x;
    }
  }

  // ---- feeding rows again ----

  /** The row repeats a channel its chunk has already been credited for, or belongs to no chunk. */
  ghost predicate Repeats(rows: seq<HitRow>, row: HitRow) {
    row.key.Some? ==>
      var mine := RowsOf(rows, row.key.value);
      (row.leg == ChunkLeg && HasChunkLeg(mine))
      || (row.leg.EntityLeg? && row.leg.id.Some? && row.leg.id.value in Ids(mine))
  }

  lemma RepeatAddsNothing(rows: seq<HitRow>, row: HitRow)
    requires Repeats(rows, row)
    ensures KeysOf(rows + [row]) == KeysOf(rows)
    ensures forall k :: Score(RowsOf(rows + [row], k)) == Score(RowsOf(rows, k))
    ensures forall r :: Repeats(rows, r) ==> Repeats(rows + [row], r)
  {
    hide Score, RowsOf, KeysOf, HasChunkLeg, Ids;
    RowSnoc(rows, row);
    if row.key.Some? {
      var mine := RowsOf(rows, row.key.value);
      ScoreSnoc(mine, row);
      LegsSnoc(mine, row);
      if row.key.value !in KeysOf(rows) {
        CreditedIsKnown(rows, row);
      }
    }
  }

  lemma CreditedIsKnown(rows: seq<HitRow>, row: HitRow)
    requires Repeats(rows, row) && row.key.Some?
    ensures row.key.value in KeysOf(rows)
  {
    if row.key.value !in KeysOf(rows) {
      NoRows(rows, row.key.value);
      assert false;
    }
  }

  /** Rows already credited change no chunk's score and add no chunk, however many are fed again. */
  lemma {:induction false} RefeedChangesNothing(rows: seq<HitRow>, again: seq<HitRow>)
    requires forall r :: r in again ==> Repeats(rows, r)
    ensures KeysOf(rows + again) == KeysOf(rows)
    ensures forall k :: Score(RowsOf(rows + again, k)) == Score(RowsOf(rows, k))
    decreases |again|
  {
    hide Score, RowsOf, KeysOf, Repeats;
    if again == [] {
      assert rows + again == rows;
    } else {
      RepeatAddsNothing(rows, again[0]);
      assert rows + again == rows + [again[0]] + again[1..];
      RefeedChangesNothing(rows + [again[0]], again[1..]);
    }
  }

  /** Every channel row with an id that was fed counts as credited. */
  lemma FedIsCredited(rows: seq<HitRow>, i: nat)
    requires i < |rows| && (rows[i].leg == ChunkLeg || (rows[i].leg.EntityLeg? && rows[i].leg.id.Some?))
    ensures Repeats(rows, rows[i])
  {
    if rows[i].key.Some? {
      var mine := RowsOf(rows, rows[i].key.value);
      RowIsThere(rows, i);
      var j :| 0 <= j < |mine| && mine[j] == rows[i];
      assert mine[j].leg == rows[i].leg;
    }
  }

  lemma {:induction false} RowIsThere(rows: seq<HitRow>, i: nat)
    requires i < |rows| && rows[i].key.Some?
    ensures rows[i] in RowsOf(rows, rows[i].key.value)
  {
    if i < |rows| - 1 {
      RowIsThere(rows[..|rows| - 1], i);
    }
  }
}
