/** Draining the embedding queue (src/core/pipeline.rs): embed everything, group, insert in bounded batches. */
module SideEffects {
  import opened Common
  import opened ModelCalls

  const EMBEDDING_PROGRESS_CHUNK_SIZE: nat := 128

  datatype GroupKey = GroupKey(collection: string, payloadLabel: Option<string>, nodeLabel: string, keyField: string)

  /** One text, or several embedded independently into one multivector point. */
  datatype Effect =
    | Single(key: GroupKey, keyValue: string, text: string)
    | Multi(key: GroupKey, keyValue: string, texts: seq<string>)

  /** The group an effect belongs to: single and multivector effects never share one. */
  datatype Slot = Slot(multi: bool, key: GroupKey)

  datatype Prepared = Prepared(effect: Effect, vectors: seq<Vector>)

  datatype Batch = Batch(slot: Slot, rows: seq<Prepared>)

  datatype DrainError = NoEmbedder | EmbedFailed | WrongVectorCount(got: nat, asked: nat) | InsertFailed

  /** An embedder call: vectors for some texts, or a failure. */
  type Embedder = seq<string> -> Option<seq<Vector>>

  function SlotOf(e: Effect): Slot {
    Slot(e.Multi?, e.key)
  }

  function TextsOf(e: Effect): seq<string> {
    match e
    case Single(_, _, text) => [text]
    case Multi(_, _, texts) => texts
  }

  function FlatTexts(queue: seq<Effect>): seq<string> {
    if queue == [] then [] else FlatTexts(queue[..|queue| - 1]) + TextsOf(queue[|queue| - 1])
  }

  lemma {:induction false} FlatPrefix(queue: seq<Effect>, i: nat)
    requires i < |queue|
    ensures FlatTexts(queue[..i + 1]) == FlatTexts(queue[..i]) + TextsOf(queue[i])
    ensures FlatTexts(queue[..i + 1]) <= FlatTexts(queue)
    decreases |queue|
  {
    assert queue[..i + 1][..i] == queue[..i];
    if i + 1 == |queue| {
      assert queue[..i + 1] == queue;
    } else {
      FlatPrefix(queue[..|queue| - 1], i);
      assert queue[..|queue| - 1][..i + 1] == queue[..i + 1];
    }
  }

  /** Effect `i` with the vectors of its own texts. */
  function Own(queue: seq<Effect>, vectors: seq<Vector>, i: nat): Prepared
    requires i < |queue| && |vectors| == |FlatTexts(queue)|
  {
    FlatPrefix(queue, i);
    Prepared(queue[i], vectors[|FlatTexts(queue[..i])|..|FlatTexts(queue[..i + 1])|])
  }

  /** The effects of one group, in queue order. */
  function Group(queue: seq<Effect>, vectors: seq<Vector>, slot: Slot, n: nat): seq<Prepared>
    requires n <= |queue| && |vectors| == |FlatTexts(queue)|
  {
    if n == 0 then []
    else
      var init := Group(queue, vectors, slot, n - 1);
      if SlotOf(queue[n - 1]) == slot then init + [Own(queue, vectors, n - 1)] else init
  }

  // ---- embedding ----

  function ChunkOf<T>(xs: seq<T>, k: nat, size: nat): seq<T>
    requires k * size <= |xs|
  {
    if (k + 1) * size <= |xs| then xs[k * size..(k + 1) * size] else xs[k * size..]
  }

  ghost predicate CallSucceeds(embed: Embedder, texts: seq<string>) {
    embed(texts).Some? && |embed(texts).value| == |texts|
  }

  ghost predicate AllCallsSucceed(embed: Embedder, texts: seq<string>) {
    forall k: nat :: k * EMBEDDING_PROGRESS_CHUNK_SIZE < |texts| ==>
      CallSucceeds(embed, ChunkOf(texts, k, EMBEDDING_PROGRESS_CHUNK_SIZE))
  }

  /** When the embedder returns as many vectors as it was given texts, they are the texts' own, in order. */
  ghost predicate Honest(embed: Embedder, model: string -> Vector) {
    forall ts :: CallSucceeds(embed, ts) ==> embed(ts).value == EachText(ts, model)
  }

  function EachText(ts: seq<string>, model: string -> Vector): seq<Vector> {
    seq(|ts|, i requires 0 <= i < |ts| => model(ts[i]))
  }

  /** Embeds in chunks; succeeds exactly if every chunk's call returns one vector per text. */
  method EmbedWithProgress(embed: Embedder, texts: seq<string>) returns (r: Result<seq<Vector>, DrainError>)
    ensures r.Ok? <==> AllCallsSucceed(embed, texts)
    ensures r.Ok? ==> |r.value| == |texts|
    ensures forall model :: r.Ok? && Honest(embed, model) ==> r.value == EachText(texts, model)
  {
    var vectors, k := [], 0;
    while k * EMBEDDING_PROGRESS_CHUNK_SIZE < |texts|
      invariant |vectors| == if k * EMBEDDING_PROGRESS_CHUNK_SIZE <= |texts| then k * EMBEDDING_PROGRESS_CHUNK_SIZE
                else |texts|
      invariant forall j: nat :: j < k && j * EMBEDDING_PROGRESS_CHUNK_SIZE < |texts| ==>
                  CallSucceeds(embed, ChunkOf(texts, j, EMBEDDING_PROGRESS_CHUNK_SIZE))
      invariant forall model :: Honest(embed, model) ==> vectors == EachText(texts[..|vectors|], model)
      decreases |texts| - k
    {
      var chunk := ChunkOf(texts, k, EMBEDDING_PROGRESS_CHUNK_SIZE);
      var got := embed(chunk);
      if got.None? {
        assert !CallSucceeds(embed, chunk);
        return Err(EmbedFailed);
      }
      if |got.value| != |chunk| {
        assert !CallSucceeds(embed, chunk);
        return Err(WrongVectorCount(|got.value|, |chunk|));
      }
      assert CallSucceeds(embed, chunk);
      forall model | Honest(embed, model)
        ensures vectors + got.value == EachText(texts[..|vectors + got.value|], model)
      {
        assert texts[..|vectors + got.value|] == texts[..|vectors|] + chunk;
        assert got.value == EachText(chunk, model);
      }
      vectors := vectors + got.value;
      k := k + 1;
    }
    assert texts[..|texts|] == texts;
    r := Ok(vectors);
  }

  // ---- grouping ----

  type Groups = map<GroupKey, seq<Prepared>>

  function InGroup(groups: Groups, key: GroupKey): seq<Prepared> {
    if key in groups then groups[key] else []
  }

  /** Both maps hold exactly the groups of the first `n` effects; none is empty. */
  ghost predicate Grouped(single: Groups, multi: Groups, queue: seq<Effect>, vectors: seq<Vector>, n: nat)
    requires n <= |queue| && |vectors| == |FlatTexts(queue)|
  {
    && (forall key :: InGroup(single, key) == Group(queue, vectors, Slot(false, key), n))
    && (forall key :: InGroup(multi, key) == Group(queue, vectors, Slot(true, key), n))
    && (forall key :: key in single ==> single[key] != [])
    && (forall key :: key in multi ==> multi[key] != [])
  }

  method GroupEffects(queue: seq<Effect>, vectors: seq<Vector>) returns (single: Groups, multi: Groups)
    requires |vectors| == |FlatTexts(queue)|
    ensures Grouped(single, multi, queue, vectors, |queue|)
  {
    single, multi := map[], map[];
    for i := 0 to |queue|
      invariant Grouped(single, multi, queue, vectors, i)
    {
      var e := queue[i];
      var row := Own(queue, vectors, i);
      if e.Single? {
        single := single[e.key := InGroup(single, e.key) + [row]];
      } else {
        multi := multi[e.key := InGroup(multi, e.key) + [row]];
      }
    }
  }

  // ---- what was inserted ----

  function RowsIn(batches: seq<Batch>, slot: Slot): seq<Prepared> {
    if batches == [] then []
    else
      var init, last := RowsIn(batches[..|batches| - 1], slot), batches[|batches| - 1];
      if last.slot == slot then init + last.rows else init
  }

  function BatchCount(batches: seq<Batch>, slot: Slot): nat {
    if batches == [] then 0
    else BatchCount(batches[..|batches| - 1], slot) + (if batches[|batches| - 1].slot == slot then 1 else 0)
  }

  function RowCount(batches: seq<Batch>): nat {
    if batches == [] then 0 else RowCount(batches[..|batches| - 1]) + |batches[|batches| - 1].rows|
  }

  ghost predicate BatchFits(b: Batch, size: nat) {
    && 0 < |b.rows| <= size
    && forall i :: 0 <= i < |b.rows| ==>
         b.rows[i].effect.key == b.slot.key && (b.rows[i].effect.Multi? <==> b.slot.multi)
  }

  ghost predicate BatchesFit(batches: seq<Batch>, size: nat) {
    forall k :: 0 <= k < |batches| ==> BatchFits(batches[k], size)
  }

  lemma BatchSnoc(batches: seq<Batch>, b: Batch, slot: Slot)
    ensures RowsIn(batches + [b], slot) == if b.slot == slot then RowsIn(batches, slot) + b.rows
            else RowsIn(batches, slot)
    ensures BatchCount(batches + [b], slot) == BatchCount(batches, slot) + (if b.slot == slot then 1 else 0)
    ensures RowCount(batches + [b]) == RowCount(batches) + |b.rows|
  {
    assert (batches + [b])[..|batches|] == batches;
  }

  /** `n / d`, rounded up. */
  function DivCeil(n: nat, d: nat): (r: nat)
    requires d > 0
    ensures n <= r * d && (if n == 0 then r == 0 else (r - 1) * d < n)
  {
    if n == 0 then 0 else if n <= d then 1 else DivCeil(n - d, d) + 1
  }

  // ---- how many batches a drain makes ----

  /** How many effects of the queue belong to a group. */
  function Size(queue: seq<Effect>, slot: Slot): nat {
    if queue == [] then 0 else Size(queue[..|queue| - 1], slot) + (if SlotOf(queue[|queue| - 1]) == slot then 1 else 0)
  }

  ghost function Sum(slots: set<Slot>, queue: seq<Effect>, size: nat): nat
    requires size > 0
    decreases |slots|
  {
    if slots == {} then 0
    else
      var s :| s in slots;
      DivCeil(Size(queue, s), size) + Sum(slots - {s}, queue, size)
  }

  /** The groups of the queue, each in as few batches as its size allows. */
  ghost function Announced(queue: seq<Effect>, size: nat): nat
    requires size > 0
  {
    Sum(SlotsOf(queue), queue, size)
  }

  function SlotsOf(queue: seq<Effect>): set<Slot> {
    set i | 0 <= i < |queue| :: SlotOf(queue[i])
  }

  function SlotsIn(multi: bool, keys: set<GroupKey>): set<Slot> {
    set key | key in keys :: Slot(multi, key)
  }

  lemma {:induction false} SumRemove(slots: set<Slot>, s: Slot, queue: seq<Effect>, size: nat)
    requires size > 0 && s in slots
    ensures Sum(slots, queue, size) == DivCeil(Size(queue, s), size) + Sum(slots - {s}, queue, size)
    decreases |slots|
  {
    hide DivCeil, Size;
    var t :| t in slots && Sum(slots, queue, size) == DivCeil(Size(queue, t), size) + Sum(slots - {t}, queue, size);
    if t != s {
      SumRemove(slots - {t}, s, queue, size);
      SumRemove(slots - {s}, t, queue, size);
      assert slots - {t} - {s} == slots - {s} - {t};
    }
  }

  lemma {:induction false} SumUnion(a: set<Slot>, b: set<Slot>, queue: seq<Effect>, size: nat)
    requires size > 0 && a !! b
    ensures Sum(a + b, queue, size) == Sum(a, queue, size) + Sum(b, queue, size)
    decreases |a|
  {
    hide DivCeil, Size;
    if a == {} {
      assert a + b == b;
    } else {
      var s :| s in a;
      SumRemove(a, s, queue, size);
      SumRemove(a + b, s, queue, size);
      SumUnion(a - {s}, b, queue, size);
      assert a + b - {s} == (a - {s}) + b;
    }
  }

  lemma {:induction false} GroupSize(queue: seq<Effect>, vectors: seq<Vector>, slot: Slot, n: nat)
    requires n <= |queue| && |vectors| == |FlatTexts(queue)|
    ensures |Group(queue, vectors, slot, n)| == Size(queue[..n], slot)
    ensures Size(queue[..n], slot) > 0 <==> exists i :: 0 <= i < n && SlotOf(queue[i]) == slot
  {
    if n > 0 {
      GroupSize(queue, vectors, slot, n - 1);
      assert queue[..n][..n - 1] == queue[..n - 1];
    }
  }

  /** The two maps hold the groups of the queue and nothing else. */
  lemma GroupsOfQueue(single: Groups, multi: Groups, queue: seq<Effect>, vectors: seq<Vector>)
    requires |vectors| == |FlatTexts(queue)| && Grouped(single, multi, queue, vectors, |queue|)
    ensures SlotsIn(false, single.Keys) + SlotsIn(true, multi.Keys) == SlotsOf(queue)
    ensures forall key :: key in single ==> |single[key]| == Size(queue, Slot(false, key))
    ensures forall key :: key in multi ==> |multi[key]| == Size(queue, Slot(true, key))
  {
    hide Group, Size;
    assert queue[..|queue|] == queue;
    forall slot: Slot
      ensures |Group(queue, vectors, slot, |queue|)| == Size(queue, slot)
      ensures slot in SlotsOf(queue) <==> slot in SlotsIn(false, single.Keys) + SlotsIn(true, multi.Keys)
    {
      GroupSize(queue, vectors, slot, |queue|);
      assert slot == Slot(slot.multi, slot.key);
      assert InGroup(if slot.multi then multi else single, slot.key) == Group(queue, vectors, slot, |queue|);
    }
    forall key | key in single ensures |single[key]| == Size(queue, Slot(false, key)) {
      assert InGroup(single, key) == Group(queue, vectors, Slot(false, key), |queue|);
    }
    forall key | key in multi ensures |multi[key]| == Size(queue, Slot(true, key)) {
      assert InGroup(multi, key) == Group(queue, vectors, Slot(true, key), |queue|);
    }
  }

  /** The batches announced for the groups of one map. */
  method CountBatches(multi: bool, groups: Groups, size: nat, ghost queue: seq<Effect>) returns (count: nat)
    requires size > 0 && forall key :: key in groups ==> |groups[key]| == Size(queue, Slot(multi, key))
    ensures count == Sum(SlotsIn(multi, groups.Keys), queue, size)
  {
    hide Size, DivCeil;
    count := 0;
    var left := groups.Keys;
    while left != {}
      invariant left <= groups.Keys
      invariant count + Sum(SlotsIn(multi, left), queue, size) == Sum(SlotsIn(multi, groups.Keys), queue, size)
      decreases |left|
    {
      var key :| key in left;
      NextSlot(multi, left, key, queue, size);
      left := left - {key};
      count := count + DivCeil(|groups[key]|, size);
    }
  }

  lemma NextSlot(multi: bool, keys: set<GroupKey>, key: GroupKey, queue: seq<Effect>, size: nat)
    requires size > 0 && key in keys
    ensures Sum(SlotsIn(multi, keys), queue, size)
         == DivCeil(Size(queue, Slot(multi, key)), size) + Sum(SlotsIn(multi, keys - {key}), queue, size)
  {
    SumRemove(SlotsIn(multi, keys), Slot(multi, key), queue, size);
    assert SlotsIn(multi, keys) - {Slot(multi, key)} == SlotsIn(multi, keys - {key});
  }

  /** The inserts made so far; `budget` is how many succeed before one fails, if any does. */
  ghost predicate Within(inserted: seq<Batch>, budget: Option<nat>) {
    budget.Some? ==> |inserted| <= budget.value
  }

  /** From some batch on all are of single effects, or all of multivector ones. */
  ghost predicate AllOf(batches: seq<Batch>, from: nat, multi: bool) {
    forall k :: from <= k < |batches| ==> batches[k].slot.multi == multi
  }

  lemma NoneYet(batches: seq<Batch>, slot: Slot)
    ensures AllOf(batches, |batches|, slot.multi) && Elsewhere(batches, batches, slot)
  {
  }

  lemma AllOfExtends(some: seq<Batch>, all: seq<Batch>, from: nat, multi: bool)
    requires AllOf(some, from, multi) && some <= all && AllOf(all, |some|, multi)
    ensures AllOf(all, from, multi)
  {
  }

  /** Between the two lists only the group of `slot` gained batches. */
  ghost predicate Elsewhere(before: seq<Batch>, after: seq<Batch>, slot: Slot) {
    forall s :: s != slot ==> RowsIn(after, s) == RowsIn(before, s) && BatchCount(after, s) == BatchCount(before, s)
  }

  /** One batch more of a group. */
  lemma NextBatch(before: seq<Batch>, inserted: seq<Batch>, slot: Slot, group: seq<Prepared>, at: nat, end: nat,
                  size: nat)
    requires at < end <= |group| && end - at <= size && BatchesFit(inserted, size)
             && AllOf(inserted, |before|, slot.multi)
    requires forall i :: 0 <= i < |group| ==> SlotOf(group[i].effect) == slot
    requires before <= inserted && Elsewhere(before, inserted, slot) && RowsIn(inserted, slot) == group[..at]
    ensures var next := inserted + [Batch(slot, group[at..end])];
            && BatchesFit(next, size) && AllOf(next, |before|, slot.multi) && before <= next
            && Elsewhere(before, next, slot) && RowsIn(next, slot) == group[..end]
            && BatchCount(next, slot) == BatchCount(inserted, slot) + 1
            && RowCount(next) == RowCount(inserted) + (end - at)
  {
    hide RowsIn, BatchCount, RowCount;
    var batch := Batch(slot, group[at..end]);
    forall s ensures RowsIn(inserted + [batch], s) == RowsIn(inserted, s) + (if s == slot then batch.rows else [])
             ensures BatchCount(inserted + [batch], s) == BatchCount(inserted, s) + (if s == slot then 1 else 0)
    {
      BatchSnoc(inserted, batch, s);
    }
    BatchSnoc(inserted, batch, slot);
    assert group[..at] + group[at..end] == group[..end];
  }

  /** One group, chunk by chunk, until it is through or an insert fails. */
  method InsertGroup(slot: Slot, group: seq<Prepared>, size: nat, budget: Option<nat>, before: seq<Batch>,
                     rowsBefore: nat)
    returns (inserted: seq<Batch>, ok: bool, rows: nat)
    requires size > 0 && BatchesFit(before, size) && Within(before, budget) && rowsBefore == RowCount(before)
    requires forall i :: 0 <= i < |group| ==> SlotOf(group[i].effect) == slot
    requires RowsIn(before, slot) == [] && BatchCount(before, slot) == 0
    ensures BatchesFit(inserted, size) && before <= inserted && Within(inserted, budget)
    ensures AllOf(inserted, |before|, slot.multi) && Elsewhere(before, inserted, slot)
    ensures RowsIn(inserted, slot) <= group
    ensures ok ==> RowsIn(inserted, slot) == group && BatchCount(inserted, slot) == DivCeil(|group|, size)
    ensures ok ==> |inserted| == |before| + DivCeil(|group|, size)
    ensures rows == RowCount(inserted)
    ensures !ok ==> budget == Some(|inserted|) && |inserted| < |before| + DivCeil(|group|, size)
  {
    NoneYet(before, slot);
    hide RowsIn, BatchCount, RowCount, BatchesFit, AllOf, Elsewhere;
    inserted, ok, rows := before, true, rowsBefore;
    var at := 0;
    while at < |group|
      invariant 0 <= at <= |group| && BatchesFit(inserted, size) && before <= inserted && Within(inserted, budget)
      invariant AllOf(inserted, |before|, slot.multi) && Elsewhere(before, inserted, slot)
      invariant RowsIn(inserted, slot) == group[..at]
      invariant BatchCount(inserted, slot) + DivCeil(|group| - at, size) == DivCeil(|group|, size)
      invariant |inserted| + DivCeil(|group| - at, size) == |before| + DivCeil(|group|, size)
      invariant rows == RowCount(inserted)
    {
      var end := if at + size < |group| then at + size else |group|;
      if budget == Some(|inserted|) {
        return inserted, false, rows;
      }
      var batch := Batch(slot, group[at..end]);
      NextBatch(before, inserted, slot, group, at, end, size);
      inserted := inserted + [batch];
      rows := rows + |batch.rows|;
      at := end;
    }
  }

  /** Between the two lists no group of the other kind gained batches. */
  ghost predicate OtherKindKept(before: seq<Batch>, after: seq<Batch>, multi: bool) {
    forall s: Slot :: s.multi != multi ==>
      RowsIn(after, s) == RowsIn(before, s) && BatchCount(after, s) == BatchCount(before, s)
  }

  /** The groups of `left` have no batch yet, the others of this kind are through. */
  ghost predicate Progress(inserted: seq<Batch>, groups: Groups, multi: bool, left: set<GroupKey>, size: nat)
    requires size > 0
  {
    && (forall key :: key in left ==>
          RowsIn(inserted, Slot(multi, key)) == [] && BatchCount(inserted, Slot(multi, key)) == 0)
    && forall key :: key !in left ==>
         RowsIn(inserted, Slot(multi, key)) == InGroup(groups, key)
         && BatchCount(inserted, Slot(multi, key)) == DivCeil(|InGroup(groups, key)|, size)
  }

  lemma GroupThrough(before: seq<Batch>, some: seq<Batch>, inserted: seq<Batch>, groups: Groups, multi: bool,
                     left: set<GroupKey>, key: GroupKey, size: nat)
    requires size > 0 && key in left && key in groups && Elsewhere(some, inserted, Slot(multi, key))
    requires OtherKindKept(before, some, multi) && Progress(some, groups, multi, left, size)
    ensures OtherKindKept(before, inserted, multi)
    ensures forall k :: k != key ==> RowsIn(inserted, Slot(multi, k)) <= InGroup(groups, k)
    ensures RowsIn(inserted, Slot(multi, key)) == groups[key]
            && BatchCount(inserted, Slot(multi, key)) == DivCeil(|groups[key]|, size) ==>
              Progress(inserted, groups, multi, left - {key}, size)
  {
    hide RowsIn, BatchCount, DivCeil;
  }

  lemma NothingThrough(before: seq<Batch>, groups: Groups, multi: bool, size: nat)
    requires size > 0
    requires forall key :: RowsIn(before, Slot(multi, key)) == [] && BatchCount(before, Slot(multi, key)) == 0
    ensures OtherKindKept(before, before, multi) && Progress(before, groups, multi, groups.Keys, size)
  {
    hide RowsIn, BatchCount;
  }

  lemma AllThrough(inserted: seq<Batch>, groups: Groups, multi: bool, size: nat)
    requires size > 0 && Progress(inserted, groups, multi, {}, size)
    ensures forall key :: RowsIn(inserted, Slot(multi, key)) == InGroup(groups, key)
                          && BatchCount(inserted, Slot(multi, key)) == DivCeil(|InGroup(groups, key)|, size)
  {
  }

  /** The groups of one map, in some order of their keys. */
  method InsertGroups(multi: bool, groups: Groups, size: nat, budget: Option<nat>, before: seq<Batch>, rowsBefore: nat,
                      ghost queue: seq<Effect>)
    returns (inserted: seq<Batch>, ok: bool, rows: nat)
    requires size > 0 && forall key :: key in groups ==> |groups[key]| == Size(queue, Slot(multi, key))
    requires BatchesFit(before, size) && Within(before, budget) && rowsBefore == RowCount(before)
    requires forall key, i :: key in groups && 0 <= i < |groups[key]| ==>
               SlotOf(groups[key][i].effect) == Slot(multi, key)
    requires forall key :: RowsIn(before, Slot(multi, key)) == [] && BatchCount(before, Slot(multi, key)) == 0
    ensures BatchesFit(inserted, size) && before <= inserted && Within(inserted, budget)
    ensures AllOf(inserted, |before|, multi) && OtherKindKept(before, inserted, multi)
    ensures forall key :: RowsIn(inserted, Slot(multi, key)) <= InGroup(groups, key)
    ensures ok ==> forall key :: RowsIn(inserted, Slot(multi, key)) == InGroup(groups, key)
                                 && BatchCount(inserted, Slot(multi, key)) == DivCeil(|InGroup(groups, key)|, size)
    ensures rows == RowCount(inserted)
    ensures ok ==> |inserted| == |before| + Sum(SlotsIn(multi, groups.Keys), queue, size)
    ensures ok <==> budget.None? || |before| + Sum(SlotsIn(multi, groups.Keys), queue, size) <= budget.value
  {
    NoneYet(before, Slot(multi, GroupKey("", None, "", "")));
    NothingThrough(before, groups, multi, size);
    NoSlots(multi, queue, size);
    hide RowsIn, BatchCount, RowCount, DivCeil, BatchesFit, Size, Sum, SlotsIn, SlotOf, AllOf, Elsewhere;
    hide OtherKindKept;
    inserted, ok, rows := before, true, rowsBefore;
    var left := groups.Keys;
    while left != {}
      invariant left <= groups.Keys
      invariant BatchesFit(inserted, size) && before <= inserted && Within(inserted, budget)
      invariant AllOf(inserted, |before|, multi) && OtherKindKept(before, inserted, multi)
      invariant Progress(inserted, groups, multi, left, size)
      invariant rows == RowCount(inserted)
      invariant |inserted| + Sum(SlotsIn(multi, left), queue, size)
             == |before| + Sum(SlotsIn(multi, groups.Keys), queue, size)
      decreases |left|
    {
      var key :| key in left;
      NextSlot(multi, left, key, queue, size);
      ghost var some := inserted;
      inserted, ok, rows := InsertGroup(Slot(multi, key), groups[key], size, budget, inserted, rows);
      AllOfExtends(some, inserted, |before|, multi);
      GroupThrough(before, some, inserted, groups, multi, left, key, size);
      left := left - {key};
      if !ok {
        return;
      }
    }
    AllThrough(inserted, groups, multi, size);
  }

  // ---- the drain ----

  /** Every group inserted whole, in queue order, in as few batches as its size allows. */
  ghost predicate Drained(inserted: seq<Batch>, queue: seq<Effect>, vectors: seq<Vector>, size: nat)
    requires size > 0 && |vectors| == |FlatTexts(queue)|
  {
    && BatchesFit(inserted, size)
    && forall slot :: RowsIn(inserted, slot) == Group(queue, vectors, slot, |queue|)
                      && BatchCount(inserted, slot) == DivCeil(|Group(queue, vectors, slot, |queue|)|, size)
  }

  /** Some inserts made, none twice and each group from its start. */
  ghost predicate PartlyDrained(inserted: seq<Batch>, queue: seq<Effect>, vectors: seq<Vector>, size: nat)
    requires |vectors| == |FlatTexts(queue)|
  {
    BatchesFit(inserted, size) && forall slot :: RowsIn(inserted, slot) <= Group(queue, vectors, slot, |queue|)
  }

  lemma NothingInserted(size: nat)
    ensures forall slot :: RowsIn([], slot) == [] && BatchCount([], slot) == 0
    ensures RowCount([]) == 0 && BatchesFit([], size)
  {
  }

  lemma NothingQueued()
    ensures FlatTexts([]) == []
    ensures forall slot :: Group([], [], slot, 0) == []
    ensures forall model :: EachText([], model) == []
  {
  }

  method CollectTexts(queue: seq<Effect>) returns (texts: seq<string>)
    ensures texts == FlatTexts(queue)
  {
    texts := [];
    for i := 0 to |queue|
      invariant texts == FlatTexts(queue[..i])
    {
      FlatPrefix(queue, i);
      texts := texts + TextsOf(queue[i]);
    }
    assert queue[..|queue|] == queue;
  }

  lemma {:induction false} GroupIsOfSlot(queue: seq<Effect>, vectors: seq<Vector>, slot: Slot, n: nat)
    requires n <= |queue| && |vectors| == |FlatTexts(queue)|
    ensures forall i :: 0 <= i < |Group(queue, vectors, slot, n)| ==>
              SlotOf(Group(queue, vectors, slot, n)[i].effect) == slot
  {
    if n > 0 {
      GroupIsOfSlot(queue, vectors, slot, n - 1);
    }
  }

  /** `embedding_insert_batch_size.max(1)`. */
  function SizeOf(insertBatchSize: nat): (size: nat)
    ensures size > 0 && (insertBatchSize > 0 ==> size == insertBatchSize) && (insertBatchSize == 0 ==> size == 1)
  {
    if insertBatchSize > 1 then insertBatchSize else 1
  }

  lemma NoSlots(multi: bool, queue: seq<Effect>, size: nat)
    requires size > 0
    ensures Sum(SlotsIn(multi, {}), queue, size) == 0
  {
    assert SlotsIn(multi, {}) == {};
  }

  lemma SingleAndMulti(single: set<GroupKey>, multi: set<GroupKey>, queue: seq<Effect>, size: nat)
    requires size > 0 && SlotsIn(false, single) + SlotsIn(true, multi) == SlotsOf(queue)
    ensures Announced(queue, size) == Sum(SlotsIn(false, single), queue, size) + Sum(SlotsIn(true, multi), queue, size)
  {
    SumUnion(SlotsIn(false, single), SlotsIn(true, multi), queue, size);
  }
}
