/**
 The drain of the embedding queue (src/core/pipeline.rs): nothing queued is lost, doubled or mixed up, and which
 embedders it accepts.
 */
module Conservation {
  import opened Common
  import opened Batching
  import opened ModelCalls
  import opened SideEffects

  function AllRows(batches: seq<Batch>): seq<Prepared> {
    if batches == [] then [] else AllRows(batches[..|batches| - 1]) + batches[|batches| - 1].rows
  }

  function AllOwn(queue: seq<Effect>, vectors: seq<Vector>, n: nat): seq<Prepared>
    requires n <= |queue| && |vectors| == |FlatTexts(queue)|
  {
    if n == 0 then [] else AllOwn(queue, vectors, n - 1) + [Own(queue, vectors, n - 1)]
  }

  lemma {:induction false} CountInSlot(batches: seq<Batch>, size: nat, row: Prepared)
    requires BatchesFit(batches, size)
    ensures multiset(AllRows(batches))[row] == multiset(RowsIn(batches, SlotOf(row.effect)))[row]
    ensures RowCount(batches) == |AllRows(batches)|
  {
    if batches != [] {
      var init, last := batches[..|batches| - 1], batches[|batches| - 1];
      CountInSlot(init, size, row);
      assert BatchFits(last, size);
      if last.slot != SlotOf(row.effect) {
        assert row !in last.rows;
      }
    }
  }

  lemma {:induction false} CountInGroup(queue: seq<Effect>, vectors: seq<Vector>, n: nat, row: Prepared)
    requires n <= |queue| && |vectors| == |FlatTexts(queue)|
    ensures multiset(AllOwn(queue, vectors, n))[row] == multiset(Group(queue, vectors, SlotOf(row.effect), n))[row]
    ensures |AllOwn(queue, vectors, n)| == n
  {
    if n > 0 {
      CountInGroup(queue, vectors, n - 1, row);
      var last := Own(queue, vectors, n - 1);
      if last == row {
        assert SlotOf(queue[n - 1]) == SlotOf(row.effect);
      }
    }
  }

  /** After a drain every effect is in exactly one batch with the vectors of its own texts, and the counts say so. */
  lemma DrainConserves(inserted: seq<Batch>, queue: seq<Effect>, vectors: seq<Vector>, size: nat)
    requires size > 0 && |vectors| == |FlatTexts(queue)| && Drained(inserted, queue, vectors, size)
    ensures multiset(AllRows(inserted)) == multiset(AllOwn(queue, vectors, |queue|))
    ensures RowCount(inserted) == |queue|
  {
    hide Group, RowsIn, AllRows, AllOwn, RowCount, BatchCount, DivCeil, BatchesFit;
    var all, own := multiset(AllRows(inserted)), multiset(AllOwn(queue, vectors, |queue|));
    forall row: Prepared ensures all[row] == own[row] {
      CountInSlot(inserted, size, row);
      CountInGroup(queue, vectors, |queue|, row);
    }
    assert all == own;
    var row := Prepared(Single(GroupKey("", None, "", ""), "", ""), []);
    CountInSlot(inserted, size, row);
    CountInGroup(queue, vectors, |queue|, row);
    assert |all| == |AllRows(inserted)| && |own| == |AllOwn(queue, vectors, |queue|)|;
  }

  /** The effect with the vector of its one text, or of each of its texts in order. */
  ghost predicate EmbeddedAs(row: Prepared, e: Effect, model: string -> Vector) {
    row.effect == e
    && match e
       case Single(_, _, text) => row.vectors == [model(text)]
       case Multi(_, _, texts) =>
         |row.vectors| == |texts| && forall j :: 0 <= j < |texts| ==> row.vectors[j] == model(texts[j])
  }

  /** The rows inserted are the effects queued, each once and embedded as it asks. */
  ghost predicate EachOnce(inserted: seq<Batch>, queue: seq<Effect>, model: string -> Vector) {
    exists rows: seq<Prepared> ::
      |rows| == |queue| && multiset(AllRows(inserted)) == multiset(rows)
      && forall i :: 0 <= i < |queue| ==> EmbeddedAs(rows[i], queue[i], model)
  }

  /** With an embedder that embeds text by text every effect carries the vectors of its own texts. */
  lemma OwnVectors(queue: seq<Effect>, vectors: seq<Vector>, model: string -> Vector, i: nat)
    requires i < |queue| && vectors == EachText(FlatTexts(queue), model)
    ensures EmbeddedAs(Own(queue, vectors, i), queue[i], model)
  {
    hide FlatTexts;
    FlatPrefix(queue, i);
    SliceOfEach(FlatTexts(queue), FlatTexts(queue[..i]), TextsOf(queue[i]), model);
  }

  lemma {:induction false} OwnAre(queue: seq<Effect>, vectors: seq<Vector>, n: nat)
    requires n <= |queue| && |vectors| == |FlatTexts(queue)|
    ensures |AllOwn(queue, vectors, n)| == n
    ensures forall i :: 0 <= i < n ==> AllOwn(queue, vectors, n)[i] == Own(queue, vectors, i)
  {
    hide Own, FlatTexts;
    if n > 0 {
      OwnAre(queue, vectors, n - 1);
    }
  }

  lemma DrainedOnce(inserted: seq<Batch>, queue: seq<Effect>, vectors: seq<Vector>, size: nat, model: string -> Vector)
    requires size > 0 && vectors == EachText(FlatTexts(queue), model)
    requires |vectors| == |FlatTexts(queue)| && Drained(inserted, queue, vectors, size)
    ensures EachOnce(inserted, queue, model)
  {
    hide FlatTexts, EachText, Drained, AllOwn, AllRows, Own;
    DrainConserves(inserted, queue, vectors, size);
    OwnAre(queue, vectors, |queue|);
    var rows := AllOwn(queue, vectors, |queue|);
    forall i | 0 <= i < |queue| ensures EmbeddedAs(rows[i], queue[i], model) {
      OwnVectors(queue, vectors, model, i);
    }
  }

  lemma NothingDrained()
    ensures forall model :: EachOnce([], [], model)
  {
    forall model ensures EachOnce([], [], model) {
      var rows: seq<Prepared> := [];
      assert multiset(AllRows([])) == multiset(rows) && |rows| == 0;
    }
  }

  lemma SliceOfEach(all: seq<string>, a: seq<string>, b: seq<string>, model: string -> Vector)
    requires a + b <= all
    ensures EachText(all, model)[|a|..|a + b|] == EachText(b, model)
  {
    assert all == a + b + all[|a + b|..];
    assert forall j :: 0 <= j < |b| ==> all[|a| + j] == b[j];
  }

  // ---- the drain ----

  /** All groups, single ones first. */
  method InsertAll(single: Groups, multi: Groups, queue: seq<Effect>, vectors: seq<Vector>, size: nat,
                   budget: Option<nat>)
    returns (ok: bool, inserted: seq<Batch>, rows: nat)
    requires size > 0 && |vectors| == |FlatTexts(queue)| && Grouped(single, multi, queue, vectors, |queue|)
    ensures ok <==> budget.None? || Announced(queue, size) <= budget.value
    ensures ok ==> Drained(inserted, queue, vectors, size) && |inserted| == Announced(queue, size)
    ensures PartlyDrained(inserted, queue, vectors, size) && rows == RowCount(inserted)
    ensures forall j, k :: 0 <= j < k < |inserted| && inserted[j].slot.multi ==> inserted[k].slot.multi
  {
    hide RowsIn, BatchCount, Group, DivCeil, BatchesFit, FlatTexts, Size, Sum, SlotsIn, SlotsOf, RowCount, SlotOf;
    NothingInserted(size);
    GroupsAreOfSlot(single, multi, queue, vectors);
    GroupsOfQueue(single, multi, queue, vectors);
    SingleAndMulti(single.Keys, multi.Keys, queue, size);
    inserted, ok, rows := InsertGroups(false, single, size, budget, [], 0, queue);
    if ok {
      inserted, ok, rows := InsertGroups(true, multi, size, budget, inserted, rows, queue);
    }
    forall slot: Slot
      ensures RowsIn(inserted, slot) <= Group(queue, vectors, slot, |queue|)
      ensures ok ==> RowsIn(inserted, slot) == Group(queue, vectors, slot, |queue|)
                     && BatchCount(inserted, slot) == DivCeil(|Group(queue, vectors, slot, |queue|)|, size)
    {
      assert slot == Slot(slot.multi, slot.key);
      assert InGroup(if slot.multi then multi else single, slot.key) == Group(queue, vectors, slot, |queue|);
    }
  }

  lemma GroupsAreOfSlot(single: Groups, multi: Groups, queue: seq<Effect>, vectors: seq<Vector>)
    requires |vectors| == |FlatTexts(queue)| && Grouped(single, multi, queue, vectors, |queue|)
    ensures forall key, i :: key in single && 0 <= i < |single[key]| ==>
              SlotOf(single[key][i].effect) == Slot(false, key)
    ensures forall key, i :: key in multi && 0 <= i < |multi[key]| ==> SlotOf(multi[key][i].effect) == Slot(true, key)
  {
    hide Group, FlatTexts, SlotOf;
    forall key | key in single
      ensures forall i :: 0 <= i < |single[key]| ==> SlotOf(single[key][i].effect) == Slot(false, key)
    {
      assert InGroup(single, key) == Group(queue, vectors, Slot(false, key), |queue|);
      GroupIsOfSlot(queue, vectors, Slot(false, key), |queue|);
    }
    forall key | key in multi
      ensures forall i :: 0 <= i < |multi[key]| ==> SlotOf(multi[key][i].effect) == Slot(true, key)
    {
      assert InGroup(multi, key) == Group(queue, vectors, Slot(true, key), |queue|);
      GroupIsOfSlot(queue, vectors, Slot(true, key), |queue|);
    }
  }

  /** `total_chunks`: the batches the groups will make, for the progress messages. */
  method CountAll(single: Groups, multi: Groups, queue: seq<Effect>, vectors: seq<Vector>, size: nat)
    returns (announced: nat)
    requires size > 0 && |vectors| == |FlatTexts(queue)| && Grouped(single, multi, queue, vectors, |queue|)
    ensures announced == Announced(queue, size)
  {
    hide Group, FlatTexts, Size, Sum, SlotsIn, SlotsOf;
    GroupsOfQueue(single, multi, queue, vectors);
    SingleAndMulti(single.Keys, multi.Keys, queue, size);
    var first := CountBatches(false, single, size, queue);
    var second := CountBatches(true, multi, size, queue);
    announced := first + second;
  }

  /**
   The drain. It succeeds exactly if every call returns one vector per text and the store takes the inserts announced;
   over a text-by-text embedder each effect is then in one batch with the vector of its text, or of each of its texts.
   */
  method DrainSideEffects(queue: seq<Effect>, embedder: Option<Embedder>, insertBatchSize: nat, budget: Option<nat>)
    returns (r: Result<(nat, nat), DrainError>, inserted: seq<Batch>, announced: nat, vectors: seq<Vector>)
    ensures queue == [] ==> r == Ok((0, 0)) && inserted == []
    ensures r.Ok? <==> queue == [] || (embedder.Some? && AllCallsSucceed(embedder.value, FlatTexts(queue))
                                       && (budget.None? || Announced(queue, SizeOf(insertBatchSize)) <= budget.value))
    ensures queue != [] && embedder.Some? && AllCallsSucceed(embedder.value, FlatTexts(queue)) ==>
              announced == Announced(queue, SizeOf(insertBatchSize))
    ensures forall j, k :: 0 <= j < k < |inserted| && inserted[j].slot.multi ==> inserted[k].slot.multi
    ensures r.Ok? ==>
              && |vectors| == |FlatTexts(queue)|
              && Drained(inserted, queue, vectors, SizeOf(insertBatchSize))
              && r.value == (|inserted|, RowCount(inserted)) && |inserted| == announced
    ensures inserted != [] ==>
              && |vectors| == |FlatTexts(queue)|
              && PartlyDrained(inserted, queue, vectors, SizeOf(insertBatchSize))
    ensures forall model :: embedder.Some? && Honest(embedder.value, model) && r.Ok? ==>
              EachOnce(inserted, queue, model)
  {
    hide RowsIn, FlatTexts, EachText, Honest, Announced, Drained, PartlyDrained, Grouped, EachOnce, AllCallsSucceed;
    inserted, announced, vectors := [], 0, [];
    var size := SizeOf(insertBatchSize);
    if queue == [] {
      NothingQueued();
      NothingDrained();
      NothingInserted(size);
      DrainedNothing(size);
      return Ok((0, 0)), [], 0, [];
    }
    if embedder.None? {
      return Err(NoEmbedder), [], 0, [];
    }
    var texts := CollectTexts(queue);
    var embedded := EmbedWithProgress(embedder.value, texts);
    if embedded.Err? {
      return Err(embedded.error), [], 0, [];
    }
    vectors := embedded.value;
    var single, multi := GroupEffects(queue, vectors);
    announced := CountAll(single, multi, queue, vectors, size);
    var ok, rows;
    ok, inserted, rows := InsertAll(single, multi, queue, vectors, size, budget);
    r := if ok then Ok((|inserted|, rows)) else Err(InsertFailed);
    if ok {
      forall model | Honest(embedder.value, model) ensures EachOnce(inserted, queue, model) {
        DrainedOnce(inserted, queue, vectors, size, model);
      }
    }
  }

  lemma DrainedNothing(size: nat)
    requires size > 0
    ensures |FlatTexts([])| == 0 && Drained([], [], [], size)
  {
    NothingQueued();
    NothingInserted(size);
    assert forall slot :: Group([], [], slot, 0) == [];
  }

  // ---- the llama embedder behind the drain ----

  /** The embedder of src/embeddings/llama.rs over a tokeniser. */
  function Llama(tokenize: string -> Prompt, nCtx: nat, model: Prompt -> Vector): Embedder
    requires nCtx > 0
  {
    (texts: seq<string>) => Some(Vectors(Prompts(texts, tokenize), nCtx, model))
  }

  function Prompts(texts: seq<string>, tokenize: string -> Prompt): seq<Prompt> {
    seq(|texts|, i requires 0 <= i < |texts| => tokenize(texts[i]))
  }

  lemma LlamaCall(tokenize: string -> Prompt, nCtx: nat, model: Prompt -> Vector, texts: seq<string>)
    requires nCtx > 0
    ensures CallSucceeds(Llama(tokenize, nCtx, model), texts) <==>
            forall i :: 0 <= i < |texts| ==> |tokenize(texts[i])| <= nCtx
  {
    hide Vectors;
    var prompts := Prompts(texts, tokenize);
    OneVectorPerText(prompts, nCtx, model);
    assert forall i :: 0 <= i < |texts| ==> prompts[i] == tokenize(texts[i]);
  }

  /** An over-long text anywhere makes the drain fail; it never shifts vectors from one text to another. */
  lemma OverlongTextIsCaught(tokenize: string -> Prompt, nCtx: nat, model: Prompt -> Vector, texts: seq<string>)
    requires nCtx > 0
    ensures AllCallsSucceed(Llama(tokenize, nCtx, model), texts) <==>
            forall i :: 0 <= i < |texts| ==> |tokenize(texts[i])| <= nCtx
    ensures Honest(Llama(tokenize, nCtx, model), (t: string) => model(tokenize(t)))
  {
    hide Vectors;
    var embed, size := Llama(tokenize, nCtx, model), EMBEDDING_PROGRESS_CHUNK_SIZE;
    forall k: nat | k * size < |texts|
      ensures CallSucceeds(embed, ChunkOf(texts, k, size)) <==>
              forall i :: 0 <= i < |ChunkOf(texts, k, size)| ==> |tokenize(ChunkOf(texts, k, size)[i])| <= nCtx
    {
      LlamaCall(tokenize, nCtx, model, ChunkOf(texts, k, size));
    }
    if AllCallsSucceed(embed, texts) {
      forall i | 0 <= i < |texts| ensures |tokenize(texts[i])| <= nCtx {
        var k := i / 128;
        assert k * size <= i;
        assert CallSucceeds(embed, ChunkOf(texts, k, size));
        assert ChunkOf(texts, k, size)[i - k * size] == texts[i];
      }
    }
    forall ts | CallSucceeds(embed, ts) ensures embed(ts).value == EachText(ts, (t: string) => model(tokenize(t))) {
      OneVectorPerText(Prompts(ts, tokenize), nCtx, model);
    }
  }

  /** No text of the effect is longer than the context. */
  predicate TextsFit(e: Effect, tokenize: string -> Prompt, nCtx: nat) {
    match e
    case Single(_, _, text) => |tokenize(text)| <= nCtx
    case Multi(_, _, texts) => forall j :: 0 <= j < |texts| ==> |tokenize(texts[j])| <= nCtx
  }

  lemma TextsOfFit(e: Effect, tokenize: string -> Prompt, nCtx: nat)
    ensures (forall i :: 0 <= i < |TextsOf(e)| ==> |tokenize(TextsOf(e)[i])| <= nCtx) <==> TextsFit(e, tokenize, nCtx)
  {
    var texts := TextsOf(e);
    match e
    case Single(_, _, text) => assert texts[0] == text;
    case Multi(_, _, _) => assert texts == e.texts;
  }

  lemma {:induction false} FlatTextsFit(queue: seq<Effect>, tokenize: string -> Prompt, nCtx: nat)
    ensures (forall i :: 0 <= i < |FlatTexts(queue)| ==> |tokenize(FlatTexts(queue)[i])| <= nCtx) <==>
            forall i :: 0 <= i < |queue| ==> TextsFit(queue[i], tokenize, nCtx)
  {
    if queue != [] {
      var init, last := queue[..|queue| - 1], queue[|queue| - 1];
      FlatTextsFit(init, tokenize, nCtx);
      var a, b := FlatTexts(init), TextsOf(last);
      assert FlatTexts(queue) == a + b;
      assert forall i :: 0 <= i < |b| ==> (a + b)[|a| + i] == b[i];
      assert forall i :: 0 <= i < |a| ==> (a + b)[i] == a[i];
      TextsOfFit(last, tokenize, nCtx);
    }
  }

  /**
   The drain behind the llama embedder: it succeeds exactly if no text is longer than the context and the store takes as
   many inserts as are announced, and then every effect is in one batch with the vectors of its own texts.
   */
  method DrainThroughLlama(queue: seq<Effect>, tokenize: string -> Prompt, nCtx: nat, model: Prompt -> Vector,
                           insertBatchSize: nat, budget: Option<nat>)
    returns (r: Result<(nat, nat), DrainError>, inserted: seq<Batch>)
    requires nCtx > 0
    ensures r.Ok? <==> (forall i :: 0 <= i < |queue| ==> TextsFit(queue[i], tokenize, nCtx))
                       && (budget.None? || Announced(queue, SizeOf(insertBatchSize)) <= budget.value)
    ensures r.Ok? ==> EachOnce(inserted, queue, (t: string) => model(tokenize(t)))
    ensures r.Ok? ==> r.value == (|inserted|, |queue|)
  {
    hide FlatTexts, AllRows, AllOwn, Drained, PartlyDrained, EachText, AllCallsSucceed, Honest, RowCount, Announced;
    hide TextsFit, EachOnce;
    var embedder := Llama(tokenize, nCtx, model);
    OverlongTextIsCaught(tokenize, nCtx, model, FlatTexts(queue));
    FlatTextsFit(queue, tokenize, nCtx);
    EmptyQueue(queue, SizeOf(insertBatchSize));
    var announced, vectors;
    r, inserted, announced, vectors := DrainSideEffects(queue, Some(embedder), insertBatchSize, budget);
    if r.Ok? {
      DrainConserves(inserted, queue, vectors, SizeOf(insertBatchSize));
    }
  }

  lemma EmptyQueue(queue: seq<Effect>, size: nat)
    requires size > 0
    ensures queue == [] ==> FlatTexts(queue) == [] && Announced(queue, size) == 0
  {
    if queue == [] {
      assert SlotsOf(queue) == {};
    }
  }
}
