/**
 The loops around the model in src/embeddings/llama.rs. The model itself is a function of one prompt: a call decodes
 several prompts and yields one vector, or one score, for each.
 */
module ModelCalls {
  import opened Common
  import opened Batching

  type Vector = seq<real>

  const MAX_SEQS_PER_BATCH: nat := 256

  /** `chunks(n)`: pieces of length `n`, the last one possibly shorter. */
  function Chunks(p: Prompt, n: nat): (r: seq<Prompt>)
    requires n > 0
    ensures Flatten(r) == p && forall i :: 0 <= i < |r| ==> 0 < |r[i]| <= n
    ensures |p| <= |r| * n && (p != [] ==> (|r| - 1) * n < |p|)
    ensures |p| > n ==> |r| >= 2
    decreases |p|
  {
    if p == [] then []
    else if |p| <= n then
      assert Flatten([p]) == p + Flatten([p][1..]);
      [p]
    else
      var rest := Chunks(p[n..], n);
      assert ([p[..n]] + rest)[1..] == rest;
      [p[..n]] + rest
  }

  function Each<T>(ps: seq<Prompt>, model: Prompt -> T): seq<T> {
    seq(|ps|, i requires 0 <= i < |ps| => model(ps[i]))
  }

  /** What one text yields: its vector, or one for every piece of an over-long text. */
  function VectorsOf(p: Prompt, nCtx: nat, model: Prompt -> Vector): seq<Vector>
    requires nCtx > 0
  {
    if |p| > nCtx then Each(Chunks(p, nCtx), model) else [model(p)]
  }

  function Vectors(ps: seq<Prompt>, nCtx: nat, model: Prompt -> Vector): seq<Vector>
    requires nCtx > 0
  {
    if ps == [] then [] else Vectors(ps[..|ps| - 1], nCtx, model) + VectorsOf(ps[|ps| - 1], nCtx, model)
  }

  /** Every model call stays inside both of the context's limits. */
  ghost predicate CallsFit(calls: seq<seq<Prompt>>, nCtx: nat) {
    forall k :: 0 <= k < |calls| ==> calls[k] != [] && Tokens(calls[k]) <= nCtx && |calls[k]| <= MAX_SEQS_PER_BATCH
  }

  method FlushPacked(packed: seq<Prompt>, nCtx: nat, output: seq<Vector>, calls: seq<seq<Prompt>>,
                     model: Prompt -> Vector)
    returns (output': seq<Vector>, calls': seq<seq<Prompt>>)
    requires CallsFit(calls, nCtx) && Tokens(packed) <= nCtx && |packed| <= MAX_SEQS_PER_BATCH
    ensures output' == output + Each(packed, model)
    ensures CallsFit(calls', nCtx) && calls' == if packed == [] then calls else calls + [packed]
  {
    output', calls' := output, calls;
    if packed == [] {
      return;
    }
    calls' := calls' + [packed];
    for i := 0 to |packed|
      invariant output' == output + Each(packed[..i], model)
    {
      assert Each(packed[..i + 1], model) == Each(packed[..i], model) + [model(packed[i])];
      output' := output' + [model(packed[i])];
    }
    assert packed[..|packed|] == packed;
  }

  /** An over-long text, piece by piece. */
  method EmbedPieces(p: Prompt, nCtx: nat, output: seq<Vector>, calls: seq<seq<Prompt>>, model: Prompt -> Vector)
    returns (output': seq<Vector>, calls': seq<seq<Prompt>>)
    requires nCtx > 0 && CallsFit(calls, nCtx)
    ensures output' == output + Each(Chunks(p, nCtx), model) && CallsFit(calls', nCtx)
  {
    output', calls' := output, calls;
    var chunks := Chunks(p, nCtx);
    for i := 0 to |chunks|
      invariant output' == output + Each(chunks[..i], model) && CallsFit(calls', nCtx)
    {
      assert Each(chunks[..i + 1], model) == Each(chunks[..i], model) + [model(chunks[i])];
      OneMorePrompt([], chunks[i]);
      assert [] + [chunks[i]] == [chunks[i]];
      calls' := calls' + [[chunks[i]]];
      output' := output' + [model(chunks[i])];
    }
    assert chunks[..|chunks|] == chunks;
  }

  lemma VectorsSnoc(ps: seq<Prompt>, p: Prompt, nCtx: nat, model: Prompt -> Vector)
    requires nCtx > 0
    ensures Vectors(ps + [p], nCtx, model) == Vectors(ps, nCtx, model) + VectorsOf(p, nCtx, model)
  {
    assert (ps + [p])[..|ps|] == ps;
  }

  lemma EachSnoc<T>(ps: seq<Prompt>, p: Prompt, model: Prompt -> T)
    ensures Each(ps + [p], model) == Each(ps, model) + [model(p)] && Each([], model) == []
  {
  }

  lemma VectorsOfCases(p: Prompt, nCtx: nat, model: Prompt -> Vector)
    requires nCtx > 0
    ensures VectorsOf(p, nCtx, model) == if |p| > nCtx then Each(Chunks(p, nCtx), model) else [model(p)]
  {
  }

  /** One batch: packed prompts go to the model together, an over-long one alone and in pieces. */
  method EmbedBatch(batch: seq<Prompt>, nCtx: nat, output: seq<Vector>, calls: seq<seq<Prompt>>,
                    model: Prompt -> Vector,
                    ghost done: seq<Prompt>)
    returns (output': seq<Vector>, calls': seq<seq<Prompt>>)
    requires nCtx > 0 && CallsFit(calls, nCtx) && Fits(batch, nCtx, MAX_SEQS_PER_BATCH)
    requires output == Vectors(done, nCtx, model)
    ensures output' == Vectors(done + batch, nCtx, model) && CallsFit(calls', nCtx)
  {
    hide Vectors, Each, Tokens, VectorsOf, Chunks, CallsFit;
    output', calls' := output, calls;
    var packed: seq<Prompt>, packedTokens := [], 0;
    NothingPacked(nCtx, MAX_SEQS_PER_BATCH);
    EachSnoc([], [], model);
    assert done + batch[..0] == done;
    for j := 0 to |batch|
      invariant output' + Each(packed, model) == Vectors(done + batch[..j], nCtx, model)
      invariant CallsFit(calls', nCtx) && |packed| <= j && |packed| <= MAX_SEQS_PER_BATCH
                && packedTokens == Tokens(packed) <= nCtx
    {
      var prompt := batch[j];
      assert done + batch[..j + 1] == (done + batch[..j]) + [prompt];
      VectorsSnoc(done + batch[..j], prompt, nCtx, model);
      VectorsOfCases(prompt, nCtx, model);
      if |prompt| > nCtx {
        output', calls' := FlushPacked(packed, nCtx, output', calls', model);
        packed, packedTokens := [], 0;
        output', calls' := EmbedPieces(prompt, nCtx, output', calls', model);
        continue;
      }
      if packed != [] && packedTokens + |prompt| > nCtx {
        output', calls' := FlushPacked(packed, nCtx, output', calls', model);
        packed, packedTokens := [], 0;
      }
      OneMorePrompt(packed, prompt);
      EachSnoc(packed, prompt, model);
      packedTokens := packedTokens + |prompt|;
      packed := packed + [prompt];
    }
    output', calls' := FlushPacked(packed, nCtx, output', calls', model);
    assert batch[..|batch|] == batch;
  }

  method EmbedLocked(texts: seq<Prompt>, nCtx: nat, model: Prompt -> Vector)
    returns (output: seq<Vector>, calls: seq<seq<Prompt>>)
    requires nCtx > 0
    ensures output == Vectors(texts, nCtx, model)
    ensures CallsFit(calls, nCtx)
  {
    hide Vectors, Fits, IsShortest;
    var batches := SplitIntoBatches(texts, nCtx, MAX_SEQS_PER_BATCH);
    output, calls := [], [];
    NoVectors(nCtx, model);
    for k := 0 to |batches|
      invariant output == Vectors(Flatten(batches[..k]), nCtx, model) && CallsFit(calls, nCtx)
    {
      assert batches[..k + 1] == batches[..k] + [batches[k]];
      FlattenSnoc(batches[..k], batches[k]);
      output, calls := EmbedBatch(batches[k], nCtx, output, calls, model, Flatten(batches[..k]));
    }
    assert batches[..|batches|] == batches;
  }

  lemma NoVectors(nCtx: nat, model: Prompt -> Vector)
    requires nCtx > 0
    ensures Vectors([], nCtx, model) == []
  {
  }

  /** One vector per text, each its own, exactly when no text is longer than the context; otherwise there are more. */
  lemma {:induction false} OneVectorPerText(texts: seq<Prompt>, nCtx: nat, model: Prompt -> Vector)
    requires nCtx > 0
    ensures |Vectors(texts, nCtx, model)| >= |texts|
    ensures |Vectors(texts, nCtx, model)| == |texts| <==> forall i :: 0 <= i < |texts| ==> |texts[i]| <= nCtx
    ensures |Vectors(texts, nCtx, model)| == |texts| ==> Vectors(texts, nCtx, model) == Each(texts, model)
  {
    if texts != [] {
      var init, p := texts[..|texts| - 1], texts[|texts| - 1];
      hide Chunks, Each, Vectors, VectorsOf;
      OneVectorPerText(init, nCtx, model);
      assert texts == init + [p];
      VectorsSnoc(init, p, nCtx, model);
      EachSnoc(init, p, model);
    }
  }

  function Truncated(p: Prompt): Prompt {
    if |p| > MAX_BATCH_SIZE then p[..MAX_BATCH_SIZE] else p
  }

  /** `rerank_locked`: prompts are cut to the call limit first, so there is one score per document, in order. */
  method RerankLocked(prompts: seq<Prompt>, score: Prompt -> real) returns (results: seq<real>, calls: seq<seq<Prompt>>)
    ensures |results| == |prompts|
    ensures forall i :: 0 <= i < |prompts| && |prompts[i]| <= MAX_BATCH_SIZE ==> results[i] == score(prompts[i])
    ensures forall i :: 0 <= i < |prompts| && |prompts[i]| > MAX_BATCH_SIZE ==>
              results[i] == score(prompts[i][..MAX_BATCH_SIZE])
    ensures forall k :: 0 <= k < |calls| ==> Tokens(calls[k]) <= MAX_BATCH_SIZE && |calls[k]| <= RERANK_SEQS
  {
    var tokenizers: seq<Prompt> := [];
    for i := 0 to |prompts|
      invariant |tokenizers| == i && forall k :: 0 <= k < i ==> tokenizers[k] == Truncated(prompts[k])
    {
      tokenizers := tokenizers + [Truncated(prompts[i])];
    }
    results, calls := ScoreAll(tokenizers, score);
  }

  method ScoreAll(tokenizers: seq<Prompt>, score: Prompt -> real) returns (results: seq<real>, calls: seq<seq<Prompt>>)
    requires forall i :: 0 <= i < |tokenizers| ==> |tokenizers[i]| <= MAX_BATCH_SIZE
    ensures results == Each(tokenizers, score)
    ensures forall k :: 0 <= k < |calls| ==> Tokens(calls[k]) <= MAX_BATCH_SIZE && |calls[k]| <= RERANK_SEQS
  {
    hide Flatten, Each, Fits, Tokens, IsShortest;
    var batches := SplitIntoBatches(tokenizers, MAX_BATCH_SIZE, RERANK_SEQS);
    results, calls := [], [];
    FlattenEmpty<Prompt>();
    EachSnoc([], [], score);
    for k := 0 to |batches|
      invariant results == Each(Flatten(batches[..k]), score)
      invariant forall c :: 0 <= c < |calls| ==> Tokens(calls[c]) <= MAX_BATCH_SIZE && |calls[c]| <= RERANK_SEQS
    {
      var batch := batches[k];
      BatchPlace(batches, k);
      SmallBatch(batch, tokenizers, |Flatten(batches[..k])|);
      calls := calls + [batch];
      results := ScoreBatch(batch, results, score, Flatten(batches[..k]));
    }
    assert batches[..|batches|] == batches;
  }

  method ScoreBatch(batch: seq<Prompt>, results: seq<real>, score: Prompt -> real, ghost done: seq<Prompt>)
    returns (results': seq<real>)
    requires results == Each(done, score)
    ensures results' == Each(done + batch, score)
  {
    hide Each;
    results' := results;
    assert done + batch[..0] == done;
    for i := 0 to |batch|
      invariant results' == Each(done + batch[..i], score)
    {
      assert done + batch[..i + 1] == (done + batch[..i]) + [batch[i]];
      EachSnoc(done + batch[..i], batch[i], score);
      results' := results' + [score(batch[i])];
    }
    assert batch[..|batch|] == batch;
  }

  /** Batch `k` stands in the flattened list behind the batches before it. */
  lemma BatchPlace(batches: seq<seq<Prompt>>, k: nat)
    requires k < |batches|
    ensures var start, all := |Flatten(batches[..k])|, Flatten(batches);
            && Flatten(batches[..k + 1]) == Flatten(batches[..k]) + batches[k] <= all
            && start + |batches[k]| <= |all| && forall i :: 0 <= i < |batches[k]| ==> all[start + i] == batches[k][i]
  {
    assert batches[..k + 1] == batches[..k] + [batches[k]];
    FlattenSnoc(batches[..k], batches[k]);
    assert batches == batches[..k + 1] + batches[k + 1..];
    FlattenAppend(batches[..k + 1], batches[k + 1..]);
  }

  lemma SmallBatch(batch: seq<Prompt>, items: seq<Prompt>, start: nat)
    requires Fits(batch, MAX_BATCH_SIZE, RERANK_SEQS) && start + |batch| <= |items|
    requires forall i :: 0 <= i < |batch| ==> items[start + i] == batch[i]
    requires forall i :: 0 <= i < |items| ==> |items[i]| <= MAX_BATCH_SIZE
    ensures Tokens(batch) <= MAX_BATCH_SIZE && |batch| <= RERANK_SEQS
  {
    if |batch| == 1 {
      OneMorePrompt([], batch[0]);
      assert [] + [batch[0]] == batch;
      assert |items[start + 0]| <= MAX_BATCH_SIZE;
    }
  }
}
