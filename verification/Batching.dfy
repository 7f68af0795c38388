/**
 Packing prompts into model calls (src/embeddings/llama.rs): the split, and the loops that embed and rerank with it.
 */
module Batching {
  import opened Common

  /** A tokenised prompt. */
  type Prompt = seq<int>

  const MAX_BATCH_SIZE: nat := 512
  const RERANK_SEQS: nat := 30

  function Tokens(batch: seq<Prompt>): nat {
    if batch == [] then 0 else Tokens(batch[..|batch| - 1]) + |batch[|batch| - 1]|
  }

  /**
   A batch the model takes: inside both limits, or one oversize prompt alone. No limit on prompts below one counts.
   */
  predicate Fits(batch: seq<Prompt>, maxTokens: nat, maxSequences: nat) {
    && batch != []
    && (|batch| == 1 || (Tokens(batch) <= maxTokens && |batch| <= maxSequences))
  }

  ghost predicate IsSplit(batches: seq<seq<Prompt>>, items: seq<Prompt>, maxTokens: nat, maxSequences: nat) {
    && Flatten(batches) == items
    && forall k :: 0 <= k < |batches| ==> Fits(batches[k], maxTokens, maxSequences)
  }

  /** No split of the same prompts inside the same limits has fewer batches. */
  ghost predicate IsShortest(batches: seq<seq<Prompt>>, items: seq<Prompt>, maxTokens: nat, maxSequences: nat) {
    forall other :: IsSplit(other, items, maxTokens, maxSequences) ==> |batches| <= |other|
  }

  /** No batch could have taken the first prompt of the next one. */
  ghost predicate Greedy(batches: seq<seq<Prompt>>, maxTokens: nat, maxSequences: nat) {
    forall k :: 0 < k < |batches| ==>
      batches[k] != [] && !Fits(batches[k - 1] + [batches[k][0]], maxTokens, maxSequences)
  }

  /** Nothing more goes into the last batch. */
  ghost predicate Full(batches: seq<seq<Prompt>>, next: Prompt, maxTokens: nat, maxSequences: nat) {
    batches != [] ==> !Fits(batches[|batches| - 1] + [next], maxTokens, maxSequences)
  }

  // ---- sums ----

  lemma {:induction false} TokensAppend(a: seq<Prompt>, b: seq<Prompt>)
    ensures Tokens(a + b) == Tokens(a) + Tokens(b)
  {
    if b == [] {
      assert a + b == a;
    } else {
      assert (a + b)[..|a + b| - 1] == a + b[..|b| - 1];
      TokensAppend(a, b[..|b| - 1]);
    }
  }

  lemma OneMorePrompt(batch: seq<Prompt>, p: Prompt)
    ensures Tokens(batch + [p]) == Tokens(batch) + |p|
  {
    assert (batch + [p])[..|batch|] == batch;
  }

  /** Two or more neighbours in a batch that fits fit on their own. */
  lemma PartFits(a: seq<Prompt>, b: seq<Prompt>, c: seq<Prompt>, maxTokens: nat, maxSequences: nat)
    requires Fits(a + b + c, maxTokens, maxSequences) && |b| >= 2
    ensures Fits(b, maxTokens, maxSequences)
  {
    TokensAppend(a + b, c);
    TokensAppend(a, b);
  }

  // ---- the split ----

  /** The batches closed so far and the one being filled, after the prompts `done`. */
  ghost predicate Packing(batches: seq<seq<Prompt>>, current: seq<Prompt>, done: seq<Prompt>, maxTokens: nat,
                          maxSequences: nat) {
    && Flatten(batches) + current == done
    && (forall k :: 0 <= k < |batches| ==> Fits(batches[k], maxTokens, maxSequences))
    && Greedy(batches, maxTokens, maxSequences)
    && Tokens(current) <= maxTokens
    && if current == [] then forall next :: Full(batches, next, maxTokens, maxSequences)
       else Fits(current, maxTokens, maxSequences) && Full(batches, current[0], maxTokens, maxSequences)
  }

  function Close(batches: seq<seq<Prompt>>, current: seq<Prompt>): seq<seq<Prompt>> {
    if current == [] then batches else batches + [current]
  }

  method SplitIntoBatches(items: seq<Prompt>, maxTokens: nat, maxSequences: nat) returns (batches: seq<seq<Prompt>>)
    ensures IsSplit(batches, items, maxTokens, maxSequences)
    ensures IsShortest(batches, items, maxTokens, maxSequences)
  {
    hide Fits, Flatten, Packing, Tokens, Greedy, IsSplit, IsShortest;
    batches := [];
    var current: seq<Prompt>, currentTokens := [], 0;
    NothingPacked(maxTokens, maxSequences);
    for i := 0 to |items|
      invariant Packing(batches, current, items[..i], maxTokens, maxSequences)
      invariant currentTokens == Tokens(current)
    {
      var prompt := items[i];
      var len := |prompt|;
      assert items[..i + 1] == items[..i] + [prompt];
      ghost var before, held := batches, current;
      if len > maxTokens || |current| >= maxSequences {
        if current != [] {
          batches := batches + [current];
          current, currentTokens := [], 0;
        }
      }
      if len > maxTokens {
        PackAlone(before, held, items[..i], prompt, maxTokens, maxSequences);
        assert batches == Close(before, held);
        batches := batches + [[prompt]];
        continue;
      }
      if current != [] && (currentTokens + len > maxTokens || |current| >= maxSequences) {
        batches := batches + [current];
        current, currentTokens := [], 0;
      }
      PackNext(before, held, items[..i], prompt, maxTokens, maxSequences);
      assert [] + [prompt] == [prompt];
      OneMorePrompt(current, prompt);
      currentTokens := currentTokens + len;
      current := current + [prompt];
    }
    assert items[..|items|] == items;
    ghost var last := batches;
    PackEnds(batches, current, items, maxTokens, maxSequences);
    if current != [] {
      batches := batches + [current];
    }
    assert batches == Close(last, current);
  }

  lemma NothingPacked(maxTokens: nat, maxSequences: nat)
    ensures Packing([], [], [], maxTokens, maxSequences) && Tokens([]) == 0
  {
  }

  lemma CloseFlattens(batches: seq<seq<Prompt>>, current: seq<Prompt>)
    ensures Flatten(Close(batches, current)) == Flatten(batches) + current
  {
    FlattenSnoc(batches, current);
  }

  /** An oversize prompt closes the held batch and goes alone. */
  lemma PackAlone(batches: seq<seq<Prompt>>, held: seq<Prompt>, done: seq<Prompt>, p: Prompt, maxTokens: nat,
                  maxSequences: nat)
    requires Packing(batches, held, done, maxTokens, maxSequences) && |p| > maxTokens
    ensures Packing(Close(batches, held) + [[p]], [], done + [p], maxTokens, maxSequences) && Tokens([]) == 0
  {
    hide Fits, Flatten;
    Oversize(p, maxTokens, maxSequences);
    Closed(batches, held, [p], maxTokens, maxSequences);
    CloseFlattens(batches, held);
    FlattenSnoc(Close(batches, held), [p]);
  }

  /** Any other prompt joins the held batch if it fits there, and starts a new one otherwise. */
  lemma PackNext(batches: seq<seq<Prompt>>, held: seq<Prompt>, done: seq<Prompt>, p: Prompt, maxTokens: nat,
                 maxSequences: nat)
    requires Packing(batches, held, done, maxTokens, maxSequences) && |p| <= maxTokens
    ensures Tokens([]) == 0
    ensures if held == [] || (Tokens(held) + |p| <= maxTokens && |held| < maxSequences)
            then Packing(batches, held + [p], done + [p], maxTokens, maxSequences)
            else Packing(batches + [held], [p], done + [p], maxTokens, maxSequences)
  {
    hide Fits, Flatten, Tokens, Packing;
    Taken(held, p, maxTokens, maxSequences);
    OneMorePrompt(held, p);
    OneMorePrompt([], p);
    NothingPacked(maxTokens, maxSequences);
    assert [] + [p] == [p];
    if held == [] || (Tokens(held) + |p| <= maxTokens && |held| < maxSequences) {
      Joins(batches, held, done, p, maxTokens, maxSequences);
    } else {
      StartsNext(batches, held, done, p, maxTokens, maxSequences);
    }
  }

  lemma Joins(batches: seq<seq<Prompt>>, held: seq<Prompt>, done: seq<Prompt>, p: Prompt, maxTokens: nat,
              maxSequences: nat)
    requires Packing(batches, held, done, maxTokens, maxSequences)
    requires Tokens(held + [p]) <= maxTokens && Fits(held + [p], maxTokens, maxSequences)
    ensures Packing(batches, held + [p], done + [p], maxTokens, maxSequences)
  {
    hide Fits, Flatten, Tokens, Greedy, Full;
    assert Flatten(batches) + (held + [p]) == done + [p];
    assert (held + [p])[0] == if held == [] then p else held[0];
  }

  lemma StartsNext(batches: seq<seq<Prompt>>, held: seq<Prompt>, done: seq<Prompt>, p: Prompt, maxTokens: nat,
                   maxSequences: nat)
    requires Packing(batches, held, done, maxTokens, maxSequences)
    requires held != [] && !Fits(held + [p], maxTokens, maxSequences)
    requires Tokens([p]) <= maxTokens && Fits([p], maxTokens, maxSequences)
    ensures Packing(batches + [held], [p], done + [p], maxTokens, maxSequences)
  {
    hide Fits, Flatten, Tokens;
    CloseFlattens(batches, held);
    Closed(batches, held, [p], maxTokens, maxSequences);
    GreedyInit(batches + [held], [p], maxTokens, maxSequences);
  }

  lemma GreedyInit(batches: seq<seq<Prompt>>, last: seq<Prompt>, maxTokens: nat, maxSequences: nat)
    requires Greedy(batches + [last], maxTokens, maxSequences)
    ensures Greedy(batches, maxTokens, maxSequences)
  {
    hide Fits;
    var all := batches + [last];
    assert forall k :: 0 <= k < |batches| ==> batches[k] == all[k];
  }

  lemma PackEnds(batches: seq<seq<Prompt>>, held: seq<Prompt>, items: seq<Prompt>, maxTokens: nat, maxSequences: nat)
    requires Packing(batches, held, items, maxTokens, maxSequences)
    ensures IsSplit(Close(batches, held), items, maxTokens, maxSequences)
    ensures IsShortest(Close(batches, held), items, maxTokens, maxSequences)
  {
    hide Flatten;
    CloseFlattens(batches, held);
    var all := Close(batches, held);
    assert Greedy(all, maxTokens, maxSequences);
    forall other | IsSplit(other, items, maxTokens, maxSequences) ensures |all| <= |other| {
      assert [] + items == items;
      StaysAhead(all, other, [], maxTokens, maxSequences);
    }
  }

  lemma Oversize(p: Prompt, maxTokens: nat, maxSequences: nat)
    requires |p| > maxTokens
    ensures Fits([p], maxTokens, maxSequences)
    ensures forall batch: seq<Prompt> :: batch != [] ==> !Fits(batch + [p], maxTokens, maxSequences)
    ensures forall next: Prompt :: !Fits([p] + [next], maxTokens, maxSequences)
  {
    forall batch: seq<Prompt> ensures Tokens(batch + [p]) > maxTokens {
      OneMorePrompt(batch, p);
    }
    forall next: Prompt ensures Tokens([p] + [next]) > maxTokens {
      OneMorePrompt([p], next);
      OneMorePrompt([], p);
      assert [] + [p] == [p];
    }
  }

  /** A prompt inside the token limit joins the held batch exactly when the source lets it. */
  lemma Taken(held: seq<Prompt>, p: Prompt, maxTokens: nat, maxSequences: nat)
    requires |p| <= maxTokens
    ensures Fits([p], maxTokens, maxSequences)
    ensures held != [] ==>
      (Fits(held + [p], maxTokens, maxSequences) <==> Tokens(held) + |p| <= maxTokens && |held| < maxSequences)
  {
    OneMorePrompt(held, p);
  }

  /** Closing the held batch before one that could not join it keeps the split greedy. */
  lemma Closed(batches: seq<seq<Prompt>>, held: seq<Prompt>, next: seq<Prompt>, maxTokens: nat, maxSequences: nat)
    requires Greedy(batches, maxTokens, maxSequences) && next != []
    requires if held == [] then Full(batches, next[0], maxTokens, maxSequences)
             else Full(batches, held[0], maxTokens, maxSequences) && !Fits(held + [next[0]], maxTokens, maxSequences)
    ensures Greedy((if held == [] then batches else batches + [held]) + [next], maxTokens, maxSequences)
  {
    hide Fits;
  }

  /**
   Against any other split of the same prompts: if the greedy one has already taken `lead` more of them, it needs no
   more batches for the rest than the other one does.
   */
  lemma {:induction false} StaysAhead(greedy: seq<seq<Prompt>>, other: seq<seq<Prompt>>, lead: seq<Prompt>,
                                      maxTokens: nat, maxSequences: nat)
    requires Greedy(greedy, maxTokens, maxSequences)
    requires forall k :: 0 <= k < |greedy| ==> greedy[k] != []
    requires forall k :: 0 <= k < |other| ==> Fits(other[k], maxTokens, maxSequences)
    requires Flatten(other) == lead + Flatten(greedy)
    ensures |greedy| <= |other|
    decreases |greedy|
  {
    if greedy != [] {
      var g, rest := greedy[0], Flatten(greedy[1..]);
      assert Flatten(greedy) == g + rest;
      assert other != [];
      var o, later := other[0], Flatten(other[1..]);
      assert o + later == lead + g + rest;
      NoReachPast(greedy, o, later, lead, maxTokens, maxSequences);
      var lead' := (lead + g)[|o|..];
      assert later == lead' + rest by {
        assert (o + later)[|o|..] == later;
        assert (lead + g + rest)[|o|..] == lead' + rest;
      }
      StaysAhead(greedy[1..], other[1..], lead', maxTokens, maxSequences);
    }
  }

  /** No batch that fits reaches past the greedy batch it starts before. */
  lemma NoReachPast(greedy: seq<seq<Prompt>>, o: seq<Prompt>, later: seq<Prompt>, lead: seq<Prompt>, maxTokens: nat,
                    maxSequences: nat)
    requires greedy != [] && greedy[0] != [] && Greedy(greedy, maxTokens, maxSequences)
    requires Fits(o, maxTokens, maxSequences)
    requires o + later == lead + greedy[0] + Flatten(greedy[1..])
    ensures |o| <= |lead + greedy[0]|
  {
    var g, rest, n := greedy[0], Flatten(greedy[1..]), |lead + greedy[0]|;
    if |o| > n {
      assert rest != [];
      var x := greedy[1][0];
      assert rest == [x] + rest[1..];
      assert o + later == lead + (g + [x]) + rest[1..];
      assert o[..n + 1] == (o + later)[..n + 1] == lead + (g + [x]);
      assert o == lead + (g + [x]) + o[n + 1..];
      PartFits(lead, g + [x], o[n + 1..], maxTokens, maxSequences);
    }
  }
}
