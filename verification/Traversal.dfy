/** The ranked answer of a traversal (src/core/pipeline.rs): the candidate pool and the optional rerank. */
module Traversal {
  import opened Common
  import opened Sorting
  import opened TraversalMerges

  const DEFAULT_TRAVERSAL_RERANK_TOP_K: nat := 50

  datatype TraversalError = NoReranker | RerankerFailed | WrongScoreCount(scores: nat, docs: nat)

  /** Higher score first, then first seen. */
  predicate ByScore(a: ChunkHit, b: ChunkHit) {
    a.score > b.score || (a.score == b.score && a.firstSeen < b.firstSeen)
  }

  function Rank(h: ChunkHit): real {
    match h.rerankScore case Some(r) => r case None => 0.0
  }

  /** Higher rerank score first, then as the pool was ranked. */
  predicate ByRerank(a: ChunkHit, b: ChunkHit) {
    Rank(a) > Rank(b) || (Rank(a) == Rank(b) && ByScore(a, b))
  }

  predicate ScoreOrder(a: ChunkHit, b: ChunkHit) {
    a.score > b.score || (a.score == b.score && a.firstSeen <= b.firstSeen)
  }

  predicate RerankOrder(a: ChunkHit, b: ChunkHit) {
    Rank(a) > Rank(b) || (Rank(a) == Rank(b) && a.score >= b.score)
  }

  predicate SeenBefore(a: ChunkHit, b: ChunkHit) {
    a.firstSeen < b.firstSeen
  }

  /** The first `limit` of `all` in a strict order. */
  ghost predicate IsTop(top: seq<ChunkHit>, all: set<ChunkHit>, limit: nat, before: (ChunkHit, ChunkHit) -> bool) {
    && |top| == (if limit < |all| then limit else |all|)
    && (forall h :: h in top ==> h in all)
    && Pairwise(top, before)
    && forall h, t :: h in all && h !in top && t in top ==> before(t, h)
  }

  ghost predicate StrictTotal(all: set<ChunkHit>, before: (ChunkHit, ChunkHit) -> bool) {
    && (forall a, b :: before(a, b) ==> !before(b, a))
    && (forall a, b, c :: before(a, b) && before(b, c) ==> before(a, c))
    && forall a, b :: a in all && b in all && a != b ==> before(a, b) || before(b, a)
  }

  /** A sorted listing of `all`, cut at `limit`, is its top. */
  lemma CutIsTop(sorted: seq<ChunkHit>, all: set<ChunkHit>, limit: nat, before: (ChunkHit, ChunkHit) -> bool)
    requires Pairwise(sorted, before) && StrictTotal(all, before)
    requires forall h :: h in sorted <==> h in all
    ensures IsTop(if limit < |sorted| then sorted[..limit] else sorted, all, limit, before)
  {
    forall i, j | 0 <= i < j < |sorted| ensures sorted[i] != sorted[j] {
      assert before(sorted[i], sorted[j]);
    }
    DistinctCount(sorted, all);
    var top := if limit < |sorted| then sorted[..limit] else sorted;
    forall h, t | h in all && h !in top && t in top ensures before(t, h) {
      var i :| 0 <= i < |sorted| && sorted[i] == h;
      var j :| 0 <= j < |top| && top[j] == t;
      assert forall k :: 0 <= k < |top| ==> top[k] == sorted[k] && top[k] in top;
    }
  }

  lemma {:induction false} DistinctCount<T>(xs: seq<T>, all: set<T>)
    requires forall i, j :: 0 <= i < j < |xs| ==> xs[i] != xs[j]
    requires forall x :: x in xs <==> x in all
    ensures |xs| == |all|
    decreases |xs|
  {
    if xs == [] {
      assert all == {};
    } else {
      var x, rest := xs[0], xs[1..];
      assert x in xs;
      forall y ensures y in rest <==> y in all - {x} {
        if y in rest {
          var i :| 0 <= i < |rest| && rest[i] == y;
          assert xs[i + 1] == y;
        }
        if y in all - {x} {
          var i :| 0 <= i < |xs| && xs[i] == y;
          assert rest[i - 1] == y;
        }
      }
      DistinctCount(rest, all - {x});
    }
  }

  /** There is only one top. */
  lemma TopIsUnique(a: seq<ChunkHit>, b: seq<ChunkHit>, all: set<ChunkHit>, limit: nat,
                    before: (ChunkHit, ChunkHit) -> bool)
    requires StrictTotal(all, before) && IsTop(a, all, limit, before) && IsTop(b, all, limit, before)
    ensures a == b
  {
    SameTop(a, b, all, limit, before);
    SameTop(b, a, all, limit, before);
    StrictDistinct(a, before);
    StrictDistinct(b, before);
    SameElements(a, b);
    StrictOrderIsUnique(a, b, before);
  }

  lemma StrictDistinct(a: seq<ChunkHit>, before: (ChunkHit, ChunkHit) -> bool)
    requires Pairwise(a, before) && forall x, y :: before(x, y) ==> !before(y, x)
    ensures NoDup(a)
  {
  }

  lemma SameTop(a: seq<ChunkHit>, b: seq<ChunkHit>, all: set<ChunkHit>, limit: nat,
                before: (ChunkHit, ChunkHit) -> bool)
    requires StrictTotal(all, before) && IsTop(a, all, limit, before) && IsTop(b, all, limit, before)
    ensures forall h :: h in a ==> h in b
  {
    forall h | h in a ensures h in b {
      if h !in b {
        StrictDistinct(a, before);
        StrictDistinct(b, before);
        var h' := Missing(b, a, h);
        assert false;
      }
    }
  }

  /** Of two lists of equal length without repetition, one missing an element of the other has one of its own. */
  lemma Missing<T>(b: seq<T>, a: seq<T>, h: T) returns (h': T)
    requires NoDup(a) && NoDup(b) && |a| == |b| && h in a && h !in b
    ensures h' in b && h' !in a
  {
    var sa, sb := set x | x in a, set x | x in b;
    DistinctCount(a, sa);
    DistinctCount(b, sb);
    if sb <= sa {
      assert sb <= sa - {h};
      SubsetSize(sb, sa - {h});
    }
    h' :| h' in sb && h' !in sa;
  }

  lemma {:induction false} SameElements<T>(a: seq<T>, b: seq<T>)
    requires NoDup(a) && NoDup(b) && forall x :: x in a <==> x in b
    ensures multiset(a) == multiset(b)
  {
    forall x ensures multiset(a)[x] == multiset(b)[x] {
      OnceOrNever(a, x);
      OnceOrNever(b, x);
    }
  }

  lemma {:induction false} OnceOrNever<T>(a: seq<T>, x: T)
    requires NoDup(a)
    ensures multiset(a)[x] == if x in a then 1 else 0
  {
    if a != [] {
      assert a == [a[0]] + a[1..];
      OnceOrNever(a[1..], x);
    }
  }

  // ---- the candidate pool ----

  lemma HitsAreStrict(order: seq<string>, chunks: map<string, ChunkHit>, rows: seq<HitRow>)
    requires Merged(order, chunks, rows)
    ensures StrictTotal(chunks.Values, ByScore)
    ensures forall i :: 0 <= i < |order| ==> chunks[order[i]].firstSeen == i
  {
    hide IsHit, KeysOf, RowsOf;
    forall i | 0 <= i < |order| ensures chunks[order[i]].firstSeen == i {
      assert order[i] in order;
    }
    forall a, b | a in chunks.Values && b in chunks.Values && a != b ensures a.firstSeen != b.firstSeen {
      var k :| k in chunks && chunks[k] == a;
      var l :| l in chunks && chunks[l] == b;
    }
  }

  /** `take_top`: the first `limit` chunks, best score first, ties in order of appearance. */
  method TakeTop(merge: TraversalMerge, limit: nat) returns (top: seq<ChunkHit>)
    requires merge.Valid()
    modifies merge
    ensures IsTop(top, old(merge.chunks).Values, limit, ByScore)
  {
    hide Merged, IsTop, ByScore, ScoreOrder;
    HitsAreStrict(merge.order, merge.chunks, merge.merged);
    ghost var all := merge.chunks.Values;
    var hits := HitsInOrder(merge);
    merge.order := [];
    ScoreOrderIsOrder();
    var sorted := StableSort(hits, ScoreOrder, SeenBefore);
    ScoreSorted(sorted);
    forall h ensures h in sorted <==> h in all {
      assert h in multiset(sorted) <==> h in multiset(hits);
    }
    CutIsTop(sorted, all, limit, ByScore);
    top := if limit < |sorted| then sorted[..limit] else sorted;
  }

  method HitsInOrder(merge: TraversalMerge) returns (hits: seq<ChunkHit>)
    requires merge.Valid()
    ensures |hits| == |merge.order| && Pairwise(hits, SeenBefore)
    ensures forall h :: h in hits <==> h in merge.chunks.Values
  {
    hide Merged;
    var order, chunks := merge.order, merge.chunks;
    HitsAreStrict(order, chunks, merge.merged);
    OrderCovers(order, chunks, merge.merged);
    hits := [];
    for i := 0 to |order|
      invariant |hits| == i && forall j :: 0 <= j < i ==> hits[j] == chunks[order[j]]
    {
      hits := hits + [chunks[order[i]]];
    }
    forall h | h in chunks.Values ensures h in hits {
      var k :| k in chunks && chunks[k] == h;
      var i :| 0 <= i < |order| && order[i] == k;
      assert hits[i] == h;
    }
  }

  lemma OrderCovers(order: seq<string>, chunks: map<string, ChunkHit>, rows: seq<HitRow>)
    requires Merged(order, chunks, rows)
    ensures forall k :: k in chunks <==> k in order
  {
  }

  lemma ScoreOrderIsOrder()
    ensures TotalPreorder(ScoreOrder)
  {
  }

  lemma ScoreSorted(sorted: seq<ChunkHit>)
    requires SortedKeeping(sorted, ScoreOrder, SeenBefore)
    ensures Pairwise(sorted, ByScore)
  {
  }

  // ---- the rerank step ----

  /** The pool with the reranker's scores filled in. */
  function Scored(pool: seq<ChunkHit>, scores: seq<real>): seq<ChunkHit>
    requires |pool| == |scores|
  {
    seq(|pool|, i requires 0 <= i < |pool| => pool[i].(rerankScore := Some(scores[i])))
  }

  function Above(scored: seq<ChunkHit>, threshold: real): set<ChunkHit> {
    set h | h in scored && Rank(h) >= threshold
  }

  lemma ScoredIsRanked(pool: seq<ChunkHit>, scores: seq<real>)
    requires |pool| == |scores| && Pairwise(pool, ByScore)
    ensures Pairwise(Scored(pool, scores), ByScore)
    ensures StrictTotal((set h | h in Scored(pool, scores)), ByRerank)
  {
    var scored := Scored(pool, scores);
    forall a, b | a in scored && b in scored && a != b ensures ByRerank(a, b) || ByRerank(b, a) {
      var i :| 0 <= i < |scored| && scored[i] == a;
      var j :| 0 <= j < |scored| && scored[j] == b;
      assert i < j ==> ByScore(pool[i], pool[j]);
      assert j < i ==> ByScore(pool[j], pool[i]);
    }
  }

  method RerankPool(pool: seq<ChunkHit>, scores: seq<real>, threshold: real, limit: nat) returns (hits: seq<ChunkHit>)
    requires |pool| == |scores| && Pairwise(pool, ByScore)
    ensures IsTop(hits, Above(Scored(pool, scores), threshold), limit, ByRerank)
  {
    hide IsTop, ByScore, ByRerank, RerankOrder, Rank;
    ghost var scored := Scored(pool, scores);
    ScoredIsRanked(pool, scores);
    var kept := [];
    for i := 0 to |pool|
      invariant Pairwise(kept, ByScore)
      invariant forall h :: h in kept <==> exists j :: 0 <= j < i && scored[j] == h && Rank(h) >= threshold
    {
      var hit := pool[i].(rerankScore := Some(scores[i]));
      assert hit == scored[i];
      if Rank(hit) >= threshold {
        forall h | h in kept ensures ByScore(h, hit) {
          var j :| 0 <= j < i && scored[j] == h;
          assert ByScore(scored[j], scored[i]);
        }
        kept := kept + [hit];
      }
    }
    RerankOrderIsOrder();
    var sorted := StableSort(kept, RerankOrder, ByScore);
    RerankSorted(sorted);
    forall h ensures h in sorted <==> h in Above(scored, threshold) {
      assert h in multiset(sorted) <==> h in multiset(kept);
      assert h in scored <==> exists j :: 0 <= j < |pool| && scored[j] == h;
    }
    CutIsTop(sorted, Above(scored, threshold), limit, ByRerank);
    hits := if limit < |sorted| then sorted[..limit] else sorted;
  }

  lemma RerankOrderIsOrder()
    ensures TotalPreorder(RerankOrder)
  {
  }

  lemma RerankSorted(sorted: seq<ChunkHit>)
    requires SortedKeeping(sorted, RerankOrder, ByScore)
    ensures Pairwise(sorted, ByRerank)
  {
  }

  // ---- the whole answer ----

  function Text(h: ChunkHit): string {
    match h.chunkText case Some(t) => t case None => ""
  }

  function Texts(pool: seq<ChunkHit>): seq<string> {
    seq(|pool|, i requires 0 <= i < |pool| => Text(pool[i]))
  }

  function CandidateLimit(limit: nat, wantRerank: bool): nat {
    if wantRerank && limit < DEFAULT_TRAVERSAL_RERANK_TOP_K then DEFAULT_TRAVERSAL_RERANK_TOP_K else limit
  }

  /** A reranker, or its failure, as a function of the pool's texts. */
  type Reranker = seq<string> -> Option<seq<real>>

  /** What the traversal answers, given its merged chunks. */
  ghost predicate IsAnswer(all: set<ChunkHit>, limit: nat, rerank: Option<bool>, reranker: Option<Reranker>,
                           threshold: real,
                           r: Result<(seq<ChunkHit>, bool), TraversalError>)
  {
    var want := if rerank.Some? then rerank.value else reranker.Some?;
    exists pool :: IsTop(pool, all, CandidateLimit(limit, want), ByScore)
           && AnswersFrom(pool, limit, want, reranker, threshold, r)
  }

  ghost predicate AnswersFrom(pool: seq<ChunkHit>, limit: nat, want: bool, reranker: Option<Reranker>, threshold: real,
                              r: Result<(seq<ChunkHit>, bool), TraversalError>)
  {
    if !want then r == Ok((pool, false))
    else if reranker.None? then r == Err(NoReranker)
    else if pool == [] then r == Ok(([], false))
    else
      match reranker.value(Texts(pool))
      case None => r == Err(RerankerFailed)
      case Some(scores) =>
        if |scores| != |pool| then r == Err(WrongScoreCount(|scores|, |pool|))
        else r.Ok? && r.value.1 && IsTop(r.value.0, Above(Scored(pool, scores), threshold), limit, ByRerank)
  }

  method RunRanking(rows: seq<HitRow>, limit: nat, rerank: Option<bool>, reranker: Option<Reranker>, threshold: real)
    returns (r: Result<(seq<ChunkHit>, bool), TraversalError>, chunks: map<string, ChunkHit>)
    ensures Merged(KeysOf(rows), chunks, rows)
    ensures IsAnswer(chunks.Values, limit, rerank, reranker, threshold, r)
  {
    hide IsTop, Merged, KeysOf;
    var merge := new TraversalMerge();
    merge.Extend(rows);
    chunks := merge.chunks;
    assert [] + rows == rows;
    OrderIs(merge.order, chunks, rows);
    var want := if rerank.Some? then rerank.value else reranker.Some?;
    var top := TakeTop(merge, CandidateLimit(limit, want));
    assert Pairwise(top, ByScore) by {
      TopIsRanked(top, chunks.Values, CandidateLimit(limit, want));
    }
    r := Ok((top, false));
    if want {
      if reranker.None? {
        r := Err(NoReranker);
      } else if top != [] {
        var scores := reranker.value(Texts(top));
        if scores.None? {
          r := Err(RerankerFailed);
        } else if |scores.value| != |top| {
          r := Err(WrongScoreCount(|scores.value|, |top|));
        } else {
          var hits := RerankPool(top, scores.value, threshold, limit);
          r := Ok((hits, true));
        }
      }
    }
    assert AnswersFrom(top, limit, want, reranker, threshold, r);
  }

  lemma OrderIs(order: seq<string>, chunks: map<string, ChunkHit>, rows: seq<HitRow>)
    requires Merged(order, chunks, rows)
    ensures order == KeysOf(rows)
  {
  }

  lemma TopIsRanked(top: seq<ChunkHit>, all: set<ChunkHit>, limit: nat)
    requires IsTop(top, all, limit, ByScore)
    ensures Pairwise(top, ByScore)
  {
  }

  /** Which outcomes there are: who asks for a rerank without a reranker gets the error, an empty result needs none. */
  lemma OutcomesAre(all: set<ChunkHit>, limit: nat, rerank: Option<bool>, reranker: Option<Reranker>, threshold: real,
                    r: Result<(seq<ChunkHit>, bool), TraversalError>)
    requires IsAnswer(all, limit, rerank, reranker, threshold, r)
    ensures r == Err(NoReranker) <==> rerank == Some(true) && reranker.None?
    ensures r.Ok? && !r.value.1 <==>
            rerank == Some(false) || (rerank.None? && reranker.None?) || (reranker.Some? && all == {})
    ensures r.Err? && r != Err(NoReranker) ==> reranker.Some? && rerank != Some(false) && all != {}
  {
    hide ByScore, AnswersFrom;
    var want := if rerank.Some? then rerank.value else reranker.Some?;
    var pool :| IsTop(pool, all, CandidateLimit(limit, want), ByScore)
                && AnswersFrom(pool, limit, want, reranker, threshold, r);
    assert want ==> (pool == [] <==> all == {});
    FromPool(pool, limit, want, reranker, threshold, r);
  }

  lemma FromPool(pool: seq<ChunkHit>, limit: nat, want: bool, reranker: Option<Reranker>, threshold: real,
                 r: Result<(seq<ChunkHit>, bool), TraversalError>)
    requires AnswersFrom(pool, limit, want, reranker, threshold, r)
    ensures r == Err(NoReranker) <==> want && reranker.None?
    ensures r.Ok? && !r.value.1 <==> !want || (reranker.Some? && pool == [])
    ensures r.Ok? && !r.value.1 ==> r.value.0 == pool
  {
  }

  /** An answer that is not reranked: the best `limit` chunks, by score and then by appearance, none of them changed. */
  lemma PlainAnswer(all: set<ChunkHit>, limit: nat, rerank: Option<bool>, reranker: Option<Reranker>, threshold: real,
                    hits: seq<ChunkHit>)
    requires IsAnswer(all, limit, rerank, reranker, threshold, Ok((hits, false)))
    requires rerank == Some(false) || (rerank.None? && reranker.None?)
    ensures |hits| <= limit && (|hits| < limit ==> |hits| == |all|)
    ensures forall h :: h in hits ==> h in all
    ensures forall i, j :: 0 <= i < j < |hits| ==>
              hits[i].score > hits[j].score
              || (hits[i].score == hits[j].score && hits[i].firstSeen < hits[j].firstSeen)
    ensures forall h, t :: h in all && h !in hits && t in hits ==>
              t.score > h.score || (t.score == h.score && t.firstSeen < h.firstSeen)
  {
    hide AnswersFrom;
    var pool :| IsTop(pool, all, CandidateLimit(limit, false), ByScore)
                && AnswersFrom(pool, limit, false, reranker, threshold, Ok((hits, false)));
    FromPool(pool, limit, false, reranker, threshold, Ok((hits, false)));
    assert forall i, j :: 0 <= i < j < |pool| ==> ByScore(pool[i], pool[j]);
  }

  /** The text a reranker sees of a chunk. */
  ghost predicate TextsOf(pool: seq<ChunkHit>, texts: seq<string>) {
    |texts| == |pool| && forall i :: 0 <= i < |pool| ==>
      texts[i] == if pool[i].chunkText.Some? then pool[i].chunkText.value else ""
  }

  /** Candidate `i` with its own score. */
  ghost predicate ScoredAs(hit: ChunkHit, pool: seq<ChunkHit>, scores: seq<real>, i: int) {
    0 <= i < |pool| && i < |scores| && hit == pool[i].(rerankScore := Some(scores[i]))
  }

  /** By the reranker's score, then by the old one, then by appearance. */
  predicate Beats(pool: seq<ChunkHit>, scores: seq<real>, i: int, j: int)
    requires |scores| == |pool| && 0 <= i < |pool| && 0 <= j < |pool|
  {
    || scores[i] > scores[j]
    || (scores[i] == scores[j] && pool[i].score > pool[j].score)
    || (scores[i] == scores[j] && pool[i].score == pool[j].score && pool[i].firstSeen < pool[j].firstSeen)
  }

  /** Every hit is a candidate at the threshold or above, with its score. */
  ghost predicate HitsReach(hits: seq<ChunkHit>, pool: seq<ChunkHit>, scores: seq<real>, threshold: real) {
    forall k :: 0 <= k < |hits| ==> exists i :: ScoredAs(hits[k], pool, scores, i) && scores[i] >= threshold
  }

  /** A hit beats those behind it. */
  ghost predicate HitsFall(hits: seq<ChunkHit>, pool: seq<ChunkHit>, scores: seq<real>)
    requires |scores| == |pool|
  {
    forall k, l, i, j :: 0 <= k < l < |hits| && ScoredAs(hits[k], pool, scores, i) && ScoredAs(hits[l], pool, scores, j)
      ==> Beats(pool, scores, i, j)
  }

  /** Candidate `i` is left out, if it is, behind `limit` hits that beat it. */
  ghost predicate LeftOutRightly(hits: seq<ChunkHit>, pool: seq<ChunkHit>, scores: seq<real>, limit: nat, i: int)
    requires |scores| == |pool| && 0 <= i < |pool|
  {
    || pool[i].(rerankScore := Some(scores[i])) in hits
    || (|hits| == limit && forall k, j :: 0 <= k < |hits| && ScoredAs(hits[k], pool, scores, j) ==>
          Beats(pool, scores, j, i))
  }

  /**
   A reranked answer, candidate by candidate: the pool is the best chunks, at least fifty if there are so many; each hit
   is a candidate with the reranker's score for its text, at the threshold or above; a hit beats those behind it; and a
   candidate at the threshold is left out only behind `limit` that beat it.
   */
  lemma RerankedIs(all: set<ChunkHit>, limit: nat, rerank: Option<bool>, reranker: Option<Reranker>, threshold: real,
                   hits: seq<ChunkHit>) returns (pool: seq<ChunkHit>, texts: seq<string>, scores: seq<real>)
    requires IsAnswer(all, limit, rerank, reranker, threshold, Ok((hits, true)))
    ensures IsTop(pool, all, if limit < 50 then 50 else limit, ByScore)
    ensures reranker.Some? && TextsOf(pool, texts) && reranker.value(texts) == Some(scores) && |scores| == |pool|
    ensures |hits| <= limit && HitsReach(hits, pool, scores, threshold) && HitsFall(hits, pool, scores)
    ensures forall i :: 0 <= i < |pool| && scores[i] >= threshold ==> LeftOutRightly(hits, pool, scores, limit, i)
  {
    hide IsTop, HitsReach, HitsFall, LeftOutRightly, Scored, Above;
    var want := if rerank.Some? then rerank.value else reranker.Some?;
    pool :| IsTop(pool, all, CandidateLimit(limit, want), ByScore)
            && AnswersFrom(pool, limit, want, reranker, threshold, Ok((hits, true)));
    texts := Texts(pool);
    scores := reranker.value(texts).value;
    HitsAreReaching(pool, scores, threshold, limit, hits);
    HitsAreFalling(pool, scores, threshold, limit, hits);
    forall i | 0 <= i < |pool| && scores[i] >= threshold ensures LeftOutRightly(hits, pool, scores, limit, i) {
      LeftOut(pool, scores, threshold, limit, hits, i);
    }
  }

  lemma HitsAreReaching(pool: seq<ChunkHit>, scores: seq<real>, threshold: real, limit: nat, hits: seq<ChunkHit>)
    requires |scores| == |pool| && IsTop(hits, Above(Scored(pool, scores), threshold), limit, ByRerank)
    ensures |hits| <= limit && HitsReach(hits, pool, scores, threshold)
  {
    hide ByRerank;
    var scored := Scored(pool, scores);
    forall k | 0 <= k < |hits| ensures exists i :: ScoredAs(hits[k], pool, scores, i) && scores[i] >= threshold {
      assert hits[k] in hits && hits[k] in scored;
      var i :| 0 <= i < |scored| && scored[i] == hits[k];
      assert ScoredAs(hits[k], pool, scores, i);
    }
  }

  lemma HitsAreFalling(pool: seq<ChunkHit>, scores: seq<real>, threshold: real, limit: nat, hits: seq<ChunkHit>)
    requires |scores| == |pool| && IsTop(hits, Above(Scored(pool, scores), threshold), limit, ByRerank)
    ensures HitsFall(hits, pool, scores)
  {
    hide ByRerank, Beats, Above;
    forall k, l, i, j | 0 <= k < l < |hits| && ScoredAs(hits[k], pool, scores, i) && ScoredAs(hits[l], pool, scores, j)
      ensures Beats(pool, scores, i, j)
    {
      assert ByRerank(hits[k], hits[l]);
      RerankIsBeating(pool, scores, i, j);
    }
  }

  lemma LeftOut(pool: seq<ChunkHit>, scores: seq<real>, threshold: real, limit: nat, hits: seq<ChunkHit>, i: int)
    requires |scores| == |pool| && IsTop(hits, Above(Scored(pool, scores), threshold), limit, ByRerank)
    requires 0 <= i < |pool| && scores[i] >= threshold
    ensures LeftOutRightly(hits, pool, scores, limit, i)
  {
    hide ByRerank, Beats;
    var dropped := Scored(pool, scores)[i];
    assert dropped in Scored(pool, scores) && dropped in Above(Scored(pool, scores), threshold);
    if dropped !in hits {
      RoomIsUsed(hits, Above(Scored(pool, scores), threshold), limit, dropped);
      forall k, j | 0 <= k < |hits| && ScoredAs(hits[k], pool, scores, j) ensures Beats(pool, scores, j, i) {
        assert hits[k] in hits && ByRerank(hits[k], dropped);
        RerankIsBeating(pool, scores, j, i);
      }
    }
  }

  lemma RerankIsBeating(pool: seq<ChunkHit>, scores: seq<real>, i: int, j: int)
    requires |scores| == |pool| && 0 <= i < |pool| && 0 <= j < |pool|
    ensures ByRerank(Scored(pool, scores)[i], Scored(pool, scores)[j]) <==> Beats(pool, scores, i, j)
  {
  }

  lemma RoomIsUsed(hits: seq<ChunkHit>, above: set<ChunkHit>, limit: nat, dropped: ChunkHit)
    requires IsTop(hits, above, limit, ByRerank) && dropped in above && dropped !in hits
    ensures |hits| == limit
  {
    hide ByRerank;
    if |hits| < limit {
      var found := set h | h in hits;
      RerankIsStrict();
      StrictDistinct(hits, ByRerank);
      DistinctCount(hits, found);
      assert found <= above - {dropped};
      SubsetSize(found, above - {dropped});
    }
  }

  lemma RerankIsStrict()
    ensures forall x, y :: ByRerank(x, y) ==> !ByRerank(y, x)
  {
  }
}
