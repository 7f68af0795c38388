/** `ensure_indexed` over the in-memory store (src/embeddings/store.rs), with an embedder that may fail at any call. */
module Indexing {
  import opened Common
  import opened ModelCalls
  import opened EmbeddingStores

  /** A backend whose answer may differ from call to call; the calls made are recorded. */
  class CallingEmbedder {
    const dim: nat
    const answer: (nat, seq<string>) -> Option<seq<Vector>>
    var calls: seq<seq<string>>

    constructor (dim: nat, answer: (nat, seq<string>) -> Option<seq<Vector>>)
      ensures this.dim == dim && this.answer == answer && calls == []
    {
      this.dim, this.answer, this.calls := dim, answer, [];
    }

    method EmbedBatch(texts: seq<string>) returns (r: Option<seq<Vector>>)
      modifies this
      ensures r == answer(|old(calls)|, texts) && calls == old(calls) + [texts]
    {
      r := answer(|calls|, texts);
      calls := calls + [texts];
    }
  }

  class MemoryStore {
    var collections: map<string, Points>

    constructor ()
      ensures collections == map[]
    {
      collections := map[];
    }

    function At(collection: string): Points
      reads this
    {
      if collection in collections then collections[collection] else map[]
    }

    method Missing(collection: string, ids: seq<Id>) returns (out: seq<Id>)
      ensures forall id :: id in out <==> id in ids && id !in At(collection)
    {
      out := [];
      for i := 0 to |ids|
        invariant forall id :: id in out <==> id in ids[..i] && id !in At(collection)
      {
        if ids[i] !in At(collection) {
          out := out + [ids[i]];
        }
      }
      assert ids[..|ids|] == ids;
    }

    method Upsert(collection: string, points: seq<(Id, Point)>)
      modifies this
      ensures At(collection) == Inserted(old(At(collection)), points)
      ensures forall c :: c != collection ==> At(c) == old(At(c))
    {
      if collection !in collections {
        collections := collections[collection := map[]];
      }
      for i := 0 to |points|
        invariant collection in collections && At(collection) == Inserted(old(At(collection)), points[..i])
        invariant forall c :: c != collection ==> At(c) == old(At(c))
      {
        assert points[..i + 1][..i] == points[..i];
        collections := collections[collection := collections[collection][points[i].0 := points[i].1]];
      }
      assert points[..|points|] == points;
    }
  }

  function Inserted(m: Points, points: seq<(Id, Point)>): Points {
    if points == [] then m
    else Inserted(m, points[..|points| - 1])[points[|points| - 1].0 := points[|points| - 1].1]
  }

  // ---- what is missing ----

  datatype Entry = Entry(id: Id, payload: Payload, text: string)

  function EntryOf(model: string, dim: nat, p: Passage): Entry {
    Entry(PointId(model, dim, p), p.payload, p.text)
  }

  /** `id` is among the first `n` entries. */
  predicate Lists(entries: seq<Entry>, n: nat, id: Id)
    requires n <= |entries|
  {
    exists i :: 0 <= i < n && entries[i].id == id
  }

  predicate Listed(entries: seq<Entry>, id: Id) {
    Lists(entries, |entries|, id)
  }

  /** The passages to embed: in order, not stored yet, each id once. */
  function Backlog(stored: Points, model: string, dim: nat, passages: seq<Passage>): seq<Entry> {
    if passages == [] then []
    else
      var init, e := Backlog(stored, model, dim, passages[..|passages| - 1]), EntryOf(model, dim,
                                                                                      passages[|passages| - 1]);
      if e.id in stored || Lists(init, |init|, e.id) then init else init + [e]
  }

  function Texts(entries: seq<Entry>): seq<string> {
    seq(|entries|, i requires 0 <= i < |entries| => entries[i].text)
  }

  function Chunk(entries: seq<Entry>, k: nat): seq<Entry>
    requires k * EMBED_BATCH_CHUNK_SIZE <= |entries|
  {
    if (k + 1) * EMBED_BATCH_CHUNK_SIZE <= |entries|
    then entries[k * EMBED_BATCH_CHUNK_SIZE..(k + 1) * EMBED_BATCH_CHUNK_SIZE]
    else entries[k * EMBED_BATCH_CHUNK_SIZE..]
  }

  /** How many entries the first `k` chunks hold. */
  function Reach(entries: seq<Entry>, k: nat): nat {
    if k * EMBED_BATCH_CHUNK_SIZE < |entries| then k * EMBED_BATCH_CHUNK_SIZE else |entries|
  }

  /** The store holds what it held and the first `n` entries, with some vectors. */
  ghost predicate Extended(before: Points, after: Points, entries: seq<Entry>, n: nat, vectors: seq<Vector>)
    requires n <= |entries|
  {
    && |vectors| == n
    && (forall id :: id in after <==> id in before || Lists(entries, n, id))
    && (forall id :: id in before ==> after[id] == before[id])
    && forall i :: 0 <= i < n ==> after[entries[i].id] == Point(vectors[i], entries[i].payload)
  }

  ghost predicate ChunkCalls(made: seq<seq<string>>, entries: seq<Entry>, k: nat) {
    && |made| == k
    && forall j :: 0 <= j < k ==> j * EMBED_BATCH_CHUNK_SIZE < |entries| && made[j] == Texts(Chunk(entries, j))
  }

  /** The entries hold every id once and none that is stored. */
  ghost predicate Fresh(stored: Points, entries: seq<Entry>) {
    && (forall i :: 0 <= i < |entries| ==> entries[i].id !in stored)
    && (forall i, j :: 0 <= i < j < |entries| ==> entries[i].id != entries[j].id)
  }

  /** No passage before the `i`-th has its id. */
  ghost predicate IsFirst(model: string, dim: nat, passages: seq<Passage>, i: nat)
    requires i < |passages|
  {
    forall j :: 0 <= j < i ==> PointId(model, dim, passages[j]) != PointId(model, dim, passages[i])
  }

  /** The entry is for this passage, the first of its id. */
  ghost predicate EntryFor(e: Entry, model: string, dim: nat, passages: seq<Passage>, i: nat) {
    && i < |passages| && e.id == PointId(model, dim, passages[i])
    && e.payload == passages[i].payload && e.text == passages[i].text && IsFirst(model, dim, passages, i)
  }

  /** What is missing is listed, each id once, with payload and text of the first passage that has it. */
  lemma {:induction false} BacklogIsFresh(stored: Points, model: string, dim: nat, passages: seq<Passage>)
    ensures Fresh(stored, Backlog(stored, model, dim, passages))
    ensures forall i :: 0 <= i < |passages| ==>
              PointId(model, dim, passages[i]) in stored
              || Listed(Backlog(stored, model, dim, passages), PointId(model, dim, passages[i]))
    ensures forall e :: e in Backlog(stored, model, dim, passages) ==>
              exists i :: EntryFor(e, model, dim, passages, i)
  {
    hide PointId;
    if passages != [] {
      var rest, p := passages[..|passages| - 1], passages[|passages| - 1];
      BacklogIsFresh(stored, model, dim, rest);
      var init, all := Backlog(stored, model, dim, rest), Backlog(stored, model, dim, passages);
      assert init <= all;
      assert forall i :: 0 <= i < |init| ==> all[i] == init[i];
      if all != init {
        assert all[|init|].id == PointId(model, dim, p);
        assert EntryFor(all[|init|], model, dim, passages, |rest|);
      }
      forall e | e in init ensures exists i :: EntryFor(e, model, dim, passages, i) {
        var i :| EntryFor(e, model, dim, rest, i);
        assert EntryFor(e, model, dim, passages, i);
      }
    }
  }

  /** One chunk's points go in; nothing stored is touched. */
  lemma ChunkStored(before: Points, after: Points, entries: seq<Entry>, k: nat, vectors: seq<Vector>, got: seq<Vector>,
                    points: seq<(Id, Point)>)
    requires Fresh(before, entries) && k * EMBED_BATCH_CHUNK_SIZE < |entries|
    requires Extended(before, after, entries, Reach(entries, k), vectors)
    requires |got| == |Chunk(entries, k)| == |points|
    requires forall i :: 0 <= i < |points| ==>
               points[i] == (Chunk(entries, k)[i].id, Point(got[i], Chunk(entries, k)[i].payload))
    ensures Extended(before, Inserted(after, points), entries, Reach(entries, k + 1), vectors + got)
  {
    hide Extended, Fresh, Inserted;
    var n := Reach(entries, k);
    assert forall i :: 0 <= i < |Chunk(entries, k)| ==> Chunk(entries, k)[i] == entries[n + i];
    assert n + |points| == Reach(entries, k + 1);
    StoredOneByOne(before, after, entries, n, vectors, got, points);
  }

  lemma {:induction false} StoredOneByOne(before: Points, after: Points, entries: seq<Entry>, n: nat,
                                          vectors: seq<Vector>,
                                          got: seq<Vector>, points: seq<(Id, Point)>)
    requires Fresh(before, entries) && n + |points| <= |entries|
    requires Extended(before, after, entries, n, vectors)
    requires |got| == |points|
    requires forall i :: 0 <= i < |points| ==> points[i] == (entries[n + i].id, Point(got[i], entries[n + i].payload))
    ensures Extended(before, Inserted(after, points), entries, n + |points|, vectors + got)
    decreases |points|
  {
    hide Extended, Fresh;
    if points == [] {
      assert vectors + got == vectors;
    } else {
      var m := |points| - 1;
      StoredOneByOne(before, after, entries, n, vectors, got[..m], points[..m]);
      OneStored(before, Inserted(after, points[..m]), entries, n + m, vectors + got[..m], got[m]);
      assert vectors + got[..m] + [got[m]] == vectors + got;
    }
  }

  lemma OneStored(before: Points, after: Points, entries: seq<Entry>, n: nat, vectors: seq<Vector>, v: Vector)
    requires Fresh(before, entries) && n < |entries| && Extended(before, after, entries, n, vectors)
    ensures Extended(before, after[entries[n].id := Point(v, entries[n].payload)], entries, n + 1, vectors + [v])
  {
  }

  // ---- the step in front of a search ----

  /**
   What one run did: the store was extended by the first `k` chunks, and the calls were exactly theirs, plus a failed
   one.
   */
  ghost predicate Ran(before: Points, after: Points, entries: seq<Entry>, k: nat, vectors: seq<Vector>,
                      made: seq<seq<string>>, ok: bool) {
    && Extended(before, after, entries, Reach(entries, k), vectors)
    && (if ok then Reach(entries, k) == |entries| else k * EMBED_BATCH_CHUNK_SIZE < |entries|)
    && ChunkCalls(made, entries, if ok then k else k + 1)
  }

  /** When the embedder returns as many vectors as it was given texts, they are the texts' own, in order. */
  ghost predicate TextByText(answer: (nat, seq<string>) -> Option<seq<Vector>>, f: string -> Vector) {
    forall n, ts :: answer(n, ts).Some? && |answer(n, ts).value| == |ts| ==>
      forall i :: 0 <= i < |ts| ==> answer(n, ts).value[i] == f(ts[i])
  }

  /**
   Every passage that was missing is stored with the vector of the text, and with the payload, of the first passage with
   its id; nothing else came in and nothing that was there changed.
   */
  ghost predicate Indexed(before: Points, after: Points, model: string, dim: nat, passages: seq<Passage>,
                          f: string -> Vector) {
    && (forall id :: id in before ==> id in after && after[id] == before[id])
    && (forall id :: id in after && id !in before ==>
          exists i :: 0 <= i < |passages| && id == PointId(model, dim, passages[i]))
    && forall i :: 0 <= i < |passages| && IsFirst(model, dim, passages, i) ==>
         var id := PointId(model, dim, passages[i]);
         id in after && (id !in before ==> after[id] == Point(f(passages[i].text), passages[i].payload))
  }

  ghost predicate OwnVectors(entries: seq<Entry>, vectors: seq<Vector>, f: string -> Vector)
    requires |vectors| <= |entries|
  {
    forall i :: 0 <= i < |vectors| ==> vectors[i] == f(entries[i].text)
  }

  lemma ExtendedIsIndexed(before: Points, after: Points, model: string, dim: nat, passages: seq<Passage>,
                          vectors: seq<Vector>, f: string -> Vector)
    requires var entries := Backlog(before, model, dim, passages);
             Extended(before, after, entries, |entries|, vectors) && OwnVectors(entries, vectors, f)
    ensures Indexed(before, after, model, dim, passages, f)
  {
    hide PointId, Backlog;
    var entries := Backlog(before, model, dim, passages);
    BacklogIsFresh(before, model, dim, passages);
    forall id | id in after && id !in before
      ensures exists i :: 0 <= i < |passages| && id == PointId(model, dim, passages[i]) {
      var k :| 0 <= k < |entries| && entries[k].id == id;
      assert entries[k] in entries;
      var i :| EntryFor(entries[k], model, dim, passages, i);
    }
    forall i | 0 <= i < |passages| && IsFirst(model, dim, passages, i)
      ensures var id := PointId(model, dim, passages[i]);
              id in after && (id !in before ==> after[id] == Point(f(passages[i].text), passages[i].payload))
    {
      var id := PointId(model, dim, passages[i]);
      if id !in before {
        var k :| 0 <= k < |entries| && entries[k].id == id;
        assert entries[k] in entries;
        var j :| EntryFor(entries[k], model, dim, passages, j);
        assert j == i;
      }
    }
  }

  method EnsureIndexed(store: MemoryStore, embedder: CallingEmbedder, collection: string, model: string,
                       passages: seq<Passage>)
    returns (r: Result<(), EmbedError>, chunks: nat, vectors: seq<Vector>)
    modifies store, embedder
    ensures var before := old(store.At(collection));
            var entries := Backlog(before, model, embedder.dim, passages);
            && |old(embedder.calls)| <= |embedder.calls|
            && embedder.calls[..|old(embedder.calls)|] == old(embedder.calls)
            && Ran(before, store.At(collection), entries, chunks, vectors, embedder.calls[|old(embedder.calls)|..],
                   r.Ok?)
    ensures r.Ok? ==> forall f :: TextByText(embedder.answer, f) ==>
              Indexed(old(store.At(collection)), store.At(collection), model, embedder.dim, passages, f)
    ensures forall c :: c != collection ==> store.At(c) == old(store.At(c))
  {
    hide Backlog, Extended, ChunkCalls, Inserted, Fresh, Indexed, OwnVectors, TextByText, EntryFor, PointId, Lists;
    ghost var before, calls0 := store.At(collection), embedder.calls;
    ghost var entries := Backlog(before, model, embedder.dim, passages);
    BacklogIsFresh(before, model, embedder.dim, passages);
    chunks, vectors := 0, [];
    NothingRan(before, entries);
    assert embedder.calls[|calls0|..] == [];
    forall f ensures OwnVectors(entries, [], f) {
      NoVectors(entries, f);
    }
    if passages == [] {
      NoBacklog(before, model, embedder.dim);
      forall f ensures Indexed(before, before, model, embedder.dim, passages, f) {
        ExtendedIsIndexed(before, before, model, embedder.dim, passages, [], f);
      }
      return Ok(()), 0, [];
    }
    var ids := seq(|passages|, i requires 0 <= i < |passages| => PointId(model, embedder.dim, passages[i]));
    assert forall i :: 0 <= i < |ids| ==> ids[i] in ids && ids[i] == PointId(model, embedder.dim, passages[i]);
    var missing := store.Missing(collection, ids);
    var coords := MissingOnce(passages, model, embedder.dim, missing, before);
    assert coords == entries;
    while chunks * EMBED_BATCH_CHUNK_SIZE < |coords|
      invariant |calls0| <= |embedder.calls| && embedder.calls[..|calls0|] == calls0
      invariant Extended(before, store.At(collection), entries, Reach(entries, chunks), vectors)
      invariant ChunkCalls(embedder.calls[|calls0|..], entries, chunks)
      invariant |vectors| == Reach(entries, chunks)
      invariant forall f :: TextByText(embedder.answer, f) ==> OwnVectors(entries, vectors, f)
      invariant forall c :: c != collection ==> store.At(c) == old(store.At(c))
      decreases |coords| - chunks * EMBED_BATCH_CHUNK_SIZE
    {
      var chunk := Chunk(coords, chunks);
      NextCall(embedder.calls[|calls0|..], entries, chunks);
      ghost var made := embedder.calls[|calls0|..];
      var got := embedder.EmbedBatch(Texts(chunk));
      assert embedder.calls[|calls0|..] == made + [Texts(chunk)];
      if got.None? {
        return Err(CallFailed), chunks, vectors;
      }
      if |got.value| != |chunk| {
        return Err(WrongCount(|got.value|, |chunk|)), chunks, vectors;
      }
      var points := seq(|chunk|, i requires 0 <= i < |chunk| => (chunk[i].id, Point(got.value[i], chunk[i].payload)));
      ChunkStored(before, store.At(collection), entries, chunks, vectors, got.value, points);
      store.Upsert(collection, points);
      forall f | TextByText(embedder.answer, f) ensures OwnVectors(entries, vectors + got.value, f) {
        NextVectors(embedder.answer, |embedder.calls| - 1, entries, chunks, vectors, f);
      }
      vectors := vectors + got.value;
      chunks := chunks + 1;
    }
    r := Ok(());
    forall f | TextByText(embedder.answer, f)
      ensures Indexed(before, store.At(collection), model, embedder.dim, passages, f)
    {
      ExtendedIsIndexed(before, store.At(collection), model, embedder.dim, passages, vectors, f);
    }
  }

  lemma NoVectors(entries: seq<Entry>, f: string -> Vector)
    ensures OwnVectors(entries, [], f)
  {
  }

  lemma NextVectors(answer: (nat, seq<string>) -> Option<seq<Vector>>, n: nat, entries: seq<Entry>, k: nat,
                    vectors: seq<Vector>, f: string -> Vector)
    requires TextByText(answer, f) && k * EMBED_BATCH_CHUNK_SIZE < |entries| && |vectors| == Reach(entries, k)
    requires OwnVectors(entries, vectors, f)
    requires answer(n, Texts(Chunk(entries, k))).Some?
    requires |answer(n, Texts(Chunk(entries, k))).value| == |Chunk(entries, k)|
    ensures |vectors| + |Chunk(entries, k)| == Reach(entries, k + 1)
    ensures OwnVectors(entries, vectors + answer(n, Texts(Chunk(entries, k))).value, f)
  {
    var chunk := Chunk(entries, k);
    var got := answer(n, Texts(chunk)).value;
    assert forall i :: 0 <= i < |chunk| ==> got[i] == f(Texts(chunk)[i]);
    assert forall i :: 0 <= i < |chunk| ==> chunk[i] == entries[|vectors| + i];
  }

  /** The missing passages, each id once, in order. */
  method MissingOnce(passages: seq<Passage>, model: string, dim: nat, missing: seq<Id>, ghost stored: Points)
    returns (coords: seq<Entry>)
    requires forall i :: 0 <= i < |passages| ==>
               (PointId(model, dim, passages[i]) in missing <==> PointId(model, dim, passages[i]) !in stored)
    ensures coords == Backlog(stored, model, dim, passages)
  {
    coords := [];
    var seen: set<Id> := {};
    for i := 0 to |passages|
      invariant coords == Backlog(stored, model, dim, passages[..i])
      invariant forall id :: id in seen <==> Listed(coords, id)
    {
      var id := PointId(model, dim, passages[i]);
      assert passages[..i + 1][..i] == passages[..i];
      if id in missing && id !in seen {
        seen := seen + {id};
        ghost var was := coords;
        coords := coords + [EntryOf(model, dim, passages[i])];
        assert coords[|was|].id == id && forall j :: 0 <= j < |was| ==> coords[j] == was[j];
      }
    }
    assert passages[..|passages|] == passages;
  }

  lemma NothingRan(before: Points, entries: seq<Entry>)
    ensures Extended(before, before, entries, 0, []) && ChunkCalls([], entries, 0)
  {
  }

  lemma NoBacklog(before: Points, model: string, dim: nat)
    ensures Backlog(before, model, dim, []) == []
  {
  }

  lemma NextCall(made: seq<seq<string>>, entries: seq<Entry>, k: nat)
    requires ChunkCalls(made, entries, k) && k * EMBED_BATCH_CHUNK_SIZE < |entries|
    ensures ChunkCalls(made + [Texts(Chunk(entries, k))], entries, k + 1)
  {
  }
}
