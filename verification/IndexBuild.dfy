/**
 The build path of `index_repository` (backend/app/services/indexing.py): chunks of all accepted
 files, vectors reused from the previous snapshot by cache key, the rest embedded in batches.
 */
module IndexBuild {
  import opened Options
  import opened Lines
  import opened ChunkSplitter
  import opened FileChunks

  type Vector = seq<real>
  /** `embed_texts`: any function from a batch of texts to vectors; nothing forces one per text. */
  type Provider = seq<string> -> seq<Vector>

  /** A row of the chunk table. */
  datatype Stored = Stored(chunk: Chunk, embedding: Option<Vector>)

  /** `_chunk_key_parts`, the embedding cache key. */
  function Key(c: Chunk): string {
    JoinWith('|', [c.path, c.contentHash, Decimal(c.startLine), Decimal(c.endLine), Decimal(c.partNumber),
                   Decimal(c.partCount), c.symbolType, OrElse(c.qualifiedName, "")])
  }

  /** The dictionary of previous rows by key; of rows with equal keys the last one stays. */
  function KeyMap(rows: seq<Stored>): map<string, Stored> {
    if rows == [] then map[]
    else KeyMap(rows[..|rows| - 1])[Key(rows[|rows| - 1].chunk) := rows[|rows| - 1]]
  }

  predicate Reuses(previous: map<string, Stored>, c: Chunk) {
    Key(c) in previous && previous[Key(c)].embedding.Some?
  }

  /** The search texts of the first k chunks that find no previous vector. */
  function Pending(chunks: seq<Chunk>, previous: map<string, Stored>, k: nat): (texts: seq<string>)
    requires k <= |chunks|
    ensures |texts| <= k
  {
    if k == 0 then []
    else Pending(chunks, previous, k - 1)
         + (if Reuses(previous, chunks[k - 1]) then [] else [chunks[k - 1].searchText])
  }

  /** `_batch_texts` */
  function BatchTexts(texts: seq<string>, size: nat): seq<seq<string>>
    requires size >= 1
  {
    if texts == [] then []
    else if |texts| <= size then [texts]
    else [texts[..size]] + BatchTexts(texts[size..], size)
  }

  function AllVectors(provider: Provider, batches: seq<seq<string>>): seq<Vector> {
    if batches == [] then [] else AllVectors(provider, batches[..|batches| - 1]) + provider(batches[|batches| - 1])
  }

  function ZeroVector(dimensions: int): Option<Vector> {
    if dimensions > 0 then Some(seq(dimensions, i => 0.0)) else None
  }

  /** The vector chunk k is stored with: the reused one, the next computed one, or zeros. */
  function FinalVector(chunks: seq<Chunk>, previous: map<string, Stored>, vectors: seq<Vector>, dimensions: int,
                       k: nat): Option<Vector>
    requires k < |chunks|
  {
    if Reuses(previous, chunks[k]) then previous[Key(chunks[k])].embedding
    else
      var rank := |Pending(chunks, previous, k)|;
      if rank < |vectors| then Some(vectors[rank]) else ZeroVector(dimensions)
  }

  function Computed(chunks: seq<Chunk>, previous: map<string, Stored>, provider: Provider, size: nat): seq<Vector>
    requires size >= 1
  {
    AllVectors(provider, BatchTexts(Pending(chunks, previous, |chunks|), size))
  }

  // ----- Batches -----

  function Flatten(batches: seq<seq<string>>): seq<string> {
    if batches == [] then [] else batches[0] + Flatten(batches[1..])
  }

  /** Batching loses and reorders nothing, fills every batch but the last, and makes ceil(n / size) batches. */
  lemma {:induction false} BatchesPartition(texts: seq<string>, size: nat)
    requires size >= 1
    ensures Flatten(BatchTexts(texts, size)) == texts
    ensures |BatchTexts(texts, size)| == CeilDiv(|texts|, size)
    ensures forall i :: 0 <= i < |BatchTexts(texts, size)| ==>
              && 1 <= |BatchTexts(texts, size)[i]| <= size
              && (i < |BatchTexts(texts, size)| - 1 ==> |BatchTexts(texts, size)[i]| == size)
    decreases |texts|
  {
    if |texts| <= size {
      CeilDivSmall(|texts|, size);
    } else {
      BatchesPartition(texts[size..], size);
      CeilDivStep(|texts| - size, size);
      var rest := BatchTexts(texts[size..], size);
      assert BatchTexts(texts, size)[1..] == rest;
      assert texts[..size] + texts[size..] == texts;
    }
  }

  /** The provider answers every text with its own embedding. */
  ghost predicate Exact(provider: Provider, embed: string -> Vector) {
    forall texts :: provider(texts) == EmbedAll(embed, texts)
  }

  function EmbedAll(embed: string -> Vector, texts: seq<string>): (vectors: seq<Vector>)
    ensures |vectors| == |texts|
  {
    seq(|texts|, i requires 0 <= i < |texts| => embed(texts[i]))
  }

  lemma {:induction false} VectorsOfBatches(provider: Provider, embed: string -> Vector, batches: seq<seq<string>>)
    requires Exact(provider, embed)
    ensures AllVectors(provider, batches) == EmbedAll(embed, Flatten(batches))
  {
    if batches != [] {
      var front, last := batches[..|batches| - 1], batches[|batches| - 1];
      VectorsOfBatches(provider, embed, front);
      FlattenLast(front, last);
      assert front + [last] == batches;
    }
  }

  /** The vectors of a build are those the provider gave for its batches, batch after batch. */
  lemma {:induction false} VectorsInOrder(provider: Provider, a: seq<seq<string>>, b: seq<seq<string>>,
                                          batch: seq<string>)
    ensures AllVectors(provider, []) == [] && AllVectors(provider, [batch]) == provider(batch)
    ensures AllVectors(provider, a + b) == AllVectors(provider, a) + AllVectors(provider, b)
  {
    assert [batch][..0] == [];
    if b == [] {
      assert a + b == a;
    } else {
      var n := |b| - 1;
      VectorsInOrder(provider, a, b[..n], batch);
      assert (a + b)[..|a| + n] == a + b[..n] && (a + b)[|a| + n] == b[n];
    }
  }

  lemma {:induction false} FlattenLast(front: seq<seq<string>>, last: seq<string>)
    ensures Flatten(front + [last]) == Flatten(front) + last
  {
    if front == [] {
      assert front + [last] == [last];
      assert Flatten([last]) == last + Flatten([]);
    } else {
      assert (front + [last])[1..] == front[1..] + [last];
      FlattenLast(front[1..], last);
    }
  }

  // ----- Incremental indexing refines a full rebuild -----

  lemma {:induction false} PendingIsPrefix(chunks: seq<Chunk>, previous: map<string, Stored>, j: nat, k: nat)
    requires j <= k <= |chunks|
    ensures Pending(chunks, previous, j) <= Pending(chunks, previous, k)
    decreases k
  {
    if j < k {
      PendingIsPrefix(chunks, previous, j, k - 1);
    }
  }

  /** The provider answers every batch with one vector per text; their values may depend on the batch. */
  ghost predicate OnePerText(provider: Provider) {
    forall texts :: |provider(texts)| == |texts|
  }

  lemma {:induction false} VectorsPerBatch(provider: Provider, batches: seq<seq<string>>)
    requires OnePerText(provider)
    ensures |AllVectors(provider, batches)| == |Flatten(batches)|
  {
    if batches != [] {
      var front, last := batches[..|batches| - 1], batches[|batches| - 1];
      VectorsPerBatch(provider, front);
      FlattenLast(front, last);
      assert front + [last] == batches;
    }
  }

  /**
   With one vector per text there is one vector per waiting text: the build does not overrun, and
   chunks = reused + embedded.
   */
  lemma {:induction false} OneVectorPerText(chunks: seq<Chunk>, previous: map<string, Stored>, provider: Provider,
                                            size: nat)
    requires size >= 1 && OnePerText(provider)
    ensures |Computed(chunks, previous, provider, size)| == |Pending(chunks, previous, |chunks|)|
  {
    var all := Pending(chunks, previous, |chunks|);
    hide Pending;
    BatchesPartition(all, size);
    VectorsPerBatch(provider, BatchTexts(all, size));
  }

  /** With an exact provider the computed vectors are those of the waiting texts, in order. */
  lemma {:induction false} ComputedInOrder(chunks: seq<Chunk>, previous: map<string, Stored>, provider: Provider,
                                           embed: string -> Vector, size: nat)
    requires size >= 1 && Exact(provider, embed)
    ensures Computed(chunks, previous, provider, size) == EmbedAll(embed, Pending(chunks, previous, |chunks|))
  {
    var all := Pending(chunks, previous, |chunks|);
    hide Pending;
    BatchesPartition(all, size);
    VectorsOfBatches(provider, embed, BatchTexts(all, size));
  }

  lemma {:induction false} WaitingText(chunks: seq<Chunk>, previous: map<string, Stored>, k: nat)
    requires k < |chunks| && !Reuses(previous, chunks[k])
    ensures |Pending(chunks, previous, k)| < |Pending(chunks, previous, |chunks|)|
    ensures Pending(chunks, previous, |chunks|)[|Pending(chunks, previous, k)|] == chunks[k].searchText
  {
    hide Reuses;
    PendingIsPrefix(chunks, previous, k + 1, |chunks|);
    var next := Pending(chunks, previous, k) + [chunks[k].searchText];
    assert Pending(chunks, previous, k + 1) == next;
    assert next[|Pending(chunks, previous, k)|] == chunks[k].searchText;
  }

  /** With an exact provider every chunk that is embedded in this build gets its own embedding. */
  lemma {:induction false} ComputedIsOwn(chunks: seq<Chunk>, previous: map<string, Stored>, provider: Provider,
                                         embed: string -> Vector, size: nat, dimensions: int, k: nat)
    requires size >= 1 && Exact(provider, embed) && k < |chunks| && !Reuses(previous, chunks[k])
    ensures FinalVector(chunks, previous, Computed(chunks, previous, provider, size), dimensions, k)
         == Some(embed(chunks[k].searchText))
  {
    ComputedInOrder(chunks, previous, provider, embed, size);
    WaitingText(chunks, previous, k);
    hide Computed, Pending, Reuses;
  }

  /** Every chunk is stored with the vector a full rebuild would store. */
  ghost predicate BuildIsExact(chunks: seq<Chunk>, previous: map<string, Stored>, provider: Provider, size: nat,
                               dimensions: int)
    requires size >= 1
  {
    forall k :: 0 <= k < |chunks| ==>
      FinalVector(chunks, previous, Computed(chunks, previous, provider, size), dimensions, k)
      == FinalVector(chunks, map[], Computed(chunks, map[], provider, size), dimensions, k)
  }

  /** An incremental build stores what a full rebuild would exactly when every reused vector is the chunk's own. */
  lemma {:induction false} IncrementalIsExactIff(chunks: seq<Chunk>, previous: map<string, Stored>,
                                                 provider: Provider, embed: string -> Vector, size: nat,
                                                 dimensions: int)
    requires size >= 1 && Exact(provider, embed)
    ensures BuildIsExact(chunks, previous, provider, size, dimensions)
       <==> (forall k :: 0 <= k < |chunks| && Reuses(previous, chunks[k]) ==>
               previous[Key(chunks[k])].embedding == Some(embed(chunks[k].searchText)))
  {
    hide Computed, Pending, Key;
    forall k | 0 <= k < |chunks|
      ensures FinalVector(chunks, map[], Computed(chunks, map[], provider, size), dimensions, k)
           == Some(embed(chunks[k].searchText))
    {
      ComputedIsOwn(chunks, map[], provider, embed, size, dimensions, k);
    }
    forall k | 0 <= k < |chunks| && !Reuses(previous, chunks[k])
      ensures FinalVector(chunks, previous, Computed(chunks, previous, provider, size), dimensions, k)
           == Some(embed(chunks[k].searchText))
    {
      ComputedIsOwn(chunks, previous, provider, embed, size, dimensions, k);
    }
  }

  /** Every stored vector is the embedding of the row's own search text. */
  ghost predicate RowsExact(rows: seq<Stored>, embed: string -> Vector) {
    forall i :: 0 <= i < |rows| && rows[i].embedding.Some? ==>
      rows[i].embedding.value == embed(rows[i].chunk.searchText)
  }

  /** Equal cache keys mean equal search texts. */
  ghost predicate KeysDetermineTexts(rows: seq<Stored>, chunks: seq<Chunk>) {
    forall i, k :: 0 <= i < |rows| && 0 <= k < |chunks| && Key(rows[i].chunk) == Key(chunks[k]) ==>
      rows[i].chunk.searchText == chunks[k].searchText
  }

  lemma {:induction false} KeyMapEntry(rows: seq<Stored>, key: string)
    requires key in KeyMap(rows)
    ensures exists i :: 0 <= i < |rows| && rows[i] == KeyMap(rows)[key] && Key(rows[i].chunk) == key
  {
    hide Key;
    var front, last := rows[..|rows| - 1], rows[|rows| - 1];
    if key != Key(last.chunk) {
      KeyMapEntry(front, key);
      var i :| 0 <= i < |front| && front[i] == KeyMap(front)[key] && Key(front[i].chunk) == key;
      assert rows[i] == front[i];
    } else {
      assert rows[|rows| - 1] == KeyMap(rows)[key];
    }
  }

  /**
   If every previous vector is the embedding of its own search text and equal cache keys imply equal
   search texts, then after reuse, batching and the cursor loop every chunk's vector is the embedding
   of its own search text.
   */
  lemma {:induction false} IncrementalRefinesRebuild(chunks: seq<Chunk>, rows: seq<Stored>, provider: Provider,
                                                     embed: string -> Vector, size: nat, dimensions: int, k: nat)
    requires size >= 1 && Exact(provider, embed) && k < |chunks|
    requires RowsExact(rows, embed) && KeysDetermineTexts(rows, chunks)
    ensures FinalVector(chunks, KeyMap(rows), Computed(chunks, KeyMap(rows), provider, size), dimensions, k)
         == Some(embed(chunks[k].searchText))
  {
    hide Computed, Key;
    if Reuses(KeyMap(rows), chunks[k]) {
      KeyMapEntry(rows, Key(chunks[k]));
    } else {
      ComputedIsOwn(chunks, KeyMap(rows), provider, embed, size, dimensions, k);
    }
  }

  /** The rows one build stores. */
  ghost predicate Builds(chunks: seq<Chunk>, previous: map<string, Stored>, provider: Provider, size: nat,
                         dimensions: int, rows: seq<Stored>)
    requires size >= 1
  {
    && |rows| == |chunks|
    && forall k :: 0 <= k < |chunks| ==>
         rows[k] == Stored(chunks[k], FinalVector(chunks, previous, Computed(chunks, previous, provider, size),
                                                  dimensions, k))
  }

  /** The rows of the snapshot before build n: none before the first. */
  function Before(snapshots: seq<seq<Stored>>, n: nat): seq<Stored>
    requires n <= |snapshots|
  {
    if n == 0 then [] else snapshots[n - 1]
  }

  /** Successive builds, each reusing from the one before. */
  ghost predicate History(builds: seq<seq<Chunk>>, snapshots: seq<seq<Stored>>, provider: Provider, size: nat,
                          dimensions: int)
    requires size >= 1
  {
    && |snapshots| == |builds|
    && forall n :: 0 <= n < |builds| ==>
         Builds(builds[n], KeyMap(Before(snapshots, n)), provider, size, dimensions, snapshots[n])
  }

  /**
   Along a history of builds no stored vector ever goes stale. As the code stands a history has at most two
   builds: with two ready snapshots the query for the previous one raises (`LifecycleRuns.NoThirdSnapshot`).
   */
  lemma {:induction false} HistoryIsExact(builds: seq<seq<Chunk>>, snapshots: seq<seq<Stored>>, provider: Provider,
                                          embed: string -> Vector, size: nat, dimensions: int, n: nat)
    requires size >= 1 && Exact(provider, embed) && History(builds, snapshots, provider, size, dimensions)
    requires forall m :: 0 <= m < |builds| ==> KeysDetermineTexts(Before(snapshots, m), builds[m])
    requires n < |builds|
    ensures |snapshots[n]| == |builds[n]|
    ensures forall k :: 0 <= k < |builds[n]| ==>
              snapshots[n][k] == Stored(builds[n][k], Some(embed(builds[n][k].searchText)))
    ensures RowsExact(snapshots[n], embed)
  {
    hide FinalVector, Computed, Key, KeyMap, KeysDetermineTexts, RowsExact, Builds;
    var rows := Before(snapshots, n);
    if n > 0 {
      HistoryIsExact(builds, snapshots, provider, embed, size, dimensions, n - 1);
    } else {
      NoRowsAreExact(embed);
    }
    BuildKeepsExact(builds[n], rows, snapshots[n], provider, embed, size, dimensions);
  }

  lemma {:induction false} NoRowsAreExact(embed: string -> Vector)
    ensures RowsExact([], embed)
  {
  }

  lemma {:induction false} BuildKeepsExact(chunks: seq<Chunk>, rows: seq<Stored>, stored: seq<Stored>,
                                           provider: Provider, embed: string -> Vector, size: nat, dimensions: int)
    requires size >= 1 && Exact(provider, embed) && RowsExact(rows, embed) && KeysDetermineTexts(rows, chunks)
    requires Builds(chunks, KeyMap(rows), provider, size, dimensions, stored)
    ensures |stored| == |chunks| && RowsExact(stored, embed)
    ensures forall k :: 0 <= k < |chunks| ==> stored[k] == Stored(chunks[k], Some(embed(chunks[k].searchText)))
  {
    hide FinalVector, Computed, Key, KeyMap, KeysDetermineTexts;
    forall k | 0 <= k < |chunks| ensures stored[k] == Stored(chunks[k], Some(embed(chunks[k].searchText))) {
      IncrementalRefinesRebuild(chunks, rows, provider, embed, size, dimensions, k);
    }
  }

  // ----- The build as it runs -----

  /** `IndexedChunkDraft`: its vector is filled in after it was created. */
  class Draft {
    const chunk: Chunk
    var embedding: Option<Vector>

    constructor (chunk: Chunk)
      ensures this.chunk == chunk && embedding == None
    {
      this.chunk := chunk;
      embedding := None;
    }
  }

  function ChunksOf(drafts: seq<Draft>): (chunks: seq<Chunk>)
    ensures |chunks| == |drafts|
  {
    seq(|drafts|, i requires 0 <= i < |drafts| => drafts[i].chunk)
  }

  /** What the reuse loop has done to the first k drafts. */
  ghost predicate ReuseDone(drafts: seq<Draft>, previous: map<string, Stored>, k: nat)
    requires k <= |drafts|
    reads drafts
  {
    && (forall i :: 0 <= i < k ==>
          drafts[i].embedding == (if Reuses(previous, drafts[i].chunk) then previous[Key(drafts[i].chunk)].embedding
                                  else None))
    && (forall i :: k <= i < |drafts| ==> drafts[i].embedding == None)
  }

  /** The positions of the first k chunks that find no previous vector, in order. */
  function Queue(chunks: seq<Chunk>, previous: map<string, Stored>, k: nat): (queue: seq<nat>)
    requires k <= |chunks|
    ensures forall r :: 0 <= r < |queue| ==> queue[r] < k && !Reuses(previous, chunks[queue[r]])
  {
    if k == 0 then [] else Queue(chunks, previous, k - 1) + (if Reuses(previous, chunks[k - 1]) then [] else [k - 1])
  }

  /** A waiting chunk stands in the queue at the rank of its text. */
  lemma {:induction false} QueueRank(chunks: seq<Chunk>, previous: map<string, Stored>, k: nat, i: nat)
    requires i < k <= |chunks| && !Reuses(previous, chunks[i])
    ensures |Pending(chunks, previous, i)| < |Queue(chunks, previous, k)|
    ensures Queue(chunks, previous, k)[|Pending(chunks, previous, i)|] == i
    decreases k
  {
    hide Reuses;
    if i < k - 1 {
      QueueRank(chunks, previous, k - 1, i);
    } else {
      QueueLength(chunks, previous, i);
    }
  }

  lemma {:induction false} QueueLength(chunks: seq<Chunk>, previous: map<string, Stored>, k: nat)
    requires k <= |chunks|
    ensures |Queue(chunks, previous, k)| == |Pending(chunks, previous, k)|
  {
    hide Reuses;
    if k > 0 {
      QueueLength(chunks, previous, k - 1);
    }
  }

  lemma {:induction false} QueueIncreases(chunks: seq<Chunk>, previous: map<string, Stored>, k: nat, r: nat, t: nat)
    requires k <= |chunks| && r < t < |Queue(chunks, previous, k)|
    ensures Queue(chunks, previous, k)[r] < Queue(chunks, previous, k)[t]
  {
    hide Reuses;
    var front := Queue(chunks, previous, k - 1);
    if t < |front| {
      QueueIncreases(chunks, previous, k - 1, r, t);
    } else {
      assert front[r] < k - 1;
    }
  }

  lemma {:induction false} QueuedAreDistinct(drafts: seq<Draft>, previous: map<string, Stored>, toEmbed: seq<Draft>)
    requires forall i, j :: 0 <= i < j < |drafts| ==> drafts[i] != drafts[j]
    requires |toEmbed| == |Queue(ChunksOf(drafts), previous, |drafts|)|
    requires forall r :: 0 <= r < |toEmbed| ==> toEmbed[r] == drafts[Queue(ChunksOf(drafts), previous, |drafts|)[r]]
    ensures forall i, j :: 0 <= i < j < |toEmbed| ==> toEmbed[i] != toEmbed[j]
  {
    hide Queue, Reuses, ChunksOf;
    forall i, j | 0 <= i < j < |toEmbed| ensures toEmbed[i] != toEmbed[j] {
      QueueIncreases(ChunksOf(drafts), previous, |drafts|, i, j);
    }
  }

  lemma {:induction false} ReusedIsThere(previous: map<string, Stored>, c: Chunk)
    ensures Reuses(previous, c) ==> Key(c) in previous
  {
  }

  lemma {:induction false} QueueStarts(chunks: seq<Chunk>, previous: map<string, Stored>)
    ensures Queue(chunks, previous, 0) == [] && Pending(chunks, previous, 0) == []
  {
  }

  lemma {:induction false} QueueSteps(chunks: seq<Chunk>, previous: map<string, Stored>, k: nat)
    requires k < |chunks|
    ensures Reuses(previous, chunks[k]) ==>
              && Queue(chunks, previous, k + 1) == Queue(chunks, previous, k)
              && Pending(chunks, previous, k + 1) == Pending(chunks, previous, k)
    ensures !Reuses(previous, chunks[k]) ==>
              && Queue(chunks, previous, k + 1) == Queue(chunks, previous, k) + [k]
              && Pending(chunks, previous, k + 1) == Pending(chunks, previous, k) + [chunks[k].searchText]
  {
    hide Reuses;
  }

  method ReuseVectors(drafts: seq<Draft>, previous: map<string, Stored>)
    returns (toEmbed: seq<Draft>, texts: seq<string>, reused: nat)
    requires forall i, j :: 0 <= i < j < |drafts| ==> drafts[i] != drafts[j]
    requires forall i :: 0 <= i < |drafts| ==> drafts[i].embedding == None
    modifies drafts
    ensures ReuseDone(drafts, previous, |drafts|)
    ensures var queue := Queue(ChunksOf(drafts), previous, |drafts|);
            |toEmbed| == |queue| && forall r :: 0 <= r < |queue| ==> toEmbed[r] == drafts[queue[r]]
    ensures texts == Pending(ChunksOf(drafts), previous, |drafts|)
    ensures reused + |texts| == |drafts|
    ensures |toEmbed| == |texts| && forall i, j :: 0 <= i < j < |toEmbed| ==> toEmbed[i] != toEmbed[j]
  {
    ghost var chunks := ChunksOf(drafts);
    QueueStarts(chunks, previous);
    hide Key, Reuses, Queue, Pending;
    toEmbed, texts, reused := [], [], 0;
    for k := 0 to |drafts|
      invariant ReuseDone(drafts, previous, k)
      invariant |toEmbed| == |Queue(chunks, previous, k)|
      invariant forall r :: 0 <= r < |toEmbed| ==> toEmbed[r] == drafts[Queue(chunks, previous, k)[r]]
      invariant texts == Pending(chunks, previous, k)
      invariant reused + |texts| == k
    {
      var draft := drafts[k];
      assert draft.chunk == chunks[k];
      QueueSteps(chunks, previous, k);
      if Reuses(previous, draft.chunk) {
        ReusedIsThere(previous, draft.chunk);
        draft.embedding := previous[Key(draft.chunk)].embedding;
        reused := reused + 1;
      } else {
        texts := texts + [draft.chunk.searchText];
        toEmbed := toEmbed + [draft];
      }
    }
    QueueLength(chunks, previous, |drafts|);
    QueuedAreDistinct(drafts, previous, toEmbed);
  }

  /**
   The cursor loop: vectors are handed out in queue order, whatever batch they came from. A false answer
   is the `IndexError` of a provider that returns more vectors than there are texts.
   */
  method EmbedBatches(toEmbed: seq<Draft>, batches: seq<seq<string>>, provider: Provider)
    returns (ok: bool, batchCount: nat, vectorCount: nat)
    requires forall i, j :: 0 <= i < j < |toEmbed| ==> toEmbed[i] != toEmbed[j]
    modifies toEmbed
    ensures ok <==> |AllVectors(provider, batches)| <= |toEmbed|
    ensures ok ==> batchCount == |batches| && vectorCount == |AllVectors(provider, batches)|
    ensures ok ==> forall r :: 0 <= r < |toEmbed| ==>
              toEmbed[r].embedding ==
              if r < vectorCount then Some(AllVectors(provider, batches)[r]) else old(toEmbed[r].embedding)
  {
    var cursor := 0;
    batchCount, vectorCount := 0, 0;
    for b := 0 to |batches|
      invariant batchCount == b && vectorCount == cursor == |AllVectors(provider, batches[..b])| <= |toEmbed|
      invariant forall r :: 0 <= r < cursor ==> toEmbed[r].embedding == Some(AllVectors(provider, batches[..b])[r])
      invariant forall r :: cursor <= r < |toEmbed| ==> toEmbed[r].embedding == old(toEmbed[r].embedding)
    {
      var vectors := provider(batches[b]);
      ghost var before := AllVectors(provider, batches[..b]);
      ghost var after := AllVectors(provider, batches[..b + 1]);
      assert batches[..b + 1][..b] == batches[..b];
      assert after == before + vectors;
      batchCount, vectorCount := batchCount + 1, vectorCount + |vectors|;
      for v := 0 to |vectors|
        invariant cursor == |before| + v <= |toEmbed|
        invariant forall r :: 0 <= r < cursor ==> toEmbed[r].embedding == Some(after[r])
        invariant forall r :: cursor <= r < |toEmbed| ==> toEmbed[r].embedding == old(toEmbed[r].embedding)
      {
        if cursor == |toEmbed| {
          MoreBatchesMoreVectors(provider, batches, b + 1);
          return false, batchCount, vectorCount;
        }
        toEmbed[cursor].embedding := Some(vectors[v]);
        cursor := cursor + 1;
      }
    }
    assert batches[..|batches|] == batches;
    return true, batchCount, vectorCount;
  }

  lemma {:induction false} MoreBatchesMoreVectors(provider: Provider, batches: seq<seq<string>>, b: nat)
    requires b <= |batches|
    ensures |AllVectors(provider, batches[..b])| <= |AllVectors(provider, batches)|
    decreases |batches|
  {
    if b < |batches| {
      var front := batches[..|batches| - 1];
      assert front[..b] == batches[..b];
      MoreBatchesMoreVectors(provider, front, b);
    } else {
      assert batches[..b] == batches;
    }
  }

  /** A draft's vector before the zero fill. */
  function Assigned(chunks: seq<Chunk>, previous: map<string, Stored>, vectors: seq<Vector>, k: nat): Option<Vector>
    requires k < |chunks|
  {
    if Reuses(previous, chunks[k]) then previous[Key(chunks[k])].embedding
    else
      var rank := |Pending(chunks, previous, k)|;
      if rank < |vectors| then Some(vectors[rank]) else None
  }

  method AssignVectors(drafts: seq<Draft>, previous: map<string, Stored>, provider: Provider, size: nat)
    returns (ok: bool, reused: nat, batchCount: nat, vectorCount: nat)
    requires size >= 1
    requires forall i, j :: 0 <= i < j < |drafts| ==> drafts[i] != drafts[j]
    requires forall i :: 0 <= i < |drafts| ==> drafts[i].embedding == None
    modifies drafts
    ensures var chunks := ChunksOf(drafts);
            var texts, vectors := Pending(chunks, previous, |chunks|), Computed(chunks, previous, provider, size);
            && (ok <==> |vectors| <= |texts|)
            && reused + |texts| == |drafts|
            && (ok ==> batchCount == |BatchTexts(texts, size)| && vectorCount == |vectors|)
            && (ok ==> forall k :: 0 <= k < |drafts| ==> drafts[k].embedding == Assigned(chunks, previous, vectors, k))
  {
    hide Key, Reuses, Pending, AllVectors, BatchTexts;
    ghost var chunks := ChunksOf(drafts);
    ghost var queue := Queue(chunks, previous, |drafts|);
    var toEmbed, texts;
    toEmbed, texts, reused := ReuseVectors(drafts, previous);
    label Reused:
    ok, batchCount, vectorCount := EmbedBatches(toEmbed, BatchTexts(texts, size), provider);
    ghost var vectors := Computed(chunks, previous, provider, size);
    if ok {
      forall k | 0 <= k < |drafts| ensures drafts[k].embedding == Assigned(chunks, previous, vectors, k) {
        if Reuses(previous, chunks[k]) {
          assert drafts[k] !in toEmbed;
          assert drafts[k].embedding == old@Reused(drafts[k].embedding);
        } else {
          QueueRank(chunks, previous, |drafts|, k);
          var rank := |Pending(chunks, previous, k)|;
          assert toEmbed[rank] == drafts[k];
        }
      }
    }
  }

  /** Reuse, batches, cursor and zero fill together: every draft ends with its `FinalVector`. */
  method FillVectors(drafts: seq<Draft>, previous: map<string, Stored>, provider: Provider, size: nat, dimensions: int)
    returns (ok: bool, reused: nat, batchCount: nat, vectorCount: nat)
    requires size >= 1
    requires forall i, j :: 0 <= i < j < |drafts| ==> drafts[i] != drafts[j]
    requires forall i :: 0 <= i < |drafts| ==> drafts[i].embedding == None
    modifies drafts
    ensures var chunks := ChunksOf(drafts);
            var texts, vectors := Pending(chunks, previous, |chunks|), Computed(chunks, previous, provider, size);
            && (ok <==> |vectors| <= |texts|)
            && reused + |texts| == |drafts|
            && (ok ==> batchCount == |BatchTexts(texts, size)| && vectorCount == |vectors|)
            && (ok ==> forall k :: 0 <= k < |drafts| ==>
                         drafts[k].embedding == FinalVector(chunks, previous, vectors, dimensions, k))
  {
    hide Key, Reuses, Pending, AllVectors, BatchTexts, Computed;
    ghost var chunks := ChunksOf(drafts);
    ok, reused, batchCount, vectorCount := AssignVectors(drafts, previous, provider, size);
    if !ok {
      return;
    }
    ghost var vectors := Computed(chunks, previous, provider, size);
    for k := 0 to |drafts|
      invariant forall i :: 0 <= i < k ==> drafts[i].embedding == FinalVector(chunks, previous, vectors, dimensions, i)
      invariant forall i :: k <= i < |drafts| ==> drafts[i].embedding == Assigned(chunks, previous, vectors, i)
    {
      if drafts[k].embedding == None && dimensions > 0 {
        drafts[k].embedding := ZeroVector(dimensions);
      }
      FillOne(chunks, previous, vectors, dimensions, k);
    }
  }

  lemma {:induction false} FillOne(chunks: seq<Chunk>, previous: map<string, Stored>, vectors: seq<Vector>,
                                   dimensions: int, k: nat)
    requires k < |chunks|
    ensures FinalVector(chunks, previous, vectors, dimensions, k)
         == if Assigned(chunks, previous, vectors, k).None? then ZeroVector(dimensions)
            else Assigned(chunks, previous, vectors, k)
  {
  }

  // ----- One build with its statistics -----

  /** The rows of the previous ready snapshot and the files of its revision. */
  datatype Previous = Previous(files: seq<File>, rows: seq<Stored>)

  datatype Statistics = Statistics(seen: nat, accepted: nat, excluded: nat, changed: nat, same: nat, deleted: nat,
                                   parsed: nat, fallbacks: nat, chunks: nat, batches: nat, vectors: nat, reused: nat)

  datatype BuildResult = Built(rows: seq<Stored>, statistics: Statistics) | BuildFailed

  type Parser = (string, string) -> Parsed

  predicate UniquePaths(files: seq<File>) {
    forall i, j :: 0 <= i < j < |files| ==> files[i].path != files[j].path
  }

  function Accepted(files: seq<File>): (accepted: seq<File>)
    ensures |accepted| <= |files|
  {
    if files == [] then []
    else Accepted(files[..|files| - 1]) + (if files[|files| - 1].accepted then [files[|files| - 1]] else [])
  }

  lemma {:induction false} AcceptedStep(files: seq<File>)
    ensures files == [] ==> Accepted(files) == []
    ensures files != [] ==>
              var front, last := Accepted(files[..|files| - 1]), files[|files| - 1];
              Accepted(files) == if last.accepted then front + [last] else front
  {
  }

  lemma {:induction false} AcceptedMembers(files: seq<File>)
    ensures forall f :: f in Accepted(files) <==> f in files && f.accepted
    ensures UniquePaths(files) ==> UniquePaths(Accepted(files))
  {
    AcceptedStep(files);
    hide Accepted;
    if files != [] {
      var n := |files| - 1;
      AcceptedMembers(files[..n]);
      assert files == files[..n] + [files[n]];
      if UniquePaths(files) {
        assert forall f :: f in Accepted(files[..n]) ==> f.path != files[n].path;
      }
    }
  }

  function ByPath(files: seq<File>): (m: map<string, File>)
    ensures forall p :: p in m ==> m[p] in files && m[p].path == p
    ensures forall f :: f in files ==> f.path in m
  {
    if files == [] then map[] else ByPath(files[..|files| - 1])[files[|files| - 1].path := files[|files| - 1]]
  }

  /** The accepted files of the previous snapshot's revision by path; none without a previous snapshot. */
  function PreviousFiles(previous: Option<Previous>): map<string, File> {
    if previous.Some? then ByPath(Accepted(previous.value.files)) else map[]
  }

  function PreviousRows(previous: Option<Previous>): map<string, Stored> {
    if previous.Some? then KeyMap(previous.value.rows) else map[]
  }

  predicate Unchanged(f: File, previous: map<string, File>) {
    f.path in previous && previous[f.path].contentHash == f.contentHash
  }

  function CountUnchanged(files: seq<File>, previous: map<string, File>): (n: nat)
    ensures n <= |files|
  {
    if files == [] then 0
    else CountUnchanged(files[..|files| - 1], previous) + (if Unchanged(files[|files| - 1], previous) then 1 else 0)
  }

  predicate FallsBack(f: File, parse: Parser) {
    parse(f.path, f.Text()).fallbackUsed
  }

  function CountFallbacks(files: seq<File>, parse: Parser): (n: nat)
    ensures n <= |files|
  {
    if files == [] then 0
    else CountFallbacks(files[..|files| - 1], parse) + (if FallsBack(files[|files| - 1], parse) then 1 else 0)
  }

  function AllChunks(revision: string, files: seq<File>, parse: Parser, lim: Limits,
                     digest: string -> string): (chunks: seq<Chunk>)
    requires lim.maxLines >= 1
    ensures |chunks| >= |files|
  {
    if files == [] then []
    else
      var last := files[|files| - 1];
      AllChunks(revision, files[..|files| - 1], parse, lim, digest)
      + Materialize(revision, last, parse(last.path, last.Text()), lim, digest)
  }

  predicate DistinctIds(chunks: seq<Chunk>) {
    forall i, j :: 0 <= i < j < |chunks| ==> chunks[i].id != chunks[j].id
  }

  // ----- What a build reuses, read off the previous rows -----

  /** Row i is the last one with this key. */
  predicate IsLastWithKey(rows: seq<Stored>, i: nat, key: string) {
    i < |rows| && Key(rows[i].chunk) == key && forall j :: i < j < |rows| ==> Key(rows[j].chunk) != key
  }

  /** The last row with the chunk's key has a vector. */
  ghost predicate HasVectorIn(rows: seq<Stored>, c: Chunk) {
    exists i: nat :: IsLastWithKey(rows, i, Key(c)) && rows[i].embedding.Some?
  }

  lemma {:induction false} LastRowIsKept(rows: seq<Stored>, i: nat, key: string)
    requires IsLastWithKey(rows, i, key)
    ensures key in KeyMap(rows) && KeyMap(rows)[key] == rows[i]
  {
    hide Key;
    var front := rows[..|rows| - 1];
    if i < |front| {
      assert Key(rows[|rows| - 1].chunk) != key;
      assert forall j :: i < j < |front| ==> Key(front[j].chunk) != key by {
        assert forall j :: 0 <= j < |front| ==> front[j] == rows[j];
      }
      LastRowIsKept(front, i, key);
    }
  }

  lemma {:induction false} KeptRowIsLast(rows: seq<Stored>, key: string) returns (i: nat)
    requires key in KeyMap(rows)
    ensures IsLastWithKey(rows, i, key)
  {
    hide Key;
    var front := rows[..|rows| - 1];
    if Key(rows[|rows| - 1].chunk) == key {
      i := |rows| - 1;
    } else {
      i := KeptRowIsLast(front, key);
      assert forall j :: 0 <= j < |front| ==> front[j] == rows[j];
    }
  }

  lemma {:induction false} ReusesIff(rows: seq<Stored>, c: Chunk)
    ensures Reuses(KeyMap(rows), c) <==> HasVectorIn(rows, c)
    ensures forall i: nat :: IsLastWithKey(rows, i, Key(c)) ==>
              Key(c) in KeyMap(rows) && KeyMap(rows)[Key(c)] == rows[i]
  {
    hide Key, KeyMap;
    forall i: nat | IsLastWithKey(rows, i, Key(c)) ensures Key(c) in KeyMap(rows) && KeyMap(rows)[Key(c)] == rows[i] {
      LastRowIsKept(rows, i, Key(c));
    }
    if Key(c) in KeyMap(rows) {
      var i := KeptRowIsLast(rows, Key(c));
    }
  }

  /** The rows of the previous snapshot; none without one. */
  ghost function RowsOf(previous: Option<Previous>): seq<Stored> {
    if previous.Some? then previous.value.rows else []
  }

  /** The first k chunks that find a vector in these rows. */
  ghost function FoundAmong(chunks: seq<Chunk>, rows: seq<Stored>, k: nat): set<nat>
    requires k <= |chunks|
  {
    set i: nat | i < k && HasVectorIn(rows, chunks[i])
  }

  lemma {:induction false} WaitingCount(chunks: seq<Chunk>, rows: seq<Stored>, k: nat)
    requires k <= |chunks|
    ensures |Pending(chunks, KeyMap(rows), k)| + |FoundAmong(chunks, rows, k)| == k
  {
    hide Reuses, HasVectorIn, KeyMap;
    if k > 0 {
      WaitingCount(chunks, rows, k - 1);
      ReusesIff(rows, chunks[k - 1]);
      assert FoundAmong(chunks, rows, k)
          == FoundAmong(chunks, rows, k - 1) + (if HasVectorIn(rows, chunks[k - 1]) then {k - 1} else {});
    } else {
      assert FoundAmong(chunks, rows, 0) == {};
    }
  }

  /** Zeros of the provider's dimensions, or nothing when it has none. */
  predicate IsZeroFill(embedding: Option<Vector>, dimensions: int) {
    if dimensions > 0 then
      embedding.Some? && |embedding.value| == dimensions
      && forall i :: 0 <= i < |embedding.value| ==> embedding.value[i] == 0.0
    else embedding == None
  }

  /**
   What a build stores for chunk k, read off the previous rows and the computed vectors: the vector of the last row
   with the chunk's key, else the next computed vector, else zeros.
   */
  ghost predicate StoresVector(chunks: seq<Chunk>, rows: seq<Stored>, vectors: seq<Vector>, dimensions: int, k: nat,
                               embedding: Option<Vector>)
    requires k < |chunks|
  {
    if HasVectorIn(rows, chunks[k]) then
      forall i: nat :: IsLastWithKey(rows, i, Key(chunks[k])) ==> embedding == rows[i].embedding
    else
      var rank := k - |FoundAmong(chunks, rows, k)|;
      if 0 <= rank < |vectors| then embedding == Some(vectors[rank]) else IsZeroFill(embedding, dimensions)
  }

  lemma {:induction false} FinalVectorIs(chunks: seq<Chunk>, rows: seq<Stored>, vectors: seq<Vector>, dimensions: int,
                                         k: nat)
    requires k < |chunks|
    ensures StoresVector(chunks, rows, vectors, dimensions, k,
                         FinalVector(chunks, KeyMap(rows), vectors, dimensions, k))
  {
    ReusesIff(rows, chunks[k]);
    WaitingCount(chunks, rows, k);
    hide Key, KeyMap, Pending, HasVectorIn, FoundAmong, IsLastWithKey;
  }

  /** The rows of a build, and how many vectors it reuses. */
  lemma {:induction false} BuildHolds(chunks: seq<Chunk>, previous: Option<Previous>, provider: Provider, size: nat,
                                      dimensions: int, rows: seq<Stored>)
    requires size >= 1 && Builds(chunks, PreviousRows(previous), provider, size, dimensions, rows)
    ensures |rows| == |chunks|
    ensures forall k :: 0 <= k < |rows| ==>
              && rows[k].chunk == chunks[k]
              && StoresVector(chunks, RowsOf(previous), Computed(chunks, PreviousRows(previous), provider, size),
                              dimensions, k, rows[k].embedding)
  {
    assert PreviousRows(previous) == KeyMap(RowsOf(previous));
    hide FinalVector, Computed, StoresVector, PreviousRows, RowsOf, KeyMap;
    forall k | 0 <= k < |rows|
      ensures StoresVector(chunks, RowsOf(previous), Computed(chunks, PreviousRows(previous), provider, size),
                           dimensions, k, rows[k].embedding)
    {
      FinalVectorIs(chunks, RowsOf(previous), Computed(chunks, PreviousRows(previous), provider, size), dimensions, k);
    }
  }

  lemma {:induction false} ReusedIs(chunks: seq<Chunk>, previous: Option<Previous>)
    ensures |Pending(chunks, PreviousRows(previous), |chunks|)| + |FoundAmong(chunks, RowsOf(previous), |chunks|)|
         == |chunks|
  {
    assert PreviousRows(previous) == KeyMap(RowsOf(previous));
    hide Pending, FoundAmong, PreviousRows, RowsOf;
    WaitingCount(chunks, RowsOf(previous), |chunks|);
  }

  // ----- What the statistics count, read off the files -----

  ghost function AcceptedAt(files: seq<File>): set<nat> {
    set i: nat | i < |files| && files[i].accepted
  }

  ghost function FallbackAt(files: seq<File>, parse: Parser): set<nat> {
    set i: nat | i < |files| && files[i].accepted && parse(files[i].path, files[i].Text()).fallbackUsed
  }

  /** File j is the last accepted one of its path. */
  predicate IsLastOfPath(files: seq<File>, j: nat, path: string) {
    && j < |files| && files[j].accepted && files[j].path == path
    && forall i :: j < i < |files| && files[i].accepted ==> files[i].path != path
  }

  /** The files of the previous snapshot's revision; none without a previous snapshot. */
  ghost function FilesOf(previous: Option<Previous>): seq<File> {
    if previous.Some? then previous.value.files else []
  }

  ghost predicate HadSameHash(files: seq<File>, f: File) {
    exists j: nat :: IsLastOfPath(files, j, f.path) && files[j].contentHash == f.contentHash
  }

  ghost function SameAt(files: seq<File>, before: seq<File>): set<nat> {
    set i: nat | i < |files| && files[i].accepted && HadSameHash(before, files[i])
  }

  ghost function AcceptedPaths(files: seq<File>): set<string> {
    set i: nat | i < |files| && files[i].accepted :: files[i].path
  }

  lemma {:induction false} AcceptedCount(files: seq<File>)
    ensures |Accepted(files)| == |AcceptedAt(files)|
  {
    AcceptedStep(files);
    hide Accepted;
    if files == [] {
      assert AcceptedAt(files) == {};
    } else {
      var n := |files| - 1;
      AcceptedCount(files[..n]);
      AcceptedAtStep(files);
      hide AcceptedAt;
    }
  }

  lemma {:induction false} AcceptedAtStep(files: seq<File>)
    requires files != []
    ensures var n := |files| - 1;
            |AcceptedAt(files)| == |AcceptedAt(files[..n])| + if files[n].accepted then 1 else 0
  {
    var n := |files| - 1;
    assert AcceptedAt(files) == AcceptedAt(files[..n]) + (if files[n].accepted then {n} else {});
  }

  lemma {:induction false} CountFallbacksStep(front: seq<File>, last: File, parse: Parser)
    ensures CountFallbacks([], parse) == 0
    ensures CountFallbacks(front + [last], parse) == CountFallbacks(front, parse) + if FallsBack(last, parse) then 1
            else 0
  {
    hide FallsBack;
    assert (front + [last])[..|front|] == front;
  }

  lemma {:induction false} FallbackCount(files: seq<File>, parse: Parser)
    ensures CountFallbacks(Accepted(files), parse) == |FallbackAt(files, parse)|
  {
    AcceptedStep(files);
    hide Accepted, CountFallbacks;
    if files == [] {
      assert FallbackAt(files, parse) == {};
      CountFallbacksStep([], File("", "", false, None), parse);
    } else {
      var n := |files| - 1;
      var falls := files[n].accepted && FallsBack(files[n], parse);
      FallbackCount(files[..n], parse);
      CountFallbacksStep(Accepted(files[..n]), files[n], parse);
      FallbackAtStep(files, parse);
      hide FallbackAt, FallsBack;
    }
  }

  lemma {:induction false} FallbackAtStep(files: seq<File>, parse: Parser)
    requires files != []
    ensures var n := |files| - 1;
            |FallbackAt(files, parse)| == |FallbackAt(files[..n], parse)|
                                          + if files[n].accepted && FallsBack(files[n], parse) then 1 else 0
  {
    var n := |files| - 1;
    var falls := files[n].accepted && FallsBack(files[n], parse);
    assert FallbackAt(files, parse) == FallbackAt(files[..n], parse) + (if falls then {n} else {});
  }

  lemma {:induction false} ByPathStep(front: seq<File>, last: File)
    ensures ByPath([]) == map[]
    ensures ByPath(front + [last]) == ByPath(front)[last.path := last]
  {
    assert (front + [last])[..|front|] == front;
  }

  lemma {:induction false} LastOfPathIsKept(files: seq<File>, path: string)
    ensures forall j: nat :: IsLastOfPath(files, j, path) ==>
              path in ByPath(Accepted(files)) && ByPath(Accepted(files))[path] == files[j]
    ensures path in ByPath(Accepted(files)) ==> HasLast(files, path)
  {
    AcceptedStep(files);
    if files == [] {
      ByPathStep([], File("", "", false, None));
    } else {
      var n := |files| - 1;
      hide Accepted, ByPath, IsLastOfPath, HasLast;
      LastOfPathIsKept(files[..n], path);
      LastOfPathStep(files, path);
      ByPathStep(Accepted(files[..n]), files[n]);
      assert forall j: nat :: IsLastOfPath(files[..n], j, path) ==> j < n && files[..n][j] == files[j] by {
        LastIsIn(files[..n], path);
      }
    }
  }

  lemma {:induction false} LastIsIn(files: seq<File>, path: string)
    ensures forall j: nat :: IsLastOfPath(files, j, path) ==> j < |files|
  {
  }

  ghost predicate HasLast(files: seq<File>, path: string) {
    exists j: nat :: IsLastOfPath(files, j, path)
  }

  lemma {:induction false} LastOfPathStep(files: seq<File>, path: string)
    requires files != []
    ensures var n := |files| - 1;
            forall j: nat :: IsLastOfPath(files, j, path) <==>
              if files[n].accepted && files[n].path == path then j == n
              else IsLastOfPath(files[..n], j, path)
    ensures var n := |files| - 1;
            HasLast(files, path) <==> (files[n].accepted && files[n].path == path) || HasLast(files[..n], path)
  {
    var n := |files| - 1;
    assert forall i :: 0 <= i < n ==> files[..n][i] == files[i];
    if files[n].accepted && files[n].path == path {
      assert IsLastOfPath(files, n, path);
    }
  }

  lemma {:induction false} UnchangedIff(f: File, before: seq<File>)
    ensures Unchanged(f, ByPath(Accepted(before))) <==> HadSameHash(before, f)
  {
    LastOfPathIsKept(before, f.path);
    hide ByPath, Accepted, IsLastOfPath;
    if Unchanged(f, ByPath(Accepted(before))) {
      var j: nat :| IsLastOfPath(before, j, f.path);
    }
  }

  lemma {:induction false} CountUnchangedStep(front: seq<File>, last: File, known: map<string, File>)
    ensures CountUnchanged([], known) == 0
    ensures CountUnchanged(front + [last], known) == CountUnchanged(front, known) + if Unchanged(last, known) then 1
            else 0
  {
    hide Unchanged;
    assert (front + [last])[..|front|] == front;
  }

  lemma {:induction false} SameAtStep(files: seq<File>, before: seq<File>)
    requires files != []
    ensures var n := |files| - 1;
            |SameAt(files, before)| == |SameAt(files[..n], before)|
                                       + if files[n].accepted && HadSameHash(before, files[n]) then 1 else 0
  {
    hide HadSameHash;
    var n := |files| - 1;
    var same := files[n].accepted && HadSameHash(before, files[n]);
    assert SameAt(files, before) == SameAt(files[..n], before) + (if same then {n} else {});
  }

  lemma {:induction false} SameCount(files: seq<File>, before: seq<File>)
    ensures CountUnchanged(Accepted(files), ByPath(Accepted(before))) == |SameAt(files, before)|
  {
    AcceptedStep(files);
    hide Accepted, ByPath, HadSameHash, Unchanged, CountUnchanged;
    var known := ByPath(Accepted(before));
    if files == [] {
      assert SameAt(files, before) == {};
      CountUnchangedStep([], File("", "", false, None), known);
    } else {
      var n := |files| - 1;
      SameCount(files[..n], before);
      UnchangedIff(files[n], before);
      CountUnchangedStep(Accepted(files[..n]), files[n], known);
      SameAtStep(files, before);
      hide SameAt;
    }
  }

  lemma {:induction false} PathsOfAccepted(files: seq<File>)
    ensures ByPath(Accepted(files)).Keys == AcceptedPaths(files)
  {
    var known := ByPath(Accepted(files));
    AcceptedMembers(files);
    hide Accepted;
    forall path ensures path in known <==> path in AcceptedPaths(files) {
      if path in known {
        assert known[path] in Accepted(files) && known[path] in files;
        var i :| 0 <= i < |files| && files[i] == known[path];
        assert files[i].path == path;
      }
      if path in AcceptedPaths(files) {
        var i: nat :| i < |files| && files[i].accepted && files[i].path == path;
        assert files[i] in Accepted(files);
      }
    }
  }

  /** Every statistic of the files, as the size of a set of files or paths. */
  ghost predicate FilesAreCounted(s: Statistics, files: seq<File>, before: seq<File>, parse: Parser) {
    && s.seen == |files|
    && s.accepted == |AcceptedAt(files)| && s.excluded == |files| - |AcceptedAt(files)|
    && s.fallbacks == |FallbackAt(files, parse)| && s.parsed == |AcceptedAt(files)| - |FallbackAt(files, parse)|
    && s.same == |SameAt(files, before)| && s.changed == |AcceptedAt(files)| - |SameAt(files, before)|
    && s.deleted == |AcceptedPaths(before) - AcceptedPaths(files)|
  }

  lemma {:induction false} CountsAre(files: seq<File>, previous: Option<Previous>, parse: Parser)
    ensures |Accepted(files)| == |AcceptedAt(files)|
    ensures CountFallbacks(Accepted(files), parse) == |FallbackAt(files, parse)|
    ensures CountUnchanged(Accepted(files), PreviousFiles(previous)) == |SameAt(files, FilesOf(previous))|
    ensures |PreviousFiles(previous).Keys - ByPath(Accepted(files)).Keys|
         == |AcceptedPaths(FilesOf(previous)) - AcceptedPaths(files)|
  {
    assert PreviousFiles(previous) == ByPath(Accepted(FilesOf(previous)));
    hide Accepted, ByPath, PreviousFiles, FilesOf, CountFallbacks, CountUnchanged;
    AcceptedCount(files);
    FallbackCount(files, parse);
    SameCount(files, FilesOf(previous));
    PathsOfAccepted(files);
    PathsOfAccepted(FilesOf(previous));
  }

  /** The accepted files in their order: at increasing positions, and none left out. */
  lemma {:induction false} AcceptedInOrder(files: seq<File>) returns (at: seq<nat>)
    ensures |at| == |Accepted(files)|
    ensures forall k :: 0 <= k < |at| ==> at[k] < |files| && files[at[k]].accepted && Accepted(files)[k] == files[at[k]]
    ensures forall k, l :: 0 <= k < l < |at| ==> at[k] < at[l]
    ensures forall i :: 0 <= i < |files| && files[i].accepted ==> i in at
  {
    AcceptedStep(files);
    hide Accepted;
    at := [];
    if files != [] {
      var n := |files| - 1;
      at := AcceptedInOrder(files[..n]);
      if files[n].accepted {
        at := at + [n];
      }
    }
  }

  /**
   One build: it fails when the provider returns too many vectors or two chunks get the same id (the
   primary key refuses the second); otherwise every chunk of every accepted file is stored with its
   `FinalVector`, and the statistics are conserved.
   */
  method BuildIndex(revision: string, files: seq<File>, previous: Option<Previous>, parse: Parser, lim: Limits,
                    digest: string -> string, provider: Provider, size: nat, dimensions: int) returns (r: BuildResult)
    requires lim.maxLines >= 1 && size >= 1
    ensures var chunks, known := AllChunks(revision, Accepted(files), parse, lim, digest), PreviousRows(previous);
            var texts, vectors := Pending(chunks, known, |chunks|), Computed(chunks, known, provider, size);
            && (r.Built? <==> |vectors| <= |texts| && DistinctIds(chunks))
            && (r.Built? ==>
                 && Builds(chunks, known, provider, size, dimensions, r.rows)
                 && r.statistics.chunks == |r.rows| == r.statistics.reused + |texts|
                 && r.statistics.vectors == |vectors|
                 && r.statistics.batches == CeilDiv(|texts|, size)
                 && r.statistics.reused == |FoundAmong(chunks, RowsOf(previous), |chunks|)|
                 && forall k :: 0 <= k < |r.rows| ==>
                      && r.rows[k].chunk == chunks[k]
                      && StoresVector(chunks, RowsOf(previous), vectors, dimensions, k, r.rows[k].embedding))
    ensures r.Built? ==> FilesAreCounted(r.statistics, files, FilesOf(previous), parse)
    ensures r.Built? ==>
              var s, accepted, known := r.statistics, Accepted(files), PreviousFiles(previous);
              && s.seen == |files| == s.accepted + s.excluded
              && s.accepted == |accepted| == s.parsed + s.fallbacks == s.changed + s.same
              && s.same == CountUnchanged(accepted, known)
              && s.fallbacks == CountFallbacks(accepted, parse)
              && |known| == s.deleted + |known.Keys * ByPath(accepted).Keys|
              && s.chunks >= s.accepted
              && (OnePerText(provider) ==> s.chunks == s.reused + s.vectors)
  {
    hide *;
    var accepted := Accepted(files);
    var previousFiles := PreviousFiles(previous);
    var deleted := |previousFiles.Keys - ByPath(accepted).Keys|;
    DeletedAndKept(previousFiles, ByPath(accepted));
    CountsAre(files, previous, parse);
    var drafts, changed, same, parsed, fallbacks := ScanFiles(revision, accepted, previousFiles, parse, lim, digest);
    ghost var all := AllChunks(revision, accepted, parse, lim, digest);
    var known := PreviousRows(previous);
    BatchesPartition(Pending(all, known, |all|), size);
    OneVectorPerTextOr(all, known, provider, size);
    ReusedIs(all, previous);
    var ok, rows, reused, batches, vectors := StoreChunks(drafts, known, provider, size, dimensions);
    if !ok {
      return BuildFailed;
    }
    BuildHolds(all, previous, provider, size, dimensions, rows);
    var statistics := Statistics(|files|, |accepted|, |files| - |accepted|, changed, same, deleted,
                                 parsed, fallbacks, |drafts|, batches, vectors, reused);
    FilesCounted(statistics, files, FilesOf(previous), parse);
    return Built(rows, statistics);
  }

  lemma {:induction false} DeletedAndKept(before: map<string, File>, now: map<string, File>)
    ensures |before| == |before.Keys - now.Keys| + |before.Keys * now.Keys|
  {
    assert before.Keys == (before.Keys - now.Keys) + (before.Keys * now.Keys);
  }

  lemma {:induction false} OneVectorPerTextOr(chunks: seq<Chunk>, previous: map<string, Stored>, provider: Provider,
                                              size: nat)
    requires size >= 1
    ensures OnePerText(provider) ==>
              |Computed(chunks, previous, provider, size)| == |Pending(chunks, previous, |chunks|)|
  {
    hide Computed, Pending, OnePerText;
    if OnePerText(provider) {
      OneVectorPerText(chunks, previous, provider, size);
    }
  }

  lemma {:induction false} FilesCounted(s: Statistics, files: seq<File>, before: seq<File>, parse: Parser)
    requires s.seen == |files| == s.accepted + s.excluded && s.accepted == |AcceptedAt(files)|
    requires s.accepted == s.parsed + s.fallbacks == s.changed + s.same
    requires s.fallbacks == |FallbackAt(files, parse)| && s.same == |SameAt(files, before)|
    requires s.deleted == |AcceptedPaths(before) - AcceptedPaths(files)|
    ensures FilesAreCounted(s, files, before, parse)
  {
  }

  /** Vectors for all drafts, then their rows; the primary key refuses a second chunk with the same id. */
  method StoreChunks(drafts: seq<Draft>, known: map<string, Stored>, provider: Provider, size: nat, dimensions: int)
    returns (ok: bool, rows: seq<Stored>, reused: nat, batches: nat, vectors: nat)
    requires size >= 1
    requires forall i, j :: 0 <= i < j < |drafts| ==> drafts[i] != drafts[j]
    requires forall i :: 0 <= i < |drafts| ==> drafts[i].embedding == None
    modifies drafts
    ensures var chunks := ChunksOf(drafts);
            var texts, computed := Pending(chunks, known, |chunks|), Computed(chunks, known, provider, size);
            && (ok <==> |computed| <= |texts| && DistinctIds(chunks))
            && reused + |texts| == |drafts|
            && (ok ==> batches == |BatchTexts(texts, size)| && vectors == |computed|
                       && Builds(chunks, known, provider, size, dimensions, rows))
  {
    hide Key, Pending, Reuses, Computed, FinalVector, BatchTexts;
    ok, reused, batches, vectors := FillVectors(drafts, known, provider, size, dimensions);
    ok := ok && forall i, j :: 0 <= i < j < |drafts| ==> drafts[i].chunk.id != drafts[j].chunk.id;
    rows := ChunkRows(drafts);
    assert forall i :: 0 <= i < |drafts| ==> drafts[i].chunk == ChunksOf(drafts)[i];
    hide ChunksOf;
  }

  /** `chunk_models`: the rows the drafts become. */
  method ChunkRows(drafts: seq<Draft>) returns (rows: seq<Stored>)
    ensures |rows| == |drafts|
    ensures forall k :: 0 <= k < |rows| ==> rows[k] == Stored(drafts[k].chunk, drafts[k].embedding)
  {
    rows := seq(|drafts|, i requires (0 <= i < |drafts|) reads drafts => Stored(drafts[i].chunk, drafts[i].embedding));
  }

  /** The loop over the accepted files: counters, and a fresh draft for every chunk. */
  method ScanFiles(revision: string, accepted: seq<File>, previousFiles: map<string, File>, parse: Parser,
                   lim: Limits, digest: string -> string)
    returns (drafts: seq<Draft>, changed: nat, same: nat, parsed: nat, fallbacks: nat)
    requires lim.maxLines >= 1
    ensures changed + same == |accepted| == parsed + fallbacks
    ensures same == CountUnchanged(accepted, previousFiles) && fallbacks == CountFallbacks(accepted, parse)
    ensures ChunksOf(drafts) == AllChunks(revision, accepted, parse, lim, digest)
    ensures forall i :: 0 <= i < |drafts| ==> fresh(drafts[i]) && drafts[i].embedding == None
    ensures forall i, j :: 0 <= i < j < |drafts| ==> drafts[i] != drafts[j]
  {
    hide ChunksOf, Materialize;
    changed, same, parsed, fallbacks, drafts := 0, 0, 0, 0, [];
    for n := 0 to |accepted|
      invariant changed + same == n == parsed + fallbacks
      invariant same == CountUnchanged(accepted[..n], previousFiles)
                && fallbacks == CountFallbacks(accepted[..n], parse)
      invariant ChunksOf(drafts) == AllChunks(revision, accepted[..n], parse, lim, digest)
      invariant forall i :: 0 <= i < |drafts| ==> fresh(drafts[i]) && drafts[i].embedding == None
      invariant forall i, j :: 0 <= i < j < |drafts| ==> drafts[i] != drafts[j]
    {
      var file := accepted[n];
      assert accepted[..n + 1][..n] == accepted[..n] && accepted[..n + 1][n] == file;
      if file.path !in previousFiles {
        changed := changed + 1;
      } else if previousFiles[file.path].contentHash == file.contentHash {
        same := same + 1;
      } else {
        changed := changed + 1;
      }
      var tree := parse(file.path, file.Text());
      if tree.fallbackUsed {
        fallbacks := fallbacks + 1;
      } else {
        parsed := parsed + 1;
      }
      var chunks := MaterializeFile(revision, file, tree, lim, digest);
      drafts := AddDrafts(drafts, chunks);
    }
    assert accepted[..|accepted|] == accepted;
  }

  method AddDrafts(drafts: seq<Draft>, chunks: seq<Chunk>) returns (all: seq<Draft>)
    requires forall i, j :: 0 <= i < j < |drafts| ==> drafts[i] != drafts[j]
    ensures |all| == |drafts| + |chunks| && all[..|drafts|] == drafts
    ensures ChunksOf(all) == ChunksOf(drafts) + chunks
    ensures forall i :: |drafts| <= i < |all| ==> fresh(all[i]) && all[i].embedding == None
    ensures forall i, j :: 0 <= i < j < |all| ==> all[i] != all[j]
  {
    all := drafts;
    for k := 0 to |chunks|
      invariant |all| == |drafts| + k && all[..|drafts|] == drafts
      invariant forall i :: 0 <= i < k ==> all[|drafts| + i].chunk == chunks[i]
      invariant forall i :: |drafts| <= i < |all| ==> fresh(all[i]) && all[i].embedding == None
      invariant forall i, j :: 0 <= i < j < |all| ==> all[i] != all[j]
    {
      var draft := new Draft(chunks[k]);
      all := all + [draft];
    }
  }

  /** A file's chunks stay together in the build's list. */
  lemma {:induction false} FileChunksAt(revision: string, files: seq<File>, parse: Parser, lim: Limits,
                                        digest: string -> string, n: nat) returns (offset: nat)
    requires lim.maxLines >= 1 && n < |files|
    ensures var all, own := AllChunks(revision, files, parse, lim, digest),
                            Materialize(revision, files[n], parse(files[n].path, files[n].Text()), lim, digest);
            offset + |own| <= |all| && forall c :: 0 <= c < |own| ==> all[offset + c] == own[c]
    decreases |files|
  {
    hide Materialize;
    var front := files[..|files| - 1];
    if n == |front| {
      offset := |AllChunks(revision, front, parse, lim, digest)|;
    } else {
      offset := FileChunksAt(revision, front, parse, lim, digest, n);
    }
  }

  /** The paths of the unchanged files, out of the previous ones. */
  function UnchangedPaths(files: seq<File>, previous: map<string, File>): set<string> {
    set f | f in files && Unchanged(f, previous) :: f.path
  }

  /**
   The unchanged count is the number of previous paths still present with the same hash; so unchanged
   and deleted files together never exceed the previous ones.
   */
  lemma {:induction false} UnchangedCountsPaths(files: seq<File>, previous: map<string, File>)
    requires UniquePaths(files)
    ensures CountUnchanged(files, previous) == |UnchangedPaths(files, previous)|
    ensures UnchangedPaths(files, previous) <= previous.Keys * ByPath(files).Keys
  {
    UnchangedAreKnown(files, previous);
    hide Unchanged, UnchangedPaths, ByPath;
    if files == [] {
      assert UnchangedPaths(files, previous) == {} by { NoUnchangedPaths(previous); }
    } else {
      var front, last := files[..|files| - 1], files[|files| - 1];
      UnchangedCountsPaths(front, previous);
      UnchangedPathsStep(front, last, previous);
      assert files == front + [last];
    }
  }

  lemma {:induction false} NoUnchangedPaths(previous: map<string, File>)
    ensures UnchangedPaths([], previous) == {}
  {
  }

  lemma {:induction false} UnchangedPathsStep(front: seq<File>, last: File, previous: map<string, File>)
    requires forall i :: 0 <= i < |front| ==> front[i].path != last.path
    ensures UnchangedPaths(front + [last], previous)
         == UnchangedPaths(front, previous) + (if Unchanged(last, previous) then {last.path} else {})
    ensures last.path !in UnchangedPaths(front, previous)
  {
    hide Unchanged;
    assert forall f :: f in front + [last] <==> f in front || f == last;
  }

  lemma {:induction false} UnchangedAreKnown(files: seq<File>, previous: map<string, File>)
    ensures UnchangedPaths(files, previous) <= previous.Keys * ByPath(files).Keys
  {
  }
}
