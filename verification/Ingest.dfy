module Ingest {
  // Web ingestion: pages are chunked, chunks collected until a flush threshold, each flush embedded in
  // batches and upserted in batches. Loading, processing a page, each embedding request and each
  // upsert may raise, as arbitrary oracles say. The points written are followed end to end.

  import opened Batching
  import opened Text

  type Vector = seq<real>

  datatype Chunk = Chunk(chunkId: nat, docId: nat, content: string, position: nat)

  datatype Point = Point(chunk: Chunk, vector: Vector)

  datatype JobState = PENDING | RUNNING | COMPLETED | FAILED

  datatype IngestionJob = IngestionJob(jobId: nat, state: JobState, pagesProcessed: nat, chunksCreated: nat,
      errors: seq<string>)

  const QDRANT_DIM := 1024

  function Zip(chunks: seq<Chunk>, vectors: seq<Vector>): (points: seq<Point>)
    requires |chunks| == |vectors|
    ensures |points| == |chunks| && forall i :: 0 <= i < |chunks| ==> points[i] == Point(chunks[i], vectors[i])
  {
    seq(|chunks|, i requires 0 <= i < |chunks| => Point(chunks[i], vectors[i]))
  }

  // ---------- the embedding client ----------

  /** The embedding service: its answer to request number `call`, or nothing when the request failed. */
  type Service = (nat, seq<string>) -> Option<seq<Vector>>

  /** An answer the client accepts: one vector per text, each of the expected dimension. */
  predicate Accepted(reply: Option<seq<Vector>>, n: nat, dim: nat)
  {
    reply.Some? && |reply.value| == n && forall i :: 0 <= i < n ==> |reply.value[i]| == dim
  }

  /** The service gave `v` for the text `t`, at the same position of some request. */
  ghost predicate AnsweredAt(service: Service, t: string, v: Vector, call: nat, batch: seq<string>, i: nat)
  {
    i < |batch| && batch[i] == t && service(call, batch).Some? && i < |service(call, batch).value|
    && |service(call, batch).value| == |batch| && service(call, batch).value[i] == v
  }

  /** The requests of a run: those of the log `sent` from number `from` on. */
  datatype Requests = Requests(service: Service, sent: seq<seq<string>>, from: nat) {

    /** One of them was answered with `v` for the text `t`. */
    ghost predicate Answered(t: string, v: Vector)
    {
      exists call, i :: from <= call < |sent| && AnsweredAt(service, t, v, call, sent[call], i)
    }

    /** `more` has these requests and perhaps further ones. */
    ghost predicate GoOn(more: Requests)
    {
      service == more.service && sent <= more.sent && more.from <= from
    }

    lemma StaysAnswered(more: Requests, t: string, v: Vector)
      requires GoOn(more) && Answered(t, v)
      ensures more.Answered(t, v)
    {
      var call, i :| from <= call < |sent| && AnsweredAt(service, t, v, call, sent[call], i);
      assert more.sent[call] == sent[call];
    }
  }

  /** A service whose vector for a text depends on that text only. */
  ghost predicate Embeds(service: Service, embed: string -> Vector)
  {
    forall call, batch, i ::
      service(call, batch).Some? && |service(call, batch).value| == |batch| && 0 <= i < |batch|
      ==> service(call, batch).value[i] == embed(batch[i])
  }

  lemma AnsweredIsEmbedding(run: Requests, embed: string -> Vector, t: string, v: Vector)
    requires Embeds(run.service, embed) && run.Answered(t, v)
    ensures v == embed(t)
  {
    var call, i :| run.from <= call < |run.sent| && AnsweredAt(run.service, t, v, call, run.sent[call], i);
  }

  /** The last request failed or was answered with something the client refuses. */
  ghost predicate LastRefused(service: Service, sent: seq<seq<string>>, dim: nat)
  {
    sent != [] &&
    var call := |sent| - 1;
    !Accepted(service(call, sent[call]), |sent[call]|, dim)
  }

  /** `vs` are accepted answers for the first texts. */
  ghost predicate Embedded(run: Requests, dim: nat, texts: seq<string>, vs: seq<Vector>)
  {
    |vs| <= |texts| && forall i :: 0 <= i < |vs| ==> |vs[i]| == dim && run.Answered(texts[i], vs[i])
  }

  /** One more request, for the texts that follow, and its accepted answer. */
  lemma EmbeddedMore(run: Requests, dim: nat, texts: seq<string>, vs: seq<Vector>, end: nat)
    requires Embedded(run, dim, texts, vs) && |vs| <= end <= |texts| && run.from <= |run.sent|
    requires Accepted(run.service(|run.sent|, texts[|vs|..end]), end - |vs|, dim)
    ensures var batch := texts[|vs|..end];
      Embedded(run.(sent := run.sent + [batch]), dim, texts, vs + run.service(|run.sent|, batch).value)
  {
    var batch := texts[|vs|..end];
    var call, next := |run.sent|, run.(sent := run.sent + [batch]);
    var more := run.service(call, batch).value;
    forall j | 0 <= j < |vs| ensures next.Answered(texts[j], vs[j]) {
      run.StaysAnswered(next, texts[j], vs[j]);
    }
    forall j | 0 <= j < |more| ensures next.Answered(texts[|vs| + j], more[j]) {
      assert next.sent[call] == batch;
      assert AnsweredAt(run.service, texts[|vs| + j], more[j], call, next.sent[call], j);
    }
  }

  class Embedder {
    const batchSize: nat
    const expectedDim: nat
    const service: Service
    var calls: nat
    ghost var sent: seq<seq<string>>   // every request so far

    ghost predicate Valid()
      reads this
    {
      |sent| == calls && batchSize >= 1
    }

    constructor (batchSize: nat, expectedDim: nat, service: Service)
      requires batchSize >= 1 && expectedDim >= 1  // the program raises on anything else
      ensures this.batchSize == batchSize && this.expectedDim == expectedDim && this.service == service
      ensures Valid() && sent == []
    {
      this.batchSize, this.expectedDim, this.service, calls, sent := batchSize, expectedDim, service, 0, [];
    }

    /** One request, with its checks on the answer. */
    method EmbedBatch(batch: seq<string>) returns (r: Option<seq<Vector>>)
      requires Valid()
      modifies this
      ensures Valid() && calls == old(calls) + 1 && sent == old(sent) + [batch]
      ensures r == if Accepted(service(old(calls), batch), |batch|, expectedDim) then service(old(calls), batch)
        else None
    {
      r := service(calls, batch);
      calls, sent := calls + 1, sent + [batch];
      if r.None? || |r.value| != |batch| {
        return None;
      }
      for i := 0 to |r.value|
        invariant forall j :: 0 <= j < i ==> |r.value[j]| == expectedDim
      {
        if |r.value[i]| != expectedDim {
          return None;
        }
      }
    }

    /** All texts, in batches: one vector per text, each the service's answer for that text to a
        request of this call. The requests are the texts in order, up to one that is refused. */
    method EmbedTexts(texts: seq<string>) returns (r: Option<seq<Vector>>)
      requires Valid()
      modifies this
      ensures Valid() && old(sent) <= sent
      ensures var batches := sent[|old(sent)|..];
        && Flatten(batches) <= texts
        && (forall b :: 0 <= b < |batches| ==> 1 <= |batches[b]| <= batchSize)
        && (r.Some? ==> Flatten(batches) == texts && |batches| == Batches(|texts|, batchSize))
        && (r.None? ==> batches != [] && LastRefused(service, sent, expectedDim))
      ensures r.Some? ==>
        |r.value| == |texts| && Embedded(Requests(service, sent, |old(sent)|), expectedDim, texts, r.value)
    {
      var all: seq<Vector> := [];
      var i := 0;
      ghost var before, batches: seq<seq<string>> := sent, [];
      while i < |texts|
        invariant 0 <= i <= |texts| && |all| == i && Valid()
        invariant sent == before + batches && Flatten(batches) == texts[..i]
        invariant forall b :: 0 <= b < |batches| ==> 1 <= |batches[b]| <= batchSize
        invariant |batches| + Batches(|texts| - i, batchSize) == Batches(|texts|, batchSize)
        invariant Embedded(Requests(service, sent, |before|), expectedDim, texts, all)
      {
        var end := if i + batchSize <= |texts| then i + batchSize else |texts|;
        var batch := texts[i..end];
        ghost var run := Requests(service, sent, |before|);
        var reply := EmbedBatch(batch);
        FlattenConcat(batches, [batch]);
        OneBatch(batch, texts, i, end);
        batches := batches + [batch];
        assert sent == before + batches && sent[|before|..] == batches;
        if reply.None? {
          return None;
        }
        EmbeddedMore(run, expectedDim, texts, all, end);
        StepCount(|texts|, batchSize, i);
        all := all + reply.value;
        i := end;
      }
      assert texts[..i] == texts && sent[|before|..] == batches;
      r := Some(all);
    }
  }

  lemma OneBatch(batch: seq<string>, texts: seq<string>, i: nat, end: nat)
    requires i <= end <= |texts| && batch == texts[i..end]
    ensures texts[..i] + Flatten([batch]) == texts[..end] <= texts
  {
    assert Flatten([batch]) == batch + Flatten<string>([]);
  }

  // ---------- the vector store writer ----------

  /** Some vector is not of the dimension of the collection. */
  ghost predicate WrongDimension(embeddings: seq<Vector>)
  {
    exists i :: 0 <= i < |embeddings| && |embeddings[i]| != QDRANT_DIM
  }

  class QdrantWriter {
    const batchSize: nat
    const raises: nat -> bool       // which upsert requests raise
    const takesEffect: nat -> bool  // which of those were carried out all the same
    var calls: nat
    var points: seq<Point>      // everything upserted, in order

    constructor (batchSize: nat, raises: nat -> bool, takesEffect: nat -> bool)
      requires batchSize >= 1  // the program raises on anything else
      ensures this.batchSize == batchSize && this.raises == raises && this.takesEffect == takesEffect
      ensures points == [] && calls == 0
    {
      this.batchSize, this.raises, this.takesEffect := batchSize, raises, takesEffect;
      calls, points := 0, [];
    }

    /** One upsert request; one that raises stores all of its points or none. */
    method UpsertBatchInternal(chunks: seq<Chunk>, embeddings: seq<Vector>) returns (ok: bool)
      requires |chunks| == |embeddings|
      modifies this
      ensures calls == old(calls) + 1 && ok == !raises(old(calls))
      ensures points == if ok || takesEffect(old(calls)) then old(points) + Zip(chunks, embeddings) else old(points)
    {
      var batch: seq<Point> := [];
      for i := 0 to |chunks|
        invariant batch == Zip(chunks[..i], embeddings[..i])
      {
        batch := batch + [Point(chunks[i], embeddings[i])];
      }
      assert chunks[..|chunks|] == chunks && embeddings[..|chunks|] == embeddings;
      ok := !raises(calls);
      if ok || takesEffect(calls) {
        points := points + batch;
      }
      calls := calls + 1;
    }

    /** Stores the first `n` chunks paired with their embeddings; all of them when it returns. Lengths
        that differ or a wrong dimension raise before any request. */
    method UpsertBatch(chunks: seq<Chunk>, embeddings: seq<Vector>) returns (ok: bool, ghost n: nat)
      requires batchSize >= 1
      modifies this
      ensures n <= |chunks| && n <= |embeddings|
      ensures points == old(points) + Zip(chunks[..n], embeddings[..n])
      ensures ok ==> n == |chunks| && calls == old(calls) + Batches(|chunks|, batchSize)
      ensures !ok ==> || (|chunks| != |embeddings|)
                      || WrongDimension(embeddings)
                      || (calls > old(calls) && raises(calls - 1))
      ensures calls >= old(calls)
      ensures |chunks| > 0 && (|chunks| != |embeddings| || WrongDimension(embeddings)) ==>
                !ok && n == 0 && points == old(points) && calls == old(calls)
    {
      n := 0;
      ok := true;
      if |chunks| == 0 {
        return;
      }
      if |chunks| != |embeddings| {
        return false, 0;
      }
      for i := 0 to |embeddings|
        invariant points == old(points) && calls == old(calls) && !WrongDimension(embeddings[..i])
      {
        if |embeddings[i]| != QDRANT_DIM {
          return false, 0;
        }
      }
      ok, n := UpsertBatches(chunks, embeddings);
    }

    /** The batch loop: chunks `k * batchSize` up to the next multiple in request number `k`. */
    method UpsertBatches(chunks: seq<Chunk>, embeddings: seq<Vector>) returns (ok: bool, ghost n: nat)
      requires batchSize >= 1 && |chunks| == |embeddings|
      modifies this
      ensures n <= |chunks| && points == old(points) + Zip(chunks[..n], embeddings[..n])
      ensures ok ==> n == |chunks| && calls == old(calls) + Batches(|chunks|, batchSize)
      ensures !ok ==> calls > old(calls) && raises(calls - 1)
    {
      ok, n := true, 0;
      var numBatches := (|chunks| + batchSize - 1) / batchSize;
      BatchesIsCeiling(|chunks|, batchSize);
      CutAtEnd(|chunks|, batchSize);
      for k := 0 to numBatches
        invariant n == Cut(|chunks|, batchSize, k)
        invariant points == old(points) + Zip(chunks[..n], embeddings[..n])
        invariant calls == old(calls) + k
      {
        CutIsProduct(|chunks|, batchSize, k);
        var start := k * batchSize;
        var end := if start + batchSize <= |chunks| then start + batchSize else |chunks|;
        ghost var stored := !raises(calls) || takesEffect(calls);
        ok := UpsertBatchInternal(chunks[start..end], embeddings[start..end]);
        ZipMore(old(points), chunks, embeddings, start, end);
        n := if stored then end else start;
        if !ok {
          return;
        }
      }
    }
  }

  lemma ZipMore(before: seq<Point>, chunks: seq<Chunk>, vectors: seq<Vector>, i: nat, j: nat)
    requires |chunks| == |vectors| && i <= j <= |chunks|
    ensures before + Zip(chunks[..i], vectors[..i]) + Zip(chunks[i..j], vectors[i..j])
         == before + Zip(chunks[..j], vectors[..j])
  {
    ZipParts(chunks[..j], vectors[..j], i);
    assert chunks[..j][..i] == chunks[..i] && vectors[..j][..i] == vectors[..i];
    assert chunks[..j][i..] == chunks[i..j] && vectors[..j][i..] == vectors[i..j];
    hide Zip;
    Associate(before, Zip(chunks[..i], vectors[..i]), Zip(chunks[i..j], vectors[i..j]));
  }

  lemma ZipParts(chunks: seq<Chunk>, vectors: seq<Vector>, i: nat)
    requires |chunks| == |vectors| && i <= |chunks|
    ensures Zip(chunks[..i], vectors[..i]) + Zip(chunks[i..], vectors[i..]) == Zip(chunks, vectors)
  {
  }

  // ---------- the use case ----------

  /** A loaded page, by number. */
  type Page = nat

  /** What loading and processing give; nothing stands for an exception. */
  datatype Source = Source(load: Option<seq<Page>>, chunks: Page -> Option<seq<Chunk>>) {

    /** The chunks of all pages in order, up to the first page that cannot be processed. */
    function AllChunks(pages: seq<Page>): seq<Chunk>
    {
      if pages == [] || chunks(pages[0]).None? then [] else chunks(pages[0]).value + AllChunks(pages[1..])
    }

    /** How many chunks of the pages wait for a flush: those since a page brought them to the threshold. */
    function Waiting(pages: seq<Page>, threshold: int): nat
    {
      if pages == [] then 0
      else
        var k := |pages| - 1;
        var more := Waiting(pages[..k], threshold) + if chunks(pages[k]).Some? then |chunks(pages[k]).value| else 0;
        if more >= threshold then 0 else more
    }

    /** Fewer chunks than the threshold wait, none for a threshold of zero or less, and never more than there
        are. */
    lemma {:induction false} WaitingIsBelow(pages: seq<Page>, threshold: int)
      requires forall k :: 0 <= k < |pages| ==> chunks(pages[k]).Some?
      ensures Waiting(pages, threshold) < threshold || Waiting(pages, threshold) == 0
      ensures Waiting(pages, threshold) <= |AllChunks(pages)|
      decreases |pages|
    {
      if pages == [] {
      } else {
        var k := |pages| - 1;
        WaitingIsBelow(pages[..k], threshold);
        AllChunksNext(pages, k);
        assert pages[..k + 1] == pages;
      }
    }

    lemma {:induction false} AllChunksNext(pages: seq<Page>, k: nat)
      requires k < |pages| && chunks(pages[k]).Some?
      requires forall j :: 0 <= j < k ==> chunks(pages[j]).Some?
      ensures AllChunks(pages[..k + 1]) == AllChunks(pages[..k]) + chunks(pages[k]).value
      ensures AllChunks(pages[..k + 1]) <= AllChunks(pages)
    {
      if k == 0 {
        assert pages[..1] == [pages[0]] && [pages[0]][1..] == [];
      } else {
        AllChunksNext(pages[1..], k - 1);
        assert pages[..k + 1][1..] == pages[1..][..k] && pages[..k][1..] == pages[1..][..k - 1];
        Associate(chunks(pages[0]).value, AllChunks(pages[1..][..k - 1]), chunks(pages[k]).value);
      }
    }
  }

  /** `points` are the first chunks of `all`, each with the answer of the run for its own text. */
  ghost predicate PairedPrefix(points: seq<Point>, all: seq<Chunk>, run: Requests)
  {
    && |points| <= |all|
    && forall i :: 0 <= i < |points| ==> points[i].chunk == all[i] && run.Answered(all[i].content, points[i].vector)
  }

  function Texts(chunks: seq<Chunk>): (r: seq<string>)
    ensures |r| == |chunks| && forall i :: 0 <= i < |chunks| ==> r[i] == chunks[i].content
  {
    seq(|chunks|, i requires 0 <= i < |chunks| => chunks[i].content)
  }

  /** Each vector is an answer of the run for the text of its chunk. */
  ghost predicate AnsweredAll(run: Requests, chunks: seq<Chunk>, vectors: seq<Vector>)
  {
    |vectors| <= |chunks| && forall i :: 0 <= i < |vectors| ==> run.Answered(chunks[i].content, vectors[i])
  }

  lemma AnswersForChunks(run: Requests, dim: nat, chunks: seq<Chunk>, vectors: seq<Vector>, n: nat)
    requires Embedded(run, dim, Texts(chunks), vectors) && n <= |vectors|
    ensures AnsweredAll(run, chunks, vectors[..n])
  {
    hide Requests.Answered;
  }

  lemma StayAnswered(run: Requests, more: Requests, chunks: seq<Chunk>, vectors: seq<Vector>)
    requires run.GoOn(more) && AnsweredAll(run, chunks, vectors)
    ensures AnsweredAll(more, chunks, vectors)
  {
    forall i | 0 <= i < |vectors| ensures more.Answered(chunks[i].content, vectors[i]) {
      run.StaysAnswered(more, chunks[i].content, vectors[i]);
    }
  }

  class IngestWebUseCase {
    const source: Source
    const embedder: Embedder
    const qdrantWriter: QdrantWriter
    const flushThreshold: int

    constructor (source: Source, embedder: Embedder, qdrantWriter: QdrantWriter, flushThreshold: int)
      ensures this.source == source && this.embedder == embedder && this.qdrantWriter == qdrantWriter
      ensures this.flushThreshold == flushThreshold
    {
      this.source, this.embedder, this.qdrantWriter, this.flushThreshold :=
        source, embedder, qdrantWriter, flushThreshold;
    }

    /** A call that raised during a run: a request refused, an upsert failed, or vectors of a
        dimension the store does not take. */
    twostate predicate Broke()
      reads embedder, qdrantWriter
    {
      || (|embedder.sent| > |old(embedder.sent)|
          && LastRefused(embedder.service, embedder.sent, embedder.expectedDim))
      || (qdrantWriter.calls > old(qdrantWriter.calls) && qdrantWriter.raises(qdrantWriter.calls - 1))
      || embedder.expectedDim != QDRANT_DIM
    }

    /** The embedding requests made since request number `from`. */
    ghost function RequestsFrom(from: nat): Requests
      reads embedder
    {
      Requests(embedder.service, embedder.sent, from)
    }

    /** Embeds and stores a list of chunks; `n` of them are stored when it raises. */
    method FlushChunks(chunks: seq<Chunk>) returns (ok: bool, ghost n: nat, ghost vectors: seq<Vector>)
      requires embedder.Valid() && qdrantWriter.batchSize >= 1
      modifies embedder, qdrantWriter
      ensures embedder.Valid() && old(embedder.sent) <= embedder.sent && qdrantWriter.calls >= old(qdrantWriter.calls)
      ensures n <= |chunks| && |vectors| == n
      ensures AnsweredAll(RequestsFrom(|old(embedder.sent)|), chunks, vectors)
      ensures qdrantWriter.points == old(qdrantWriter.points) + Zip(chunks[..n], vectors)
      ensures ok ==> n == |chunks| && Flatten(embedder.sent[|old(embedder.sent)|..]) == Texts(chunks)
      ensures !ok ==> Broke()
    {
      hide Requests.Answered, Texts;
      var texts := Texts(chunks);
      var embeddings := embedder.EmbedTexts(texts);
      if embeddings.None? {
        ok, n, vectors := false, 0, [];
        assert Zip(chunks[..0], []) == [];
        return;
      }
      ok, n := qdrantWriter.UpsertBatch(chunks, embeddings.value);
      vectors := embeddings.value[..n];
      AnswersForChunks(RequestsFrom(|old(embedder.sent)|), embedder.expectedDim, chunks, embeddings.value, n);
    }

    /** The page that comes next cannot be processed. Everything flushed before is stored: all chunks of the
        pages before it but those still waiting, which are fewer than the threshold. */
    ghost predicate PageFailed(pages: seq<Page>, job: IngestionJob, stored: nat)
    {
      var k := job.pagesProcessed;
      && k < |pages| && source.chunks(pages[k]).None?
      && stored == job.chunksCreated == |source.AllChunks(pages[..k])| - source.Waiting(pages[..k], flushThreshold)
    }

    /** The whole run. Completed: every chunk of every page stored once, in order, with the answer
        for its own text to a request of this run. Failed: what is stored is a prefix of that, and
        the job does not count more chunks than are stored. */
    method Execute(jobId: nat) returns (job: IngestionJob)
      requires embedder.Valid() && qdrantWriter.batchSize >= 1
      modifies embedder, qdrantWriter
      ensures embedder.Valid() && old(embedder.sent) <= embedder.sent
      ensures job.jobId == jobId && (job.state == COMPLETED || job.state == FAILED)
      ensures old(qdrantWriter.points) <= qdrantWriter.points
      ensures var stored := qdrantWriter.points[|old(qdrantWriter.points)|..];
        match source.load
        case None => job.state == FAILED && stored == [] && job.chunksCreated == 0 && job.pagesProcessed == 0
        case Some(pages) =>
          && PairedPrefix(stored, source.AllChunks(pages), RequestsFrom(|old(embedder.sent)|))
          && job.chunksCreated <= |stored| && job.pagesProcessed <= |pages|
          && (job.state == COMPLETED ==>
                && (forall k :: 0 <= k < |pages| ==> source.chunks(pages[k]).Some?)
                && job.chunksCreated == |stored| == |source.AllChunks(pages)|
                && Flatten(embedder.sent[|old(embedder.sent)|..]) == Texts(source.AllChunks(pages))
                && job.pagesProcessed == |pages| && job.errors == [])
          && (forall k :: 0 <= k < job.pagesProcessed ==> source.chunks(pages[k]).Some?)
          && (job.state == FAILED ==> |job.errors| == 1 && (Broke() || PageFailed(pages, job, |stored|)))
    {
      hide Requests.Answered, LastRefused, AnsweredAll, PairedPrefix, Flatten, Source.Waiting, Source.AllChunks, Texts;
      job := IngestionJob(jobId, PENDING, 0, 0, []);
      job := job.(state := RUNNING);
      if source.load.None? {
        return Failed(job);
      }
      var docs := source.load.value;
      ghost var points0, from := qdrantWriter.points, |embedder.sent|;
      ghost var flushed: seq<Chunk> := [];
      var allChunks: seq<Chunk> := [];
      NothingStored(points0, flushed, RequestsFrom(from));
      NothingRequested(embedder.sent, flushed);
      NothingProcessed(source, docs, flushThreshold);
      for k := 0 to |docs|
        invariant job == IngestionJob(jobId, RUNNING, k, |flushed|, [])
        invariant forall j :: 0 <= j < k ==> source.chunks(docs[j]).Some?
        invariant flushed + allChunks == source.AllChunks(docs[..k]) && flushed + allChunks <= source.AllChunks(docs)
        invariant points0 <= qdrantWriter.points && |qdrantWriter.points| == |points0| + |flushed|
        invariant PairedPrefix(qdrantWriter.points[|points0|..], flushed, RequestsFrom(from))
        invariant embedder.Valid() && old(embedder.sent) <= embedder.sent
        invariant Flatten(embedder.sent[from..]) == Texts(flushed)
        invariant |allChunks| == source.Waiting(docs[..k], flushThreshold)
        invariant qdrantWriter.calls >= old(qdrantWriter.calls)
      {
        PairedWithin(qdrantWriter.points[|points0|..], flushed, source.AllChunks(docs), RequestsFrom(from));
        var chunks := source.chunks(docs[k]);
        if chunks.None? {
          return Failed(job);
        }
        source.AllChunksNext(docs, k);
        WaitingNext(source, docs, k, flushThreshold);
        Associate(flushed, allChunks, chunks.value);
        allChunks := allChunks + chunks.value;
        job := job.(pagesProcessed := job.pagesProcessed + 1);
        if |allChunks| >= flushThreshold {
          ghost var n;
          var ok;
          ok, n := FlushPending(allChunks, points0, from, flushed);
          if !ok {
            PairedWithin(qdrantWriter.points[|points0|..], flushed + allChunks, source.AllChunks(docs),
                RequestsFrom(from));
            return Failed(job);
          }
          TextsConcat(flushed, allChunks);
          flushed := flushed + allChunks;
          job := job.(chunksCreated := job.chunksCreated + |allChunks|);
          allChunks := [];
        }
      }
      assert docs[..|docs|] == docs;
      PairedWithin(qdrantWriter.points[|points0|..], flushed, source.AllChunks(docs), RequestsFrom(from));
      if allChunks != [] {
        ghost var n;
        var ok;
        ok, n := FlushPending(allChunks, points0, from, flushed);
        if !ok {
          return Failed(job);
        }
        TextsConcat(flushed, allChunks);
        job := job.(chunksCreated := job.chunksCreated + |allChunks|);
      }
      assert allChunks == [] ==> flushed + allChunks == flushed;
      job := job.(state := COMPLETED);
    }

    /** A flush within a run that began at `points0` and request `from` and has stored `flushed`. */
    method FlushPending(chunks: seq<Chunk>, ghost points0: seq<Point>, ghost from: nat, ghost flushed: seq<Chunk>)
      returns (ok: bool, ghost n: nat)
      requires embedder.Valid() && qdrantWriter.batchSize >= 1 && from <= |embedder.sent|
      requires points0 <= qdrantWriter.points && |qdrantWriter.points| == |points0| + |flushed|
      requires PairedPrefix(qdrantWriter.points[|points0|..], flushed, RequestsFrom(from))
      modifies embedder, qdrantWriter
      ensures embedder.Valid() && old(embedder.sent) <= embedder.sent && qdrantWriter.calls >= old(qdrantWriter.calls)
      ensures points0 <= qdrantWriter.points && n <= |chunks|
      ensures |qdrantWriter.points| == |points0| + |flushed| + n && (ok ==> n == |chunks|)
      ensures PairedPrefix(qdrantWriter.points[|points0|..], flushed + chunks, RequestsFrom(from))
      ensures ok ==> Flatten(embedder.sent[from..]) == Flatten(old(embedder.sent)[from..]) + Texts(chunks)
      ensures !ok ==> Broke()
    {
      hide Requests.Answered, LastRefused, AnsweredAll, PairedPrefix, Flatten;
      ghost var before, points := RequestsFrom(from), qdrantWriter.points;
      ghost var more;
      ok, n, more := FlushChunks(chunks);
      RequestsMore(before.sent, embedder.sent, from);
      StoredMore(before, |before.sent|, RequestsFrom(from), points0, points, flushed, chunks, n, more);
    }
  }

  lemma NothingProcessed(source: Source, pages: seq<Page>, threshold: int)
    ensures source.AllChunks(pages[..0]) == [] && source.Waiting(pages[..0], threshold) == 0
  {
  }

  lemma WaitingNext(source: Source, pages: seq<Page>, k: nat, threshold: int)
    requires k < |pages| && source.chunks(pages[k]).Some?
    ensures var more := source.Waiting(pages[..k], threshold) + |source.chunks(pages[k]).value|;
      source.Waiting(pages[..k + 1], threshold) == if more >= threshold then 0 else more
  {
    assert pages[..k + 1][..k] == pages[..k];
  }

  function Failed(job: IngestionJob): IngestionJob
  {
    job.(state := FAILED, errors := job.errors + ["raised"])
  }

  lemma RequestsMore(sent: seq<seq<string>>, more: seq<seq<string>>, from: nat)
    requires from <= |sent| && sent <= more
    ensures Flatten(more[from..]) == Flatten(sent[from..]) + Flatten(more[|sent|..])
  {
    assert more[from..] == sent[from..] + more[|sent|..];
    FlattenConcat(sent[from..], more[|sent|..]);
  }

  lemma NothingRequested(sent: seq<seq<string>>, flushed: seq<Chunk>)
    requires flushed == []
    ensures Flatten(sent[|sent|..]) == Texts(flushed)
  {
  }

  lemma TextsConcat(a: seq<Chunk>, b: seq<Chunk>)
    ensures Texts(a + b) == Texts(a) + Texts(b)
  {
  }

  /** Storing the first `n` of the pending chunks after the ones already flushed. */
  lemma StoredMore(before: Requests, start: nat, run: Requests, points0: seq<Point>, points: seq<Point>,
                   flushed: seq<Chunk>, chunks: seq<Chunk>, n: nat, more: seq<Vector>)
    requires before.GoOn(run) && run.from <= start && n <= |chunks| && |more| == n
    requires points0 <= points && |points| == |points0| + |flushed|
    requires PairedPrefix(points[|points0|..], flushed, before)
    requires AnsweredAll(run.(from := start), chunks, more)
    ensures var after := points + Zip(chunks[..n], more);
      points0 <= after && PairedPrefix(after[|points0|..], flushed + chunks, run)
  {
    var stored, added := points[|points0|..], Zip(chunks[..n], more);
    assert (points + added)[|points0|..] == stored + added;
    forall i | 0 <= i < |stored| ensures run.Answered(flushed[i].content, stored[i].vector) {
      before.StaysAnswered(run, flushed[i].content, stored[i].vector);
    }
    StayAnswered(run.(from := start), run, chunks, more);
    PairedMore(stored, flushed, added, chunks, run);
  }

  lemma PairedMore(stored: seq<Point>, flushed: seq<Chunk>, added: seq<Point>, chunks: seq<Chunk>, run: Requests)
    requires PairedPrefix(stored, flushed, run) && |stored| == |flushed| && PairedPrefix(added, chunks, run)
    ensures PairedPrefix(stored + added, flushed + chunks, run)
  {
    hide Requests.Answered;
  }

  lemma PairedWithin(stored: seq<Point>, some: seq<Chunk>, all: seq<Chunk>, run: Requests)
    requires PairedPrefix(stored, some, run) && some <= all
    ensures PairedPrefix(stored, all, run)
  {
    hide Requests.Answered;
  }

  lemma NothingStored(points: seq<Point>, all: seq<Chunk>, run: Requests)
    ensures PairedPrefix(points[|points|..], all, run)
  {
  }

  /** With a service that embeds each text in one way, the points a run stores are determined by
      how many there are: all of them for a completed run, a prefix for a failed one, whatever the
      flush threshold and the two batch sizes were. */
  lemma StoredPointsAreDetermined(points: seq<Point>, all: seq<Chunk>, run: Requests, embed: string -> Vector)
    requires PairedPrefix(points, all, run) && Embeds(run.service, embed)
    ensures points == seq(|points|, i requires 0 <= i < |points| => Point(all[i], embed(all[i].content)))
  {
    forall i | 0 <= i < |points| ensures points[i] == Point(all[i], embed(all[i].content)) {
      AnsweredIsEmbedding(run, embed, all[i].content, points[i].vector);
    }
  }
}
