module Extraction {
  // Batch extraction of pending documents, the adapter that runs the same use case for one
  // document, and the worker that feeds it from the stream and the queue.
  //
  // The pure functions say what one attempt and a list of attempts do to the document table; the
  // classes are the program's own loops over mutable stores, proved to compute them.

  import opened Text
  import opened Models

  /** One row of rag.documents, with the columns the pipeline reads or writes. */
  datatype Document = Document(docId: DocId, contentHash: string, ingestedAt: int, state: ExtractionState,
                               version: Option<string>, metadata: Option<string>)

  type Table = map<DocId, Document>

  /** How a call to the database or the broker ends. */
  datatype Fault = Works | Raises | RaisesAfterEffect

  /** What happens when a document is tried: the content query fails, the pipeline raises, the task
      is cancelled, or a job comes back and is saved or not. */
  datatype Attempt = LoadFails | ProcessFails | Cancelled | Finishes(result: ExtractionState, save: Fault)

  type Attempts = DocId -> Attempt

  datatype Verdict = Succeeded | Failed | Stopped

  // ---------- one attempt ----------

  /** The row update of `update_document`: state, version and metadata of the caller's copy. */
  function Updated(row: Document, copy: Document): Document
  {
    row.(state := copy.state, version := copy.version, metadata := copy.metadata)
  }

  /** The table after trying `doc`, the copy read when the pending rows were queried. */
  function Tried(t: Table, contents: map<DocId, string>, doc: Document, a: Attempt): Table
  {
    if doc.docId in contents && a.Finishes? && a.save != Raises && doc.docId in t then
      t[doc.docId := Updated(t[doc.docId], doc.(state := a.result))]
    else t
  }

  function VerdictOf(t: Table, contents: map<DocId, string>, doc: Document, a: Attempt): Verdict
  {
    if doc.docId !in contents || a.LoadFails? then Failed
    else if a.Cancelled? then Stopped
    else if a.Finishes? && a.save == Works && doc.docId in t && a.result == COMPLETED then Succeeded
    else Failed
  }

  datatype Stats = Stats(processed: nat, succeeded: nat, failed: nat)

  function Counted(stats: Stats, v: Verdict): Stats
  {
    Stats(stats.processed + 1,
          stats.succeeded + (if v == Succeeded then 1 else 0),
          stats.failed + (if v == Failed then 1 else 0))
  }

  datatype BatchResult = BatchResult(table: Table, stats: Stats, stopped: bool)

  /** Trying documents one after the other; a cancellation ends the batch on the spot. */
  function TryAll(t: Table, contents: map<DocId, string>, docs: seq<Document>, attempts: Attempts,
      stats: Stats): BatchResult
    decreases docs
  {
    if docs == [] then BatchResult(t, stats, false)
    else
      var a := attempts(docs[0].docId);
      var t' := Tried(t, contents, docs[0], a);
      var v := VerdictOf(t, contents, docs[0], a);
      if v == Stopped then BatchResult(t, stats, true)
      else TryAll(t', contents, docs[1..], attempts, Counted(stats, v))
  }

  lemma TryStep(t: Table, contents: map<DocId, string>, docs: seq<Document>, i: nat, attempts: Attempts, stats: Stats)
    requires i < |docs|
    ensures var a := attempts(docs[i].docId);
      var v := VerdictOf(t, contents, docs[i], a);
      TryAll(t, contents, docs[i..], attempts, stats)
      == if v == Stopped then BatchResult(t, stats, true)
         else TryAll(Tried(t, contents, docs[i], a), contents, docs[i + 1..], attempts, Counted(stats, v))
  {
    assert docs[i..][1..] == docs[i + 1..] && docs[i..][0] == docs[i];
  }

  // ---------- the single-document adapter ----------

  predicate IsPending(t: Table, d: DocId)
  {
    d in t && t[d].state == PENDING
  }

  /** What the adapter does for one id: nothing unless its row is pending. */
  function TrySingle(t: Table, contents: map<DocId, string>, d: DocId, attempts: Attempts): BatchResult
  {
    if IsPending(t, d) then TryAll(t, contents, [t[d]], attempts, Stats(0, 0, 0))
    else BatchResult(t, Stats(0, 0, 0), false)
  }

  /** Feeding ids to the adapter one by one, until one is cancelled. */
  function Feed(t: Table, contents: map<DocId, string>, ids: seq<DocId>, attempts: Attempts): (Table, bool)
    decreases ids
  {
    if ids == [] then (t, false)
    else
      var r := TrySingle(t, contents, ids[0], attempts);
      if r.stopped then (r.table, true) else Feed(r.table, contents, ids[1..], attempts)
  }

  function Ids(docs: seq<Document>): (r: seq<DocId>)
    ensures |r| == |docs| && forall i :: 0 <= i < |docs| ==> r[i] == docs[i].docId
  {
    if docs == [] then [] else [docs[0].docId] + Ids(docs[1..])
  }

  /** A list the pending query may return: current pending rows, each once. */
  ghost predicate PendingRows(t: Table, docs: seq<Document>)
  {
    && (forall i :: 0 <= i < |docs| ==> IsPending(t, docs[i].docId) && docs[i] == t[docs[i].docId])
    && (forall i, j :: 0 <= i < j < |docs| ==> docs[i].docId != docs[j].docId)
  }

  /** An attempt changes no row but its own, and never that row's identity. */
  lemma AttemptTouchesOwnRow(t: Table, contents: map<DocId, string>, doc: Document, a: Attempt, d: DocId)
    ensures Tried(t, contents, doc, a).Keys == t.Keys
    ensures d in t && d != doc.docId ==> Tried(t, contents, doc, a)[d] == t[d]
    ensures d in t ==> Tried(t, contents, doc, a)[d].contentHash == t[d].contentHash
                       && Tried(t, contents, doc, a)[d].ingestedAt == t[d].ingestedAt
  {
  }

  lemma PendingRowsRest(t: Table, contents: map<DocId, string>, docs: seq<Document>, a: Attempt)
    requires PendingRows(t, docs) && docs != []
    ensures PendingRows(Tried(t, contents, docs[0], a), docs[1..])
  {
    var t' := Tried(t, contents, docs[0], a);
    forall i | 0 <= i < |docs[1..]|
      ensures IsPending(t', docs[1..][i].docId) && docs[1..][i] == t'[docs[1..][i].docId]
    {
      assert docs[1..][i] == docs[i + 1];
      assert docs[0].docId != docs[i + 1].docId;
    }
  }

  lemma SingleIsOneTry(t: Table, contents: map<DocId, string>, d: DocId, attempts: Attempts)
    requires IsPending(t, d)
    ensures var r := TrySingle(t, contents, d, attempts);
      var v := VerdictOf(t, contents, t[d], attempts(t[d].docId));
      && r.stopped == (v == Stopped)
      && (!r.stopped ==> r.table == Tried(t, contents, t[d], attempts(t[d].docId)))
      && (r.stopped ==> r.table == t)
  {
    var docs, a := [t[d]], attempts(t[d].docId);
    assert docs[0] == t[d] && docs[1..] == [];
    assert TryAll(Tried(t, contents, t[d], a), contents, [], attempts, Stats(1, 1, 0)).table ==
        Tried(t, contents, t[d], a);
    assert TryAll(Tried(t, contents, t[d], a), contents, [], attempts, Stats(1, 0, 1)).table ==
        Tried(t, contents, t[d], a);
  }

  /** A batch over the pending documents leaves the same table as feeding the single-document
      adapter each of their ids in that order, and stops if and only if the feeding stops. */
  lemma {:induction false} BatchEqualsSingles(t: Table, contents: map<DocId, string>, docs: seq<Document>,
      attempts: Attempts, stats: Stats)
    requires PendingRows(t, docs)
    ensures var b := TryAll(t, contents, docs, attempts, stats);
            (b.table, b.stopped) == Feed(t, contents, Ids(docs), attempts)
    decreases docs
  {
    if docs != [] {
      var doc := docs[0];
      var a := attempts(doc.docId);
      SingleIsOneTry(t, contents, doc.docId, attempts);
      assert Ids(docs)[1..] == Ids(docs[1..]);
      PendingRowsRest(t, contents, docs, a);
      var v := VerdictOf(t, contents, doc, a);
      if v != Stopped {
        BatchEqualsSingles(Tried(t, contents, doc, a), contents, docs[1..], attempts, Counted(stats, v));
      }
    }
  }

  // ---------- what a batch leaves behind ----------

  /** How many of the listed documents the table stores as COMPLETED. */
  function CompletedAmong(t: Table, docs: seq<Document>): nat
  {
    if docs == [] then 0
    else (if docs[0].docId in t && t[docs[0].docId].state == COMPLETED then 1 else 0) + CompletedAmong(t, docs[1..])
  }

  lemma {:induction false} BatchLeavesOtherRows(t: Table, contents: map<DocId, string>, docs: seq<Document>,
      attempts: Attempts, stats: Stats, d: DocId)
    requires forall i :: 0 <= i < |docs| ==> docs[i].docId != d
    ensures var b := TryAll(t, contents, docs, attempts, stats);
            b.table.Keys == t.Keys && (d in t ==> b.table[d] == t[d])
    decreases docs
  {
    if docs != [] {
      var a := attempts(docs[0].docId);
      AttemptTouchesOwnRow(t, contents, docs[0], a, d);
      var t' := Tried(t, contents, docs[0], a);
      assert forall i :: 0 <= i < |docs[1..]| ==> docs[1..][i] == docs[i + 1];
      var v := VerdictOf(t, contents, docs[0], a);
      if v != Stopped {
        BatchLeavesOtherRows(t', contents, docs[1..], attempts, Counted(stats, v), d);
      }
    }
  }

  /** The attempt raised although it had stored the document as COMPLETED. */
  predicate StoredUnnoticed(t: Table, contents: map<DocId, string>, doc: Document, a: Attempt)
  {
    doc.docId in contents && doc.docId in t && a == Finishes(COMPLETED, RaisesAfterEffect)
  }

  /** How many attempts of a batch over pending documents, up to a cancellation, did that. */
  function Unnoticed(t: Table, contents: map<DocId, string>, docs: seq<Document>, attempts: Attempts): nat
    decreases docs
  {
    if docs == [] || VerdictOf(t, contents, docs[0], attempts(docs[0].docId)) == Stopped then 0
    else
      var a := attempts(docs[0].docId);
      (if StoredUnnoticed(t, contents, docs[0], a) then 1 else 0)
      + Unnoticed(Tried(t, contents, docs[0], a), contents, docs[1..], attempts)
  }

  /** The statistics of a batch are what is in the table: every tried document is counted once as
      succeeded or failed, and the succeeded ones are those now stored as COMPLETED but for those
      whose save raised after it had taken effect. */
  lemma {:induction false} StatsMatchTable(t: Table, contents: map<DocId, string>, docs: seq<Document>,
      attempts: Attempts, stats: Stats)
    requires PendingRows(t, docs)
    requires stats.processed == stats.succeeded + stats.failed
    ensures var b := TryAll(t, contents, docs, attempts, stats);
      && b.stats.processed == b.stats.succeeded + b.stats.failed
      && (!b.stopped ==> b.stats.processed == stats.processed + |docs|)
      && b.stats.succeeded + Unnoticed(t, contents, docs, attempts)
         == stats.succeeded + CompletedAmong(b.table, docs)
    decreases docs
  {
    if docs != [] {
      var doc, rest := docs[0], docs[1..];
      var a := attempts(doc.docId);
      var t' := Tried(t, contents, doc, a);
      PendingRowsRest(t, contents, docs, a);
      assert forall i :: 0 <= i < |rest| ==> rest[i] == docs[i + 1];
      var v := VerdictOf(t, contents, doc, a);
      if v == Stopped {
        NoneCompleted(t, docs);
      } else {
        StatsMatchTable(t', contents, rest, attempts, Counted(stats, v));
        BatchLeavesOtherRows(t', contents, rest, attempts, Counted(stats, v), doc.docId);
      }
    }
  }

  /** Up to the first document that is cancelled, none has its state COMPLETED stored by a save that
      then raises. */
  predicate AllNoticed(contents: map<DocId, string>, docs: seq<Document>, attempts: Attempts)
  {
    docs == []
    || (docs[0].docId !in contents && AllNoticed(contents, docs[1..], attempts))
    || (docs[0].docId in contents &&
        match attempts(docs[0].docId)
        case Cancelled => true
        case Finishes(COMPLETED, RaisesAfterEffect) => false
        case _ => AllNoticed(contents, docs[1..], attempts))
  }

  lemma {:induction false} NoneUnnoticedIff(t: Table, contents: map<DocId, string>, docs: seq<Document>,
      attempts: Attempts)
    requires PendingRows(t, docs)
    ensures Unnoticed(t, contents, docs, attempts) == 0 <==> AllNoticed(contents, docs, attempts)
    decreases docs
  {
    if docs != [] {
      PendingRowsRest(t, contents, docs, attempts(docs[0].docId));
      NoneUnnoticedIff(Tried(t, contents, docs[0], attempts(docs[0].docId)), contents, docs[1..], attempts);
    }
  }

  /** Exact condition: a batch counts as succeeded just as many documents as it leaves COMPLETED if and
      only if no document that is tried has a save of COMPLETED that raises after taking effect. */
  lemma SucceededIsCompletedIff(t: Table, contents: map<DocId, string>, docs: seq<Document>, attempts: Attempts)
    requires PendingRows(t, docs)
    ensures var b := TryAll(t, contents, docs, attempts, Stats(0, 0, 0));
      b.stats.succeeded == CompletedAmong(b.table, docs) <==> AllNoticed(contents, docs, attempts)
  {
    StatsMatchTable(t, contents, docs, attempts, Stats(0, 0, 0));
    NoneUnnoticedIff(t, contents, docs, attempts);
  }

  lemma {:induction false} NoneCompleted(t: Table, docs: seq<Document>)
    requires PendingRows(t, docs)
    ensures CompletedAmong(t, docs) == 0
  {
    if docs != [] {
      assert forall i :: 0 <= i < |docs[1..]| ==> docs[1..][i] == docs[i + 1];
      NoneCompleted(t, docs[1..]);
    }
  }

  /** Which order the pending documents are tried in does not matter: a document's row afterwards
      depends on its own attempt only. */
  lemma {:induction false} RowDependsOnOwnAttempt(t: Table, contents: map<DocId, string>, docs: seq<Document>,
      attempts: Attempts, stats: Stats, k: nat)
    requires PendingRows(t, docs) && k < |docs|
    requires !TryAll(t, contents, docs, attempts, stats).stopped
    ensures var d := docs[k].docId;
            var b := TryAll(t, contents, docs, attempts, stats);
            d in b.table && b.table[d] == Tried(t, contents, docs[k], attempts(d))[d]
    decreases docs
  {
    var doc, rest := docs[0], docs[1..];
    var a := attempts(doc.docId);
    var t' := Tried(t, contents, doc, a);
    var s := Counted(stats, VerdictOf(t, contents, doc, a));
    assert TryAll(t, contents, docs, attempts, stats) == TryAll(t', contents, rest, attempts, s);
    assert forall i :: 0 <= i < |rest| ==> rest[i] == docs[i + 1];
    if k == 0 {
      BatchLeavesOtherRows(t', contents, rest, attempts, s, doc.docId);
    } else {
      PendingRowsRest(t, contents, docs, a);
      RowDependsOnOwnAttempt(t', contents, rest, attempts, s, k - 1);
      assert docs[0].docId != docs[k].docId;
    }
  }

  /** The state a batch leaves a pending document in: the result of its attempt when it has content, the
      attempt finishes and its save takes effect, and PENDING otherwise. */
  function StateLeft(contents: map<DocId, string>, d: DocId, a: Attempt): ExtractionState
  {
    if d !in contents then PENDING
    else
      match a
      case Finishes(result, Works) => result
      case Finishes(result, RaisesAfterEffect) => result
      case _ => PENDING
  }

  /** Position of the first document that has content and is cancelled, or the number of documents. */
  function FirstCancelled(contents: map<DocId, string>, docs: seq<Document>, attempts: Attempts): (n: nat)
    ensures n <= |docs|
  {
    if docs == [] || (docs[0].docId in contents && attempts(docs[0].docId).Cancelled?) then 0
    else 1 + FirstCancelled(contents, docs[1..], attempts)
  }

  /** How many of the documents have content and an attempt that finishes COMPLETED and is saved. */
  function Successes(contents: map<DocId, string>, docs: seq<Document>, attempts: Attempts): (n: nat)
    ensures n <= |docs|
  {
    if docs == [] then 0
    else
      (if docs[0].docId in contents && attempts(docs[0].docId) == Finishes(COMPLETED, Works) then 1 else 0)
      + Successes(contents, docs[1..], attempts)
  }

  /** The documents before the first that is cancelled are left as their own attempts say, it and those
      behind it as they were; nothing but the state of a row changes. */
  lemma {:induction false} BatchLeavesStates(t: Table, contents: map<DocId, string>, docs: seq<Document>,
      attempts: Attempts, stats: Stats, k: nat)
    requires PendingRows(t, docs) && k < |docs|
    ensures var d := docs[k].docId;
      var u := TryAll(t, contents, docs, attempts, stats).table;
      var tried := k < FirstCancelled(contents, docs, attempts);
      d in u && u[d] == t[d].(state := if tried then StateLeft(contents, d, attempts(d)) else PENDING)
    decreases docs
  {
    var doc, rest := docs[0], docs[1..];
    var a := attempts(doc.docId);
    var t', v := Tried(t, contents, doc, a), VerdictOf(t, contents, doc, a);
    forall i | 0 < i < |docs| ensures docs[i] == rest[i - 1] && docs[i].docId != doc.docId {}
    if v != Stopped {
      if k == 0 {
        BatchLeavesOtherRows(t', contents, rest, attempts, Counted(stats, v), doc.docId);
      } else {
        PendingRowsRest(t, contents, docs, a);
        BatchLeavesStates(t', contents, rest, attempts, Counted(stats, v), k - 1);
        AttemptTouchesOwnRow(t, contents, doc, a, docs[k].docId);
      }
    }
  }

  /** A batch counts the documents before the first that is cancelled, as succeeded or failed by what their
      attempts do, and is stopped exactly when there is one. */
  lemma {:induction false} BatchCounts(t: Table, contents: map<DocId, string>, docs: seq<Document>,
      attempts: Attempts, stats: Stats)
    requires PendingRows(t, docs)
    ensures var b := TryAll(t, contents, docs, attempts, stats);
      var n := FirstCancelled(contents, docs, attempts);
      var ok := Successes(contents, docs[..n], attempts);
      && (b.stopped <==> n < |docs|)
      && b.stats == Stats(stats.processed + n, stats.succeeded + ok, stats.failed + (n - ok))
    decreases docs
  {
    if docs != [] {
      var a := attempts(docs[0].docId);
      var v := VerdictOf(t, contents, docs[0], a);
      PendingRowsRest(t, contents, docs, a);
      if v != Stopped {
        var n := FirstCancelled(contents, docs[1..], attempts);
        BatchCounts(Tried(t, contents, docs[0], a), contents, docs[1..], attempts, Counted(stats, v));
        assert docs[..n + 1][0] == docs[0] && docs[..n + 1][1..] == docs[1..][..n];
      }
    }
  }

  /** What the adapter leaves for one id: a pending row with content is left as its attempt says, and the
      run is stopped when that is cancelled; any other row is left alone. */
  lemma SingleLeaves(t: Table, contents: map<DocId, string>, d: DocId, attempts: Attempts)
    requires IsPending(t, d) ==> t[d].docId == d
    ensures var r := TrySingle(t, contents, d, attempts);
      && (r.stopped <==> IsPending(t, d) && d in contents && attempts(d).Cancelled?)
      && r.table == if IsPending(t, d) then t[d := t[d].(state := StateLeft(contents, d, attempts(d)))] else t
  {
    if IsPending(t, d) {
      SingleIsOneTry(t, contents, d, attempts);
      var u := t[d := t[d].(state := StateLeft(contents, d, attempts(d)))];
      assert Tried(t, contents, t[d], attempts(d)) == u;
      assert t[d := t[d]] == t;
    }
  }

  // ---------- the document store ----------

  datatype StoreError = DuplicateKey | NotFound

  ghost predicate SortedByIngestion(docs: seq<Document>)
  {
    forall i, j :: 0 <= i < j < |docs| ==> docs[i].ingestedAt <= docs[j].ingestedAt
  }

  /** `docs` are the earliest pending rows in order, `left` the ids of the others. */
  ghost predicate QueriedSoFar(t: Table, docs: seq<Document>, left: set<DocId>)
  {
    && PendingRows(t, docs) && SortedByIngestion(docs)
    && (forall d :: d in left ==> IsPending(t, d))
    && (forall d :: IsPending(t, d) ==> d in left || d in Ids(docs))
    && (forall i, d :: 0 <= i < |docs| && d in left ==> docs[i].docId != d && docs[i].ingestedAt <= t[d].ingestedAt)
  }

  lemma QueryNext(t: Table, docs: seq<Document>, left: set<DocId>, d: DocId)
    requires QueriedSoFar(t, docs, left) && d in left && t[d].docId == d
    requires forall e :: e in left ==> t[d].ingestedAt <= t[e].ingestedAt
    ensures QueriedSoFar(t, docs + [t[d]], left - {d})
  {
    var more := docs + [t[d]];
    assert Ids(more) == Ids(docs) + [d];
    forall i, j | 0 <= i < j < |more|
      ensures more[i].docId != more[j].docId && more[i].ingestedAt <= more[j].ingestedAt
    {
      assert more[i] == docs[i];
      if j < |docs| { assert more[j] == docs[j]; }
    }
  }

  /** rag.documents and rag.document_content behind one connection. */
  class PostgresDocumentStore {
    var documents: Table
    var contents: map<DocId, string>

    /** Every document has its content, and no two documents share a content hash. */
    ghost predicate Valid()
      reads this
    {
      && contents.Keys == documents.Keys
      && (forall d :: d in documents ==> documents[d].docId == d)
      && (forall d, e :: d in documents && e in documents && d != e ==>
        documents[d].contentHash != documents[e].contentHash)
    }

    constructor ()
      ensures Valid() && documents == map[] && contents == map[]
    {
      documents, contents := map[], map[];
    }

    /** Inserts a document with its content, unless its content is already stored. */
    method Create(document: Document, content: string) returns (r: Result<(), StoreError>)
      requires Valid()
      modifies this
      ensures Valid()
      ensures var duplicate := exists d :: d in old(documents) && old(documents[d].contentHash) == document.contentHash;
        && (duplicate ==> r == Ok(()) && documents == old(documents) && contents == old(contents))
        && (!duplicate && document.docId in old(documents) ==>
              r == Err(DuplicateKey) && documents == old(documents) && contents == old(contents))
        && (!duplicate && document.docId !in old(documents) ==>
              && r == Ok(())
              && documents == old(documents)[document.docId := document]
              && contents == old(contents)[document.docId := content])
    {
      if exists d :: d in documents && documents[d].contentHash == document.contentHash {
        return Ok(());
      }
      if document.docId in documents {
        return Err(DuplicateKey);
      }
      documents := documents[document.docId := document];
      contents := contents[document.docId := content];
      r := Ok(());
    }

    /** Pending rows, oldest ingestion first; rows ingested at the same time in any order. */
    method QueryPending(limit: Option<nat>) returns (docs: seq<Document>)
      requires Valid()
      ensures PendingRows(documents, docs) && SortedByIngestion(docs)
      ensures forall d :: IsPending(documents, d) && d !in Ids(docs) ==>
                && limit.Some? && |docs| == limit.value
                && forall i :: 0 <= i < |docs| ==> docs[i].ingestedAt <= documents[d].ingestedAt
      ensures limit.Some? ==> |docs| <= limit.value
    {
      docs := [];
      var left := set d | d in documents && documents[d].state == PENDING;
      while left != {} && (limit.None? || |docs| < limit.value)
        invariant QueriedSoFar(documents, docs, left)
        invariant limit.Some? ==> |docs| <= limit.value
        decreases left
      {
        EarliestExists(documents, left);
        var d :| d in left && forall e :: e in left ==> documents[d].ingestedAt <= documents[e].ingestedAt;
        QueryNext(documents, docs, left, d);
        docs := docs + [documents[d]];
        left := left - {d};
      }
    }

    /** Overwrites the mutable columns of a row. */
    method UpdateDocument(document: Document) returns (r: Result<(), StoreError>)
      requires Valid()
      modifies this
      ensures Valid() && contents == old(contents)
      ensures document.docId in old(documents) ==>
                && r == Ok(())
                && var row := old(documents)[document.docId];
                   documents == old(documents)[document.docId :=
                     Document(row.docId, row.contentHash, row.ingestedAt,
                              document.state, document.version, document.metadata)]
      ensures document.docId !in old(documents) ==> r == Err(NotFound) && documents == old(documents)
    {
      if document.docId !in documents {
        return Err(NotFound);
      }
      documents := documents[document.docId := Updated(documents[document.docId], document)];
      r := Ok(());
    }
  }

  lemma EarliestExists(t: Table, left: set<DocId>)
    requires left != {} && forall d :: d in left ==> d in t
    ensures exists d :: d in left && forall e :: e in left ==> t[d].ingestedAt <= t[e].ingestedAt
    decreases left
  {
    var x :| x in left;
    if left == {x} {
      assert forall e :: e in left ==> e == x;
    } else {
      EarliestExists(t, left - {x});
      var d :| d in left - {x} && forall e :: e in left - {x} ==> t[d].ingestedAt <= t[e].ingestedAt;
      var best := if t[x].ingestedAt < t[d].ingestedAt then x else d;
      assert forall e :: e in left ==> e == x || e in left - {x};
      assert best in left && forall e :: e in left ==> t[best].ingestedAt <= t[e].ingestedAt;
    }
  }

  // ---------- the use case and its adapter ----------

  /** The store a use case is wired to: the real one, or the adapter's one-document wrapper. */
  datatype StoreRef = Base(store: PostgresDocumentStore) | Single(store: PostgresDocumentStore, target: Document)

  class ExtractPendingUseCase {
    const attempts: Attempts
    var documentStore: StoreRef

    constructor (attempts: Attempts, store: PostgresDocumentStore)
      ensures this.attempts == attempts && documentStore == Base(store)
    {
      this.attempts := attempts;
      documentStore := Base(store);
    }

    method Query(limit: Option<nat>) returns (docs: seq<Document>)
      requires documentStore.store.Valid()
      ensures documentStore.Single? ==> docs == [documentStore.target]
      ensures documentStore.Base? ==> PendingRows(documentStore.store.documents, docs)
      ensures documentStore.Base? && limit.None? ==>
                forall d :: IsPending(documentStore.store.documents, d) ==> d in Ids(docs)
    {
      match documentStore
      case Single(_, target) => docs := [target];
      case Base(store) =>
        docs := store.QueryPending(limit);
    }

    /** Tries every queried document; whatever one attempt does, the next one is still made,
        unless the task is cancelled. `docs` is the list the query returned. */
    method Execute(limit: Option<nat>) returns (stats: Stats, stopped: bool, ghost docs: seq<Document>)
      requires documentStore.store.Valid()
      modifies documentStore.store
      ensures documentStore.store.Valid() && documentStore.store.contents == old(documentStore.store.contents)
      ensures old(documentStore).Single? ==> docs == [old(documentStore).target]
      ensures old(documentStore).Base? ==> PendingRows(old(documentStore.store.documents), docs)
      ensures old(documentStore).Base? && limit.None? ==>
                forall d :: IsPending(old(documentStore.store.documents), d) ==> d in Ids(docs)
      ensures BatchResult(documentStore.store.documents, stats, stopped)
           == TryAll(old(documentStore.store.documents), old(documentStore.store.contents), docs, attempts,
               Stats(0, 0, 0))
    {
      var pendingDocs := Query(limit);
      docs := pendingDocs;
      stats, stopped := TryEach(documentStore.store, pendingDocs);
    }

    /** The loop over the queried documents. */
    method TryEach(store: PostgresDocumentStore, pendingDocs: seq<Document>) returns (stats: Stats, stopped: bool)
      requires store.Valid()
      modifies store
      ensures store.Valid() && store.contents == old(store.contents)
      ensures BatchResult(store.documents, stats, stopped)
           == TryAll(old(store.documents), old(store.contents), pendingDocs, attempts, Stats(0, 0, 0))
    {
      stats, stopped := Stats(0, 0, 0), false;
      for i := 0 to |pendingDocs|
        invariant store.Valid() && store.contents == old(store.contents)
        invariant TryAll(store.documents, store.contents, pendingDocs[i..], attempts, stats)
               == TryAll(old(store.documents), old(store.contents), pendingDocs, attempts, Stats(0, 0, 0))
      {
        TryStep(store.documents, store.contents, pendingDocs, i, attempts, stats);
        var verdict := ProcessOne(store, pendingDocs[i]);
        if verdict == Stopped {
          return stats, true;
        }
        stats := Counted(stats, verdict);
      }
    }

    /** The body of the loop: load the content, run the pipeline, save the job's state. */
    method ProcessOne(store: PostgresDocumentStore, doc: Document) returns (verdict: Verdict)
      requires store.Valid()
      modifies store
      ensures store.Valid() && store.contents == old(store.contents)
      ensures verdict == VerdictOf(old(store.documents), old(store.contents), doc, attempts(doc.docId))
      ensures store.documents == Tried(old(store.documents), old(store.contents), doc, attempts(doc.docId))
    {
      if doc.docId !in store.contents {
        return Failed;
      }
      match attempts(doc.docId) {
        case LoadFails => verdict := Failed;
        case ProcessFails => verdict := Failed;
        case Cancelled => verdict := Stopped;
        case Finishes(result, save) =>
          if save == Raises {
            return Failed;
          }
          var saved := store.UpdateDocument(doc.(state := result));
          verdict := if save == Works && saved.Ok? && result == COMPLETED then Succeeded else Failed;
      }
    }
  }

  /** How a run for one document ended: normally, by an exception the worker catches, or by a
      cancellation it does not catch. */
  datatype RunEnd = Returned | Raised | WasCancelled

  /** Of all pending rows, the first with the id is the row itself; without one, it is not pending. */
  lemma FoundTarget(t: Table, docs: seq<Document>, i: nat, d: DocId)
    requires PendingRows(t, docs) && i <= |docs| && forall j :: 0 <= j < i ==> docs[j].docId != d
    requires forall e :: IsPending(t, e) ==> e in Ids(docs)
    ensures i < |docs| && docs[i].docId == d ==> IsPending(t, d) && docs[i] == t[d]
    ensures i == |docs| ==> !IsPending(t, d)
  {
  }

  class SingleDocExtractorAdapter {
    const useCase: ExtractPendingUseCase
    const documentStore: PostgresDocumentStore
    const lookupFails: DocId -> bool  // whether querying the pending rows raises

    constructor (useCase: ExtractPendingUseCase, documentStore: PostgresDocumentStore, lookupFails: DocId -> bool)
      ensures this.useCase == useCase && this.documentStore == documentStore && this.lookupFails == lookupFails
    {
      this.useCase := useCase;
      this.documentStore := documentStore;
      this.lookupFails := lookupFails;
    }

    /** Runs the use case for one document by swapping its store for a one-document wrapper. The
        use case has its own store back afterwards, also when the run was cancelled. */
    method Execute(docId: DocId) returns (end: RunEnd)
      requires documentStore.Valid()
      modifies useCase, documentStore
      ensures documentStore.Valid() && documentStore.contents == old(documentStore.contents)
      ensures useCase.documentStore == old(useCase.documentStore)
      ensures lookupFails(docId) ==> end == Raised && documentStore.documents == old(documentStore.documents)
      ensures !lookupFails(docId) ==>
        var r := TrySingle(old(documentStore.documents), old(documentStore.contents), docId, useCase.attempts);
        documentStore.documents == r.table && end == if r.stopped then WasCancelled else Returned
      ensures !lookupFails(docId) ==>
        var t, contents := old(documentStore.documents), old(documentStore.contents);
        && documentStore.documents ==
           (if IsPending(t, docId)
            then t[docId := t[docId].(state := StateLeft(contents, docId, useCase.attempts(docId)))] else t)
        && end == if IsPending(t, docId) && docId in contents && useCase.attempts(docId).Cancelled? then WasCancelled
                  else Returned
    {
      hide TryAll, PendingRows, SortedByIngestion, Ids, StateLeft;
      SingleLeaves(documentStore.documents, documentStore.contents, docId, useCase.attempts);
      if lookupFails(docId) {
        return Raised;
      }
      var pendingDocs := documentStore.QueryPending(None);
      var i := 0;
      while i < |pendingDocs| && pendingDocs[i].docId != docId
        invariant 0 <= i <= |pendingDocs|
        invariant forall j :: 0 <= j < i ==> pendingDocs[j].docId != docId
      {
        i := i + 1;
      }
      FoundTarget(documentStore.documents, pendingDocs, i, docId);
      if i == |pendingDocs| {
        return Returned;
      }
      var targetDoc := pendingDocs[i];
      var originalStore := useCase.documentStore;
      useCase.documentStore := Single(documentStore, targetDoc);
      var stats, stopped, _ := useCase.Execute(Some(1));
      useCase.documentStore := originalStore;
      end := if stopped then WasCancelled else Returned;
    }
  }

  // ---------- the worker ----------

  /** The ids whose lookup does not raise, in order. */
  function Found(ids: seq<DocId>, lookupFails: DocId -> bool): seq<DocId>
  {
    if ids == [] then [] else (if lookupFails(ids[0]) then [] else [ids[0]]) + Found(ids[1..], lookupFails)
  }

  /** A queue entry: the id of a document, or something that does not parse as one. */
  datatype Job = Extract(doc: DocId) | Malformed

  /** One stream with its consumer group, and the list queue beside it. */
  class Broker {
    var stream: seq<DocId>
    var delivered: nat        // messages before this position were handed out
    var acked: set<nat>
    var jobs: seq<Job>

    constructor ()
      ensures stream == [] && delivered == 0 && acked == {} && jobs == []
    {
      stream, delivered, acked, jobs := [], 0, {}, [];
    }
  }

  class ExtractionWorker {
    const broker: Broker
    const adapter: SingleDocExtractorAdapter
    const extracts: bool     // whether a use case was configured; without one no document is tried
    const readsEvents: bool  // whether an event consumer was configured

    constructor (broker: Broker, adapter: SingleDocExtractorAdapter, extracts: bool, readsEvents: bool)
      ensures this.broker == broker && this.adapter == adapter
      ensures this.extracts == extracts && this.readsEvents == readsEvents
    {
      this.broker, this.adapter := broker, adapter;
      this.extracts, this.readsEvents := extracts, readsEvents;
    }

    /** The documents after these ids were tried in order, and whether that was cancelled. */
    ghost function Fed(t: Table, contents: map<DocId, string>, ids: seq<DocId>): (Table, bool)
    {
      if extracts then Feed(t, contents, Found(ids, adapter.lookupFails), adapter.useCase.attempts) else (t, false)
    }

    lemma FedStep(t: Table, contents: map<DocId, string>, ids: seq<DocId>, i: nat)
      requires i < |ids|
      ensures Fed(t, contents, ids[i..]) ==
        if !extracts || adapter.lookupFails(ids[i]) then Fed(t, contents, ids[i + 1..])
        else
          var one := TrySingle(t, contents, ids[i], adapter.useCase.attempts);
          if one.stopped then (one.table, true) else Fed(one.table, contents, ids[i + 1..])
    {
      FoundStep(ids, i, adapter.lookupFails);
      var rest := Found(ids[i + 1..], adapter.lookupFails);
      assert ([ids[i]] + rest)[1..] == rest;
    }

    /** Processes delivered messages in order and acknowledges all of them together, whether their
        attempts raised or not, and also when there is no use case to try them; a cancellation, or
        an acknowledgement that raises, leaves every one of them unacknowledged. */
    method ProcessStreamEvents(ids: seq<nat>, docs: seq<DocId>, ack: Fault) returns (cancelled: bool, raised: bool)
      requires adapter.documentStore.Valid() && |ids| == |docs|
      modifies broker`acked, adapter.useCase, adapter.documentStore
      ensures adapter.documentStore.Valid() && adapter.documentStore.contents == old(adapter.documentStore.contents)
      ensures adapter.useCase.documentStore == old(adapter.useCase.documentStore)
      ensures (adapter.documentStore.documents, cancelled)
           == old(Fed(adapter.documentStore.documents, adapter.documentStore.contents, docs))
      ensures raised <==> !cancelled && readsEvents && ack != Works
      ensures broker.acked == if cancelled || !readsEvents || ack == Raises then old(broker.acked)
                              else old(broker.acked) + set m | m in ids
    {
      var ackIds: seq<nat> := [];
      for i := 0 to |ids|
        invariant ackIds == ids[..i]
        invariant adapter.documentStore.Valid() && adapter.documentStore.contents == old(adapter.documentStore.contents)
        invariant adapter.useCase.documentStore == old(adapter.useCase.documentStore)
        invariant broker.acked == old(broker.acked)
        invariant Fed(adapter.documentStore.documents, adapter.documentStore.contents, docs[i..])
               == old(Fed(adapter.documentStore.documents, adapter.documentStore.contents, docs))
      {
        FedStep(adapter.documentStore.documents, adapter.documentStore.contents, docs, i);
        ackIds := ackIds + [ids[i]];
        if !extracts {
          continue;
        }
        var end := adapter.Execute(docs[i]);
        if end == WasCancelled {
          return true, false;
        }
      }
      assert ackIds == ids;
      cancelled, raised := false, false;
      if readsEvents {
        if ack != Raises {
          broker.acked := broker.acked + set m | m in ackIds;
        }
        raised := ack != Works;
      }
    }

    /** One poll: a new stream message if there is one, else the oldest queue job. A call to the
        broker that raises ends the poll and nothing else: what it took is not tried. */
    method PollOnce(read: Fault, pop: Fault, ack: Fault) returns (cancelled: bool)
      requires adapter.documentStore.Valid() && broker.delivered <= |broker.stream|
      modifies broker`delivered, broker`acked, broker`jobs, adapter.useCase, adapter.documentStore
      ensures adapter.documentStore.Valid() && broker.delivered <= |broker.stream|
      ensures adapter.useCase.documentStore == old(adapter.useCase.documentStore)
      ensures var b, jobs := old(broker.delivered), old(broker.jobs);
        var untried := (old(adapter.documentStore.documents), false);
        var fed := (d: DocId) =>
          Fed(old(adapter.documentStore.documents), old(adapter.documentStore.contents), [d]);
        var now := (adapter.documentStore.documents, cancelled);
        if readsEvents && (read != Works || b < |broker.stream|) then
          && broker.jobs == jobs
          && broker.delivered == (if read != Raises && b < |broker.stream| then b + 1 else b)
          && now == (if read == Works then fed(broker.stream[b]) else untried)
          && broker.acked == if read != Works || cancelled || ack == Raises then old(broker.acked)
                             else old(broker.acked) + {b}
        else
          && broker.delivered == b && broker.acked == old(broker.acked)
          && broker.jobs == (if jobs == [] || pop == Raises then jobs else jobs[1..])
          && now == if jobs != [] && pop == Works && jobs[0].Extract? then fed(jobs[0].doc) else untried
    {
      if readsEvents {
        var id := broker.delivered;
        if read != Raises && id < |broker.stream| {
          broker.delivered := id + 1;
        }
        if read != Works {
          return false;
        }
        if id < |broker.stream| {
          assert (set m | m in [id]) == {id};
          var raised;
          cancelled, raised := ProcessStreamEvents([id], [broker.stream[id]], ack);
          return;
        }
      }
      if pop == Raises || broker.jobs == [] {
        return false;
      }
      var job := broker.jobs[0];
      broker.jobs := broker.jobs[1..];
      cancelled := false;
      if pop == Works && job.Extract? && extracts {
        assert [job.doc][0..] == [job.doc];
        FedStep(adapter.documentStore.documents, adapter.documentStore.contents, [job.doc], 0);
        var end := adapter.Execute(job.doc);
        cancelled := end == WasCancelled;
      }
    }
  }

  lemma FoundStep(docs: seq<DocId>, i: nat, lookupFails: DocId -> bool)
    requires i < |docs|
    ensures Found(docs[i..], lookupFails) ==
            if lookupFails(docs[i]) then Found(docs[i + 1..], lookupFails)
            else [docs[i]] + Found(docs[i + 1..], lookupFails)
  {
    assert docs[i..][1..] == docs[i + 1..];
  }
}
