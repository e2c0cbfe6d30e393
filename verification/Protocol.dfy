module Protocol {
  // The extraction protocol: any number of workers reading one Redis Streams consumer group and
  // one list queue, sharing a document table. Reading, looking a document up, loading it, running
  // the pipeline, saving and acknowledging are separate steps, so any interleaving is a run.

  import opened Models

  type WorkerId = nat
  type MessageId = nat  // position in the stream

  /** Where a worker's current document came from: entry `at` of a batch read from the stream,
      or a job popped from the list queue. */
  datatype Source = FromStream(batch: seq<MessageId>, at: nat) | FromQueue(doc: DocId)

  datatype Phase = Looking | Loading | Running | Saving(result: ExtractionState)

  datatype Worker = Idle | Working(source: Source, phase: Phase) | Acking(batch: seq<MessageId>) | Dead

  datatype State = State(
    stream: seq<DocId>,                // published events
    owner: seq<WorkerId>,              // owner[m]: the worker message m was delivered to, in delivery order
    acked: set<MessageId>,
    queue: seq<DocId>,
    docs: map<DocId, ExtractionState>, // rag.documents
    created: set<DocId>,               // ids an ingestion has tried to insert
    workers: map<WorkerId, Worker>,
    ended: map<MessageId, bool>,       // history: the attempt ended, and whether an exception ended it
    lost: set<MessageId>)              // history: delivered, but no worker will ever acknowledge it

  datatype Step =
    | Create(doc: DocId, inserted: bool)
    | Publish(doc: DocId)
    | Enqueue(doc: DocId)
    | Remove(doc: DocId)
    | Start(w: WorkerId)
    | Crash(w: WorkerId)
    | Read(w: WorkerId, n: nat)
    | ReadFails(w: WorkerId, n: nat)
    | Pop(w: WorkerId)
    | Look(w: WorkerId)
    | Load(w: WorkerId)
    | Process(w: WorkerId, result: ExtractionState)
    | Save(w: WorkerId)
    | Raise(w: WorkerId, written: bool)
    | Ack(w: WorkerId)
    | AckFails(w: WorkerId, written: bool)

  predicate Init(s: State)
  {
    s == State([], [], {}, [], map[], {}, map[], map[], {})
  }

  function MessageRange(lo: nat, n: nat): (r: seq<MessageId>)
    ensures |r| == n && forall i :: 0 <= i < n ==> r[i] == lo + i
  {
    seq(n, i => lo + i)
  }

  function Repeat(w: WorkerId, n: nat): (r: seq<WorkerId>)
    ensures |r| == n && forall i :: 0 <= i < n ==> r[i] == w
  {
    seq(n, i => w)
  }

  function Members(batch: seq<MessageId>): (r: set<MessageId>)
    ensures forall m :: m in r <==> m in batch
  {
    set m | m in batch
  }

  /** The messages a worker still has to acknowledge. */
  function Held(wk: Worker): seq<MessageId>
  {
    match wk
    case Working(FromStream(batch, _), _) => batch
    case Acking(batch) => batch
    case _ => []
  }

  predicate Live(s: State, w: WorkerId)
  {
    w in s.workers && s.workers[w] != Dead
  }

  predicate IsWorking(s: State, w: WorkerId)
  {
    && w in s.workers && s.workers[w].Working?
    && match s.workers[w].source
       case FromStream(batch, at) => at < |batch| && batch[at] < |s.stream|
       case FromQueue(_) => true
  }

  function CurrentDoc(s: State, w: WorkerId): DocId
    requires IsWorking(s, w)
  {
    match s.workers[w].source
    case FromStream(batch, at) => s.stream[batch[at]]
    case FromQueue(d) => d
  }

  predicate InPhase(s: State, w: WorkerId, p: Phase)
  {
    IsWorking(s, w) && s.workers[w].phase == p
  }

  predicate Enabled(s: State, step: Step)
  {
    match step
    case Create(d, _) => d !in s.created
    case Publish(d) => d in s.created
    case Enqueue(_) => true
    case Remove(d) => d in s.docs
    case Start(w) => w !in s.workers
    case Crash(w) => Live(s, w)
    case Read(w, n) => w in s.workers && s.workers[w] == Idle && n >= 1 && |s.owner| + n <= |s.stream|
    case ReadFails(w, n) => w in s.workers && s.workers[w] == Idle && n >= 1 && |s.owner| + n <= |s.stream|
    case Pop(w) => w in s.workers && s.workers[w] == Idle && s.queue != []
    case Look(w) => InPhase(s, w, Looking)
    case Load(w) => InPhase(s, w, Loading)
    // process_document returns COMPLETED or FAILED, see Orchestrator.ReturnedJob
    case Process(w, result) => InPhase(s, w, Running) && (result == COMPLETED || result == FAILED)
    case Save(w) => IsWorking(s, w) && s.workers[w].phase.Saving? && CurrentDoc(s, w) in s.docs
    case Raise(w, _) => IsWorking(s, w)
    case Ack(w) => w in s.workers && s.workers[w].Acking?
    case AckFails(w, _) => w in s.workers && s.workers[w].Acking?
  }

  /** The attempt on the current document is over: on to the next message, or to the acknowledgement. */
  function Finish(s: State, w: WorkerId, raised: bool): State
    requires IsWorking(s, w)
  {
    match s.workers[w].source
    case FromQueue(_) => s.(workers := s.workers[w := Idle])
    case FromStream(batch, at) =>
      var next := if at + 1 < |batch| then Working(FromStream(batch, at + 1), Looking) else Acking(batch);
      s.(workers := s.workers[w := next], ended := s.ended[batch[at] := raised])
  }

  function Apply(s: State, step: Step): State
    requires Enabled(s, step)
  {
    match step
    case Create(d, inserted) =>
      s.(created := s.created + {d}, docs := if inserted then s.docs[d := PENDING] else s.docs)
    case Publish(d) => s.(stream := s.stream + [d])
    case Enqueue(d) => s.(queue := s.queue + [d])
    case Remove(d) => s.(docs := s.docs - {d})
    case Start(w) => s.(workers := s.workers[w := Idle])
    case Crash(w) => s.(workers := s.workers[w := Dead], lost := s.lost + Members(Held(s.workers[w])))
    case Read(w, n) =>
      var batch := MessageRange(|s.owner|, n);
      s.(owner := s.owner + Repeat(w, n), workers := s.workers[w := Working(FromStream(batch, 0), Looking)])
    case ReadFails(w, n) =>
      s.(owner := s.owner + Repeat(w, n), lost := s.lost + Members(MessageRange(|s.owner|, n)))
    case Pop(w) =>
      s.(queue := s.queue[1..], workers := s.workers[w := Working(FromQueue(s.queue[0]), Looking)])
    case Look(w) =>
      var d := CurrentDoc(s, w);
      if d in s.docs && s.docs[d] == PENDING then
        s.(workers := s.workers[w := Working(s.workers[w].source, Loading)])
      else Finish(s, w, false)
    case Load(w) => s.(workers := s.workers[w := Working(s.workers[w].source, Running)])
    case Process(w, result) => s.(workers := s.workers[w := Working(s.workers[w].source, Saving(result))])
    case Save(w) => Finish(Written(s, w), w, false)
    case Raise(w, written) => Finish(if written then Written(s, w) else s, w, true)
    case Ack(w) => Acknowledged(s, w).(workers := s.workers[w := Idle])
    case AckFails(w, written) =>
      (if written then Acknowledged(s, w)
       else s.(lost := s.lost + Members(s.workers[w].batch))).(workers := s.workers[w := Idle])
  }

  /** The row update of a worker about to save; nothing when there is no row or no result yet. */
  function Written(s: State, w: WorkerId): State
    requires IsWorking(s, w)
  {
    var d := CurrentDoc(s, w);
    if s.workers[w].phase.Saving? && d in s.docs then s.(docs := s.docs[d := s.workers[w].phase.result]) else s
  }

  function Acknowledged(s: State, w: WorkerId): State
    requires w in s.workers && s.workers[w].Acking?
  {
    s.(acked := s.acked + Members(s.workers[w].batch))
  }

  // ---------- what every step keeps ----------

  predicate Final(e: ExtractionState)
  {
    e == COMPLETED || e == FAILED
  }

  /** Tables and stream: only ids an ingestion tried to create are stored or published, and a
      stored state is one of three. */
  ghost predicate TablesOk(s: State)
  {
    && (forall d :: d in s.docs ==> d in s.created && (s.docs[d] == PENDING || Final(s.docs[d])))
    && (forall m :: 0 <= m < |s.stream| ==> s.stream[m] in s.created)
  }

  /** Every message is in one place: not delivered yet, held by the worker it was delivered to,
      acknowledged, or lost. */
  ghost predicate MessagesOk(s: State)
  {
    && |s.owner| <= |s.stream|
    && (forall m :: m in s.acked ==> m < |s.owner| && m in s.ended)
    && (forall m :: m in s.lost ==> m < |s.owner| && m !in s.acked)
    && (forall m :: m in s.ended ==> m < |s.owner|)
    && (forall m {:trigger HasPlace(s, m)} :: 0 <= m < |s.owner| ==> HasPlace(s, m))
  }

  /** A delivered message is acknowledged, lost, or held by the worker it was delivered to. */
  ghost predicate HasPlace(s: State, m: MessageId)
    requires m < |s.owner|
  {
    m in s.acked || m in s.lost || (s.owner[m] in s.workers && m in Held(s.workers[s.owner[m]]))
  }

  ghost predicate Distinct(held: seq<MessageId>)
  {
    forall i, j :: 0 <= i < j < |held| ==> held[i] != held[j]
  }

  ghost predicate Owns(s: State, w: WorkerId, held: seq<MessageId>)
  {
    forall i :: 0 <= i < |held| ==>
      held[i] < |s.owner| && s.owner[held[i]] == w && held[i] !in s.acked && held[i] !in s.lost
  }

  /** Of the batch, exactly the attempts before `at` have ended. */
  ghost predicate EndedBefore(s: State, batch: seq<MessageId>, at: nat)
  {
    forall i :: 0 <= i < |batch| ==> (batch[i] in s.ended <==> i < at)
  }

  /** A worker holds only messages delivered to it; those before its position have ended, the
      others have not. */
  ghost predicate WorkerOk(s: State, w: WorkerId)
    requires w in s.workers
  {
    var wk := s.workers[w];
    && Owns(s, w, Held(wk)) && Distinct(Held(wk))
    && (wk.Working? && wk.source.FromStream? ==>
          wk.source.at < |wk.source.batch| && EndedBefore(s, wk.source.batch, wk.source.at))
    && (wk.Acking? ==> EndedBefore(s, wk.batch, |wk.batch|))
    && (wk.Working? && wk.phase.Saving? ==> Final(wk.phase.result))
  }

  ghost predicate WorkersOk(s: State)
  {
    forall w {:trigger WorkerOk(s, w)} :: w in s.workers ==> WorkerOk(s, w)
  }

  /** An attempt that ended without an exception left its document, if stored, out of PENDING. */
  ghost predicate OutcomesOk(s: State)
  {
    forall m :: m in s.ended && !s.ended[m] ==>
      m < |s.stream| && (s.stream[m] in s.docs ==> s.docs[s.stream[m]] != PENDING)
  }

  ghost predicate Inv(s: State)
  {
    TablesOk(s) && MessagesOk(s) && WorkersOk(s) && OutcomesOk(s)
  }

  /** What never changes back: deliveries, acknowledgements, ended attempts, final documents. */
  ghost predicate Forward(s: State, t: State)
  {
    && s.stream <= t.stream && s.owner <= t.owner
    && s.acked <= t.acked && s.lost <= t.lost && s.created <= t.created
    && (forall m :: m in s.ended ==> m in t.ended && t.ended[m] == s.ended[m])
    && (forall d :: d in s.created && (d in s.docs ==> s.docs[d] != PENDING) ==>
          (d in t.docs ==> t.docs[d] != PENDING))
  }

  /** From `s` to `t` only worker `w` moved, and only messages delivered to it changed status. */
  ghost predicate OnlyTouches(s: State, t: State, w: WorkerId)
  {
    && t.workers.Keys == s.workers.Keys + {w}
    && (forall v :: v in s.workers && v != w ==> t.workers[v] == s.workers[v])
    && s.owner <= t.owner
    && (forall m :: 0 <= m < |s.owner| && s.owner[m] != w ==>
          && (m in t.ended <==> m in s.ended) && (m in t.acked <==> m in s.acked) && (m in t.lost <==> m in s.lost))
  }

  lemma OthersKeep(s: State, t: State, w: WorkerId)
    requires WorkersOk(s) && OnlyTouches(s, t, w)
    ensures forall v {:trigger WorkerOk(t, v)} :: v in t.workers && v != w ==> WorkerOk(t, v)
  {
    forall v | v in t.workers && v != w ensures WorkerOk(t, v) {
      OtherKeeps(s, t, w, v);
    }
  }

  lemma OtherKeeps(s: State, t: State, w: WorkerId, v: WorkerId)
    requires WorkersOk(s) && OnlyTouches(s, t, w) && v in s.workers && v != w
    ensures WorkerOk(t, v)
  {
    assert WorkerOk(s, v);
    var held := Held(s.workers[v]);
    forall i | 0 <= i < |held|
      ensures held[i] in t.ended <==> held[i] in s.ended
      ensures held[i] in t.acked <==> held[i] in s.acked
      ensures held[i] in t.lost <==> held[i] in s.lost
    {
      assert s.owner[held[i]] == v;
    }
  }

  /** Every delivered message still has its place when `w` keeps holding what it held, up to what
      became acknowledged or lost, and holds whatever is newly delivered. */
  lemma PlacesKeep(s: State, t: State, w: WorkerId)
    requires MessagesOk(s) && OnlyTouches(s, t, w) && w in s.workers
    requires s.acked <= t.acked && s.lost <= t.lost
    requires forall m :: m in Held(s.workers[w]) ==> m in Held(t.workers[w]) || m in t.acked || m in t.lost
    requires forall m :: |s.owner| <= m < |t.owner| ==> m in t.lost || (t.owner[m] == w && m in Held(t.workers[w]))
    ensures forall m {:trigger HasPlace(t, m)} :: 0 <= m < |t.owner| ==> HasPlace(t, m)
  {
    forall m | 0 <= m < |t.owner| ensures HasPlace(t, m) {
      if m < |s.owner| {
        assert HasPlace(s, m);
        assert t.owner[m] == s.owner[m];
      }
    }
  }

  lemma SameHolding(s: State, t: State, w: WorkerId)
    requires w in s.workers && WorkerOk(s, w) && w in t.workers
    requires t.owner == s.owner && t.acked == s.acked && t.lost == s.lost && t.ended == s.ended
    requires t.workers[w] == s.workers[w] ||
             (s.workers[w].Working? && t.workers[w].Working? && t.workers[w].source == s.workers[w].source
              && (t.workers[w].phase.Saving? ==> Final(t.workers[w].phase.result)))
    ensures WorkerOk(t, w)
  {
    assert Held(t.workers[w]) == Held(s.workers[w]);
  }

  /** Moving one worker to a phase of the same attempt. */
  lemma SamePlace(s: State, w: WorkerId, phase: Phase)
    requires Inv(s) && IsWorking(s, w) && (phase.Saving? ==> Final(phase.result))
    ensures var t := s.(workers := s.workers[w := Working(s.workers[w].source, phase)]);
            Inv(t) && Forward(s, t)
  {
    var t := s.(workers := s.workers[w := Working(s.workers[w].source, phase)]);
    assert WorkerOk(s, w);
    assert WorkerOk(t, w) by { SameHolding(s, t, w); }
    OthersKeep(s, t, w);
    PlacesKeep(s, t, w);
  }

  lemma WrittenKeeps(s: State, w: WorkerId)
    requires Inv(s) && IsWorking(s, w)
    ensures Inv(Written(s, w)) && Forward(s, Written(s, w)) && IsWorking(Written(s, w), w)
  {
    var t := Written(s, w);
    assert WorkerOk(s, w);
    assert WorkerOk(t, w) by { SameHolding(s, t, w); }
    OthersKeep(s, t, w);
    PlacesKeep(s, t, w);
  }

  lemma FinishedWorkerOk(s: State, t: State, w: WorkerId, batch: seq<MessageId>, at: nat)
    requires w in s.workers && WorkerOk(s, w) && s.workers[w].Working? && s.workers[w].source == FromStream(batch, at)
    requires at < |batch| && w in t.workers && t.owner == s.owner && t.acked == s.acked && t.lost == s.lost
    requires t.workers[w] == if at + 1 < |batch| then Working(FromStream(batch, at + 1), Looking) else Acking(batch)
    requires t.ended.Keys == s.ended.Keys + {batch[at]}
    ensures WorkerOk(t, w)
  {
    assert Held(s.workers[w]) == batch && Held(t.workers[w]) == batch;
    forall i | 0 <= i < |batch| ensures batch[i] in t.ended <==> i <= at {
      assert i != at ==> batch[i] != batch[at];
    }
  }

  lemma FinishJob(s: State, w: WorkerId)
    requires Inv(s) && IsWorking(s, w) && s.workers[w].source.FromQueue?
    ensures Inv(Finish(s, w, true)) && Forward(s, Finish(s, w, true)) && Finish(s, w, false) == Finish(s, w, true)
  {
    var t := Finish(s, w, true);
    assert WorkerOk(s, w) && WorkerOk(t, w);
    OthersKeep(s, t, w);
    PlacesKeep(s, t, w);
  }

  lemma FinishMessage(s: State, w: WorkerId, raised: bool)
    requires Inv(s) && IsWorking(s, w) && s.workers[w].source.FromStream?
    requires !raised ==> CurrentDoc(s, w) in s.docs ==> s.docs[CurrentDoc(s, w)] != PENDING
    ensures Inv(Finish(s, w, raised)) && Forward(s, Finish(s, w, raised))
  {
    var t := Finish(s, w, raised);
    assert WorkerOk(s, w);
    var FromStream(batch, at) := s.workers[w].source;
    assert Held(s.workers[w])[at] == batch[at];
    FinishedWorkerOk(s, t, w, batch, at);
    OthersKeep(s, t, w);
    PlacesKeep(s, t, w);
  }

  lemma FinishKeeps(s: State, w: WorkerId, raised: bool)
    requires Inv(s) && IsWorking(s, w)
    requires !raised ==> CurrentDoc(s, w) in s.docs ==> s.docs[CurrentDoc(s, w)] != PENDING
    ensures Inv(Finish(s, w, raised)) && Forward(s, Finish(s, w, raised))
  {
    if s.workers[w].source.FromQueue? { FinishJob(s, w); } else { FinishMessage(s, w, raised); }
  }

  lemma EnvironmentKeeps(s: State, step: Step)
    requires Inv(s) && Enabled(s, step)
    requires step.Create? || step.Publish? || step.Enqueue? || step.Remove? || step.Start?
    ensures Inv(Apply(s, step)) && Forward(s, Apply(s, step))
  {
    var t := Apply(s, step);
    forall v | v in t.workers ensures WorkerOk(t, v) {
      if v in s.workers { assert WorkerOk(s, v); }
    }
    forall m | 0 <= m < |t.owner| ensures HasPlace(t, m) {
      assert HasPlace(s, m);
    }
  }

  lemma ReadKeeps(s: State, w: WorkerId, n: nat)
    requires Inv(s) && Enabled(s, Read(w, n))
    ensures Inv(Apply(s, Read(w, n))) && Forward(s, Apply(s, Read(w, n)))
  {
    var t := Apply(s, Read(w, n));
    var batch := MessageRange(|s.owner|, n);
    forall m | |s.owner| <= m < |t.owner| ensures m in batch {
      assert batch[m - |s.owner|] == m;
    }
    assert Held(t.workers[w]) == batch && WorkerOk(t, w);
    OthersKeep(s, t, w);
    PlacesKeep(s, t, w);
  }

  lemma ReadFailsKeeps(s: State, w: WorkerId, n: nat)
    requires Inv(s) && Enabled(s, ReadFails(w, n))
    ensures Inv(Apply(s, ReadFails(w, n))) && Forward(s, Apply(s, ReadFails(w, n)))
  {
    var t := Apply(s, ReadFails(w, n));
    var batch := MessageRange(|s.owner|, n);
    forall m | |s.owner| <= m < |t.owner| ensures m in batch {
      assert batch[m - |s.owner|] == m;
    }
    assert WorkerOk(s, w) && WorkerOk(t, w);
    OthersKeep(s, t, w);
    PlacesKeep(s, t, w);
  }

  lemma PopKeeps(s: State, w: WorkerId)
    requires Inv(s) && Enabled(s, Pop(w))
    ensures Inv(Apply(s, Pop(w))) && Forward(s, Apply(s, Pop(w)))
  {
    var t := Apply(s, Pop(w));
    assert WorkerOk(s, w) && WorkerOk(t, w);
    OthersKeep(s, t, w);
    PlacesKeep(s, t, w);
  }

  /** What a worker holds is its own, delivered and still open. */
  lemma HeldIsOpen(s: State, w: WorkerId)
    requires Inv(s) && w in s.workers
    ensures forall m :: m in Members(Held(s.workers[w])) ==>
              m < |s.owner| && s.owner[m] == w && m !in s.acked && m !in s.lost
  {
    assert WorkerOk(s, w);
    var held := Held(s.workers[w]);
    forall m | m in held ensures m < |s.owner| && s.owner[m] == w && m !in s.acked && m !in s.lost {
      var i :| 0 <= i < |held| && held[i] == m;
    }
  }

  /** A worker lets go of its messages: all of them lost, or all of them acknowledged. */
  lemma ReleaseKeeps(s: State, t: State, w: WorkerId, acked: bool)
    requires Inv(s) && w in s.workers
    requires t == s.(workers := t.workers, acked := t.acked, lost := t.lost)
    requires (t.workers == s.workers[w := Idle] || t.workers == s.workers[w := Dead])
    requires var held := Members(Held(s.workers[w]));
      t.acked == (if acked then s.acked + held else s.acked) && t.lost == (if acked then s.lost else s.lost + held)
    requires acked ==> s.workers[w].Acking?
    ensures Inv(t) && Forward(s, t)
  {
    HeldIsOpen(s, w);
    assert WorkerOk(s, w);
    if acked {
      assert forall m :: m in s.workers[w].batch ==> m in s.ended;
    }
    assert WorkerOk(t, w);
    OthersKeep(s, t, w);
    PlacesKeep(s, t, w);
  }

  /** Every step keeps the invariant and undoes nothing. */
  lemma StepKeeps(s: State, step: Step)
    requires Inv(s) && Enabled(s, step)
    ensures Inv(Apply(s, step)) && Forward(s, Apply(s, step))
  {
    match step
    case Look(w) =>
      var d := CurrentDoc(s, w);
      if d in s.docs && s.docs[d] == PENDING { SamePlace(s, w, Loading); } else { FinishKeeps(s, w, false); }
    case Load(w) => SamePlace(s, w, Running);
    case Process(w, result) => SamePlace(s, w, Saving(result));
    case Save(w) =>
      assert WorkerOk(s, w);
      WrittenKeeps(s, w);
      FinishKeeps(Written(s, w), w, false);
      ForwardTrans(s, Written(s, w), Apply(s, step));
    case Raise(w, written) =>
      WrittenKeeps(s, w);
      FinishKeeps(if written then Written(s, w) else s, w, true);
      ForwardTrans(s, if written then Written(s, w) else s, Apply(s, step));
    case Read(w, n) => ReadKeeps(s, w, n);
    case ReadFails(w, n) => ReadFailsKeeps(s, w, n);
    case Pop(w) => PopKeeps(s, w);
    case Crash(w) => ReleaseKeeps(s, Apply(s, step), w, false);
    case Ack(w) => ReleaseKeeps(s, Apply(s, step), w, true);
    case AckFails(w, written) => ReleaseKeeps(s, Apply(s, step), w, written);
    case _ => EnvironmentKeeps(s, step);
  }

  lemma ForwardTrans(a: State, b: State, c: State)
    requires Forward(a, b) && Forward(b, c)
    ensures Forward(a, c)
  {
  }

  // ---------- whole runs ----------

  /** A run: the states passed through and the steps between them, by whichever worker. */
  ghost predicate Run(states: seq<State>, steps: seq<Step>)
  {
    && |states| == |steps| + 1
    && Init(states[0])
    && forall i :: 0 <= i < |steps| ==> Enabled(states[i], steps[i]) && states[i + 1] == Apply(states[i], steps[i])
  }

  lemma {:induction false} RunKeepsInv(states: seq<State>, steps: seq<Step>, i: nat)
    requires Run(states, steps) && i < |states|
    ensures Inv(states[i])
  {
    if i > 0 {
      RunKeepsInv(states, steps, i - 1);
      StepKeeps(states[i - 1], steps[i - 1]);
    }
  }

  lemma {:induction false} RunGoesForward(states: seq<State>, steps: seq<Step>, i: nat, j: nat)
    requires Run(states, steps) && i <= j < |states|
    ensures Forward(states[i], states[j])
    decreases j
  {
    if i < j {
      RunGoesForward(states, steps, i, j - 1);
      RunKeepsInv(states, steps, j - 1);
      StepKeeps(states[j - 1], steps[j - 1]);
      ForwardTrans(states[i], states[j - 1], states[j]);
    }
  }

  /** In every run of any number of workers: a message keeps the one worker it was delivered to, is
      acknowledged only after its attempt ended, and the end of an attempt is never rewritten. */
  lemma DeliveredOnceAckedAfterAttempt(states: seq<State>, steps: seq<Step>, i: nat, j: nat, m: MessageId)
    requires Run(states, steps) && i <= j < |states|
    ensures m < |states[i].owner| ==> m < |states[j].owner| && states[j].owner[m] == states[i].owner[m]
    ensures m in states[i].acked ==> m in states[i].ended && m in states[j].acked
    ensures m in states[i].ended ==> m in states[j].ended && states[j].ended[m] == states[i].ended[m]
  {
    RunKeepsInv(states, steps, i);
    RunGoesForward(states, steps, i, j);
  }

  /** Stored documents are PENDING, COMPLETED or FAILED, and one that left PENDING never returns. */
  lemma DocumentsNeverReturnToPending(states: seq<State>, steps: seq<Step>, i: nat, j: nat, d: DocId)
    requires Run(states, steps) && i <= j < |states|
    requires d in states[i].docs && d in states[j].docs
    ensures states[i].docs[d] in {PENDING, COMPLETED, FAILED}
    ensures states[i].docs[d] != PENDING ==> states[j].docs[d] != PENDING
  {
    RunKeepsInv(states, steps, i);
    RunGoesForward(states, steps, i, j);
  }

  /** An acknowledged message whose attempt raised no exception has its document, if stored, out of
      PENDING: then and at every later point of the run. */
  lemma AckedMeansProcessed(states: seq<State>, steps: seq<Step>, i: nat, j: nat, m: MessageId)
    requires Run(states, steps) && i <= j < |states|
    requires m in states[i].acked && m in states[i].ended && !states[i].ended[m]
    ensures m < |states[i].stream| <= |states[j].stream| && states[j].stream[m] == states[i].stream[m]
    ensures var d := states[i].stream[m];
            d in states[j].docs ==> Final(states[j].docs[d])
  {
    RunKeepsInv(states, steps, i);
    RunKeepsInv(states, steps, j);
    RunGoesForward(states, steps, i, j);
  }

  /** No worker holds anything and every published event was delivered. */
  ghost predicate AtRest(s: State)
  {
    && |s.owner| == |s.stream|
    && forall w :: w in s.workers ==> Held(s.workers[w]) == []
  }

  /** No event is lost without a trace: once the system is at rest, a published document that is
      still PENDING has each of its events either lost in a crash, an undecodable read or a failed
      acknowledgement, or ended by an exception. */
  lemma PendingAtRestIsAccountedFor(states: seq<State>, steps: seq<Step>, i: nat, m: MessageId)
    requires Run(states, steps) && i < |states| && AtRest(states[i])
    requires m < |states[i].stream|
    ensures (m in states[i].acked) != (m in states[i].lost)
    ensures var s := states[i];
            var d := s.stream[m];
            d in s.docs && s.docs[d] == PENDING ==> m in s.lost || (m in s.ended && s.ended[m])
  {
    RunKeepsInv(states, steps, i);
    assert HasPlace(states[i], m);
  }

  /** Each attempt at a stream message happens once: the step that ends it finds it unended. */
  lemma AttemptedOnce(states: seq<State>, steps: seq<Step>, i: nat, m: MessageId)
    requires Run(states, steps) && i < |steps|
    requires m in states[i + 1].ended && m !in states[i].ended
    ensures m < |states[i].owner| && IsWorking(states[i], states[i].owner[m])
    ensures steps[i] in {Look(states[i].owner[m]), Save(states[i].owner[m]),
                         Raise(states[i].owner[m], true), Raise(states[i].owner[m], false)}
  {
    RunKeepsInv(states, steps, i);
    var s, step := states[i], steps[i];
    if step.Look? || step.Save? || step.Raise? {
      assert WorkerOk(s, step.w);
      var src := s.workers[step.w].source;
      if src.FromStream? {
        assert Held(s.workers[step.w])[src.at] == src.batch[src.at];
      }
    }
  }
}
