module ProtocolHistory {
  // What a run of the extraction protocol leaves, told from its steps alone: the stream is what was
  // published, the queue what was enqueued and not yet popped, and a stored state is the result of the
  // pipeline for that document, run on it after it was found PENDING.

  import opened Models
  import opened Protocol

  /** A step of worker `w`. */
  predicate StepOf(step: Step, w: WorkerId)
  {
    match step
    case Create(_, _) => false
    case Publish(_) => false
    case Enqueue(_) => false
    case Remove(_) => false
    case Start(v) => v == w
    case Crash(v) => v == w
    case Read(v, _) => v == w
    case ReadFails(v, _) => v == w
    case Pop(v) => v == w
    case Look(v) => v == w
    case Load(v) => v == w
    case Process(v, _) => v == w
    case Save(v) => v == w
    case Raise(v, _) => v == w
    case Ack(v) => v == w
    case AckFails(v, _) => v == w
  }

  /** Worker `w` makes no step from `i` on before `k`. */
  ghost predicate Quiet(steps: seq<Step>, w: WorkerId, i: nat, k: nat)
    requires k <= |steps|
  {
    forall j :: i <= j < k ==> !StepOf(steps[j], w)
  }

  lemma StepsAreOwn(s: State, step: Step, w: WorkerId)
    requires Enabled(s, step) && !StepOf(step, w) && w in s.workers
    ensures w in Apply(s, step).workers && Apply(s, step).workers[w] == s.workers[w]
  {
  }

  lemma {:induction false} QuietStays(states: seq<State>, steps: seq<Step>, w: WorkerId, i: nat, k: nat)
    requires Run(states, steps) && i <= k <= |steps| && Quiet(steps, w, i, k) && w in states[i].workers
    ensures w in states[k].workers && states[k].workers[w] == states[i].workers[w]
    decreases k
  {
    if i < k {
      QuietStays(states, steps, w, i, k - 1);
      StepsAreOwn(states[k - 1], steps[k - 1], w);
    }
  }

  /** The document a worker is at stays the same while it makes no step. */
  lemma SameDoc(states: seq<State>, steps: seq<Step>, w: WorkerId, i: nat, k: nat)
    requires Run(states, steps) && i <= k <= |steps| && Quiet(steps, w, i, k) && IsWorking(states[i], w)
    ensures IsWorking(states[k], w) && states[k].workers[w] == states[i].workers[w]
    ensures CurrentDoc(states[k], w) == CurrentDoc(states[i], w)
  {
    QuietStays(states, steps, w, i, k);
    RunGoesForward(states, steps, i, k);
  }

  // ---------- what is stored ----------

  /** A save stores the result of the pipeline for the document it ran on, and changes no other row. */
  lemma SaveStoresResult(states: seq<State>, steps: seq<Step>, i: nat, k: nat, w: WorkerId, result: ExtractionState)
    requires Run(states, steps) && i < k < |steps| && Quiet(steps, w, i + 1, k)
    requires steps[i] == Process(w, result) && steps[k] in {Save(w), Raise(w, true)}
    ensures IsWorking(states[i], w)
    ensures var d := CurrentDoc(states[i], w);
      states[k + 1].docs == if d in states[k].docs then states[k].docs[d := result] else states[k].docs
    ensures steps[k] == Save(w) ==> CurrentDoc(states[i], w) in states[k].docs
  {
    var s := states[i];
    assert Enabled(s, steps[i]) && states[i + 1] == Apply(s, steps[i]);
    assert Enabled(states[k], steps[k]) && states[k + 1] == Apply(states[k], steps[k]);
    SameDoc(states, steps, w, i + 1, k);
  }

  lemma NotNew(s: State, step: Step, w: WorkerId)
    requires Enabled(s, step) && !StepOf(step, w) && w in Apply(s, step).workers
    ensures w in s.workers
  {
  }

  lemma WorkingBefore(s: State, step: Step, w: WorkerId)
    requires Enabled(s, step) && !StepOf(step, w) && IsWorking(Apply(s, step), w) && Inv(s)
    ensures IsWorking(s, w) && s.workers[w] == Apply(s, step).workers[w]
    ensures CurrentDoc(s, w) == CurrentDoc(Apply(s, step), w)
  {
    NotNew(s, step, w);
    StepsAreOwn(s, step, w);
    StepKeeps(s, step);
    HeldIsPublished(s, w);
  }

  lemma HeldIsPublished(s: State, w: WorkerId)
    requires Inv(s) && w in s.workers && s.workers[w].Working?
    ensures IsWorking(s, w)
  {
    assert WorkerOk(s, w);
    match s.workers[w].source {
      case FromStream(batch, at) => assert Held(s.workers[w])[at] == batch[at];
      case FromQueue(_) =>
    }
  }

  /** A working worker has made a step, and none since the last one. */
  lemma {:induction false} LastStep(states: seq<State>, steps: seq<Step>, k: nat, w: WorkerId) returns (i: nat)
    requires Run(states, steps) && k <= |steps| && IsWorking(states[k], w)
    ensures i < k && StepOf(steps[i], w) && Quiet(steps, w, i + 1, k)
    ensures Enabled(states[i], steps[i]) && states[i + 1] == Apply(states[i], steps[i])
    ensures IsWorking(states[i + 1], w) && states[i + 1].workers[w] == states[k].workers[w]
    ensures CurrentDoc(states[i + 1], w) == CurrentDoc(states[k], w)
    decreases k
  {
    hide Apply, Enabled, Inv;
    NobodyAtFirst(states, steps);
    i := k - 1;
    if !StepOf(steps[i], w) {
      RunKeepsInv(states, steps, i);
      WorkingBefore(states[i], steps[i], w);
      i := LastStep(states, steps, k - 1, w);
    }
  }

  lemma NobodyAtFirst(states: seq<State>, steps: seq<Step>)
    requires Run(states, steps)
    ensures states[0].workers == map[]
  {
    assert Init(states[0]);
  }

  /** Which step of a worker leads to each phase, at the same document. */
  lemma PhaseStep(s: State, step: Step, w: WorkerId)
    requires Enabled(s, step) && StepOf(step, w) && IsWorking(Apply(s, step), w)
    ensures var phase := Apply(s, step).workers[w].phase;
      && (phase.Saving? ==> step == Process(w, phase.result))
      && (phase.Running? ==> step == Load(w))
      && (phase.Loading? ==> step == Look(w))
      && (!phase.Looking? ==> IsWorking(s, w) && CurrentDoc(s, w) == CurrentDoc(Apply(s, step), w))
      && (phase.Loading? ==> CurrentDoc(s, w) in s.docs && s.docs[CurrentDoc(s, w)] == PENDING)
  {
  }

  /** A stored state changes only when a row is inserted as PENDING, or at a save, or at one that raises
      after its update, of the worker that ran the pipeline for this very document with this result. */
  lemma ChangesAreResults(states: seq<State>, steps: seq<Step>, k: nat, d: DocId)
    requires Run(states, steps) && k < |steps|
    requires d in states[k + 1].docs && (d in states[k].docs ==> states[k + 1].docs[d] != states[k].docs[d])
    ensures var e := states[k + 1].docs[d];
      || (steps[k] == Create(d, true) && e == PENDING)
      || exists i, w :: && 0 <= i < k && steps[i] == Process(w, e) && Quiet(steps, w, i + 1, k)
                        && IsWorking(states[i], w) && CurrentDoc(states[i], w) == d
                        && steps[k] in {Save(w), Raise(w, true)}
  {
    var s := states[k];
    RunKeepsInv(states, steps, k);
    assert Enabled(s, steps[k]) && states[k + 1] == Apply(s, steps[k]);
    if steps[k].Save? || steps[k].Raise? {
      var w := steps[k].w;
      HeldIsPublished(s, w);
      if s.workers[w].phase.Saving? {
        var i := LastStep(states, steps, k, w);
        PhaseStep(states[i], steps[i], w);
      }
    }
  }

  /** Rows leave only when they are removed, and an insertion that took place gives a PENDING row. */
  lemma RowsComeAndGo(states: seq<State>, steps: seq<Step>, k: nat, d: DocId)
    requires Run(states, steps) && k < |steps|
    ensures d in states[k].docs && d !in states[k + 1].docs ==> steps[k] == Remove(d)
    ensures d !in states[k].docs && d in states[k + 1].docs <==> steps[k] == Create(d, true)
    ensures steps[k] == Create(d, true) ==> states[k + 1].docs[d] == PENDING
  {
    RunKeepsInv(states, steps, k);
    assert Enabled(states[k], steps[k]) && states[k + 1] == Apply(states[k], steps[k]);
  }

  // ---------- what is processed ----------

  /** The pipeline runs only on a document its worker found PENDING; all it did since was to load it. */
  lemma ProcessedWasPending(states: seq<State>, steps: seq<Step>, k: nat, w: WorkerId, result: ExtractionState)
      returns (i: nat, l: nat)
    requires Run(states, steps) && k < |steps| && steps[k] == Process(w, result)
    ensures i < l < k && steps[i] == Look(w) && steps[l] == Load(w)
    ensures Quiet(steps, w, i + 1, l) && Quiet(steps, w, l + 1, k)
    ensures IsWorking(states[i], w) && IsWorking(states[k], w)
    ensures var d := CurrentDoc(states[k], w);
      CurrentDoc(states[i], w) == d && d in states[i].docs && states[i].docs[d] == PENDING
  {
    assert Enabled(states[k], steps[k]);
    l := LastStep(states, steps, k, w);
    PhaseStep(states[l], steps[l], w);
    i := LastStep(states, steps, l, w);
    PhaseStep(states[i], steps[i], w);
  }

  /** A worker that finds its document PENDING goes on to load it; otherwise the attempt ends without an
      exception and with nothing stored. */
  lemma LookDecides(states: seq<State>, steps: seq<Step>, k: nat, w: WorkerId)
    requires Run(states, steps) && k < |steps| && steps[k] == Look(w)
    ensures states[k + 1].docs == states[k].docs && IsWorking(states[k], w)
    ensures var d := CurrentDoc(states[k], w);
      var t := states[k + 1];
      if d in states[k].docs && states[k].docs[d] == PENDING then
        InPhase(t, w, Loading) && CurrentDoc(t, w) == d && t.ended == states[k].ended
      else !InPhase(t, w, Loading)
           && forall m :: m in t.ended && m !in states[k].ended ==> !t.ended[m] && m < |t.stream| && t.stream[m] == d
  {
    assert Enabled(states[k], steps[k]) && states[k + 1] == Apply(states[k], steps[k]);
    RunKeepsInv(states, steps, k);
    assert WorkerOk(states[k], w);
  }

  // ---------- stream and queue ----------

  function Published(steps: seq<Step>): seq<DocId>
  {
    if steps == [] then []
    else
      var k := |steps| - 1;
      Published(steps[..k]) + if steps[k].Publish? then [steps[k].doc] else []
  }

  function Enqueued(steps: seq<Step>): seq<DocId>
  {
    if steps == [] then []
    else
      var k := |steps| - 1;
      Enqueued(steps[..k]) + if steps[k].Enqueue? then [steps[k].doc] else []
  }

  function Pops(steps: seq<Step>): nat
  {
    if steps == [] then 0
    else
      var k := |steps| - 1;
      Pops(steps[..k]) + if steps[k].Pop? then 1 else 0
  }

  /** The workers of all messages read, in the order of delivery. */
  function Deliveries(steps: seq<Step>): seq<WorkerId>
  {
    if steps == [] then []
    else
      var k := |steps| - 1;
      Deliveries(steps[..k]) + match steps[k]
                               case Read(w, n) => Repeat(w, n)
                               case ReadFails(w, n) => Repeat(w, n)
                               case _ => []
  }

  /** At every point of a run the stream is what was published, the owners are the workers of all reads,
      and the queue is what was enqueued less what was popped, first in first out. */
  lemma {:induction false} TablesAreHistory(states: seq<State>, steps: seq<Step>, k: nat)
    requires Run(states, steps) && k <= |steps|
    ensures states[k].stream == Published(steps[..k]) && states[k].owner == Deliveries(steps[..k])
    ensures Pops(steps[..k]) <= |Enqueued(steps[..k])|
    ensures states[k].queue == Enqueued(steps[..k])[Pops(steps[..k])..]
    decreases k
  {
    assert Init(states[0]);
    if k > 0 {
      TablesAreHistory(states, steps, k - 1);
      assert steps[..k][..k - 1] == steps[..k - 1] && steps[..k][k - 1] == steps[k - 1];
      assert Enabled(states[k - 1], steps[k - 1]) && states[k] == Apply(states[k - 1], steps[k - 1]);
      TablesStep(states[k - 1], steps[k - 1]);
      hide Apply, Enabled;
      HistoryStep(steps[..k]);
      if steps[k - 1].Pop? { SplitQueue(Enqueued(steps[..k - 1]), Pops(steps[..k - 1])); }
      if steps[k - 1].Enqueue? { LongerQueue(Enqueued(steps[..k - 1]), steps[k - 1].doc, Pops(steps[..k - 1])); }
    }
  }

  lemma SplitQueue(all: seq<DocId>, n: nat)
    requires n <= |all|
    ensures n < |all| ==> all[n..][1..] == all[n + 1..]
  {
  }

  lemma LongerQueue(all: seq<DocId>, d: DocId, n: nat)
    requires n <= |all|
    ensures all[n..] + [d] == (all + [d])[n..]
  {
  }

  lemma TablesStep(s: State, step: Step)
    requires Enabled(s, step)
    ensures Apply(s, step).stream == s.stream + if step.Publish? then [step.doc] else []
    ensures Apply(s, step).owner == s.owner + if step.Read? || step.ReadFails? then Repeat(step.w, step.n) else []
    ensures Apply(s, step).queue ==
      if step.Enqueue? then s.queue + [step.doc] else if step.Pop? then s.queue[1..] else s.queue
    ensures step.Pop? ==> s.queue != []
  {
    assert s.stream + [] == s.stream && s.owner + [] == s.owner;
  }

  lemma HistoryStep(steps: seq<Step>)
    requires steps != []
    ensures var k := |steps| - 1;
      && Published(steps) == Published(steps[..k]) + (if steps[k].Publish? then [steps[k].doc] else [])
      && Enqueued(steps) == (if steps[k].Enqueue? then Enqueued(steps[..k]) + [steps[k].doc] else Enqueued(steps[..k]))
      && Pops(steps) == Pops(steps[..k]) + (if steps[k].Pop? then 1 else 0)
      && Deliveries(steps) ==
         Deliveries(steps[..k])
         + if steps[k].Read? || steps[k].ReadFails? then Repeat(steps[k].w, steps[k].n) else []
  {
    var k := |steps| - 1;
    assert Enqueued(steps[..k]) + [] == Enqueued(steps[..k]);
  }

  /** The `j`-th pop, by whichever worker, takes the `j`-th job that was enqueued. */
  lemma PoppedInOrder(states: seq<State>, steps: seq<Step>, k: nat, w: WorkerId)
    requires Run(states, steps) && k < |steps| && steps[k] == Pop(w)
    ensures Pops(steps[..k]) < |Enqueued(steps[..k])|
    ensures InPhase(states[k + 1], w, Looking)
    ensures CurrentDoc(states[k + 1], w) == Enqueued(steps[..k])[Pops(steps[..k])]
  {
    TablesAreHistory(states, steps, k);
    assert Enabled(states[k], steps[k]) && states[k + 1] == Apply(states[k], steps[k]);
  }

  // ---------- how messages end ----------

  /** The step that ends an attempt at a message is its worker's, and it is recorded as raised exactly
      when it is an exception. */
  lemma EndIsRecorded(states: seq<State>, steps: seq<Step>, k: nat, m: MessageId)
    requires Run(states, steps) && k < |steps|
    requires m in states[k + 1].ended && m !in states[k].ended
    ensures states[k + 1].ended[m] <==> steps[k].Raise?
  {
    assert Enabled(states[k], steps[k]) && states[k + 1] == Apply(states[k], steps[k]);
  }

  /** A message is acknowledged only by its worker's acknowledgement, which covers its whole batch, and is
      lost only by a crash of that worker, a read that fails or an acknowledgement that does. */
  lemma AckedAndLostBy(states: seq<State>, steps: seq<Step>, k: nat, m: MessageId)
    requires Run(states, steps) && k < |steps|
    ensures m in states[k + 1].acked && m !in states[k].acked ==>
      m < |states[k].owner| && steps[k] in {Ack(states[k].owner[m]), AckFails(states[k].owner[m], true)}
    ensures m in states[k + 1].lost && m !in states[k].lost ==>
      m < |states[k + 1].owner| &&
      (steps[k].ReadFails? || steps[k] in {Crash(states[k].owner[m]), AckFails(states[k].owner[m], false)})
  {
    assert Enabled(states[k], steps[k]) && states[k + 1] == Apply(states[k], steps[k]);
    RunKeepsInv(states, steps, k);
    RunKeepsInv(states, steps, k + 1);
    if steps[k].Ack? || steps[k].AckFails? || steps[k].Crash? {
      HeldIsOpen(states[k], steps[k].w);
    }
  }

  /** A worker that crashed makes no further step. */
  lemma {:induction false} DeadStaysDead(states: seq<State>, steps: seq<Step>, i: nat, k: nat, w: WorkerId)
    requires Run(states, steps) && i < k < |steps| && steps[i] == Crash(w)
    ensures w in states[k].workers && states[k].workers[w] == Dead && !StepOf(steps[k], w)
    decreases k
  {
    var j := k - 1;
    assert Enabled(states[j], steps[j]) && states[k] == Apply(states[j], steps[j]);
    assert Enabled(states[k], steps[k]);
    if i < j {
      DeadStaysDead(states, steps, i, j, w);
      StepsAreOwn(states[j], steps[j], w);
    }
  }

  // ---------- nothing blocks a worker ----------

  /** A run followed by one more step. */
  lemma Extend(states: seq<State>, steps: seq<Step>, step: Step) returns (longer: seq<State>)
    requires Run(states, steps) && Enabled(states[|steps|], step)
    ensures Run(longer, steps + [step]) && states <= longer
    ensures longer[|steps| + 1] == Apply(states[|steps|], step)
  {
    hide Apply, Enabled, Init;
    longer := states + [Apply(states[|steps|], step)];
    var all := steps + [step];
    forall i | 0 <= i < |all| ensures Enabled(longer[i], all[i]) && longer[i + 1] == Apply(longer[i], all[i]) {
      if i < |steps| { assert all[i] == steps[i] && longer[i] == states[i] && longer[i + 1] == states[i + 1]; }
    }
  }

  /** How many own steps a worker is from the end of its batch, if each attempt is as long as it can be. */
  function Ahead(wk: Worker): nat
  {
    match wk
    case Working(source, phase) =>
      var now := match phase
                 case Looking => 4
                 case Loading => 3
                 case Running => 2
                 case Saving(_) => 1;
      (match source
       case FromStream(batch, at) => (if at < |batch| then 4 * (|batch| - at - 1) else 0) + now + 1
       case FromQueue(_) => now)
    case Acking(_) => 1
    case _ => 0
  }

  /** The step a worker makes next when nothing raises. */
  function NextStep(s: State, w: WorkerId): Step
    requires w in s.workers && (IsWorking(s, w) || s.workers[w].Acking?)
  {
    match s.workers[w]
    case Acking(_) => Ack(w)
    case Working(_, phase) =>
      match phase
      case Looking => Look(w)
      case Loading => Load(w)
      case Running => Process(w, COMPLETED)
      case Saving(_) => if CurrentDoc(s, w) in s.docs then Save(w) else Raise(w, false)
  }

  lemma NextStepAdvances(s: State, w: WorkerId)
    requires Inv(s) && w in s.workers && (IsWorking(s, w) || s.workers[w].Acking?)
    ensures Enabled(s, NextStep(s, w))
    ensures var t := Apply(s, NextStep(s, w));
      && w in t.workers && Ahead(t.workers[w]) < Ahead(s.workers[w])
      && t.workers[w] != Dead
      && (Held(t.workers[w]) == Held(s.workers[w]) || Members(Held(s.workers[w])) <= t.acked)
      && s.acked <= t.acked
  {
    assert WorkerOk(s, w);
  }

  lemma NotIdle(s: State, w: WorkerId)
    requires Inv(s) && w in s.workers && s.workers[w] != Idle && s.workers[w] != Dead
    ensures IsWorking(s, w) || s.workers[w].Acking?
  {
    if s.workers[w].Working? { HeldIsPublished(s, w); }
  }

  /** From any point of any run a worker that has not crashed can, by its own steps alone, come to rest with
      everything it holds acknowledged: no other worker and no document can block it. */
  lemma {:induction false} CanFinish(states: seq<State>, steps: seq<Step>, w: WorkerId)
      returns (longer: seq<State>, more: seq<Step>)
    requires Run(states, steps) && Live(states[|steps|], w)
    ensures Run(longer, more) && states <= longer && steps <= more
    ensures forall k :: |steps| <= k < |more| ==> StepOf(more[k], w)
    ensures var s, t := states[|steps|], longer[|more|];
      w in t.workers && t.workers[w] == Idle && Members(Held(s.workers[w])) <= t.acked && s.acked <= t.acked
    decreases Ahead(states[|steps|].workers[w])
  {
    RunLength(states, steps);
    hide Apply, Enabled, Inv, Run, Held;
    var s := states[|steps|];
    RunKeepsInv(states, steps, |steps|);
    if s.workers[w] == Idle {
      longer, more := states, steps;
      IdleHoldsNothing();
    } else {
      NotIdle(s, w);
      var step := NextStep(s, w);
      NextStepAdvances(s, w);
      NextStepIsOwn(s, w);
      var onward := Extend(states, steps, step);
      RunLength(onward, steps + [step]);
      longer, more := CanFinish(onward, steps + [step], w);
      forall k | |steps| <= k < |more| ensures StepOf(more[k], w) {
        if k == |steps| { assert more[k] == (steps + [step])[k]; }
      }
    }
  }

  lemma RunLength(states: seq<State>, steps: seq<Step>)
    requires Run(states, steps)
    ensures |states| == |steps| + 1
  {
  }

  lemma IdleHoldsNothing()
    ensures Members(Held(Idle)) == {}
  {
  }

  lemma NextStepIsOwn(s: State, w: WorkerId)
    requires w in s.workers && (IsWorking(s, w) || s.workers[w].Acking?)
    ensures StepOf(NextStep(s, w), w)
  {
  }

  /** An idle worker can take and acknowledge every message not delivered yet. */
  lemma CanReadAll(states: seq<State>, steps: seq<Step>, w: WorkerId) returns (longer: seq<State>, more: seq<Step>)
    requires Run(states, steps)
    requires w in states[|steps|].workers && states[|steps|].workers[w] == Idle
    ensures Run(longer, more) && states <= longer && steps <= more
    ensures var s, t := states[|steps|], longer[|more|];
      && w in t.workers && t.workers[w] == Idle && |t.owner| >= |s.stream|
      && forall m :: |s.owner| <= m < |s.stream| ==> m in t.acked
  {
    var s := states[|steps|];
    RunKeepsInv(states, steps, |steps|);
    var n := |s.stream| - |s.owner|;
    if n == 0 {
      longer, more := states, steps;
    } else {
      var onward := Extend(states, steps, Read(w, n));
      var t := onward[|steps| + 1];
      assert Held(t.workers[w]) == MessageRange(|s.owner|, n);
      longer, more := CanFinish(onward, steps + [Read(w, n)], w);
      RunGoesForward(longer, more, |steps| + 1, |more|);
      assert longer[|steps| + 1] == t;
      forall m | |s.owner| <= m < |s.stream| ensures m in longer[|more|].acked {
        assert MessageRange(|s.owner|, n)[m - |s.owner|] == m;
      }
    }
  }

  /** An idle worker can take the oldest job and be idle again, with the queue one shorter. */
  lemma CanPop(states: seq<State>, steps: seq<Step>, w: WorkerId) returns (longer: seq<State>, more: seq<Step>)
    requires Run(states, steps)
    requires w in states[|steps|].workers && states[|steps|].workers[w] == Idle && states[|steps|].queue != []
    ensures Run(longer, more) && states <= longer && steps + [Pop(w)] <= more
    ensures w in longer[|more|].workers && longer[|more|].workers[w] == Idle
  {
    var onward := Extend(states, steps, Pop(w));
    longer, more := CanFinish(onward, steps + [Pop(w)], w);
  }

  /** A document can be created, published, read, processed, saved and acknowledged, with either result. */
  lemma SomeDocumentIsProcessed(d: DocId, result: ExtractionState) returns (states: seq<State>, steps: seq<Step>)
    requires result == COMPLETED || result == FAILED
    ensures Run(states, steps)
    ensures var t := states[|steps|]; t.docs == map[d := result] && t.acked == {0} && t.stream == [d]
  {
    states, steps := [State([], [], {}, [], map[], {}, map[], map[], {})], [];
    states := Extend(states, steps, Create(d, true));
    steps := steps + [Create(d, true)];
    states := Extend(states, steps, Publish(d));
    steps := steps + [Publish(d)];
    states := Extend(states, steps, Start(0));
    steps := steps + [Start(0)];
    states := Extend(states, steps, Read(0, 1));
    steps := steps + [Read(0, 1)];
    var s := states[|steps|];
    assert MessageRange(0, 1) == [0];
    assert s.workers[0] == Working(FromStream([0], 0), Looking);
    states, steps := ReadIsProcessed(states, steps, d, result);
  }

  /** The state with worker 0 elsewhere. */
  function At(s: State, wk: Worker): State
  {
    s.(workers := s.workers[0 := wk])
  }

  lemma ThreeSteps(s: State, d: DocId, result: ExtractionState)
    requires result == COMPLETED || result == FAILED
    requires s.docs == map[d := PENDING] && s.stream == [d]
    requires 0 in s.workers && s.workers[0] == Working(FromStream([0], 0), Looking)
    ensures var source := FromStream([0], 0);
      var a, b := At(s, Working(source, Loading)), At(s, Working(source, Running));
      var c := At(s, Working(source, Saving(result)));
      && Enabled(s, Look(0)) && Apply(s, Look(0)) == a
      && Enabled(a, Load(0)) && Apply(a, Load(0)) == b
      && Enabled(b, Process(0, result)) && Apply(b, Process(0, result)) == c
  {
  }

  lemma TwoSteps(s: State, d: DocId, result: ExtractionState)
    requires s.docs == map[d := PENDING] && s.stream == [d] && s.acked == {}
    requires 0 in s.workers && s.workers[0] == Working(FromStream([0], 0), Saving(result))
    ensures Enabled(s, Save(0)) && Enabled(Apply(s, Save(0)), Ack(0))
    ensures var t := Apply(Apply(s, Save(0)), Ack(0)); t.docs == map[d := result] && t.acked == {0} && t.stream == [d]
  {
    var a := Apply(s, Save(0));
    assert a.docs == map[d := result] && a.workers[0] == Acking([0]);
    assert Members([0]) == {0};
  }

  lemma ReadIsProcessed(states: seq<State>, steps: seq<Step>, d: DocId, result: ExtractionState)
      returns (longer: seq<State>, more: seq<Step>)
    requires result == COMPLETED || result == FAILED
    requires Run(states, steps)
    requires var s := states[|steps|];
      && s.docs == map[d := PENDING] && s.stream == [d] && s.acked == {}
      && 0 in s.workers && s.workers[0] == Working(FromStream([0], 0), Looking)
    ensures Run(longer, more)
    ensures var t := longer[|more|]; t.docs == map[d := result] && t.acked == {0} && t.stream == [d]
  {
    longer, more := states, steps;
    ThreeSteps(states[|steps|], d, result);
    TwoSteps(At(states[|steps|], Working(FromStream([0], 0), Saving(result))), d, result);
    hide Apply, Enabled, Init;
    longer := Extend(longer, more, Look(0));
    more := more + [Look(0)];
    longer := Extend(longer, more, Load(0));
    more := more + [Load(0)];
    longer := Extend(longer, more, Process(0, result));
    more := more + [Process(0, result)];
    longer := Extend(longer, more, Save(0));
    more := more + [Save(0)];
    longer := Extend(longer, more, Ack(0));
    more := more + [Ack(0)];
  }
}
