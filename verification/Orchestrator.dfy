module Orchestrator {
  // The per-document pipeline: Tier A, B and C with a state record written after each, retried as a
  // whole when anything raises. Every tier run and every record write may raise; which of them do is
  // an arbitrary oracle over the sequence of calls.

  import opened Text
  import opened Models

  const MAX_RETRIES := 3

  type JobId = nat

  datatype Job = Job(docId: DocId, state: ExtractionState, tierA: nat, tierB: nat, tierC: nat,
                     retryCount: nat, completed: bool, errorAt: Option<nat>)

  /** The answer to one tier run or record write; a record write may raise and yet be stored. */
  datatype Reply = Raises(stored: bool) | Gives(n: nat)

  type Env = nat -> Reply

  /** A record write that returned: the state announced for it and the job it stored. */
  datatype Write = Write(announced: ExtractionState, record: Job)

  function NewJob(docId: DocId): Job
  {
    Job(docId, PENDING, 0, 0, 0, 0, false, None)
  }

  // ---------- one attempt ----------

  /** The state announced by write `k` of an attempt. */
  function TierState(k: nat): ExtractionState
  {
    if k == 0 then TIER_A_DONE else if k == 1 then TIER_B_DONE else if k == 2 then TIER_C_DONE else COMPLETED
  }

  /** How far an attempt got: the writes made, the next call number, and the job at that point. */
  datatype Progress = Progress(writes: seq<Write>, next: nat, job: Job, ok: bool)

  /** One record write; on failure the attempt ends with what it had. */
  function Record(p: Progress, env: Env, announced: ExtractionState): Progress
    requires p.ok
  {
    if env(p.next).Raises? then p.(next := p.next + 1, ok := false)
    else p.(writes := p.writes + [Write(announced, p.job)], next := p.next + 1)
  }

  /** One of the three tiers: run it, note its count in the job, write the record. Tier C makes no
      call when Tier B found no windows. */
  function RunTier(p: Progress, env: Env, tier: nat): Progress
    requires p.ok
  {
    if tier == 2 && p.job.tierB == 0 then Record(p.(job := Noted(p.job, tier, 0)), env, TierState(tier))
    else
      match env(p.next)
      case Raises(_) => p.(next := p.next + 1, ok := false)
      case Gives(n) => Record(p.(next := p.next + 1, job := Noted(p.job, tier, n)), env, TierState(tier))
  }

  function Noted(job: Job, tier: nat, n: nat): Job
  {
    if tier == 0 then job.(tierA := n) else if tier == 1 then job.(tierB := n) else job.(tierC := n)
  }

  /** The job already reads COMPLETED when its last write is made. */
  function Complete(p: Progress, env: Env): Progress
    requires p.ok
  {
    Record(p.(job := p.job.(state := COMPLETED, completed := true)), env, COMPLETED)
  }

  /** Tiers `tier..3`, then completion; the first failure ends the attempt. */
  function FromTier(p: Progress, env: Env, tier: nat): Progress
    requires p.ok && tier <= 3
    decreases 3 - tier
  {
    if tier == 3 then Complete(p, env)
    else
      var q := RunTier(p, env, tier);
      if q.ok then FromTier(q, env, tier + 1) else q
  }

  function Attempt(env: Env, next: nat, job: Job): Progress
  {
    FromTier(Progress([], next, job, true), env, 0)
  }

  // ---------- the retry loop ----------

  /** Everything a call does: the writes of each attempt, the final FAILED write if any, and the job
      returned, or nothing when an exception left the call. */
  datatype Outcome = Outcome(attempts: seq<seq<Write>>, last: seq<Write>, next: nat, result: Option<Job>)

  function FailedJob(job: Job, retries: nat): Job
  {
    job.(state := FAILED, completed := true, errorAt := Some(retries))
  }

  /** One pass of the retry loop: an attempt and what follows from how it ended. */
  datatype Round = Round(writes: seq<Write>, last: seq<Write>, next: nat, again: bool, job: Job, result: Option<Job>)

  function RoundOf(env: Env, next: nat, job: Job, retries: nat): (r: Round)
    ensures r.again ==> retries + 1 < MAX_RETRIES && r.job.retryCount == retries + 1
  {
    var p := Attempt(env, next, job);
    if p.ok then Round(p.writes, [], p.next, false, p.job, Some(p.job))
    else
      var counted := p.job.(retryCount := retries + 1);
      if retries + 1 < MAX_RETRIES then Round(p.writes, [], p.next, true, counted, None)
      else
        var failed := FailedJob(counted, retries + 1);
        if env(p.next).Raises? then Round(p.writes, [], p.next + 1, false, failed, None)
        else Round(p.writes, [Write(FAILED, failed)], p.next + 1, false, failed, Some(failed))
  }

  function Retry(env: Env, next: nat, job: Job, retries: nat): Outcome
    requires retries < MAX_RETRIES
    decreases MAX_RETRIES - retries
  {
    var r := RoundOf(env, next, job, retries);
    if r.again then
      var rest := Retry(env, r.next, r.job, retries + 1);
      rest.(attempts := [r.writes] + rest.attempts)
    else Outcome([r.writes], r.last, r.next, r.result)
  }

  /** All writes of the retry loop in order. */
  function AllWrites(o: Outcome): seq<Write>
  {
    Flatten(o.attempts) + o.last
  }

  /** A whole call: the PENDING write, then the retry loop. */
  function Process(env: Env, next: nat, docId: DocId): Outcome
  {
    if env(next).Raises? then Outcome([], [], next + 1, None) else Retry(env, next + 1, NewJob(docId), 0)
  }

  /** All writes of a call in order. */
  function Writes(env: Env, next: nat, docId: DocId): seq<Write>
  {
    var o := Process(env, next, docId);
    if env(next).Raises? then [] else [Write(PENDING, NewJob(docId))] + AllWrites(o)
  }

  // ---------- properties ----------

  /** The state stored with write `k` of an attempt that started with `before`. */
  function StoredState(before: ExtractionState, k: nat): ExtractionState
  {
    if k == 3 then COMPLETED else before
  }

  /** The writes of an attempt announce the tier states in order; their records carry the retry
      count the attempt started with. */
  ghost predicate AttemptOk(ws: seq<Write>, retries: nat, before: ExtractionState)
  {
    forall k :: 0 <= k < |ws| ==>
      ws[k].announced == TierState(k) && ws[k].record.state == StoredState(before, k) &&
          ws[k].record.retryCount == retries
  }

  /** A progress whose writes are those of an attempt on `job` so far. */
  ghost predicate OnTrack(p: Progress, job: Job)
  {
    AttemptOk(p.writes, job.retryCount, job.state) && p.job.retryCount == job.retryCount
  }

  lemma TierKeepsTrack(p: Progress, env: Env, tier: nat, job: Job)
    requires p.ok && tier < 3 && |p.writes| == tier && OnTrack(p, job) && p.job.state == job.state
    ensures var q := RunTier(p, env, tier);
      && OnTrack(q, job) && q.job.state == job.state
      && |q.writes| == (if q.ok then tier + 1 else tier) && p.next < q.next <= p.next + 2
  {
  }

  lemma CompletionKeepsTrack(p: Progress, env: Env, job: Job)
    requires p.ok && |p.writes| == 3 && OnTrack(p, job)
    ensures var q := Complete(p, env);
      && OnTrack(q, job) && q.job.state == COMPLETED && 3 <= |q.writes| <= 4 && (q.ok <==> |q.writes| == 4)
      && (q.ok ==> q.writes[3].record == q.job) && q.next == p.next + 1
  {
  }

  lemma {:induction false} FromTierWrites(p: Progress, env: Env, tier: nat, job: Job)
    requires p.ok && tier <= 3 && |p.writes| == tier && OnTrack(p, job) && p.job.state == job.state
    ensures var q := FromTier(p, env, tier);
      && OnTrack(q, job)
      && |q.writes| <= 4 && (q.ok <==> |q.writes| == 4)
      && q.job.state == (if |q.writes| >= 3 then COMPLETED else job.state)
      && (q.ok ==> q.writes[3].record == q.job)
      && p.next < q.next <= p.next + 7 - 2 * tier
    decreases 3 - tier
  {
    hide RunTier, Complete, OnTrack;
    if tier == 3 {
      CompletionKeepsTrack(p, env, job);
    } else {
      TierKeepsTrack(p, env, tier, job);
      var q := RunTier(p, env, tier);
      if q.ok {
        FromTierWrites(q, env, tier + 1, job);
      }
    }
  }

  /** One attempt announces a prefix of the tier states, all of them exactly when it succeeds. The
      job keeps the state it started with until the last write is due, and reads COMPLETED from
      then on even if that write raises. */
  lemma AttemptWrites(env: Env, next: nat, job: Job)
    ensures var p := Attempt(env, next, job);
      && AttemptOk(p.writes, job.retryCount, job.state)
      && |p.writes| <= 4 && (p.ok <==> |p.writes| == 4)
      && p.job.state == (if |p.writes| >= 3 then COMPLETED else job.state)
      && p.job.retryCount == job.retryCount
      && (p.ok ==> p.writes[3].record == p.job)
      && next < p.next <= next + 7
  {
    FromTierWrites(Progress([], next, job, true), env, 0, job);
  }

  /** An earlier attempt of the list raised on its COMPLETED write. */
  predicate LostCompletion(attempts: seq<seq<Write>>, i: nat)
    requires i <= |attempts|
  {
    exists j :: 0 <= j < i && |attempts[j]| == 3
  }

  /** The attempts of a call, when `retries` came before them. */
  ghost predicate WellRun(attempts: seq<seq<Write>>, retries: nat, start: ExtractionState)
  {
    && 1 <= |attempts| <= MAX_RETRIES - retries
    && (forall i :: 0 <= i < |attempts| ==> |attempts[i]| <= 4 && (i < |attempts| - 1 ==> |attempts[i]| < 4))
    && (forall i :: 0 <= i < |attempts| ==>
          AttemptOk(attempts[i], retries + i, if LostCompletion(attempts, i) then COMPLETED else start))
  }

  /** How a call ended. */
  ghost predicate WellEnded(env: Env, o: Outcome, retries: nat)
  {
    && o.attempts != []
    && var final := o.attempts[|o.attempts| - 1];
    if |final| == 4 then
      && o.last == [] && o.result == Some(final[3].record)
      && final[3].record.state == COMPLETED && final[3].announced == COMPLETED
    else
      && |o.attempts| == MAX_RETRIES - retries && o.next > 0
      && match o.result
         case None => o.last == [] && env(o.next - 1).Raises?
         case Some(job) =>
           && o.last == [Write(FAILED, job)] && !env(o.next - 1).Raises?
           && job.state == FAILED && job.retryCount == MAX_RETRIES && job.errorAt == Some(MAX_RETRIES)
  }

  /** What a round that is not repeated leaves is well ended. */
  lemma FinalRound(env: Env, next: nat, job: Job, retries: nat)
    requires retries < MAX_RETRIES && job.retryCount == retries && !RoundOf(env, next, job, retries).again
    ensures var r := RoundOf(env, next, job, retries);
      WellEnded(env, Outcome([r.writes], r.last, r.next, r.result), retries) && r.next <= next + 8
  {
    AttemptWrites(env, next, job);
  }

  lemma OnlyAttempt(ws: seq<Write>, retries: nat, start: ExtractionState)
    requires retries < MAX_RETRIES && |ws| <= 4 && AttemptOk(ws, retries, start)
    ensures WellRun([ws], retries, start)
  {
    assert !LostCompletion([ws], 0);
  }

  lemma {:induction false} RetryIsWellRun(env: Env, next: nat, job: Job, retries: nat)
    requires retries < MAX_RETRIES && job.retryCount == retries
    ensures WellRun(Retry(env, next, job, retries).attempts, retries, job.state)
    decreases MAX_RETRIES - retries
  {
    hide Attempt, AttemptOk, LostCompletion;
    AttemptWrites(env, next, job);
    var r := RoundOf(env, next, job, retries);
    OnlyAttempt(r.writes, retries, job.state);
    if r.again {
      RetryIsWellRun(env, r.next, r.job, retries + 1);
      PrependAttempt(Retry(env, r.next, r.job, retries + 1).attempts, r.writes, retries, job.state, r.job.state);
    }
  }

  lemma {:induction false} RetryIsWellEnded(env: Env, next: nat, job: Job, retries: nat)
    requires retries < MAX_RETRIES && job.retryCount == retries
    ensures WellEnded(env, Retry(env, next, job, retries), retries)
    ensures Retry(env, next, job, retries).next <= next + 7 * (MAX_RETRIES - retries) + 1
    decreases MAX_RETRIES - retries
  {
    var r := RoundOf(env, next, job, retries);
    if r.again {
      AttemptWrites(env, next, job);
      RetryIsWellEnded(env, r.next, r.job, retries + 1);
      EndedAfter(env, Retry(env, r.next, r.job, retries + 1), r.writes, retries);
    } else {
      FinalRound(env, next, job, retries);
    }
  }

  lemma EndedAfter(env: Env, rest: Outcome, first: seq<Write>, retries: nat)
    requires WellEnded(env, rest, retries + 1)
    ensures WellEnded(env, rest.(attempts := [first] + rest.attempts), retries)
  {
    var all := [first] + rest.attempts;
    assert all[|all| - 1] == rest.attempts[|rest.attempts| - 1];
  }

  lemma PrependAttempt(rest: seq<seq<Write>>, first: seq<Write>, retries: nat, start: ExtractionState,
      next: ExtractionState)
    requires WellRun(rest, retries + 1, next)
    requires |first| < 4 && AttemptOk(first, retries, start)
    requires next == if |first| == 3 then COMPLETED else start
    ensures WellRun([first] + rest, retries, start)
  {
    var all: seq<seq<Write>> := [first] + rest;
    forall i | 0 <= i < |all|
      ensures AttemptOk(all[i], retries + i, if LostCompletion(all, i) then COMPLETED else start)
    {
      if i > 0 {
        assert all[i] == rest[i - 1];
        LostCompletionShift(first, rest, i);
      }
    }
  }

  lemma LostCompletionShift(first: seq<Write>, rest: seq<seq<Write>>, i: nat)
    requires 1 <= i <= |rest| + 1
    ensures LostCompletion([first] + rest, i) <==> |first| == 3 || LostCompletion(rest, i - 1)
  {
    var all := [first] + rest;
    if LostCompletion(rest, i - 1) {
      var j :| 0 <= j < i - 1 && |rest[j]| == 3;
      assert all[j + 1] == rest[j];
    }
    if |first| == 3 {
      assert all[0] == first;
    }
    if LostCompletion(all, i) {
      var j :| 0 <= j < i && |all[j]| == 3;
      if j > 0 { assert all[j] == rest[j - 1]; }
    }
  }

  /** For every pattern of failures a call makes at most three attempts; it announces PENDING, then
      per attempt a prefix of A, B, C, COMPLETED, and ends with COMPLETED or FAILED when it returns.
      The job it returns is the last one stored, and its retry count is the number of failed attempts. */
  lemma ReturnedJob(env: Env, next: nat, docId: DocId)
    requires Process(env, next, docId).result.Some?
    ensures var o := Process(env, next, docId);
      var job := o.result.value;
      && 1 <= |o.attempts| <= MAX_RETRIES
      && (job.state == COMPLETED || job.state == FAILED)
      && Writes(env, next, docId) != []
      && Writes(env, next, docId)[|Writes(env, next, docId)| - 1] == Write(job.state, job)
      && job.retryCount == (if job.state == COMPLETED then |o.attempts| - 1 else |o.attempts|)
      && (job.state == FAILED ==> |o.attempts| == MAX_RETRIES)
  {
    RetryIsWellRun(env, next + 1, NewJob(docId), 0);
    RetryIsWellEnded(env, next + 1, NewJob(docId), 0);
    var o := Process(env, next, docId);
    LastWrite(env, o, 0);
  }

  /** The last record written is the job returned. */
  lemma LastWrite(env: Env, o: Outcome, retries: nat)
    requires WellEnded(env, o, retries) && o.result.Some?
    ensures AllWrites(o) != [] && AllWrites(o)[|AllWrites(o)| - 1] == Write(o.result.value.state, o.result.value)
  {
    if |o.attempts[|o.attempts| - 1]| == 4 {
      FlattenEnd(o.attempts);
    }
  }

  lemma {:induction false} FlattenEnd(parts: seq<seq<Write>>)
    requires parts != [] && parts[|parts| - 1] != []
    ensures var final := parts[|parts| - 1];
      Flatten(parts) != [] && Flatten(parts)[|Flatten(parts)| - 1] == final[|final| - 1]
  {
    if |parts| > 1 {
      FlattenEnd(parts[1..]);
    } else {
      assert Flatten(parts) == parts[0] + Flatten(parts[1..]);
    }
  }

  /** The stored record never shows a tier state. While tiers are announced it reads PENDING, unless
      an earlier attempt raised on its COMPLETED write: from then on it reads COMPLETED, although
      the call may still end as FAILED. */
  lemma RecordShowsCompletionEarly(env: Env, next: nat, docId: DocId, i: nat, k: nat)
    requires var o := Process(env, next, docId); i < |o.attempts| && k < |o.attempts[i]|
    ensures var o := Process(env, next, docId);
      var w := o.attempts[i][k];
      && w.announced == TierState(k) && w.record.retryCount == i
      && (w.record.state == COMPLETED <==> w.announced == COMPLETED || LostCompletion(o.attempts, i))
      && (w.record.state != COMPLETED ==> w.record.state == PENDING)
  {
    hide RoundOf;
    RetryIsWellRun(env, next + 1, NewJob(docId), 0);
    StoredRecord(Process(env, next, docId).attempts, i, k);
  }

  lemma StoredRecord(attempts: seq<seq<Write>>, i: nat, k: nat)
    requires WellRun(attempts, 0, PENDING) && i < |attempts| && k < |attempts[i]|
    ensures var w := attempts[i][k];
      && w.announced == TierState(k) && w.record.retryCount == i
      && (w.record.state == COMPLETED <==> w.announced == COMPLETED || LostCompletion(attempts, i))
      && (w.record.state != COMPLETED ==> w.record.state == PENDING)
  {
    assert AttemptOk(attempts[i], i, if LostCompletion(attempts, i) then COMPLETED else PENDING);
  }

  /** An exception leaves the call exactly when the first write raises, or when three attempts
      failed and the FAILED write raises too; nothing is called more than 23 times in all. */
  lemma RaisesOnlyAtTheEnds(env: Env, next: nat, docId: DocId)
    ensures var o := Process(env, next, docId);
      && o.next <= next + 2 + 7 * MAX_RETRIES
      && (o.result.None? <==>
          (env(next).Raises? ||
           (|o.attempts| == MAX_RETRIES && |o.attempts[2]| < 4 && o.next > 0 && env(o.next - 1).Raises?)))
  {
    hide RoundOf;
    if !env(next).Raises? {
      RetryIsWellRun(env, next + 1, NewJob(docId), 0);
      RetryIsWellEnded(env, next + 1, NewJob(docId), 0);
    }
  }

  // ---------- what the calls decide ----------

  /** How many of the calls `lo..hi` raise. */
  function Raised(env: Env, lo: nat, hi: nat): nat
    decreases hi - lo
  {
    if lo >= hi then 0 else (if env(lo).Raises? then 1 else 0) + Raised(env, lo + 1, hi)
  }

  lemma {:induction false} RaisedSplit(env: Env, lo: nat, mid: nat, hi: nat)
    requires lo <= mid <= hi
    ensures Raised(env, lo, hi) == Raised(env, lo, mid) + Raised(env, mid, hi)
    decreases mid - lo
  {
    if lo < mid {
      RaisedSplit(env, lo + 1, mid, hi);
    }
  }

  /** Calls `lo..hi` of which none raises, except the last when `ok` does not hold. */
  ghost predicate EndedByRaise(env: Env, lo: nat, hi: nat, ok: bool)
  {
    lo < hi && Raised(env, lo, hi - 1) == 0 && (ok <==> !env(hi - 1).Raises?)
  }

  lemma EndedByRaiseCount(env: Env, lo: nat, hi: nat, ok: bool)
    requires EndedByRaise(env, lo, hi, ok)
    ensures Raised(env, lo, hi) == if ok then 0 else 1
  {
    RaisedSplit(env, lo, hi - 1, hi);
  }

  lemma EndedLater(env: Env, lo: nat, mid: nat, hi: nat, ok: bool)
    requires lo <= mid && Raised(env, lo, mid) == 0 && EndedByRaise(env, mid, hi, ok)
    ensures EndedByRaise(env, lo, hi, ok)
  {
    RaisedSplit(env, lo, mid, hi - 1);
  }

  lemma TierCalls(p: Progress, env: Env, tier: nat)
    requires p.ok && tier < 3
    ensures var q := RunTier(p, env, tier); EndedByRaise(env, p.next, q.next, q.ok)
  {
    var q := RunTier(p, env, tier);
    if q.next == p.next + 2 { assert Raised(env, p.next, p.next + 1) == Raised(env, p.next + 1, p.next + 1); }
  }

  lemma {:induction false} FromTierCalls(p: Progress, env: Env, tier: nat)
    requires p.ok && tier <= 3
    ensures var q := FromTier(p, env, tier); EndedByRaise(env, p.next, q.next, q.ok)
    decreases 3 - tier
  {
    if tier < 3 {
      hide RunTier, Raised;
      TierCalls(p, env, tier);
      var q := RunTier(p, env, tier);
      if q.ok {
        EndedByRaiseCount(env, p.next, q.next, true);
        FromTierCalls(q, env, tier + 1);
        EndedLater(env, p.next, q.next, FromTier(q, env, tier + 1).next, FromTier(q, env, tier + 1).ok);
      }
    }
  }

  /** An attempt succeeds exactly when none of its calls raises; one that fails made the call that raised
      last. */
  lemma AttemptSucceedsIff(env: Env, next: nat, job: Job)
    ensures var p := Attempt(env, next, job);
      && (p.ok <==> forall k :: next <= k < p.next ==> !env(k).Raises?)
      && (!p.ok ==> p.next > next && env(p.next - 1).Raises?
                    && forall k :: next <= k < p.next - 1 ==> !env(k).Raises?)
  {
    var p := Attempt(env, next, job);
    FromTierCalls(Progress([], next, job, true), env, 0);
    NoneRaised(env, next, p.next - 1);
  }

  lemma {:induction false} NoneRaised(env: Env, lo: nat, hi: nat)
    ensures Raised(env, lo, hi) == 0 <==> forall k :: lo <= k < hi ==> !env(k).Raises?
    decreases hi - lo
  {
    if lo < hi {
      NoneRaised(env, lo + 1, hi);
    }
  }

  /** What an answer counts. */
  function Answered(env: Env, call: nat): nat
  {
    match env(call)
    case Gives(n) => n
    case Raises(_) => 0
  }

  /** The record of write `k` of an attempt that began at call `next` with `job`: the answers of the tiers
      run so far, and everything else as it was. */
  function RecordOf(env: Env, next: nat, job: Job, k: nat): Job
  {
    var b := Answered(env, next + 2);
    var c := if b == 0 then 0 else Answered(env, next + 4);
    if k == 0 then job.(tierA := Answered(env, next))
    else if k == 1 then job.(tierA := Answered(env, next), tierB := b)
    else if k == 2 then job.(tierA := Answered(env, next), tierB := b, tierC := c)
    else job.(tierA := Answered(env, next), tierB := b, tierC := c, state := COMPLETED, completed := true)
  }

  /** Each write of an attempt announces its tier and stores the answers its tiers gave, and one that
      succeeds makes two calls a tier and one to complete, less the Tier C run when Tier B found nothing. */
  lemma AttemptStoresAnswers(env: Env, next: nat, job: Job)
    ensures var p := Attempt(env, next, job);
      && |p.writes| <= 4
      && (forall k :: 0 <= k < |p.writes| ==>
            && p.writes[k].announced == [TIER_A_DONE, TIER_B_DONE, TIER_C_DONE, COMPLETED][k]
            && p.writes[k].record == RecordOf(env, next, job, k))
      && (p.ok ==> p.next == next + if Answered(env, next + 2) == 0 then 6 else 7)
  {
    AttemptByTiers(env, next, job);
  }

  /** The calls that raise decide a call of the orchestrator: one that raises at the start ends it; after
      that up to two are retried and COMPLETED is returned with their number as retry count, three give
      FAILED, and a fourth, on the FAILED write, ends it with an exception. */
  lemma RaisesDecide(env: Env, next: nat, docId: DocId)
    ensures var o := Process(env, next, docId);
      var n := Raised(env, next, o.next);
      if env(next).Raises? then o.result.None? && o.next == next + 1 && Writes(env, next, docId) == []
      else
        && Writes(env, next, docId) != []
        && Writes(env, next, docId)[0] == Write(PENDING, Job(docId, PENDING, 0, 0, 0, 0, false, None))
        && n <= 4 && |o.attempts| == (if n <= 2 then n + 1 else 3)
        && match o.result
           case None => n == 4
           case Some(job) =>
             && n <= 3 && job.completed && job.docId == docId && job.retryCount == n
             && job.state == (if n <= 2 then COMPLETED else FAILED)
             && job.errorAt == (if n <= 2 then None else Some(3))
  {
    var o := Process(env, next, docId);
    if !env(next).Raises? {
      RetryByRaises(env, next + 1, NewJob(docId), 0);
      RaisedSplit(env, next, next + 1, o.next);
    }
  }

  /** The parts of a job that no attempt touches. */
  lemma AttemptLeaves(env: Env, next: nat, job: Job)
    ensures var p := Attempt(env, next, job);
      && p.job.docId == job.docId && p.job.errorAt == job.errorAt && p.job.retryCount == job.retryCount
      && (p.ok ==> p.job.completed && p.job.state == COMPLETED)
  {
    AttemptByTiers(env, next, job);
  }

  lemma {:induction false} RetryByRaises(env: Env, next: nat, job: Job, retries: nat)
    requires retries < MAX_RETRIES && job.retryCount == retries && job.errorAt == None
    ensures var o := Retry(env, next, job, retries);
      var n := retries + Raised(env, next, o.next);
      && next < o.next
      && n <= 4 && retries + |o.attempts| == (if n <= 2 then n + 1 else 3)
      && match o.result
         case None => n == 4
         case Some(done) =>
           && n <= 3 && done.completed && done.docId == job.docId && done.retryCount == n
           && done.state == (if n <= 2 then COMPLETED else FAILED)
           && done.errorAt == (if n <= 2 then None else Some(3))
    decreases MAX_RETRIES - retries
  {
    hide Attempt, Raised;
    var p := Attempt(env, next, job);
    AttemptRaises(env, next, job);
    AttemptLeaves(env, next, job);
    var r, o := RoundOf(env, next, job, retries), Retry(env, next, job, retries);
    if r.again {
      RetryByRaises(env, r.next, r.job, retries + 1);
      RaisedSplit(env, next, p.next, o.next);
    } else if !p.ok {
      RaisedSplit(env, next, p.next, o.next);
      OneCall(env, p.next);
    }
  }

  lemma OneCall(env: Env, k: nat)
    ensures Raised(env, k, k + 1) == if env(k).Raises? then 1 else 0
  {
  }

  lemma AttemptRaises(env: Env, next: nat, job: Job)
    ensures var p := Attempt(env, next, job); next < p.next && Raised(env, next, p.next) == if p.ok then 0 else 1
  {
    FromTierCalls(Progress([], next, job, true), env, 0);
    EndedByRaiseCount(env, next, Attempt(env, next, job).next, Attempt(env, next, job).ok);
  }

  /** A call during which nothing raises makes one attempt and returns COMPLETED with the tiers' answers,
      without a Tier C run when Tier B found no window. */
  lemma SmoothCall(env: Env, next: nat, docId: DocId)
    requires forall k :: next <= k < next + 8 ==> !env(k).Raises?
    ensures var o := Process(env, next, docId);
      var a, b := env(next + 1).n, env(next + 3).n;
      var c := if b == 0 then 0 else env(next + 5).n;
      && |o.attempts| == 1 && |o.attempts[0]| == 4 && o.last == []
      && o.result == Some(Job(docId, COMPLETED, a, b, c, 0, true, None))
      && o.next == next + if b == 0 then 7 else 8
  {
    AttemptByTiers(env, next + 1, NewJob(docId));
  }

  // ---------- the orchestrator ----------

  /** A state other than those announced after a tier. */
  predicate Plain(job: Job)
  {
    job.state == PENDING || job.state == COMPLETED || job.state == FAILED
  }

  /** The record maps agree on every other job, and a new record shows no tier state. */
  ghost predicate Updated(jobId: JobId, a: map<JobId, Job>, b: map<JobId, Job>)
  {
    && a - {jobId} == b - {jobId}
    && (jobId in b ==> Plain(b[jobId]) || (jobId in a && a[jobId] == b[jobId]))
  }

  class ExtractionOrchestrator {
    const env: Env
    var calls: nat                    // tier runs and record writes so far
    var records: map<JobId, Job>      // the Redis keys extraction_job:<id>
    ghost var writes: seq<Write>

    constructor (env: Env)
      ensures this.env == env && calls == 0 && records == map[] && writes == []
    {
      this.env := env;
      calls, records, writes := 0, map[], [];
    }

    method UpdateState(jobId: JobId, newState: ExtractionState, job: Job) returns (ok: bool)
      modifies this
      ensures calls == old(calls) + 1 && ok == !env(old(calls)).Raises?
      ensures var stored := ok || env(old(calls)).stored;
        records == if stored then old(records)[jobId := job] else old(records)
      ensures writes == if ok then old(writes) + [Write(newState, job)] else old(writes)
    {
      var reply := env(calls);
      calls := calls + 1;
      ok := !reply.Raises?;
      if ok || reply.stored {
        records := records[jobId := job];
      }
      if ok {
        writes := writes + [Write(newState, job)];
      }
    }

    method CallTier() returns (reply: Reply)
      modifies this`calls
      ensures calls == old(calls) + 1 && reply == env(old(calls))
    {
      reply := env(calls);
      calls := calls + 1;
    }

    /** Running one tier and writing the record; `p` is the attempt so far, `base` the history
        before the attempt. */
    method RunOneTier(jobId: JobId, job0: Job, tier: nat, ghost p: Progress, ghost base: seq<Write>)
      returns (job: Job, ok: bool, ghost q: Progress)
      requires tier < 3 && p.ok && p.next == calls && p.job == job0 && writes == base + p.writes && Plain(job0)
      modifies this
      ensures q == RunTier(p, env, tier)
      ensures calls == q.next && job == q.job && ok == q.ok && writes == base + q.writes
      ensures Updated(jobId, old(records), records) && Plain(job)
    {
      q := RunTier(p, env, tier);
      var n := 0;
      if !(tier == 2 && job0.tierB == 0) {
        var reply := CallTier();
        if reply.Raises? {
          return job0, false, q;
        }
        n := reply.n;
      }
      job := Noted(job0, tier, n);
      ok := UpdateState(jobId, TierState(tier), job);
    }

    /** The body of the `try`: all tiers once. */
    method RunAttempt(jobId: JobId, job0: Job) returns (job: Job, ok: bool)
      requires Plain(job0)
      modifies this
      ensures var p := Attempt(env, old(calls), job0);
        calls == p.next && job == p.job && ok == p.ok && writes == old(writes) + p.writes
      ensures Updated(jobId, old(records), records) && Plain(job) && (ok ==> jobId in records && records[jobId] == job)
    {
      AttemptByTiers(env, calls, job0);
      ghost var a, b, c;
      job, ok, a := RunOneTier(jobId, job0, 0, Progress([], calls, job0, true), writes);
      if !ok { return; }
      job, ok, b := RunOneTier(jobId, job, 1, a, old(writes));
      if !ok { return; }
      job, ok, c := RunOneTier(jobId, job, 2, b, old(writes));
      if !ok { return; }
      job := job.(state := COMPLETED, completed := true);
      ok := UpdateState(jobId, COMPLETED, job);
    }

    /** The call as a whole; `None` when an exception leaves it. */
    method ProcessDocument(jobId: JobId, docId: DocId) returns (result: Option<Job>)
      modifies this
      ensures var o := Process(env, old(calls), docId); result == o.result && calls == o.next
      ensures writes == old(writes) + Writes(env, old(calls), docId)
      ensures Updated(jobId, old(records), records)
      ensures result.Some? ==> jobId in records && records[jobId] == result.value
    {
      var job := NewJob(docId);
      var ok := UpdateState(jobId, PENDING, job);
      if !ok { return None; }
      ghost var first, o := [Write(PENDING, job)], Process(env, old(calls), docId);
      result, o := RetryLoop(jobId, job);
      Associate(old(writes), first, AllWrites(o));
    }

    /** One pass of the loop: the `try` and, when it fails, the `except`. */
    method DoRound(jobId: JobId, job0: Job, retryCount: nat) returns (job: Job, again: bool, result: Option<Job>)
      requires Plain(job0)
      modifies this
      ensures var r := RoundOf(env, old(calls), job0, retryCount);
        && calls == r.next && again == r.again && result == r.result && job == r.job
        && writes == old(writes) + (r.writes + r.last)
      ensures Updated(jobId, old(records), records) && Plain(job)
      ensures result.Some? ==> jobId in records && records[jobId] == result.value
    {
      var ok;
      job, ok := RunAttempt(jobId, job0);
      if ok {
        return job, false, Some(job);
      }
      job := job.(retryCount := retryCount + 1);
      if retryCount + 1 >= MAX_RETRIES {
        job := FailedJob(job, retryCount + 1);
        ok := UpdateState(jobId, FAILED, job);
        return job, false, if ok then Some(job) else None;
      }
      again, result := true, None;
    }

    /** The retry loop of a call, whose code after the loop is never reached. */
    method RetryLoop(jobId: JobId, job0: Job) returns (result: Option<Job>, ghost o: Outcome)
      requires Plain(job0)
      modifies this
      ensures o == Retry(env, old(calls), job0, 0) && result == o.result && calls == o.next
      ensures writes == old(writes) + AllWrites(o)
      ensures Updated(jobId, old(records), records)
      ensures result.Some? ==> jobId in records && records[jobId] == result.value
    {
      o := Retry(env, calls, job0, 0);
      var job, again, retryCount := job0, true, 0;
      while retryCount <= MAX_RETRIES
        invariant 0 <= retryCount < MAX_RETRIES && Updated(jobId, old(records), records) && Plain(job)
        invariant var rest := Retry(env, calls, job, retryCount);
          && rest.result == o.result && rest.next == o.next
          && writes + AllWrites(rest) == old(writes) + AllWrites(o)
        decreases MAX_RETRIES - retryCount
      {
        RoundWrites(env, calls, job, retryCount, writes);
        job, again, result := DoRound(jobId, job, retryCount);
        if !again {
          return;
        }
        retryCount := retryCount + 1;
      }
      assert false;
    }
  }

  /** The writes of the remaining rounds, one round at a time. */
  lemma RoundWrites(env: Env, next: nat, job: Job, retries: nat, before: seq<Write>)
    requires retries < MAX_RETRIES
    ensures var r := RoundOf(env, next, job, retries);
      before + AllWrites(Retry(env, next, job, retries)) ==
      before + (r.writes + r.last) + (if r.again then AllWrites(Retry(env, r.next, r.job, retries + 1)) else [])
  {
    var r := RoundOf(env, next, job, retries);
    if r.again {
      var rest := Retry(env, r.next, r.job, retries + 1);
      AllWritesCons(r.writes, rest);
    } else {
      var none := Outcome([], r.last, r.next, r.result);
      AllWritesCons(r.writes, none);
      assert [r.writes] + [] == [r.writes];
      assert AllWrites(none) == r.last;
    }
  }

  lemma AllWritesCons(ws: seq<Write>, rest: Outcome)
    ensures AllWrites(rest.(attempts := [ws] + rest.attempts)) == ws + AllWrites(rest)
  {
    assert ([ws] + rest.attempts)[1..] == rest.attempts;
  }

  lemma AttemptByTiers(env: Env, next: nat, job: Job)
    ensures var a := RunTier(Progress([], next, job, true), env, 0);
      Attempt(env, next, job) == if !a.ok then a else
        var b := RunTier(a, env, 1);
        if !b.ok then b else
          var c := RunTier(b, env, 2);
          if !c.ok then c else Complete(c, env)
  {
    var a := RunTier(Progress([], next, job, true), env, 0);
    if a.ok {
      var b := RunTier(a, env, 1);
      assert FromTier(a, env, 1) == if b.ok then FromTier(b, env, 2) else b;
    }
  }
}
