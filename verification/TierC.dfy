module TierC {
  // Tier C: asking the language model about each window, through a cache keyed by a digest of the
  // window. Every cache read, model call and cache write may raise, as an arbitrary oracle over the
  // sequence of calls says.

  import opened Text

  datatype Triple = Triple(subject: string, predicateName: string, object_: string, confidence: real)

  type ExtractionResult = seq<Triple>

  /** What reached the model and what reached the cache, for the history of a client. */
  datatype Event = Asked(window: string) | Saved(window: string)

  datatype State = State(cache: map<string, ExtractionResult>, calls: nat, log: seq<Event>)

  const MAX_ATTEMPTS := 3

  function Times(e: Event, n: nat): (r: seq<Event>)
    ensures |r| == n && forall i :: 0 <= i < n ==> r[i] == e
  {
    seq(n, i => e)
  }

  /** A configured client: whether a cache and a model are there, the batch size, the digest, the
      model's (deterministic) answers, which calls raise, and which cache writes that raise have
      taken effect. */
  datatype Client = Client(hasCache: bool, hasModel: bool, batchSize: int, digest: string -> string,
                           model: string -> ExtractionResult, raises: nat -> bool, takesEffect: nat -> bool) {

    /** What extraction from a window should give: nothing at all without a model. */
    function Answer(w: string): ExtractionResult
    {
      if hasModel then model(w) else []
    }

    /** The model call with its retries. */
    function Ask(st: State, w: string, attempts: nat): (State, bool)
      decreases attempts
    {
      if attempts == 0 then (st, false)
      else if !hasModel then (st, true)
      else
        var asked := st.(calls := st.calls + 1, log := st.log + [Asked(w)]);
        if raises(st.calls) then Ask(asked, w, attempts - 1) else (asked, true)
    }

    function Save(st: State, w: string): (State, Option<ExtractionResult>)
    {
      if !hasCache then (st, Some(Answer(w)))
      else
        var saved := State(st.cache[digest(w) := Answer(w)], st.calls + 1, st.log + [Saved(w)]);
        if !raises(st.calls) then (saved, Some(Answer(w)))
        else (if takesEffect(st.calls) then saved else st.(calls := st.calls + 1), None)
    }

    /** One window: the cached result, or the model's answer once it has been saved. */
    function Extract(st: State, w: string): (State, Option<ExtractionResult>)
    {
      var looked := if hasCache then st.(calls := st.calls + 1) else st;
      if hasCache && raises(st.calls) then (looked, None)
      else if hasCache && digest(w) in st.cache then (looked, Some(st.cache[digest(w)]))
      else
        var (asked, ok) := Ask(looked, w, MAX_ATTEMPTS);
        if ok then Save(asked, w) else (asked, None)
    }

    /** Windows one after the other; the first exception ends the batch. */
    function ExtractAll(st: State, ws: seq<string>): (State, Option<seq<ExtractionResult>>)
      decreases ws
    {
      if ws == [] then (st, Some([]))
      else
        var (st', r) := Extract(st, ws[0]);
        if r.None? then (st', None)
        else
          var (st'', rest) := ExtractAll(st', ws[1..]);
          (st'', if rest.None? then None else Some([r.value] + rest.value))
    }

    /** `batch_extract`: a batch size of zero raises, a negative one makes no batch at all. */
    function BatchExtract(st: State, ws: seq<string>): (State, Option<seq<ExtractionResult>>)
    {
      if batchSize == 0 then (st, None)
      else if batchSize < 0 then (st, Some([]))
      else ExtractAll(st, ws)
    }

    /** A whole run: any number of batches, among them retries of batches that raised. */
    function Runs(st: State, batches: seq<seq<string>>): State
      decreases batches
    {
      if batches == [] then st else Runs(BatchExtract(st, batches[0]).0, batches[1..])
    }

    // ---------- what every run keeps ----------

    predicate SameDigest(v: string, w: string)
    {
      digest(v) == digest(w)
    }

    /** Different windows have different cache keys. */
    ghost predicate Injective()
    {
      forall v, w {:trigger SameDigest(v, w)} :: SameDigest(v, w) ==> v == w
    }

    /** Every cache entry of a window is the model's answer for it. */
    ghost predicate Truthful(cache: map<string, ExtractionResult>)
    {
      forall w :: digest(w) in cache ==> cache[digest(w)] == Answer(w)
    }

    /** Saved windows are cached, and after a window was saved the model is not asked about it and
        it is not saved again. */
    ghost predicate Economical(cache: map<string, ExtractionResult>, log: seq<Event>)
    {
      && (forall i :: 0 <= i < |log| && log[i].Saved? ==> digest(log[i].window) in cache)
      && (forall i, j :: 0 <= i < j < |log| && log[i].Saved? ==> log[j].window != log[i].window)
    }

    ghost predicate Inv(st: State)
    {
      Truthful(st.cache) && Economical(st.cache, st.log)
    }

    lemma {:induction false} AskKeeps(st: State, w: string, attempts: nat)
      requires Inv(st) && digest(w) !in st.cache
      ensures var (t, ok) := Ask(st, w, attempts); Inv(t) && t.cache == st.cache
      decreases attempts
    {
      if attempts > 0 && hasModel {
        var asked := st.(calls := st.calls + 1, log := st.log + [Asked(w)]);
        assert Economical(asked.cache, asked.log);
        AskKeeps(asked, w, attempts - 1);
      }
    }

    lemma SaveKeeps(st: State, w: string)
      requires Injective() && Inv(st) && (hasCache ==> digest(w) !in st.cache)
      ensures var (t, r) := Save(st, w);
        && Inv(t) && st.cache.Keys <= t.cache.Keys
        && (r.Some? ==> r.value == Answer(w) && (hasCache ==> digest(w) in t.cache))
    {
      var t := Save(st, w).0;
      if t.log != st.log {
        forall v | digest(v) in t.cache ensures t.cache[digest(v)] == Answer(v) {
          assert SameDigest(v, w) ==> v == w;
        }
        forall i, j | 0 <= i < j < |t.log| && t.log[i].Saved? ensures t.log[j].window != t.log[i].window {
          assert t.log[i] == st.log[i];
        }
      }
    }

    lemma AskAndSaveKeeps(st: State, w: string)
      requires Injective() && Inv(st) && (hasCache ==> digest(w) !in st.cache) && (!hasCache ==> st.cache == map[])
      ensures var (asked, ok) := Ask(st, w, MAX_ATTEMPTS);
        var (t, r) := if ok then Save(asked, w) else (asked, None);
        Kept(st, w, t, r)
    {
      AskKeeps(st, w, MAX_ATTEMPTS);
      var (asked, ok) := Ask(st, w, MAX_ATTEMPTS);
      if ok { SaveKeeps(asked, w); }
    }

    /** What one window leaves: a good state that forgot nothing, and nothing but the model's
        answer, cached when there is a cache. */
    ghost predicate Kept(st: State, w: string, t: State, r: Option<ExtractionResult>)
    {
      && Inv(t) && st.cache.Keys <= t.cache.Keys && (!hasCache ==> t.cache == map[])
      && (r.Some? ==> r.value == Answer(w) && (hasCache ==> digest(w) in t.cache))
    }

    /** One window keeps the cache truthful, returns nothing but the model's answer, and leaves a
        window it answered in the cache. */
    lemma ExtractKeeps(st: State, w: string)
      requires Injective() && Inv(st) && (!hasCache ==> st.cache == map[])
      ensures Kept(st, w, Extract(st, w).0, Extract(st, w).1)
    {
      hide Ask, Save, Economical;
      if !(hasCache && raises(st.calls)) && !(hasCache && digest(w) in st.cache) {
        hide Truthful;
        AskAndSaveKeeps(if hasCache then st.(calls := st.calls + 1) else st, w);
      }
    }

    lemma {:induction false} ExtractAllKeeps(st: State, ws: seq<string>)
      requires Injective() && Inv(st) && (!hasCache ==> st.cache == map[])
      ensures var (t, rs) := ExtractAll(st, ws);
        && Inv(t) && st.cache.Keys <= t.cache.Keys && (!hasCache ==> t.cache == map[])
        && (rs.Some? ==> |rs.value| == |ws| && forall i :: 0 <= i < |ws| ==> rs.value[i] == Answer(ws[i]))
        && (rs.Some? && hasCache ==> forall i :: 0 <= i < |ws| ==> digest(ws[i]) in t.cache)
      decreases ws
    {
      if ws != [] {
        ExtractKeeps(st, ws[0]);
        var (st', r) := Extract(st, ws[0]);
        if r.Some? {
          ExtractAllKeeps(st', ws[1..]);
        }
      }
    }

    /** Whatever batches ran before and wherever they raised, the cache is truthful and the model
        was never asked about a window after its result had been saved. */
    lemma {:induction false} RunsKeepCacheTruthful(st: State, batches: seq<seq<string>>)
      requires Injective() && Inv(st) && (!hasCache ==> st.cache == map[])
      ensures Inv(Runs(st, batches)) && (!hasCache ==> Runs(st, batches).cache == map[])
      ensures st.cache.Keys <= Runs(st, batches).cache.Keys
      decreases batches
    {
      if batches != [] {
        ExtractAllKeeps(st, batches[0]);
        RunsKeepCacheTruthful(BatchExtract(st, batches[0]).0, batches[1..]);
      }
    }

    /** A batch that does not raise returns exactly the model's answers, window by window, for every
        positive batch size and after any run. */
    lemma BatchAnswersAreTheModels(st: State, batches: seq<seq<string>>, ws: seq<string>)
      requires Injective() && Inv(st) && (!hasCache ==> st.cache == map[]) && batchSize >= 1
      requires BatchExtract(Runs(st, batches), ws).1.Some?
      ensures var rs := BatchExtract(Runs(st, batches), ws).1.value;
        |rs| == |ws| && forall i :: 0 <= i < |ws| ==> rs[i] == Answer(ws[i])
    {
      RunsKeepCacheTruthful(st, batches);
      ExtractAllKeeps(Runs(st, batches), ws);
    }

    /** With a cache, a window answered once costs no model call ever after: repeating it asks
        nothing, whether or not the cache read raises. */
    lemma AnsweredWindowIsFree(st: State, w: string, batches: seq<seq<string>>)
      requires Injective() && Inv(st) && hasCache && Extract(st, w).1.Some?
      ensures var later := Runs(Extract(st, w).0, batches);
        && Extract(later, w).0.log == later.log
        && (Extract(later, w).1.Some? ==> Extract(later, w).1.value == Answer(w))
    {
      ExtractKeeps(st, w);
      RunsKeepCacheTruthful(Extract(st, w).0, batches);
    }

    // ---------- when there is a result ----------

    /** How many of the calls `k..k + n` raise before the first that does not. */
    function LeadingRaises(k: nat, n: nat): (r: nat)
      ensures r <= n
      decreases n
    {
      if n == 0 || !raises(k) then 0 else 1 + LeadingRaises(k + 1, n - 1)
    }

    /** The model is asked until it answers, at most as often as allowed. */
    lemma {:induction false} AskCalls(st: State, w: string, attempts: nat)
      requires hasModel && attempts > 0
      ensures var (t, ok) := Ask(st, w, attempts);
        var n := LeadingRaises(st.calls, attempts);
        var asked := if n < attempts then n + 1 else n;
        && (ok <==> n < attempts) && t.cache == st.cache && t.calls == st.calls + asked
        && t.log == st.log + Times(Asked(w), asked)
      decreases attempts
    {
      var once := st.(calls := st.calls + 1, log := st.log + [Asked(w)]);
      assert Times(Asked(w), 1) == [Asked(w)];
      if raises(st.calls) && attempts > 1 {
        AskCalls(once, w, attempts - 1);
        var n := LeadingRaises(once.calls, attempts - 1);
        var asked := if n < attempts - 1 then n + 1 else n;
        Associate(st.log, [Asked(w)], Times(Asked(w), asked));
        assert [Asked(w)] + Times(Asked(w), asked) == Times(Asked(w), asked + 1);
      }
    }

    /** A window that is not cached, with a cache and a model: there is a result exactly when the lookup
        does not raise, one of the three model calls after it does not, and the save behind that one does
        not. The model is asked three times, or once more than its leading calls raise, if that is less;
        the answer is saved when the save returns or takes effect all the same. */
    lemma MissCalls(st: State, w: string)
      requires hasCache && hasModel && digest(w) !in st.cache
      ensures var (t, r) := Extract(st, w);
        var n := LeadingRaises(st.calls + 1, 3);
        var save := st.calls + 2 + n;
        if raises(st.calls) then r.None? && t == st.(calls := st.calls + 1)
        else if n == 3 then r.None? && t == st.(calls := st.calls + 4, log := st.log + Times(Asked(w), 3))
        else
          && r == (if raises(save) then None else Some(model(w)))
          && t.calls == save + 1
          && (if raises(save) && !takesEffect(save) then t.cache == st.cache && t.log == st.log + Times(Asked(w), n + 1)
              else t.cache == st.cache[digest(w) := model(w)]
                   && t.log == st.log + Times(Asked(w), n + 1) + [Saved(w)])
    {
      if !raises(st.calls) {
        AskCalls(st.(calls := st.calls + 1), w, 3);
      }
    }

    /** A cached window costs the lookup and gives what is cached, unless the lookup raises. */
    lemma HitCalls(st: State, w: string)
      requires hasCache && digest(w) in st.cache
      ensures Extract(st, w) ==
        (st.(calls := st.calls + 1), if raises(st.calls) then None else Some(st.cache[digest(w)]))
    {
    }

    /** Without a cache the model's three calls decide alone, and nothing is looked up or saved. */
    lemma UncachedCalls(st: State, w: string)
      requires !hasCache && hasModel
      ensures var (t, r) := Extract(st, w);
        var n := LeadingRaises(st.calls, 3);
        && r == (if n == 3 then None else Some(model(w))) && t.cache == st.cache
        && t.log == st.log + Times(Asked(w), if n == 3 then 3 else n + 1)
        && t.calls == st.calls + if n == 3 then 3 else n + 1
    {
      AskCalls(st, w, 3);
    }

    /** Without a model the result is empty, after the lookup and the save if there is a cache. */
    lemma ModellessCalls(st: State, w: string)
      requires !hasModel && (hasCache ==> digest(w) !in st.cache)
      ensures var (t, r) := Extract(st, w);
        && (r.Some? <==> !hasCache || (!raises(st.calls) && !raises(st.calls + 1)))
        && (r.Some? ==> r.value == [] && t.cache == if hasCache then st.cache[digest(w) := []] else st.cache)
        && forall e :: e in t.log ==> e in st.log || e == Saved(w)
    {
    }

    /** A batch during which no call raises raises itself only for a batch size of zero, and with a positive
        one returns a result for each window. */
    lemma SmoothBatchExtract(st: State, ws: seq<string>)
      requires forall k :: k >= st.calls ==> !raises(k)
      ensures var (t, rs) := BatchExtract(st, ws);
        && (rs.Some? <==> batchSize != 0)
        && (batchSize <= 0 ==> t == st && (rs.Some? ==> rs.value == []))
        && (batchSize >= 1 ==> |rs.value| == |ws|)
    {
      SmoothBatch(st, ws);
    }

    lemma {:induction false} SmoothBatch(st: State, ws: seq<string>)
      requires forall k :: k >= st.calls ==> !raises(k)
      ensures ExtractAll(st, ws).1.Some? && |ExtractAll(st, ws).1.value| == |ws|
      ensures ExtractAll(st, ws).0.calls >= st.calls
      decreases ws
    {
      if ws != [] {
        SmoothWindow(st, ws[0]);
        SmoothBatch(Extract(st, ws[0]).0, ws[1..]);
      }
    }

    lemma SmoothWindow(st: State, w: string)
      requires forall k :: k >= st.calls ==> !raises(k)
      ensures Extract(st, w).1.Some? && Extract(st, w).0.calls >= st.calls
    {
    }

    /** Stopping a batch between two windows and going on is the same as not stopping. */
    lemma {:induction false} ExtractAllConcat(st: State, a: seq<string>, b: seq<string>)
      ensures var (t, ra) := ExtractAll(st, a);
        ExtractAll(st, a + b) ==
          if ra.None? then (t, None)
          else
            var (u, rb) := ExtractAll(t, b);
            (u, if rb.None? then None else Some(ra.value + rb.value))
      decreases a
    {
      if a == [] {
        assert a + b == b;
        var rb := ExtractAll(st, b).1;
        if rb.Some? { assert [] + rb.value == rb.value; }
      } else {
        assert (a + b)[0] == a[0] && (a + b)[1..] == a[1..] + b;
        var (st', r) := Extract(st, a[0]);
        if r.Some? {
          ExtractAllConcat(st', a[1..], b);
          var (t, ra) := ExtractAll(st', a[1..]);
          if ra.Some? {
            var rb := ExtractAll(t, b).1;
            if rb.Some? { Associate([r.value], ra.value, rb.value); }
          }
        }
      }
    }
  }

  // ---------- the client ----------

  class TierCLLMClient {
    const config: Client
    var cache: map<string, ExtractionResult>
    var calls: nat
    ghost var log: seq<Event>

    constructor (config: Client)
      ensures this.config == config && Now() == State(map[], 0, [])
    {
      this.config := config;
      cache, calls, log := map[], 0, [];
    }

    ghost function Now(): State
      reads this
    {
      State(cache, calls, log)
    }

    /** The model call under the retry decorator. */
    method CallOllama(window: string) returns (ok: bool, result: ExtractionResult)
      modifies this
      ensures (Now(), ok) == config.Ask(old(Now()), window, MAX_ATTEMPTS)
      ensures ok ==> result == config.Answer(window)
    {
      result := [];
      if !config.hasModel {
        return true, [];
      }
      var attempts := MAX_ATTEMPTS;
      while attempts > 0
        invariant 0 <= attempts <= MAX_ATTEMPTS
        invariant config.Ask(Now(), window, attempts) == config.Ask(old(Now()), window, MAX_ATTEMPTS)
      {
        var raised := config.raises(calls);
        calls, log := calls + 1, log + [Asked(window)];
        if !raised {
          return true, config.model(window);
        }
        attempts := attempts - 1;
      }
      ok := false;
    }

    method ExtractFromWindow(window: string) returns (result: Option<ExtractionResult>)
      modifies this
      ensures (Now(), result) == config.Extract(old(Now()), window)
    {
      var key := config.digest(window);
      if config.hasCache {
        calls := calls + 1;
        if config.raises(calls - 1) {
          return None;
        }
        if key in cache {
          return Some(cache[key]);
        }
      }
      var ok, answer := CallOllama(window);
      if !ok {
        return None;
      }
      if config.hasCache {
        var raised := config.raises(calls);
        if !raised || config.takesEffect(calls) {
          cache, log := cache[key := answer], log + [Saved(window)];
        }
        calls := calls + 1;
        if raised {
          return None;
        }
      }
      result := Some(answer);
    }

    /** The windows in batches of `batchSize`, each batch one after the other. */
    method BatchExtract(windows: seq<string>) returns (results: Option<seq<ExtractionResult>>)
      modifies this
      ensures (Now(), results) == config.BatchExtract(old(Now()), windows)
    {
      if config.batchSize == 0 {
        return None;
      }
      if config.batchSize < 0 {
        return Some([]);
      }
      var all: seq<ExtractionResult> := [];
      var i := 0;
      while i < |windows|
        invariant 0 <= i <= |windows|
        invariant config.ExtractAll(old(Now()), windows[..i]) == (Now(), Some(all))
      {
        var end := if i + config.batchSize <= |windows| then i + config.batchSize else |windows|;
        var batch := windows[i..end];
        var batchResults: seq<ExtractionResult> := [];
        ghost var before := Now();
        for k := 0 to |batch|
          invariant config.ExtractAll(before, batch[..k]) == (Now(), Some(batchResults))
        {
          NextWindow(config, before, batch, k);
          var result := ExtractFromWindow(batch[k]);
          if result.None? {
            config.ExtractAllConcat(old(Now()), windows[..i], batch[..k + 1]);
            TakeMore(windows, i, end, k + 1);
            StoppedBatch(config, old(Now()), windows, i + k + 1);
            return None;
          }
          batchResults := batchResults + [result.value];
        }
        assert batch[..|batch|] == batch;
        TakeMore(windows, i, end, end - i);
        config.ExtractAllConcat(old(Now()), windows[..i], batch);
        all := all + batchResults;
        i := end;
      }
      assert windows[..i] == windows;
      results := Some(all);
    }
  }

  lemma NextWindow(cl: Client, st: State, batch: seq<string>, k: nat)
    requires k < |batch| && cl.ExtractAll(st, batch[..k]).1.Some?
    ensures var (t, rs) := cl.ExtractAll(st, batch[..k]);
      var (u, r) := cl.Extract(t, batch[k]);
      cl.ExtractAll(st, batch[..k + 1]) == (u, if r.None? then None else Some(rs.value + [r.value]))
  {
    var t := cl.ExtractAll(st, batch[..k]).0;
    assert batch[..k + 1] == batch[..k] + [batch[k]];
    cl.ExtractAllConcat(st, batch[..k], [batch[k]]);
    assert [batch[k]][1..] == [];
    var r := cl.Extract(t, batch[k]).1;
    if r.Some? { assert [r.value] + [] == [r.value]; }
  }

  lemma TakeMore(ws: seq<string>, i: nat, end: nat, n: nat)
    requires i + n <= end <= |ws|
    ensures ws[..i] + ws[i..end][..n] == ws[..i + n]
  {
  }

  lemma StoppedBatch(cl: Client, st: State, ws: seq<string>, n: nat)
    requires n <= |ws| && cl.ExtractAll(st, ws[..n]).1.None?
    ensures cl.ExtractAll(st, ws) == cl.ExtractAll(st, ws[..n])
  {
    cl.ExtractAllConcat(st, ws[..n], ws[n..]);
    assert ws[..n] + ws[n..] == ws;
  }
}
