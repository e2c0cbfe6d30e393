module Patterns {
  // The Tier A entity matcher: per entity type one alternation of literal patterns, longest first,
  // scanned without overlaps; a match inside an already reported span is dropped.

  import opened Text

  /** Letters compare equal when they fold to the same character. */
  type Fold = char -> char

  datatype Match = Match(entityType: string, text: string, start: nat, end: nat)

  /** The compiled alternation of one entity type. */
  datatype Compiled = Compiled(entityType: string, alternatives: seq<string>)

  // ---------- sorting, longest first ----------

  function InsertLongest(p: string, ps: seq<string>): seq<string>
  {
    if ps == [] || |p| >= |ps[0]| then [p] + ps else [ps[0]] + InsertLongest(p, ps[1..])
  }

  /** Python's `sorted(ps, key=len, reverse=True)`, which is stable. */
  function LongestFirst(ps: seq<string>): seq<string>
  {
    if ps == [] then [] else InsertLongest(ps[0], LongestFirst(ps[1..]))
  }

  ghost predicate Descending(ps: seq<string>)
  {
    forall i, j :: 0 <= i < j < |ps| ==> |ps[i]| >= |ps[j]|
  }

  lemma {:induction false} InsertLongestKeeps(p: string, ps: seq<string>)
    ensures multiset(InsertLongest(p, ps)) == multiset(ps) + multiset{p}
  {
    if ps != [] && |p| < |ps[0]| {
      InsertLongestKeeps(p, ps[1..]);
      assert ps == [ps[0]] + ps[1..];
    }
  }

  lemma DescendingCons(p: string, ps: seq<string>)
    requires Descending(ps) && forall q :: q in ps ==> |q| <= |p|
    ensures Descending([p] + ps)
  {
  }

  lemma {:induction false} InsertLongestSorts(p: string, ps: seq<string>)
    requires Descending(ps)
    ensures Descending(InsertLongest(p, ps))
  {
    hide Descending;
    if ps == [] || |p| >= |ps[0]| {
      DescendingParts(ps);
      DescendingCons(p, ps);
    } else {
      DescendingParts(ps);
      InsertLongestSorts(p, ps[1..]);
      InsertLongestKeeps(p, ps[1..]);
      var r := InsertLongest(p, ps[1..]);
      assert forall q :: q in r ==> q in multiset(r);
      DescendingCons(ps[0], r);
    }
  }

  lemma DescendingParts(ps: seq<string>)
    requires Descending(ps)
    ensures ps != [] ==> Descending(ps[1..]) && forall q :: q in ps ==> |q| <= |ps[0]|
  {
  }

  lemma {:induction false} LongestFirstSorts(ps: seq<string>)
    ensures Descending(LongestFirst(ps)) && multiset(LongestFirst(ps)) == multiset(ps)
  {
    if ps != [] {
      LongestFirstSorts(ps[1..]);
      InsertLongestSorts(ps[0], LongestFirst(ps[1..]));
      InsertLongestKeeps(ps[0], LongestFirst(ps[1..]));
      assert ps == [ps[0]] + ps[1..];
    }
  }

  /** The alternation of a batch. Joining no patterns gives the pattern that matches the empty string. */
  function Alternation(batch: seq<string>): seq<string>
  {
    if batch == [] then [""] else LongestFirst(batch)
  }

  // ---------- scanning ----------

  predicate MatchesAt(fold: Fold, p: string, text: string, i: nat)
  {
    i + |p| <= |text| && forall k :: 0 <= k < |p| ==> fold(p[k]) == fold(text[i + k])
  }

  /** Length of the first alternative that matches at `i`. */
  function FirstMatch(fold: Fold, alts: seq<string>, text: string, i: nat): Option<nat>
    decreases alts
  {
    if alts == [] then None
    else if MatchesAt(fold, alts[0], text, i) then Some(|alts[0]|)
    else FirstMatch(fold, alts[1..], text, i)
  }

  datatype Span = Span(start: nat, end: nat)

  lemma FirstMatchEnds(fold: Fold, alts: seq<string>, text: string, i: nat)
    ensures var m := FirstMatch(fold, alts, text, i); m.Some? ==> i + m.value <= |text|
  {
  }

  /** The spans of `finditer` from position `i` on. After an empty match the scan moves one character. */
  function Spans(fold: Fold, alts: seq<string>, text: string, i: nat): seq<Span>
    requires i <= |text| + 1
    decreases |text| + 1 - i
  {
    if i > |text| then []
    else
      FirstMatchEnds(fold, alts, text, i);
      match FirstMatch(fold, alts, text, i)
      case None => Spans(fold, alts, text, i + 1)
      case Some(n) => [Span(i, i + n)] + Spans(fold, alts, text, if n == 0 then i + 1 else i + n)
  }

  predicate Covers(m: Match, s: Span)
  {
    m.start <= s.start && s.end <= m.end
  }

  predicate Covered(ms: seq<Match>, s: Span)
  {
    exists k :: 0 <= k < |ms| && Covers(ms[k], s)
  }

  predicate InText(text: string, spans: seq<Span>)
  {
    forall i :: 0 <= i < |spans| ==> spans[i].start <= spans[i].end <= |text|
  }

  lemma {:induction false} SpansInText(fold: Fold, alts: seq<string>, text: string, i: nat)
    requires i <= |text| + 1
    ensures InText(text, Spans(fold, alts, text, i))
    decreases |text| + 1 - i
  {
    if i <= |text| {
      FirstMatchEnds(fold, alts, text, i);
      match FirstMatch(fold, alts, text, i)
      case None => SpansInText(fold, alts, text, i + 1);
      case Some(n) => SpansInText(fold, alts, text, if n == 0 then i + 1 else i + n);
    }
  }

  function At(entityType: string, text: string, s: Span): Match
    requires s.start <= s.end <= |text|
  {
    Match(entityType, text[s.start..s.end], s.start, s.end)
  }

  /** The matches after the spans of one type were offered in order. */
  function Accept(acc: seq<Match>, entityType: string, text: string, spans: seq<Span>): seq<Match>
    requires InText(text, spans)
    decreases spans
  {
    if spans == [] then acc
    else if Covered(acc, spans[0]) then Accept(acc, entityType, text, spans[1..])
    else Accept(acc + [At(entityType, text, spans[0])], entityType, text, spans[1..])
  }

  function AcceptAll(fold: Fold, acc: seq<Match>, compiled: seq<Compiled>, text: string): seq<Match>
    decreases compiled
  {
    if compiled == [] then acc
    else
      SpansInText(fold, compiled[0].alternatives, text, 0);
      var spans := Spans(fold, compiled[0].alternatives, text, 0);
      AcceptAll(fold, Accept(acc, compiled[0].entityType, text, spans), compiled[1..], text)
  }

  // ---------- sorting by start ----------

  function InsertByStart(m: Match, ms: seq<Match>): seq<Match>
  {
    if ms == [] || m.start <= ms[0].start then [m] + ms else [ms[0]] + InsertByStart(m, ms[1..])
  }

  /** Python's stable `sort(key=start)`. */
  function SortByStart(ms: seq<Match>): seq<Match>
  {
    if ms == [] then [] else InsertByStart(ms[0], SortByStart(ms[1..]))
  }

  ghost predicate Ascending(ms: seq<Match>)
  {
    forall i, j :: 0 <= i < j < |ms| ==> ms[i].start <= ms[j].start
  }

  lemma {:induction false} InsertByStartKeeps(m: Match, ms: seq<Match>)
    ensures multiset(InsertByStart(m, ms)) == multiset(ms) + multiset{m}
    ensures forall q :: q in InsertByStart(m, ms) <==> q == m || q in ms
  {
    if ms != [] && m.start > ms[0].start {
      InsertByStartKeeps(m, ms[1..]);
      assert ms == [ms[0]] + ms[1..];
    }
  }

  lemma AscendingCons(m: Match, ms: seq<Match>)
    requires Ascending(ms) && forall q :: q in ms ==> m.start <= q.start
    ensures Ascending([m] + ms)
  {
  }

  lemma AscendingParts(ms: seq<Match>)
    requires Ascending(ms)
    ensures ms != [] ==> Ascending(ms[1..]) && forall q :: q in ms ==> ms[0].start <= q.start
  {
  }

  lemma {:induction false} InsertByStartSorts(m: Match, ms: seq<Match>)
    requires Ascending(ms)
    ensures Ascending(InsertByStart(m, ms))
  {
    hide Ascending;
    AscendingParts(ms);
    if ms == [] || m.start <= ms[0].start {
      AscendingCons(m, ms);
    } else {
      InsertByStartSorts(m, ms[1..]);
      InsertByStartKeeps(m, ms[1..]);
      AscendingCons(ms[0], InsertByStart(m, ms[1..]));
    }
  }

  lemma {:induction false} SortByStartSorts(ms: seq<Match>)
    ensures Ascending(SortByStart(ms)) && multiset(SortByStart(ms)) == multiset(ms)
    ensures forall q :: q in SortByStart(ms) <==> q in ms
  {
    hide Ascending;
    if ms == [] {
      AscendingNothing();
    } else {
      SortByStartSorts(ms[1..]);
      InsertByStartSorts(ms[0], SortByStart(ms[1..]));
      InsertByStartKeeps(ms[0], SortByStart(ms[1..]));
      assert ms == [ms[0]] + ms[1..];
    }
  }

  lemma AscendingNothing()
    ensures Ascending([])
  {
  }

  /** The matches that start at `p`, in order. */
  function Starting(p: nat, ms: seq<Match>): seq<Match>
  {
    if ms == [] then []
    else (if ms[0].start == p then [ms[0]] else []) + Starting(p, ms[1..])
  }

  lemma {:induction false} InsertByStartIsStable(p: nat, m: Match, ms: seq<Match>)
    requires Ascending(ms)
    ensures Starting(p, InsertByStart(m, ms)) == Starting(p, [m] + ms)
  {
    assert ([m] + ms)[1..] == ms;
    if ms != [] && m.start > ms[0].start {
      InsertByStartIsStable(p, m, ms[1..]);
      assert ([m] + ms[1..])[1..] == ms[1..];
      assert ([ms[0]] + InsertByStart(m, ms[1..]))[1..] == InsertByStart(m, ms[1..]);
    }
  }

  /** Matches of equal start keep the order in which the types were compiled. */
  lemma {:induction false} SortIsStable(p: nat, ms: seq<Match>)
    ensures Starting(p, SortByStart(ms)) == Starting(p, ms)
  {
    if ms != [] {
      SortIsStable(p, ms[1..]);
      SortByStartSorts(ms[1..]);
      InsertByStartIsStable(p, ms[0], SortByStart(ms[1..]));
      assert ([ms[0]] + SortByStart(ms[1..]))[1..] == SortByStart(ms[1..]);
    }
  }

  function Found(fold: Fold, compiled: seq<Compiled>, text: string): seq<Match>
  {
    if text == "" then [] else SortByStart(AcceptAll(fold, [], compiled, text))
  }

  // ---------- the matcher ----------

  /** Insertion-ordered dictionary assignment: a known type keeps its place. */
  function Assign(compiled: seq<Compiled>, c: Compiled): seq<Compiled>
  {
    if compiled == [] then [c]
    else if compiled[0].entityType == c.entityType then [c] + compiled[1..]
    else [compiled[0]] + Assign(compiled[1..], c)
  }

  class EntityPatternMatcher {
    const fold: Fold
    var patterns: map<string, seq<string>>
    var compiled: seq<Compiled>

    constructor (fold: Fold)
      ensures patterns == map[] && compiled == [] && this.fold == fold
    {
      this.fold := fold;
      patterns := map[];
      compiled := [];
    }

    /** All patterns of a type are kept, but only the new batch is searched for. */
    method AddPatterns(entityType: string, batch: seq<string>)
      modifies this
      ensures patterns == old(patterns)[entityType :=
                (if entityType in old(patterns) then old(patterns)[entityType] else []) + batch]
      ensures compiled == Assign(old(compiled), Compiled(entityType, Alternation(batch)))
    {
      if entityType !in patterns {
        patterns := patterns[entityType := []];
      }
      patterns := patterns[entityType := patterns[entityType] + batch];
      compiled := Assign(compiled, Compiled(entityType, Alternation(batch)));
    }

    method FindMatches(text: string) returns (matches: seq<Match>)
      ensures matches == Found(fold, compiled, text)
    {
      hide Spans, Accept;
      if text == "" { return []; }
      matches := [];
      var seen: set<Span> := {};
      for t := 0 to |compiled|
        invariant AcceptAll(fold, [], compiled, text) == AcceptAll(fold, matches, compiled[t..], text)
        invariant SpansOf(matches) == seen
      {
        assert compiled[t..][0] == compiled[t] && compiled[t..][1..] == compiled[t + 1..];
        SpansInText(fold, compiled[t].alternatives, text, 0);
        matches, seen := CollectType(compiled[t], text, matches, seen);
      }
      matches := SortByStart(matches);
    }

    /** The inner loop: the matches of one type. */
    method CollectType(c: Compiled, text: string, before: seq<Match>, seenBefore: set<Span>)
      returns (matches: seq<Match>, seen: set<Span>)
      requires SpansOf(before) == seenBefore && InText(text, Spans(fold, c.alternatives, text, 0))
      ensures matches == Accept(before, c.entityType, text, Spans(fold, c.alternatives, text, 0))
      ensures SpansOf(matches) == seen
    {
      hide Spans, Covered, SpansOf;
      matches, seen := before, seenBefore;
      var spans := Spans(fold, c.alternatives, text, 0);
      for i := 0 to |spans|
        invariant Accept(before, c.entityType, text, spans) == Accept(matches, c.entityType, text, spans[i..])
        invariant SpansOf(matches) == seen
      {
        assert spans[i..][0] == spans[i] && spans[i..][1..] == spans[i + 1..];
        SeenIsCovered(matches, seen, spans[i]);
        if exists s :: s in seen && spans[i].start >= s.start && spans[i].end <= s.end {
          continue;
        }
        SpansOfAppend(matches, At(c.entityType, text, spans[i]));
        matches, seen := matches + [At(c.entityType, text, spans[i])], seen + {spans[i]};
      }
    }
  }

  function SpansOf(ms: seq<Match>): set<Span>
  {
    set k | 0 <= k < |ms| :: Span(ms[k].start, ms[k].end)
  }

  lemma SpansOfAppend(ms: seq<Match>, m: Match)
    ensures SpansOf(ms + [m]) == SpansOf(ms) + {Span(m.start, m.end)}
  {
    var all := ms + [m];
    assert all[|ms|] == m;
    assert forall k :: 0 <= k < |ms| ==> all[k] == ms[k];
  }

  lemma SeenIsCovered(ms: seq<Match>, seen: set<Span>, s: Span)
    requires SpansOf(ms) == seen
    ensures Covered(ms, s) <==> exists q :: q in seen && s.start >= q.start && s.end <= q.end
  {
    forall k | 0 <= k < |ms| ensures Span(ms[k].start, ms[k].end) in seen {
    }
  }

  // ---------- every occurrence is inside a reported match ----------

  lemma {:induction false} FirstMatchIsLongest(fold: Fold, alts: seq<string>, text: string, i: nat, p: string)
    requires Descending(alts) && p in alts && MatchesAt(fold, p, text, i)
    ensures var m := FirstMatch(fold, alts, text, i); m.Some? && m.value >= |p|
  {
    hide MatchesAt;
    if !MatchesAt(fold, alts[0], text, i) {
      FirstMatchIsLongest(fold, alts[1..], text, i, p);
    }
  }

  lemma {:induction false} FirstMatchMatches(fold: Fold, alts: seq<string>, text: string, i: nat)
    ensures var m := FirstMatch(fold, alts, text, i);
            m.Some? ==> exists p :: p in alts && |p| == m.value && MatchesAt(fold, p, text, i)
  {
    hide MatchesAt;
    if alts != [] && !MatchesAt(fold, alts[0], text, i) {
      FirstMatchMatches(fold, alts[1..], text, i);
    }
  }

  /** Position `pos` lies inside one of the spans. */
  ghost predicate Inside(spans: seq<Span>, pos: nat)
  {
    exists s :: s in spans && s.start <= pos < s.end
  }

  lemma {:induction false} SpansCover(fold: Fold, alts: seq<string>, text: string, i: nat, p: string, pos: nat)
    requires Descending(alts) && p in alts && p != "" && MatchesAt(fold, p, text, pos) && i <= pos
    ensures Inside(Spans(fold, alts, text, i), pos)
    decreases |text| - i
  {
    var n := FirstMatch(fold, alts, text, i);
    FirstMatchEnds(fold, alts, text, i);
    if i == pos { FirstMatchIsLongest(fold, alts, text, i, p); }
    if n.None? {
      SpansCover(fold, alts, text, i + 1, p, pos);
    } else {
      var next := if n.value == 0 then i + 1 else i + n.value;
      assert Spans(fold, alts, text, i) == [Span(i, i + n.value)] + Spans(fold, alts, text, next);
      if pos < i + n.value {
        assert Span(i, i + n.value) in Spans(fold, alts, text, i);
      } else {
        SpansCover(fold, alts, text, next, p, pos);
      }
    }
  }

  lemma {:induction false} AcceptKeeps(acc: seq<Match>, entityType: string, text: string, spans: seq<Span>, m: Match)
    requires InText(text, spans) && m in acc
    ensures m in Accept(acc, entityType, text, spans)
    decreases spans
  {
    hide Covered;
    if spans != [] {
      if Covered(acc, spans[0]) {
        AcceptKeeps(acc, entityType, text, spans[1..], m);
      } else {
        AcceptKeeps(acc + [At(entityType, text, spans[0])], entityType, text, spans[1..], m);
      }
    }
  }

  lemma {:induction false} AcceptCovers(acc: seq<Match>, entityType: string, text: string, spans: seq<Span>, s: Span)
    requires InText(text, spans) && s in spans
    ensures exists m :: m in Accept(acc, entityType, text, spans) && Covers(m, s)
    decreases spans
  {
    if s == spans[0] {
      if Covered(acc, s) {
        var k :| 0 <= k < |acc| && Covers(acc[k], s);
        AcceptKeeps(acc, entityType, text, spans, acc[k]);
      } else {
        var m := At(entityType, text, s);
        AcceptKeeps(acc + [m], entityType, text, spans[1..], m);
        assert Covers(m, s);
      }
    } else if Covered(acc, spans[0]) {
      AcceptCovers(acc, entityType, text, spans[1..], s);
    } else {
      AcceptCovers(acc + [At(entityType, text, spans[0])], entityType, text, spans[1..], s);
    }
  }

  lemma {:induction false} AcceptAllKeeps(fold: Fold, acc: seq<Match>, compiled: seq<Compiled>, text: string, m: Match)
    requires m in acc
    ensures m in AcceptAll(fold, acc, compiled, text)
    decreases compiled
  {
    hide Accept, Spans;
    if compiled != [] {
      var c := compiled[0];
      SpansInText(fold, c.alternatives, text, 0);
      var spans := Spans(fold, c.alternatives, text, 0);
      AcceptKeeps(acc, c.entityType, text, spans, m);
      AcceptAllKeeps(fold, Accept(acc, c.entityType, text, spans), compiled[1..], text, m);
    }
  }

  lemma {:induction false} AcceptAllCovers(fold: Fold, acc: seq<Match>, compiled: seq<Compiled>, text: string,
      c: Compiled, s: Span)
    requires c in compiled && s in Spans(fold, c.alternatives, text, 0)
    ensures exists m :: m in AcceptAll(fold, acc, compiled, text) && Covers(m, s)
    decreases compiled
  {
    hide Accept, Spans, Covers;
    var first := compiled[0];
    SpansInText(fold, first.alternatives, text, 0);
    var spans := Spans(fold, first.alternatives, text, 0);
    var next := Accept(acc, first.entityType, text, spans);
    if c == first {
      AcceptCovers(acc, first.entityType, text, spans, s);
      var m :| m in next && Covers(m, s);
      AcceptAllKeeps(fold, next, compiled[1..], text, m);
    } else {
      AcceptAllCovers(fold, next, compiled[1..], text, c, s);
    }
  }

  /** Wherever a compiled non-empty pattern matches, some reported match contains that position. */
  lemma EveryOccurrenceIsReported(fold: Fold, compiled: seq<Compiled>, text: string, c: Compiled, p: string, pos: nat)
    requires c in compiled && Descending(c.alternatives)
    requires p in c.alternatives && p != "" && MatchesAt(fold, p, text, pos)
    ensures exists m :: m in Found(fold, compiled, text) && m.start <= pos < m.end
  {
    hide AcceptAll, Spans, Descending, SortByStart;
    SpansCover(fold, c.alternatives, text, 0, p, pos);
    var s :| s in Spans(fold, c.alternatives, text, 0) && s.start <= pos < s.end;
    AcceptAllCovers(fold, [], compiled, text, c, s);
    SortByStartSorts(AcceptAll(fold, [], compiled, text));
  }

  // ---------- every reported match is the longest of its type there ----------

  /** `m` is a match of `c` in the text, and no pattern of `c` matches further from its start. */
  ghost predicate LongestOf(fold: Fold, c: Compiled, text: string, m: Match)
  {
    && m.entityType == c.entityType && m.start <= m.end <= |text| && m.text == text[m.start..m.end]
    && (exists p :: p in c.alternatives && |p| == m.end - m.start && MatchesAt(fold, p, text, m.start))
    && (forall p :: p in c.alternatives && MatchesAt(fold, p, text, m.start) ==> |p| <= m.end - m.start)
  }

  ghost predicate Genuine(fold: Fold, compiled: seq<Compiled>, text: string, m: Match)
  {
    exists c :: c in compiled && LongestOf(fold, c, text, m)
  }

  ghost predicate AllDescending(compiled: seq<Compiled>)
  {
    forall c :: c in compiled ==> Descending(c.alternatives)
  }

  lemma SpanIsLongest(fold: Fold, c: Compiled, text: string, i: nat)
    requires Descending(c.alternatives) && i <= |text| && FirstMatch(fold, c.alternatives, text, i).Some?
    ensures var n := FirstMatch(fold, c.alternatives, text, i).value;
            i + n <= |text| && LongestOf(fold, c, text, At(c.entityType, text, Span(i, i + n)))
  {
    hide MatchesAt, Descending;
    FirstMatchEnds(fold, c.alternatives, text, i);
    FirstMatchMatches(fold, c.alternatives, text, i);
    forall p | p in c.alternatives && MatchesAt(fold, p, text, i)
      ensures |p| <= FirstMatch(fold, c.alternatives, text, i).value
    {
      FirstMatchIsLongest(fold, c.alternatives, text, i, p);
    }
  }

  lemma {:induction false} SpansAreLongest(fold: Fold, c: Compiled, text: string, i: nat, s: Span)
    requires Descending(c.alternatives) && i <= |text| + 1 && s in Spans(fold, c.alternatives, text, i)
    ensures s.start <= s.end <= |text| && LongestOf(fold, c, text, At(c.entityType, text, s))
    decreases |text| + 1 - i
  {
    hide Descending, LongestOf, FirstMatch;
    FirstMatchEnds(fold, c.alternatives, text, i);
    var n := FirstMatch(fold, c.alternatives, text, i);
    if n.None? {
      SpansAreLongest(fold, c, text, i + 1, s);
    } else if s == Span(i, i + n.value) {
      SpanIsLongest(fold, c, text, i);
    } else {
      SpansAreLongest(fold, c, text, if n.value == 0 then i + 1 else i + n.value, s);
    }
  }

  lemma {:induction false} AcceptedAreOffered(acc: seq<Match>, entityType: string, text: string, spans: seq<Span>,
      m: Match)
    requires InText(text, spans) && m in Accept(acc, entityType, text, spans)
    ensures m in acc || exists s :: s in spans && m == At(entityType, text, s)
    decreases spans
  {
    hide Covered, At;
    if spans != [] {
      if Covered(acc, spans[0]) {
        AcceptedAreOffered(acc, entityType, text, spans[1..], m);
      } else {
        AcceptedAreOffered(acc + [At(entityType, text, spans[0])], entityType, text, spans[1..], m);
      }
    }
  }

  lemma {:induction false} AllAcceptedAreGenuine(fold: Fold, acc: seq<Match>, compiled: seq<Compiled>, text: string,
      m: Match)
    requires AllDescending(compiled) && m in AcceptAll(fold, acc, compiled, text)
    ensures m in acc || Genuine(fold, compiled, text, m)
    decreases compiled
  {
    hide Accept, Spans, LongestOf, Descending, At;
    if compiled != [] {
      var c := compiled[0];
      SpansInText(fold, c.alternatives, text, 0);
      var spans := Spans(fold, c.alternatives, text, 0);
      var next := Accept(acc, c.entityType, text, spans);
      AllAcceptedAreGenuine(fold, next, compiled[1..], text, m);
      if m in next {
        AcceptedAreOffered(acc, c.entityType, text, spans, m);
        if m !in acc {
          var s :| s in spans && m == At(c.entityType, text, s);
          SpansAreLongest(fold, c, text, 0, s);
        }
      }
    }
  }

  /** Each reported match is the longest match of its type at its start. */
  lemma ReportedAreLongest(fold: Fold, compiled: seq<Compiled>, text: string, m: Match)
    requires AllDescending(compiled) && m in Found(fold, compiled, text)
    ensures Genuine(fold, compiled, text, m)
  {
    hide AcceptAll, SortByStart, Genuine;
    SortByStartSorts(AcceptAll(fold, [], compiled, text));
    AllAcceptedAreGenuine(fold, [], compiled, text, m);
  }

  // ---------- reported matches do not clash ----------

  /** Different spans, and for one type one span wholly before the other. */
  ghost predicate Apart(a: Match, b: Match)
  {
    && (a.start != b.start || a.end != b.end)
    && (a.entityType == b.entityType ==> Before(a, b) || Before(b, a))
  }

  ghost predicate Before(a: Match, b: Match)
  {
    a.start < b.start && a.end <= b.start
  }

  ghost predicate AllApart(ms: seq<Match>)
  {
    forall i, j :: 0 <= i < j < |ms| ==> Apart(ms[i], ms[j])
  }

  lemma AllApartCons(m: Match, ms: seq<Match>)
    ensures AllApart([m] + ms) <==> AllApart(ms) && forall q :: q in ms ==> Apart(m, q)
  {
    hide Apart;
    var all := [m] + ms;
    if AllApart(all) {
      forall i, j | 0 <= i < j < |ms| ensures Apart(ms[i], ms[j]) {
        assert Apart(all[i + 1], all[j + 1]);
      }
      forall q | q in ms ensures Apart(m, q) {
        var i :| 0 <= i < |ms| && ms[i] == q;
        assert Apart(all[0], all[i + 1]);
      }
    }
  }

  lemma AllApartAppend(ms: seq<Match>, m: Match)
    requires AllApart(ms) && forall q :: q in ms ==> Apart(q, m)
    ensures AllApart(ms + [m])
  {
    hide Apart;
  }

  lemma {:induction false} InsertKeepsApart(m: Match, ms: seq<Match>)
    requires AllApart([m] + ms)
    ensures AllApart(InsertByStart(m, ms))
  {
    hide AllApart;
    AllApartCons(m, ms);
    if ms != [] && m.start > ms[0].start {
      var r := InsertByStart(m, ms[1..]);
      assert ms == [ms[0]] + ms[1..];
      AllApartCons(ms[0], ms[1..]);
      AllApartCons(m, ms[1..]);
      InsertKeepsApart(m, ms[1..]);
      InsertByStartKeeps(m, ms[1..]);
      assert ms[0] in ms && Apart(ms[0], m);
      AllApartCons(ms[0], r);
    }
  }

  lemma {:induction false} SortKeepsApart(ms: seq<Match>)
    requires AllApart(ms)
    ensures AllApart(SortByStart(ms))
  {
    hide AllApart, Apart;
    if ms != [] {
      assert ms == [ms[0]] + ms[1..];
      AllApartCons(ms[0], ms[1..]);
      SortKeepsApart(ms[1..]);
      SortByStartSorts(ms[1..]);
      AllApartCons(ms[0], SortByStart(ms[1..]));
      InsertKeepsApart(ms[0], SortByStart(ms[1..]));
    }
  }

  /** Spans from position `i` on, each wholly before the next. */
  ghost predicate InOrder(i: nat, spans: seq<Span>)
  {
    && (forall s :: s in spans ==> i <= s.start)
    && (spans != [] ==> forall s :: s in spans[1..] ==> spans[0].start < s.start && spans[0].end <= s.start)
    && (spans != [] ==> InOrder(i, spans[1..]))
  }

  lemma {:induction false} InOrderLater(i: nat, j: nat, spans: seq<Span>)
    requires i <= j && InOrder(j, spans)
    ensures InOrder(i, spans)
    decreases spans
  {
    if spans != [] {
      InOrderLater(i, j, spans[1..]);
    }
  }

  lemma {:induction false} SpansInOrder(fold: Fold, alts: seq<string>, text: string, i: nat)
    requires i <= |text| + 1
    ensures InOrder(i, Spans(fold, alts, text, i))
    decreases |text| + 1 - i
  {
    hide FirstMatch;
    if i <= |text| {
      FirstMatchEnds(fold, alts, text, i);
      var n := FirstMatch(fold, alts, text, i);
      if n.None? {
        SpansInOrder(fold, alts, text, i + 1);
        InOrderLater(i, i + 1, Spans(fold, alts, text, i + 1));
      } else {
        var next := if n.value == 0 then i + 1 else i + n.value;
        var rest := Spans(fold, alts, text, next);
        SpansInOrder(fold, alts, text, next);
        InOrderLater(i, next, rest);
        InOrderCons(i, Span(i, i + n.value), next, rest);
      }
    }
  }

  lemma InOrderCons(i: nat, s: Span, next: nat, rest: seq<Span>)
    requires InOrder(next, rest) && InOrder(i, rest) && i <= s.start < next && s.end <= next
    ensures InOrder(i, [s] + rest)
  {
    assert ([s] + rest)[1..] == rest;
  }

  /** Every match of the type ends before every span still to come. */
  ghost predicate Ahead(acc: seq<Match>, entityType: string, spans: seq<Span>)
  {
    forall m, s :: m in acc && m.entityType == entityType && s in spans ==> m.start < s.start && m.end <= s.start
  }

  lemma {:induction false} AcceptKeepsApart(acc: seq<Match>, entityType: string, text: string, spans: seq<Span>)
    requires InText(text, spans) && AllApart(acc) && InOrder(0, spans) && Ahead(acc, entityType, spans)
    ensures AllApart(Accept(acc, entityType, text, spans))
    decreases spans
  {
    hide AllApart, InText;
    if spans != [] {
      assert forall s :: s in spans[1..] ==> s in spans;
      InTextRest(text, spans);
      if Covered(acc, spans[0]) {
        AcceptKeepsApart(acc, entityType, text, spans[1..]);
      } else {
        var m := At(entityType, text, spans[0]);
        NewIsApart(acc, m, spans[0], spans);
        AllApartAppend(acc, m);
        AcceptKeepsApart(acc + [m], entityType, text, spans[1..]);
      }
    }
  }

  lemma InTextRest(text: string, spans: seq<Span>)
    requires InText(text, spans) && spans != []
    ensures InText(text, spans[1..]) && spans[0].start <= spans[0].end <= |text|
  {
  }

  lemma NewIsApart(acc: seq<Match>, m: Match, s: Span, spans: seq<Span>)
    requires m.start == s.start && m.end == s.end && s in spans
    requires Ahead(acc, m.entityType, spans) && !Covered(acc, s)
    ensures forall q :: q in acc ==> Apart(q, m)
  {
    forall q | q in acc ensures Apart(q, m) {
      var k :| 0 <= k < |acc| && acc[k] == q;
      assert !Covers(acc[k], s);
    }
  }

  ghost predicate DistinctTypes(compiled: seq<Compiled>)
  {
    forall i, j :: 0 <= i < j < |compiled| ==> compiled[i].entityType != compiled[j].entityType
  }

  ghost predicate NewTypes(acc: seq<Match>, compiled: seq<Compiled>)
  {
    forall m, c :: m in acc && c in compiled ==> m.entityType != c.entityType
  }

  lemma {:induction false} AllAcceptedAreApart(fold: Fold, acc: seq<Match>, compiled: seq<Compiled>, text: string)
    requires DistinctTypes(compiled) && NewTypes(acc, compiled) && AllApart(acc)
    ensures AllApart(AcceptAll(fold, acc, compiled, text))
    decreases compiled
  {
    hide AllApart, Spans, Accept, InOrder, InText, At;
    if compiled != [] {
      var c := compiled[0];
      SpansInText(fold, c.alternatives, text, 0);
      SpansInOrder(fold, c.alternatives, text, 0);
      var spans := Spans(fold, c.alternatives, text, 0);
      AcceptKeepsApart(acc, c.entityType, text, spans);
      var next := Accept(acc, c.entityType, text, spans);
      forall m, d | m in next && d in compiled[1..] ensures m.entityType != d.entityType {
        AcceptedAreOffered(acc, c.entityType, text, spans, m);
        AtHasType(c.entityType, text, spans, m);
      }
      AllAcceptedAreApart(fold, next, compiled[1..], text);
    }
  }

  lemma AtHasType(entityType: string, text: string, spans: seq<Span>, m: Match)
    requires InText(text, spans)
    ensures (exists s :: s in spans && m == At(entityType, text, s)) ==> m.entityType == entityType
  {
  }

  /** The report is sorted by start, names no span twice, and matches of one type do not overlap. */
  lemma ReportIsOrderly(fold: Fold, compiled: seq<Compiled>, text: string, i: nat, j: nat)
    requires DistinctTypes(compiled)
    requires i < j < |Found(fold, compiled, text)|
    ensures var ms := Found(fold, compiled, text);
      && ms[i].start <= ms[j].start
      && (ms[i].start != ms[j].start || ms[i].end != ms[j].end)
      && (ms[i].entityType == ms[j].entityType ==> ms[i].end <= ms[j].start)
  {
    hide AcceptAll, SortByStart;
    var all := AcceptAll(fold, [], compiled, text);
    AllAcceptedAreApart(fold, [], compiled, text);
    SortKeepsApart(all);
    SortByStartSorts(all);
    assert Apart(SortByStart(all)[i], SortByStart(all)[j]);
  }

  // ---------- what a second batch does ----------

  /** The state the matcher can be in: every alternation comes from a batch, types are distinct. */
  ghost predicate WellCompiled(compiled: seq<Compiled>)
  {
    DistinctTypes(compiled) && AllDescending(compiled)
  }

  lemma {:induction false} AssignMembers(compiled: seq<Compiled>, c: Compiled, d: Compiled)
    requires DistinctTypes(compiled)
    ensures d in Assign(compiled, c) <==> d == c || (d in compiled && d.entityType != c.entityType)
  {
    if compiled != [] && compiled[0].entityType != c.entityType {
      AssignMembers(compiled[1..], c, d);
    }
  }

  lemma {:induction false} AssignKeepsDistinct(compiled: seq<Compiled>, c: Compiled)
    requires DistinctTypes(compiled)
    ensures DistinctTypes(Assign(compiled, c))
  {
    if compiled != [] && compiled[0].entityType != c.entityType {
      AssignKeepsDistinct(compiled[1..], c);
      var rest := Assign(compiled[1..], c);
      forall d | d in rest ensures d.entityType != compiled[0].entityType {
        AssignMembers(compiled[1..], c, d);
      }
    }
  }

  lemma AlternationIsDescending(batch: seq<string>)
    ensures Descending(Alternation(batch))
    ensures forall p :: p in Alternation(batch) <==> p in batch || (batch == [] && p == "")
  {
    LongestFirstSorts(batch);
    assert forall p :: p in batch <==> p in multiset(batch);
    assert forall p :: p in LongestFirst(batch) <==> p in multiset(LongestFirst(batch));
  }

  /** Adding a batch keeps the invariant, and from then on the type is searched for that batch alone. */
  lemma LatestBatchWins(compiled: seq<Compiled>, entityType: string, batch: seq<string>, d: Compiled)
    requires WellCompiled(compiled)
    ensures var after := Assign(compiled, Compiled(entityType, Alternation(batch)));
      && WellCompiled(after)
      && (d in after <==> if d.entityType == entityType then d.alternatives == Alternation(batch) else d in compiled)
  {
    hide Descending, DistinctTypes;
    var c := Compiled(entityType, Alternation(batch));
    AlternationIsDescending(batch);
    AssignKeepsDistinct(compiled, c);
    AssignMembers(compiled, c, d);
    forall e | e in Assign(compiled, c) ensures Descending(e.alternatives) {
      AssignMembers(compiled, c, e);
    }
  }

  /** Whatever was added before, also for other types: after a batch every match reported for its type is
      a match of a pattern of that batch, or the empty match when the batch is empty. */
  lemma EarlierBatchesAreForgotten(fold: Fold, before: seq<Compiled>, entityType: string, batch: seq<string>,
      text: string, m: Match)
    requires WellCompiled(before)
    requires m in Found(fold, Assign(before, Compiled(entityType, Alternation(batch))), text) &&
      m.entityType == entityType
    ensures m.start <= m.end <= |text| && m.text == text[m.start..m.end]
    ensures exists p :: p in Alternation(batch) && |p| == m.end - m.start && MatchesAt(fold, p, text, m.start)
    ensures forall p :: p in Alternation(batch) <==> p in batch || (batch == [] && p == "")
  {
    hide Found, Assign, MatchesAt, Alternation, WellCompiled;
    var after := Assign(before, Compiled(entityType, Alternation(batch)));
    AlternationIsDescending(batch);
    StaysWellCompiled(before, entityType, batch);
    ReportedAreLongest(fold, after, text, m);
    var c :| c in after && LongestOf(fold, c, text, m);
    LatestBatchWins(before, entityType, batch, c);
  }

  lemma StaysWellCompiled(before: seq<Compiled>, entityType: string, batch: seq<string>)
    requires WellCompiled(before)
    ensures AllDescending(Assign(before, Compiled(entityType, Alternation(batch))))
  {
    LatestBatchWins(before, entityType, batch, Compiled(entityType, Alternation(batch)));
  }

  ghost predicate CoveredAt(fold: Fold, compiled: seq<Compiled>, text: string, pos: nat)
  {
    exists m :: m in Found(fold, compiled, text) && m.start <= pos < m.end
  }

  ghost predicate AlwaysCovered(fold: Fold, compiled: seq<Compiled>, p: string)
  {
    forall text: string, pos: nat :: MatchesAt(fold, p, text, pos) ==> CoveredAt(fold, compiled, text, pos)
  }

  /** Some compiled non-empty pattern, of any type, begins `p`. */
  ghost predicate HasBeginning(fold: Fold, compiled: seq<Compiled>, p: string)
  {
    exists c, q :: c in compiled && q in c.alternatives && q != "" && MatchesAt(fold, q, p, 0)
  }

  /** Exact condition: every occurrence of `p`, in every text, starts inside a reported match if and only
      if a pattern still compiled begins it. So a pattern of an earlier batch is missed unless one does. */
  lemma AlwaysCoveredIff(fold: Fold, compiled: seq<Compiled>, p: string)
    requires AllDescending(compiled) && p != ""
    ensures AlwaysCovered(fold, compiled, p) <==> HasBeginning(fold, compiled, p)
  {
    hide Found;
    if AlwaysCovered(fold, compiled, p) {
      assert MatchesAt(fold, p, p, 0);
      assert CoveredAt(fold, compiled, p, 0);
      var m :| m in Found(fold, compiled, p) && m.start <= 0 < m.end;
      ReportedAreLongest(fold, compiled, p, m);
      var c :| c in compiled && LongestOf(fold, c, p, m);
      var q :| q in c.alternatives && |q| == m.end && MatchesAt(fold, q, p, 0);
    }
    if HasBeginning(fold, compiled, p) {
      var c, q :| c in compiled && q in c.alternatives && q != "" && MatchesAt(fold, q, p, 0);
      forall text: string, pos: nat | MatchesAt(fold, p, text, pos) ensures CoveredAt(fold, compiled, text, pos) {
        BeginningMatches(fold, q, p, text, pos);
        EveryOccurrenceIsReported(fold, compiled, text, c, q, pos);
      }
    }
  }

  lemma BeginningMatches(fold: Fold, q: string, p: string, text: string, pos: nat)
    requires MatchesAt(fold, q, p, 0) && MatchesAt(fold, p, text, pos)
    ensures MatchesAt(fold, q, text, pos)
  {
    forall k | 0 <= k < |q| ensures fold(q[k]) == fold(text[pos + k]) {
      assert fold(q[k]) == fold(p[0 + k]);
    }
  }

  /** Two batches for one type, and a text that is a pattern of the first: nothing is reported. */
  lemma EarlierPatternIsMissed(fold: Fold, entityType: string)
    requires fold('b') != fold('a')
    ensures var first := Assign([], Compiled(entityType, Alternation(["a"])));
            var both := Assign(first, Compiled(entityType, Alternation(["b"])));
            Found(fold, both, "a") == [] && Found(fold, first, "a") != []
  {
    hide Found, AcceptAll, FirstMatch;
    var first := Assign([], Compiled(entityType, Alternation(["a"])));
    var both := Assign(first, Compiled(entityType, Alternation(["b"])));
    OnePattern("a");
    OnePattern("b");
    assert first == [Compiled(entityType, ["a"])];
    assert both == [Compiled(entityType, ["b"])] + first[1..] == [Compiled(entityType, ["b"])];
    EveryOccurrenceIsReported(fold, first, "a", first[0], "a", 0);
    FirstIsGenuine(fold, both, "a");
    forall m: Match ensures !Genuine(fold, both, "a", m) {
      NoMatchOfB(fold, both[0], m);
    }
  }

  lemma OnePattern(p: string)
    ensures Alternation([p]) == [p] && Descending([p])
  {
    assert [p][1..] == [];
    assert LongestFirst([p]) == InsertLongest(p, LongestFirst([])) == [p];
  }

  lemma NoMatchOfB(fold: Fold, c: Compiled, m: Match)
    requires c.alternatives == ["b"] && fold('b') != fold('a')
    ensures !LongestOf(fold, c, "a", m)
  {
    forall i: nat ensures !MatchesAt(fold, "b", "a", i) {
      if i == 0 { assert "b"[0] == 'b' && "a"[0] == 'a'; }
    }
  }

  lemma FirstIsGenuine(fold: Fold, compiled: seq<Compiled>, text: string)
    requires AllDescending(compiled)
    ensures Found(fold, compiled, text) != [] ==> Genuine(fold, compiled, text, Found(fold, compiled, text)[0])
  {
    hide Found, AllDescending;
    if Found(fold, compiled, text) != [] {
      ReportedAreLongest(fold, compiled, text, Found(fold, compiled, text)[0]);
    }
  }
}
