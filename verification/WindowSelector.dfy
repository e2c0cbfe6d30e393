module TierB {
  // Tier B: cutting a text into windows of at most `maxTokens` tokens for the language model.
  //
  // `Plan` says which sentences or word ranges each window takes; `Layout` turns a plan into
  // windows with running offsets. The class at the end is the loop of the program, proved to
  // compute `Layout(0, Plan(...))`; everything promised about windows is proved about those.

  import opened Text

  datatype Window = Window(content: string, tokenCount: nat, start: nat, end: nat)

  // ---------- sentences ----------

  predicate IsStop(c: char)
  {
    c == '.' || c == '!' || c == '?'
  }

  /** Splits at every whitespace run that follows a stop; `cur` is the piece being read. */
  function Pieces(cur: string, rest: string): seq<string>
    decreases |rest|
  {
    if rest == "" then [cur]
    else if cur != "" && IsStop(cur[|cur| - 1]) && IsSpace(rest[0]) then
      [cur] + Pieces("", LStrip(rest))
    else Pieces(cur + [rest[0]], rest[1..])
  }

  function StripNonempty(pieces: seq<string>): seq<string>
  {
    if pieces == [] then []
    else (if Strip(pieces[0]) == "" then [] else [Strip(pieces[0])]) + StripNonempty(pieces[1..])
  }

  function Sentences(text: string): seq<string>
  {
    StripNonempty(Pieces("", text))
  }

  /** Every element is a non-empty string without whitespace at its ends. */
  ghost predicate TrimmedList(ss: seq<string>)
  {
    forall i :: 0 <= i < |ss| ==> ss[i] != "" && Trimmed(ss[i])
  }

  lemma {:induction false} StripNonemptyIsTrimmed(pieces: seq<string>)
    ensures TrimmedList(StripNonempty(pieces))
  {
    if pieces != [] {
      StripIsTrimmed(pieces[0]);
      StripNonemptyIsTrimmed(pieces[1..]);
    }
  }

  lemma {:induction false} PiecesKeepWords(cur: string, rest: string)
    ensures AllWords(Pieces(cur, rest)) == Words(cur + rest)
    decreases |rest|
  {
    if rest == "" {
      assert cur + rest == cur;
      AllWordsOne(cur);
    } else if cur != "" && IsStop(cur[|cur| - 1]) && IsSpace(rest[0]) {
      var tail := LStrip(rest);
      WordsOfCut(cur, rest, tail);
      PiecesKeepWords("", tail);
      assert "" + tail == tail;
      AllWordsCons(cur, Pieces("", tail));
    } else {
      PiecesKeepWords(cur + [rest[0]], rest[1..]);
      assert cur + [rest[0]] + rest[1..] == cur + rest;
    }
  }

  lemma WordsOfCut(cur: string, rest: string, tail: string)
    requires rest != "" && IsSpace(rest[0]) && tail == LStrip(rest)
    ensures Words(cur + rest) == Words(cur) + Words(tail)
  {
    WordsAcrossSpace(cur, rest[0], rest[1..]);
    SplitHead(cur, rest, 0);
    WordsOfLStrip(rest[1..]);
  }

  lemma {:induction false} StripNonemptyKeepsWords(pieces: seq<string>)
    ensures AllWords(StripNonempty(pieces)) == AllWords(pieces)
  {
    if pieces != [] {
      var p := pieces[0];
      WordsOfStrip(p);
      StripNonemptyKeepsWords(pieces[1..]);
      var rest := StripNonempty(pieces[1..]);
      assert [] + rest == rest;
      AllWordsCons(Strip(p), rest);
    }
  }

  /** Cutting a text into sentences loses, adds and reorders no word. */
  lemma SentencesKeepWords(text: string)
    ensures AllWords(Sentences(text)) == Words(text)
  {
    PiecesKeepWords("", text);
    assert "" + text == text;
    StripNonemptyKeepsWords(Pieces("", text));
  }

  /** No stop inside the string is followed by whitespace. */
  predicate Uncut(s: string)
  {
    forall i :: 0 < i < |s| && IsStop(s[i - 1]) ==> !IsSpace(s[i])
  }

  predicate EndsInStop(s: string)
  {
    s != "" && IsStop(s[|s| - 1])
  }

  ghost predicate CutAtStops(ps: seq<string>)
  {
    && (forall i :: 0 <= i < |ps| ==> Uncut(ps[i]))
    && (forall i :: 0 <= i < |ps| - 1 ==> EndsInStop(ps[i]))
  }

  lemma CutAtStopsTail(ps: seq<string>)
    requires CutAtStops(ps) && ps != []
    ensures CutAtStops(ps[1..])
  {
  }

  lemma CutAtStopsCons(p: string, rest: seq<string>, last: bool)
    requires Uncut(p) && CutAtStops(rest)
    requires if last then rest == [] else EndsInStop(p)
    ensures CutAtStops((if p == "" then [] else [p]) + rest)
  {
    var r := (if p == "" then [] else [p]) + rest;
    if p == "" {
      assert r == rest;
    } else {
      forall i | 0 <= i < |r| ensures Uncut(r[i]) && (i < |r| - 1 ==> EndsInStop(r[i])) {
        if i > 0 { assert r[i] == rest[i - 1]; }
      }
    }
  }

  lemma {:induction false} PiecesAreCutAtStops(cur: string, rest: string)
    requires Uncut(cur)
    ensures CutAtStops(Pieces(cur, rest))
    decreases |rest|
  {
    if rest == "" {
    } else if cur != "" && IsStop(cur[|cur| - 1]) && IsSpace(rest[0]) {
      PiecesAreCutAtStops("", LStrip(rest));
      CutAtStopsCons(cur, Pieces("", LStrip(rest)), false);
    } else {
      PiecesAreCutAtStops(cur + [rest[0]], rest[1..]);
    }
  }

  lemma StripKeepsCuts(s: string)
    requires Uncut(s)
    ensures Uncut(Strip(s))
    ensures EndsInStop(s) ==> EndsInStop(Strip(s))
  {
    var lo, hi := StripParts(s);
    CoreKeepsCuts(s, lo, hi);
  }

  lemma CoreKeepsCuts(s: string, lo: nat, hi: nat)
    requires lo <= hi <= |s| && Uncut(s) && AllSpace(s[..lo]) && AllSpace(s[hi..])
    ensures Uncut(s[lo..hi])
    ensures EndsInStop(s) ==> EndsInStop(s[lo..hi])
  {
    var n := |s| - 1;
    assert hi <= n ==> s[hi..][n - hi] == s[n];
    assert 0 <= n < lo ==> s[..lo][n] == s[n];
  }

  lemma {:induction false} StripNonemptyKeepsCuts(pieces: seq<string>)
    requires CutAtStops(pieces)
    ensures CutAtStops(StripNonempty(pieces))
  {
    if pieces != [] {
      StripKeepsCuts(pieces[0]);
      CutAtStopsTail(pieces);
      StripNonemptyKeepsCuts(pieces[1..]);
      CutAtStopsCons(Strip(pieces[0]), StripNonempty(pieces[1..]), |pieces| == 1);
    }
  }

  /** The cuts are exactly the stops followed by whitespace: none is left inside a sentence,
      and every sentence but the last ends in a stop. */
  lemma SentencesAreCutAtStops(text: string)
    ensures CutAtStops(Sentences(text))
  {
    PiecesAreCutAtStops("", text);
    StripNonemptyKeepsCuts(Pieces("", text));
  }

  // ---------- the plan ----------

  /** What one window holds: whole sentences (with their numbers), or some words of one
      oversized sentence. */
  datatype Group = Packed(ids: seq<nat>, body: seq<string>) | Part(id: nat, words: seq<string>)

  function Content(g: Group): string
  {
    match g
    case Packed(_, body) => Join(' ', body)
    case Part(_, words) => Join(' ', words)
  }

  function GroupWords(g: Group): seq<string>
  {
    match g
    case Packed(_, body) => AllWords(body)
    case Part(_, words) => words
  }

  function GroupSources(g: Group): seq<nat>
  {
    match g
    case Packed(ids, _) => ids
    case Part(id, _) => [id]
  }

  function PlanWords(gs: seq<Group>): seq<string>
  {
    if gs == [] then [] else GroupWords(gs[0]) + PlanWords(gs[1..])
  }

  /** The sentence each window member came from, in the order windows are emitted. */
  function Sources(gs: seq<Group>): seq<nat>
  {
    if gs == [] then [] else GroupSources(gs[0]) + Sources(gs[1..])
  }

  lemma {:induction false} PlanWordsConcat(a: seq<Group>, b: seq<Group>)
    ensures PlanWords(a + b) == PlanWords(a) + PlanWords(b)
  {
    if a == [] {
      assert a + b == b;
    } else {
      assert (a + b)[1..] == a[1..] + b;
      PlanWordsConcat(a[1..], b);
    }
  }

  lemma {:induction false} SourcesConcat(a: seq<Group>, b: seq<Group>)
    ensures Sources(a + b) == Sources(a) + Sources(b)
  {
    if a == [] {
      assert a + b == b;
    } else {
      assert (a + b)[1..] == a[1..] + b;
      SourcesConcat(a[1..], b);
    }
  }

  lemma PlanWordsCons(g: Group, rest: seq<Group>)
    ensures PlanWords([g] + rest) == GroupWords(g) + PlanWords(rest)
  {
    assert ([g] + rest)[1..] == rest;
  }

  lemma SourcesCons(g: Group, rest: seq<Group>)
    ensures Sources([g] + rest) == GroupSources(g) + Sources(rest)
    ensures Sources([]) == []
  {
    assert ([g] + rest)[1..] == rest;
  }

  /** The words of an oversized sentence, `chunk` to a window. */
  function Parts(id: nat, words: seq<string>, chunk: nat): seq<Group>
    requires chunk >= 1
  {
    if words == [] then []
    else if |words| <= chunk then [Part(id, words)]
    else [Part(id, words[..chunk])] + Parts(id, words[chunk..], chunk)
  }

  lemma {:induction false} PartsWords(id: nat, words: seq<string>, chunk: nat)
    requires chunk >= 1
    ensures PlanWords(Parts(id, words, chunk)) == words
  {
    if |words| > chunk {
      PartsWords(id, words[chunk..], chunk);
      PlanWordsConcat([Part(id, words[..chunk])], Parts(id, words[chunk..], chunk));
    }
  }

  lemma {:induction false} PartsShape(id: nat, words: seq<string>, chunk: nat)
    requires chunk >= 1
    ensures var gs := Parts(id, words, chunk);
            && (forall i :: 0 <= i < |gs| ==> gs[i].Part? && gs[i].id == id && 1 <= |gs[i].words| <= chunk)
            && (words != [] ==> gs != [])
  {
    if |words| > chunk {
      PartsShape(id, words[chunk..], chunk);
    }
  }

  lemma {:induction false} PartsSources(gs: seq<Group>, id: nat)
    requires forall i :: 0 <= i < |gs| ==> gs[i].Part? && gs[i].id == id
    ensures |Sources(gs)| == |gs| && forall i :: 0 <= i < |gs| ==> Sources(gs)[i] == id
  {
    if gs != [] {
      PartsSources(gs[1..], id);
    }
  }

  lemma {:induction false} PartsCount(id: nat, words: seq<string>, chunk: nat)
    requires chunk >= 1
    ensures |Parts(id, words, chunk)| == (|words| + chunk - 1) / chunk
  {
    if |words| > chunk {
      PartsCount(id, words[chunk..], chunk);
      DivAddOne(|words| - 1, chunk);
    } else {
      SmallQuotients(|words| + chunk - 1, chunk);
    }
  }

  lemma DivAddOne(a: nat, c: nat)
    requires 1 <= c <= a
    ensures a / c + 1 == (a + c) / c
  {
    assert (a + c) / c == a / c + 1 by {
      var q, r := a / c, a % c;
      assert a + c == (q + 1) * c + r;
      QuotientUnique(a + c, c, q + 1, r);
    }
  }

  lemma SmallQuotients(a: nat, c: nat)
    requires 1 <= c && c - 1 <= a < 2 * c
    ensures a / c == if a < c then 0 else 1
  {
    if a < c { QuotientUnique(a, c, 0, a); } else { QuotientUnique(a, c, 1, a - c); }
  }

  lemma QuotientUnique(a: nat, c: nat, q: nat, r: nat)
    requires c >= 1 && r < c && a == q * c + r
    ensures a / c == q
  {
    var d := a / c;
    if d > q { Monotone(q + 1, d, c); } else if d < q { Monotone(d + 1, q, c); }
  }

  lemma Monotone(x: nat, y: nat, c: nat)
    requires x <= y
    ensures x * c <= y * c
  {
  }

  /** A text already cut into sentences, with the token counter and the window budget. */
  datatype Input = Input(ss: seq<string>, count: string -> nat, max: int) {

    predicate Oversized(i: nat)
      requires i < |ss|
    {
      count(ss[i]) > max
    }

    /** Words per window when an oversized sentence is cut; a window always takes one word. */
    function Chunk(): (c: nat)
      ensures c >= 1 && (max >= 1 ==> c == max)
    {
      if max >= 1 then max else 1
    }

    function Sum(xs: seq<string>): nat
    {
      if xs == [] then 0 else count(xs[0]) + Sum(xs[1..])
    }

    /** Whether sentence `k` has to wait for the next window. */
    predicate Overflows(cur: seq<string>, k: nat)
      requires k < |ss|
    {
      Sum(cur) + count(ss[k]) > max && cur != []
    }

    /** The windows still to come when sentences `k..` are unread and `cur`, which holds the
        sentences numbered `ids`, is the open window. */
    function Plan(k: nat, ids: seq<nat>, cur: seq<string>): seq<Group>
      requires k <= |ss|
      decreases |ss| - k
    {
      if k == |ss| then (if cur == [] then [] else [Packed(ids, cur)])
      else if Oversized(k) then Parts(k, Words(ss[k]), Chunk()) + Plan(k + 1, ids, cur)
      else if Overflows(cur, k) then [Packed(ids, cur)] + Plan(k + 1, [k], [ss[k]])
      else Plan(k + 1, ids + [k], cur + [ss[k]])
    }

    function Tokens(g: Group): nat
    {
      match g
      case Packed(_, body) => Sum(body)
      case Part(_, words) => |words|
    }

    /** Windows for a plan, the first one placed at offset `start`. */
    function Layout(start: nat, gs: seq<Group>): (ws: seq<Window>)
      ensures |ws| == |gs|
      decreases gs
    {
      if gs == [] then []
      else
        var c := Content(gs[0]);
        [Window(c, Tokens(gs[0]), start, start + |c|)] + Layout(start + |c| + 1, gs[1..])
    }

    lemma {:induction false} SumConcat(a: seq<string>, b: seq<string>)
      ensures Sum(a + b) == Sum(a) + Sum(b)
    {
      if a == [] {
        assert a + b == b;
      } else {
        assert (a + b)[1..] == a[1..] + b;
        SumConcat(a[1..], b);
      }
    }

    lemma SumAppend(cur: seq<string>, s: string)
      ensures Sum(cur + [s]) == Sum(cur) + count(s)
    {
      SumConcat(cur, [s]);
    }

    /** How one sentence moves the split between emitted groups and groups to come. */
    lemma PlanStep(done: seq<Group>, k: nat, ids: seq<nat>, cur: seq<string>)
      requires k < |ss|
      ensures done + Plan(k, ids, cur) ==
              if Oversized(k) then done + Parts(k, Words(ss[k]), Chunk()) + Plan(k + 1, ids, cur)
              else if Overflows(cur, k) then done + [Packed(ids, cur)] + Plan(k + 1, [k], [ss[k]])
              else done + Plan(k + 1, ids + [k], cur + [ss[k]])
    {
    }

    // ---------- budget and emptiness ----------

    ghost predicate GoodGroup(g: Group)
    {
      && Tokens(g) <= max
      && (g.Packed? ==> g.body != [] && forall i :: 0 <= i < |g.body| ==> Words(g.body[i]) != [])
      && (g.Part? ==> g.words != [] && WordList(g.words))
    }

    ghost predicate GoodSentences()
    {
      forall i :: 0 <= i < |ss| ==> Words(ss[i]) != []
    }

    lemma {:induction false} PlanIsGood(k: nat, ids: seq<nat>, cur: seq<string>)
      requires k <= |ss| && max >= 1 && Sum(cur) <= max && GoodSentences()
      requires forall i :: 0 <= i < |cur| ==> Words(cur[i]) != []
      ensures forall j :: 0 <= j < |Plan(k, ids, cur)| ==> GoodGroup(Plan(k, ids, cur)[j])
      decreases |ss| - k
    {
      if k < |ss| {
        if Oversized(k) {
          WordsAreWords(ss[k]);
          GoodParts(k, Words(ss[k]));
          PlanIsGood(k + 1, ids, cur);
        } else if Overflows(cur, k) {
          SumAppend([], ss[k]);
          assert [] + [ss[k]] == [ss[k]];
          PlanIsGood(k + 1, [k], [ss[k]]);
        } else {
          SumAppend(cur, ss[k]);
          PlanIsGood(k + 1, ids + [k], cur + [ss[k]]);
        }
      }
    }

    lemma {:induction false} GoodParts(id: nat, words: seq<string>)
      requires WordList(words) && max >= 1
      ensures forall j :: 0 <= j < |Parts(id, words, Chunk())| ==> GoodGroup(Parts(id, words, Chunk())[j])
    {
      if |words| > Chunk() {
        GoodParts(id, words[Chunk()..]);
      }
    }

    // ---------- words ----------

    /** Packing keeps every word as often as the sentences hold it. */
    lemma {:induction false} PlanKeepsWords(k: nat, ids: seq<nat>, cur: seq<string>)
      requires k <= |ss|
      ensures multiset(PlanWords(Plan(k, ids, cur))) == multiset(AllWords(cur)) + multiset(AllWords(ss[k..]))
      decreases |ss| - k
    {
      hide Oversized, Overflows, Words;
      if k < |ss| {
        SplitHead([], ss, k);
        AllWordsCons(ss[k], ss[k + 1..]);
        if Oversized(k) {
          PartsWords(k, Words(ss[k]), Chunk());
          PlanKeepsWords(k + 1, ids, cur);
          PlanWordsConcat(Parts(k, Words(ss[k]), Chunk()), Plan(k + 1, ids, cur));
        } else if Overflows(cur, k) {
          PlanKeepsWords(k + 1, [k], [ss[k]]);
          PlanWordsCons(Packed(ids, cur), Plan(k + 1, [k], [ss[k]]));
          AllWordsOne(ss[k]);
        } else {
          PlanKeepsWords(k + 1, ids + [k], cur + [ss[k]]);
          AllWordsConcat(cur, [ss[k]]);
          AllWordsOne(ss[k]);
        }
      } else if cur != [] {
        PlanWordsCons(Packed(ids, cur), []);
      }
    }

    // ---------- order ----------

    /** Some oversized sentence comes after a sentence that fits. */
    ghost predicate LateOversized(k: nat)
    {
      exists i, j :: k <= i < j < |ss| && !Oversized(i) && Oversized(j)
    }

    ghost predicate NoOversizedFrom(k: nat)
    {
      forall i :: k <= i < |ss| ==> !Oversized(i)
    }

    lemma OversizedNext(k: nat)
      requires k < |ss|
      ensures !LateOversized(k) ==> !LateOversized(k + 1)
      ensures NoOversizedFrom(k) ==> NoOversizedFrom(k + 1) && !Oversized(k)
      ensures !LateOversized(k) && !Oversized(k) ==> NoOversizedFrom(k + 1)
    {
    }

    /** Without a late oversized sentence the windows hold the words in text order. */
    lemma {:induction false} PlanKeepsOrder(k: nat, ids: seq<nat>, cur: seq<string>)
      requires k <= |ss| && !LateOversized(k)
      requires cur == [] || NoOversizedFrom(k)
      ensures PlanWords(Plan(k, ids, cur)) == AllWords(cur) + AllWords(ss[k..])
      decreases |ss| - k
    {
      hide Oversized, LateOversized, NoOversizedFrom, Overflows, Words, Parts;
      if k < |ss| {
        OversizedNext(k);
        SplitHead([], ss, k);
        AllWordsCons(ss[k], ss[k + 1..]);
        if Oversized(k) {
          PartsWords(k, Words(ss[k]), Chunk());
          PlanKeepsOrder(k + 1, ids, cur);
          PlanWordsConcat(Parts(k, Words(ss[k]), Chunk()), Plan(k + 1, ids, cur));
        } else if Overflows(cur, k) {
          PlanKeepsOrder(k + 1, [k], [ss[k]]);
          PlanWordsCons(Packed(ids, cur), Plan(k + 1, [k], [ss[k]]));
          AllWordsOne(ss[k]);
        } else {
          PlanKeepsOrder(k + 1, ids + [k], cur + [ss[k]]);
          AllWordsConcat(cur, [ss[k]]);
          AllWordsOne(ss[k]);
        }
      } else if cur != [] {
        PlanWordsCons(Packed(ids, cur), []);
      }
    }

    ghost predicate Ascending(xs: seq<nat>)
    {
      forall a, b :: 0 <= a < b < |xs| ==> xs[a] <= xs[b]
    }

    lemma AscendingConcat(a: seq<nat>, b: seq<nat>, k: nat)
      requires Ascending(a) && Ascending(b)
      requires (forall i :: 0 <= i < |a| ==> a[i] <= k) && (forall i :: 0 <= i < |b| ==> b[i] >= k)
      ensures Ascending(a + b)
    {
    }

    lemma AscendingAppend(a: seq<nat>, k: nat)
      requires Ascending(a) && forall i :: 0 <= i < |a| ==> a[i] < k
      ensures Ascending(a + [k])
    {
    }

    lemma AscendingSuffix(a: seq<nat>, b: seq<nat>)
      ensures Ascending(a + b) ==> Ascending(b)
    {
      if Ascending(a + b) {
        forall i, j | 0 <= i < j < |b| ensures b[i] <= b[j] {
          assert b[i] == (a + b)[|a| + i] && b[j] == (a + b)[|a| + j];
        }
      }
    }

    ghost predicate AtLeast(lo: nat, xs: seq<nat>)
    {
      forall i :: 0 <= i < |xs| ==> lo <= xs[i]
    }

    lemma PartsFirst(parts: seq<Group>, k: nat, rest: seq<Group>)
      requires forall i :: 0 <= i < |parts| ==> parts[i].Part? && parts[i].id == k
      requires Ascending(Sources(rest)) && AtLeast(k, Sources(rest))
      ensures Ascending(Sources(parts + rest)) && AtLeast(k, Sources(parts + rest))
    {
      PartsSources(parts, k);
      SourcesConcat(parts, rest);
      AscendingConcat(Sources(parts), Sources(rest), k);
    }

    lemma PackedFirst(k: nat, ids: seq<nat>, cur: seq<string>, rest: seq<Group>, lo: nat)
      requires lo <= k && |ids| == |cur| && Ascending(ids) && AtLeast(lo, ids)
      requires forall j :: 0 <= j < |ids| ==> ids[j] < k
      requires Ascending(Sources(rest)) && AtLeast(k, Sources(rest))
      ensures var all := Sources([Packed(ids, cur)] + rest); Ascending(all) && AtLeast(lo, all)
    {
      SourcesCons(Packed(ids, cur), rest);
      AscendingConcat(ids, Sources(rest), k);
    }

    lemma {:induction false} SourcesAscend(k: nat, ids: seq<nat>, cur: seq<string>, lo: nat)
      requires k <= |ss| && !LateOversized(k) && (cur == [] || NoOversizedFrom(k))
      requires |ids| == |cur| && Ascending(ids) && forall j :: 0 <= j < |ids| ==> ids[j] < k
      requires lo <= k && AtLeast(lo, ids)
      ensures Ascending(Sources(Plan(k, ids, cur))) && AtLeast(lo, Sources(Plan(k, ids, cur)))
      decreases |ss| - k
    {
      hide Oversized, LateOversized, NoOversizedFrom, Overflows, Words, Ascending, Sources;
      if k < |ss| { OversizedNext(k); }
      if k == |ss| {
        SourcesCons(Packed(ids, cur), []);
        assert [Packed(ids, cur)] + [] == [Packed(ids, cur)] && ids + [] == ids;
      } else if Oversized(k) {
        SourcesAscend(k + 1, ids, cur, k);
        PartsShape(k, Words(ss[k]), Chunk());
        PartsFirst(Parts(k, Words(ss[k]), Chunk()), k, Plan(k + 1, ids, cur));
      } else if Overflows(cur, k) {
        AscendingAppend([], k);
        assert [] + [k] == [k];
        SourcesAscend(k + 1, [k], [ss[k]], k);
        PackedFirst(k, ids, cur, Plan(k + 1, [k], [ss[k]]), lo);
      } else {
        AscendingAppend(ids, k);
        SourcesAscend(k + 1, ids + [k], cur + [ss[k]], lo);
      }
    }

    lemma {:induction false} OpenWindowIsEmitted(k: nat, ids: seq<nat>, cur: seq<string>, id: nat)
      requires k <= |ss| && |ids| == |cur| && id in ids
      ensures id in Sources(Plan(k, ids, cur))
      decreases |ss| - k
    {
      if k == |ss| {
        SourcesCons(Packed(ids, cur), []);
      } else if Oversized(k) {
        OpenWindowIsEmitted(k + 1, ids, cur, id);
        SourcesConcat(Parts(k, Words(ss[k]), Chunk()), Plan(k + 1, ids, cur));
      } else if Overflows(cur, k) {
        SourcesCons(Packed(ids, cur), Plan(k + 1, [k], [ss[k]]));
      } else {
        OpenWindowIsEmitted(k + 1, ids + [k], cur + [ss[k]], id);
      }
    }

    /** An oversized sentence is emitted ahead of the window left open before it. */
    lemma OvertakesOpenWindow(k: nat, ids: seq<nat>, cur: seq<string>)
      requires k < |ss| && Oversized(k) && Words(ss[k]) != []
      requires cur != [] && |ids| == |cur| && ids[0] < k
      ensures !Ascending(Sources(Plan(k, ids, cur)))
    {
      hide Words, Parts, Overflows;
      var parts, rest := Parts(k, Words(ss[k]), Chunk()), Plan(k + 1, ids, cur);
      PartsShape(k, Words(ss[k]), Chunk());
      PartsSources(parts, k);
      SourcesConcat(parts, rest);
      OpenWindowIsEmitted(k + 1, ids, cur, ids[0]);
      var b :| 0 <= b < |Sources(rest)| && Sources(rest)[b] == ids[0];
      var all := Sources(parts) + Sources(rest);
      assert all[0] == k && all[|Sources(parts)| + b] == ids[0];
    }

    lemma {:induction false} LateOversizedBreaksOrder(k: nat, ids: seq<nat>, cur: seq<string>, j: nat)
      requires k <= j < |ss| && Oversized(j) && GoodSentences()
      requires |ids| == |cur| && forall i :: 0 <= i < |ids| ==> ids[i] < k
      requires cur != [] || exists i :: k <= i < j && !Oversized(i)
      ensures !Ascending(Sources(Plan(k, ids, cur)))
      decreases j - k
    {
      hide Oversized, Overflows, Words, Ascending;
      if k == j {
        OvertakesOpenWindow(k, ids, cur);
      } else if Oversized(k) {
        var parts, rest := Parts(k, Words(ss[k]), Chunk()), Plan(k + 1, ids, cur);
        SourcesConcat(parts, rest);
        LateOversizedBreaksOrder(k + 1, ids, cur, j);
        AscendingSuffix(Sources(parts), Sources(rest));
      } else if Overflows(cur, k) {
        var rest := Plan(k + 1, [k], [ss[k]]);
        LateOversizedBreaksOrder(k + 1, [k], [ss[k]], j);
        SourcesCons(Packed(ids, cur), rest);
        AscendingSuffix(ids, Sources(rest));
      } else {
        LateOversizedBreaksOrder(k + 1, ids + [k], cur + [ss[k]], j);
      }
    }

    /** The windows come out in text order exactly when no oversized sentence follows one that fits. */
    lemma OrderIffNoLateOversized()
      requires GoodSentences()
      ensures Ascending(Sources(Plan(0, [], []))) <==> !LateOversized(0)
    {
      if LateOversized(0) {
        var i, j :| 0 <= i < j < |ss| && !Oversized(i) && Oversized(j);
        LateOversizedBreaksOrder(0, [], [], j);
      } else {
        SourcesAscend(0, [], [], 0);
      }
    }

    // ---------- optimality ----------

    ghost predicate WithinBudget(groups: seq<seq<string>>)
    {
      forall j :: 0 <= j < |groups| ==> Sum(groups[j]) <= max
    }

    /** The sentence lists of the packed windows of a plan. */
    function Bodies(gs: seq<Group>): seq<seq<string>>
    {
      if gs == [] then [] else (if gs[0].Packed? then [gs[0].body] else []) + Bodies(gs[1..])
    }

    /** Without oversized sentences the windows are themselves a split of the sentences. */
    lemma {:induction false} PlanIsASplit(k: nat, ids: seq<nat>, cur: seq<string>)
      requires k <= |ss| && NoOversizedFrom(k) && (cur == [] || Sum(cur) <= max)
      ensures var lists := Bodies(Plan(k, ids, cur));
              && |lists| == |Plan(k, ids, cur)|
              && Flatten(lists) == cur + ss[k..]
              && WithinBudget(lists)
      decreases |ss| - k
    {
      if k == |ss| {
        if cur != [] {
          assert Bodies([Packed(ids, cur)]) == [cur] + Bodies([]);
          assert Flatten([cur]) == cur + Flatten<string>([]);
        }
      } else {
        SplitHead([], ss, k);
        if Overflows(cur, k) {
          SumAppend([], ss[k]);
          assert [] + [ss[k]] == [ss[k]];
          assert !Oversized(k);
          PlanIsASplit(k + 1, [k], [ss[k]]);
          var rest := Plan(k + 1, [k], [ss[k]]);
          assert Bodies([Packed(ids, cur)] + rest) == [cur] + Bodies(rest);
        } else {
          SumAppend(cur, ss[k]);
          assert !Oversized(k);
          PlanIsASplit(k + 1, ids + [k], cur + [ss[k]]);
        }
      }
    }

    /** Dropping the first `n` sentences of a split leaves a split, shorter by the groups used up. */
    lemma {:induction false} DropFromSplit(groups: seq<seq<string>>, n: nat) returns (rest: seq<seq<string>>)
      requires WithinBudget(groups) && n <= |Flatten(groups)|
      ensures WithinBudget(rest) && Flatten(rest) == Flatten(groups)[n..]
      ensures |rest| <= |groups|
      ensures groups != [] && |groups[0]| <= n ==> |rest| < |groups|
    {
      if groups == [] {
        rest := [];
      } else if |groups[0]| <= n {
        rest := DropFromSplit(groups[1..], n - |groups[0]|);
      } else {
        rest := [groups[0][n..]] + groups[1..];
        assert groups[0] == groups[0][..n] + groups[0][n..];
        SumConcat(groups[0][..n], groups[0][n..]);
        assert rest[1..] == groups[1..];
      }
    }

    lemma PrefixSum(g: seq<string>, n: nat)
      requires n <= |g|
      ensures Sum(g[..n]) <= Sum(g)
    {
      SumConcat(g[..n], g[n..]);
      assert g[..n] + g[n..] == g;
    }

    lemma FirstGroupPrefix(groups: seq<seq<string>>, x: seq<string>, y: seq<string>)
      requires Flatten(groups) == x + y && groups != [] && |groups[0]| >= |x|
      ensures groups[0][..|x|] == x
    {
      var flat, g := Flatten(groups), groups[0];
      assert flat == g + Flatten(groups[1..]);
      assert flat[..|x|] == g[..|x|] && flat[..|x|] == x;
    }

    /** A group within budget cannot reach past the point where the open window overflows. */
    lemma FirstGroupIsShort(cur: seq<string>, k: nat, groups: seq<seq<string>>)
      requires k < |ss| && Overflows(cur, k) && WithinBudget(groups)
      requires Flatten(groups) == cur + ss[k..]
      ensures groups != [] && |groups[0]| <= |cur|
    {
      SumAppend(cur, ss[k]);
      SplitHead(cur, ss, k);
      if |groups[0]| > |cur| {
        PrefixSum(groups[0], |cur| + 1);
        FirstGroupPrefix(groups, cur + [ss[k]], ss[k + 1..]);
      }
    }

    lemma {:induction false} NoSplitIsShorter(k: nat, ids: seq<nat>, cur: seq<string>, groups: seq<seq<string>>)
      requires k <= |ss| && NoOversizedFrom(k) && WithinBudget(groups)
      requires Flatten(groups) == cur + ss[k..]
      ensures |Plan(k, ids, cur)| <= |groups|
      decreases |ss| - k
    {
      if k < |ss| {
        SplitHead([], ss, k);
        if Overflows(cur, k) {
          FirstGroupIsShort(cur, k, groups);
          var rest := DropFromSplit(groups, |cur|);
          NoSplitIsShorter(k + 1, [k], [ss[k]], rest);
        } else {
          NoSplitIsShorter(k + 1, ids + [k], cur + [ss[k]], groups);
        }
      }
    }

    /** Greedy packing is optimal: when every sentence fits, the windows are the sentences in
        order, each within budget, and no split into consecutive groups within budget is shorter. */
    lemma PackingIsOptimal(groups: seq<seq<string>>)
      requires NoOversizedFrom(0)
      requires WithinBudget(groups) && Flatten(groups) == ss
      ensures var lists := Bodies(Plan(0, [], []));
              |lists| == |Plan(0, [], [])| && Flatten(lists) == ss && WithinBudget(lists)
      ensures |Plan(0, [], [])| <= |groups|
    {
      assert [] + ss[0..] == ss;
      PlanIsASplit(0, [], []);
      NoSplitIsShorter(0, [], [], groups);
    }

    // ---------- oversized sentences ----------

    function PartsOf(gs: seq<Group>, id: nat): seq<Group>
    {
      if gs == [] then []
      else (if gs[0].Part? && gs[0].id == id then [gs[0]] else []) + PartsOf(gs[1..], id)
    }

    lemma {:induction false} PartsOfConcat(a: seq<Group>, b: seq<Group>, id: nat)
      ensures PartsOf(a + b, id) == PartsOf(a, id) + PartsOf(b, id)
    {
      if a == [] {
        assert a + b == b;
      } else {
        assert (a + b)[1..] == a[1..] + b;
        PartsOfConcat(a[1..], b, id);
      }
    }

    lemma {:induction false} PartsOfUniform(gs: seq<Group>, own: nat, id: nat)
      requires forall i :: 0 <= i < |gs| ==> gs[i].Part? && gs[i].id == own
      ensures PartsOf(gs, id) == if id == own then gs else []
    {
      if gs != [] {
        PartsOfUniform(gs[1..], own, id);
      }
    }

    lemma {:induction false} PlanPartsOf(k: nat, ids: seq<nat>, cur: seq<string>, id: nat)
      requires k <= |ss| && id < |ss|
      ensures PartsOf(Plan(k, ids, cur), id) ==
              if k <= id && Oversized(id) then Parts(id, Words(ss[id]), Chunk()) else []
      decreases |ss| - k
    {
      if k < |ss| {
        if Oversized(k) {
          var parts := Parts(k, Words(ss[k]), Chunk());
          PartsShape(k, Words(ss[k]), Chunk());
          PartsOfUniform(parts, k, id);
          PlanPartsOf(k + 1, ids, cur, id);
          PartsOfConcat(parts, Plan(k + 1, ids, cur), id);
        } else if Overflows(cur, k) {
          PlanPartsOf(k + 1, [k], [ss[k]], id);
          PartsOfConcat([Packed(ids, cur)], Plan(k + 1, [k], [ss[k]]), id);
        } else {
          PlanPartsOf(k + 1, ids + [k], cur + [ss[k]], id);
        }
      }
    }

    /** A sentence over budget with n words becomes ceil(n / max) windows, or n when the budget is zero or
        less; one that fits, none. */
    lemma OversizedSentenceWindows(id: nat)
      requires id < |ss|
      ensures |PartsOf(Plan(0, [], []), id)| ==
              if count(ss[id]) <= max then 0
              else if max >= 1 then (|Words(ss[id])| + max - 1) / max
              else |Words(ss[id])|
    {
      hide Plan, PartsOf, Parts;
      PlanPartsOf(0, [], [], id);
      PartsCount(id, Words(ss[id]), Chunk());
      QuotientUnique(|Words(ss[id])|, 1, |Words(ss[id])|, 0);
    }

    // ---------- windows ----------

    lemma {:induction false} LayoutMembers(start: nat, gs: seq<Group>)
      ensures var ws := Layout(start, gs);
              forall i :: 0 <= i < |ws| ==> ws[i].content == Content(gs[i]) && ws[i].tokenCount == Tokens(gs[i])
      decreases gs
    {
      if gs != [] {
        LayoutMembers(start + |Content(gs[0])| + 1, gs[1..]);
      }
    }
  }

  function Contents(ws: seq<Window>): seq<string>
  {
    if ws == [] then [] else [ws[0].content] + Contents(ws[1..])
  }

  /** A window's text holds exactly the words its group stands for. */
  lemma ContentWords(g: Group)
    requires g.Part? ==> WordList(g.words)
    ensures Words(Content(g)) == GroupWords(g)
  {
    match g
    case Packed(_, body) => WordsOfJoin(' ', body);
    case Part(_, words) =>
      WordsOfJoin(' ', words);
      WordsOfWordList(words);
  }

  lemma {:induction false} LayoutWords(inp: Input, start: nat, gs: seq<Group>)
    requires forall i :: 0 <= i < |gs| && gs[i].Part? ==> WordList(gs[i].words)
    ensures AllWords(Contents(inp.Layout(start, gs))) == PlanWords(gs)
    decreases gs
  {
    if gs != [] {
      var c := Content(gs[0]);
      var rest := inp.Layout(start + |c| + 1, gs[1..]);
      ContentWords(gs[0]);
      LayoutWords(inp, start + |c| + 1, gs[1..]);
      ContentsCons(Window(c, inp.Tokens(gs[0]), start, start + |c|), rest);
    }
  }

  lemma ContentsCons(w: Window, rest: seq<Window>)
    ensures AllWords(Contents([w] + rest)) == Words(w.content) + AllWords(Contents(rest))
  {
    assert ([w] + rest)[1..] == rest;
  }

  // ---------- offsets ----------

  /** Each window starts where the running offset says, one joining space after the last. */
  ghost predicate Placed(start: nat, ws: seq<Window>)
  {
    && (ws != [] ==> ws[0].start == start)
    && (forall i :: 0 <= i < |ws| ==> ws[i].end == ws[i].start + |ws[i].content|)
    && (forall i :: 0 <= i < |ws| - 1 ==> ws[i + 1].start == ws[i].end + 1)
  }

  lemma {:induction false} LayoutPlaced(inp: Input, start: nat, gs: seq<Group>)
    ensures Placed(start, inp.Layout(start, gs))
    decreases gs
  {
    if gs != [] {
      var next := start + |Content(gs[0])| + 1;
      LayoutPlaced(inp, next, gs[1..]);
      var ws, rest := inp.Layout(start, gs), inp.Layout(next, gs[1..]);
      assert forall i :: 1 <= i < |ws| ==> ws[i] == rest[i - 1];
    }
  }

  /** Spans placed by the running offset are exactly the places of the window texts in their
      single-space join, and they cover it up to the joining spaces. */
  lemma {:induction false} SpansLocateContents(start: nat, ws: seq<Window>, i: nat)
    requires Placed(start, ws) && i < |ws|
    ensures var all := Join(' ', Contents(ws));
            && start <= ws[i].start <= ws[i].end <= start + |all|
            && all[ws[i].start - start..ws[i].end - start] == ws[i].content
            && (i == |ws| - 1 ==> ws[i].end == start + |all|)
    decreases ws
  {
    var w, rest := ws[0], ws[1..];
    var all := Join(' ', Contents(ws));
    assert Contents(ws) == [w.content] + Contents(rest);
    if rest == [] {
      assert all == w.content;
    } else {
      var tail := Join(' ', Contents(rest));
      assert Contents(rest) == [rest[0].content] + Contents(rest[1..]);
      assert all == w.content + [' '] + tail;
      var next := w.end + 1;
      assert Placed(next, rest) by {
        assert forall j :: 0 <= j < |rest| ==> rest[j] == ws[j + 1];
      }
      if i == 0 {
        SpansLocateContents(next, rest, |rest| - 1);
      } else {
        SpansLocateContents(next, rest, i - 1);
        assert all[ws[i].start - start..ws[i].end - start] == tail[ws[i].start - next..ws[i].end - next];
      }
    }
  }

  // ---------- the selector ----------

  function InputOf(text: string, count: string -> nat, max: int): Input
  {
    Input(Sentences(text), count, max)
  }

  /** The windows of a text, as a value. */
  function WindowsOf(text: string, count: string -> nat, max: int): seq<Window>
  {
    var inp := InputOf(text, count, max);
    inp.Layout(0, inp.Plan(0, [], []))
  }

  lemma SentencesHaveWords(text: string)
    ensures InputOf(text, _ => 0, 0).GoodSentences()
  {
    var ss := Sentences(text);
    StripNonemptyIsTrimmed(Pieces("", text));
    forall i | 0 <= i < |ss| ensures Words(ss[i]) != [] {
      WordsNonempty(ss[i]);
    }
  }

  lemma GoodContent(inp: Input, g: Group)
    requires inp.GoodGroup(g)
    ensures Content(g) != "" && Words(Content(g)) != []
  {
    ContentWords(g);
    if g.Packed? {
      assert AllWords(g.body) == Words(g.body[0]) + AllWords(g.body[1..]);
    }
    assert Words("") == [];
  }

  /** For every text and positive budget: no window is empty or over budget, and together the
      windows hold every word of the text exactly as often as the text does. */
  lemma WindowsAreFaithful(text: string, count: string -> nat, max: int)
    requires max >= 1
    ensures var ws := WindowsOf(text, count, max);
            && (forall i :: 0 <= i < |ws| ==> ws[i].content != "" && ws[i].tokenCount <= max)
            && multiset(AllWords(Contents(ws))) == multiset(Words(text))
  {
    var inp := InputOf(text, count, max);
    var plan := inp.Plan(0, [], []);
    SentencesHaveWords(text);
    inp.PlanIsGood(0, [], []);
    inp.LayoutMembers(0, plan);
    forall i | 0 <= i < |plan| ensures Content(plan[i]) != "" {
      GoodContent(inp, plan[i]);
    }
    LayoutWords(inp, 0, plan);
    inp.PlanKeepsWords(0, [], []);
    assert inp.ss[0..] == inp.ss;
    SentencesKeepWords(text);
  }

  /** With no oversized sentence after one that fits, the words also keep their order. */
  lemma WindowsKeepOrder(text: string, count: string -> nat, max: int)
    requires max >= 1
    requires !InputOf(text, count, max).LateOversized(0)
    ensures AllWords(Contents(WindowsOf(text, count, max))) == Words(text)
  {
    var inp := InputOf(text, count, max);
    SentencesHaveWords(text);
    inp.PlanIsGood(0, [], []);
    inp.PlanKeepsOrder(0, [], []);
    LayoutWords(inp, 0, inp.Plan(0, [], []));
    assert inp.ss[0..] == inp.ss;
    SentencesKeepWords(text);
  }

  /** Every window of every text lies at its span in the single-space join of all windows. */
  lemma WindowSpans(text: string, count: string -> nat, max: int, i: nat)
    requires i < |WindowsOf(text, count, max)|
    ensures var ws := WindowsOf(text, count, max);
            var all := Join(' ', Contents(ws));
            && 0 <= ws[i].start <= ws[i].end <= |all|
            && all[ws[i].start..ws[i].end] == ws[i].content
            && (i > 0 ==> ws[i].start == ws[i - 1].end + 1)
  {
    var inp := InputOf(text, count, max);
    LayoutPlaced(inp, 0, inp.Plan(0, [], []));
    SpansLocateContents(0, WindowsOf(text, count, max), i);
  }

  // ---------- token counts ----------

  /** The window is made of sentences of the text that fit, and counts their tokens. */
  ghost predicate OfSentences(inp: Input, w: Window, body: seq<string>)
  {
    && body != [] && w.content == Join(' ', body) && w.tokenCount == TokenTotal(inp.count, body)
    && forall i :: 0 <= i < |body| ==> body[i] in inp.ss && inp.count(body[i]) <= inp.max
  }

  /** The window is made of words `lo..hi` of the oversized sentence number `k`, and counts the words. */
  ghost predicate OfWords(inp: Input, w: Window, k: nat, lo: nat, hi: nat)
  {
    && k < |inp.ss| && inp.count(inp.ss[k]) > inp.max && lo < hi <= |Words(inp.ss[k])|
    && w.content == Join(' ', Words(inp.ss[k])[lo..hi]) && w.tokenCount == hi - lo
  }

  function TokenTotal(count: string -> nat, body: seq<string>): nat
  {
    if body == [] then 0 else TokenTotal(count, body[..|body| - 1]) + count(body[|body| - 1])
  }

  lemma {:induction false} SumIsTokenTotal(inp: Input, body: seq<string>)
    ensures inp.Sum(body) == TokenTotal(inp.count, body)
    decreases |body|
  {
    if body != [] {
      var n := |body| - 1;
      SumIsTokenTotal(inp, body[..n]);
      inp.SumAppend(body[..n], body[n]);
      assert body[..n] + [body[n]] == body;
    }
  }

  predicate SliceAt(words: seq<string>, all: seq<string>, lo: nat)
  {
    lo + |words| <= |all| && words == all[lo..lo + |words|]
  }

  /** Where the parts of a plan come from. */
  ghost predicate Sourced(inp: Input, g: Group)
  {
    match g
    case Packed(_, body) =>
      body != [] && forall i :: 0 <= i < |body| ==> body[i] in inp.ss && inp.count(body[i]) <= inp.max
    case Part(id, words) =>
      && id < |inp.ss| && inp.count(inp.ss[id]) > inp.max && words != []
      && exists lo: nat :: SliceAt(words, Words(inp.ss[id]), lo)
  }

  ghost predicate AllSourced(inp: Input, gs: seq<Group>)
  {
    forall j :: 0 <= j < |gs| ==> Sourced(inp, gs[j])
  }

  lemma {:induction false} PartsSourced(inp: Input, k: nat, lo: nat)
    requires k < |inp.ss| && inp.count(inp.ss[k]) > inp.max && lo <= |Words(inp.ss[k])|
    ensures AllSourced(inp, Parts(k, Words(inp.ss[k])[lo..], inp.Chunk()))
    decreases |Words(inp.ss[k])| - lo
  {
    var all, chunk := Words(inp.ss[k]), inp.Chunk();
    var words := all[lo..];
    assert SliceAt(words, all, lo);
    if |words| > chunk {
      PartsSourced(inp, k, lo + chunk);
      assert words[..chunk] == all[lo..lo + chunk] && words[chunk..] == all[lo + chunk..];
      assert SliceAt(words[..chunk], all, lo);
      assert Sourced(inp, Part(k, words[..chunk]));
    } else if words != [] {
      assert Sourced(inp, Part(k, words));
    }
  }

  lemma {:induction false} PlanSourced(inp: Input, k: nat, ids: seq<nat>, cur: seq<string>)
    requires k <= |inp.ss|
    requires forall i :: 0 <= i < |cur| ==> cur[i] in inp.ss && inp.count(cur[i]) <= inp.max
    ensures AllSourced(inp, inp.Plan(k, ids, cur))
    decreases |inp.ss| - k
  {
    hide Words, Parts;
    if k < |inp.ss| {
      if inp.Oversized(k) {
        PartsSourced(inp, k, 0);
        assert Words(inp.ss[k])[0..] == Words(inp.ss[k]);
        PlanSourced(inp, k + 1, ids, cur);
      } else if inp.Overflows(cur, k) {
        PlanSourced(inp, k + 1, [k], [inp.ss[k]]);
      } else {
        PlanSourced(inp, k + 1, ids + [k], cur + [inp.ss[k]]);
      }
    }
  }

  /** Every window joins sentences that fit, and its token count is the sum of the counter over them, or
      joins consecutive words of one oversized sentence, and its token count is their number. */
  lemma WindowTokens(text: string, count: string -> nat, max: int, i: nat)
    requires i < |WindowsOf(text, count, max)|
    ensures var inp, w := InputOf(text, count, max), WindowsOf(text, count, max)[i];
      || (exists body :: OfSentences(inp, w, body))
      || (exists k, lo, hi :: OfWords(inp, w, k, lo, hi))
  {
    hide Words, Sentences, Join;
    var inp := InputOf(text, count, max);
    var plan := inp.Plan(0, [], []);
    inp.LayoutMembers(0, plan);
    PlanSourced(inp, 0, [], []);
    var g, w := plan[i], WindowsOf(text, count, max)[i];
    assert Sourced(inp, g);
    match g {
      case Packed(_, body) =>
        SumIsTokenTotal(inp, body);
        assert OfSentences(inp, w, body);
      case Part(id, words) =>
        var lo: nat :| SliceAt(words, Words(inp.ss[id]), lo);
        assert OfWords(inp, w, id, lo, lo + |words|);
    }
  }

  function WindowAt(inp: Input, start: nat, g: Group): Window
  {
    Window(Content(g), inp.Tokens(g), start, start + |Content(g)|)
  }

  /** The running offset after the windows of a plan. */
  function EndOffset(start: nat, gs: seq<Group>): nat
    decreases gs
  {
    if gs == [] then start else EndOffset(start + |Content(gs[0])| + 1, gs[1..])
  }

  lemma {:induction false} LayoutConcat(inp: Input, start: nat, a: seq<Group>, b: seq<Group>)
    ensures inp.Layout(start, a + b) == inp.Layout(start, a) + inp.Layout(EndOffset(start, a), b)
    ensures EndOffset(start, a + b) == EndOffset(EndOffset(start, a), b)
    decreases a
  {
    if a == [] {
      assert a + b == b;
    } else {
      assert (a + b)[1..] == a[1..] + b;
      LayoutConcat(inp, start + |Content(a[0])| + 1, a[1..], b);
    }
  }

  lemma LayoutAppend(inp: Input, start: nat, gs: seq<Group>, g: Group)
    ensures inp.Layout(start, gs + [g]) == inp.Layout(start, gs) + [WindowAt(inp, EndOffset(start, gs), g)]
    ensures EndOffset(start, gs + [g]) == EndOffset(start, gs) + |Content(g)| + 1
  {
    LayoutConcat(inp, start, gs, [g]);
    var next := EndOffset(start, gs);
    assert inp.Layout(next, [g]) == [WindowAt(inp, next, g)] + inp.Layout(next + |Content(g)| + 1, []);
    assert EndOffset(next, [g]) == EndOffset(next + |Content(g)| + 1, []);
  }

  /** Emitting words `lo..hi` of an oversized sentence as one window. */
  lemma EmitPart(inp: Input, parts: seq<Group>, id: nat, words: seq<string>, lo: nat, hi: nat)
    requires lo < hi <= |words| && (hi - lo == inp.Chunk() || hi == |words| <= lo + inp.Chunk())
    ensures var part := Part(id, words[lo..hi]);
      parts + [part] + Parts(id, words[hi..], inp.Chunk()) == parts + Parts(id, words[lo..], inp.Chunk())
  {
    var part, left := Part(id, words[lo..hi]), words[lo..];
    assert left[..hi - lo] == words[lo..hi] && left[hi - lo..] == words[hi..];
    assert hi == |words| ==> left == words[lo..hi];
    assert Parts(id, left, inp.Chunk()) == [part] + Parts(id, words[hi..], inp.Chunk());
  }

  class WindowSelector {
    const maxTokens: int
    const countTokens: string -> nat

    constructor (maxTokens: int, countTokens: string -> nat)
      ensures this.maxTokens == maxTokens && this.countTokens == countTokens
    {
      this.maxTokens := maxTokens;
      this.countTokens := countTokens;
    }

    method SelectWindows(text: string) returns (windows: seq<Window>)
      ensures windows == WindowsOf(text, countTokens, maxTokens)
    {
      if text == "" {
        assert Sentences("") == [];
        return [];
      }
      windows := PackSentences(Sentences(text), InputOf(text, countTokens, maxTokens));
    }

    /** Appends the window for group `g` to those laid out for `done` from offset `base`. */
    method AppendWindow(windows: seq<Window>, texts: seq<string>, tokens: nat, start: nat,
                        ghost inp: Input, ghost base: nat, ghost done: seq<Group>, ghost g: Group)
      returns (more: seq<Window>, next: nat)
      requires windows == inp.Layout(base, done) && start == EndOffset(base, done)
      requires Content(g) == Join(' ', texts) && inp.Tokens(g) == tokens
      ensures more == inp.Layout(base, done + [g]) && next == EndOffset(base, done + [g])
    {
      var windowText := Join(' ', texts);
      more := windows + [Window(windowText, tokens, start, start + |windowText|)];
      next := start + |windowText| + 1;
      LayoutAppend(inp, base, done, g);
    }

    /** The packing loop over the sentences of a text; `done` are the groups already emitted. */
    method PackSentences(sentences: seq<string>, ghost inp: Input) returns (windows: seq<Window>)
      requires inp == Input(sentences, countTokens, maxTokens)
      ensures windows == inp.Layout(0, inp.Plan(0, [], []))
    {
      windows := [];
      var currentWindow: seq<string> := [];
      var currentTokens: nat, currentStart: nat := 0, 0;
      ghost var ids: seq<nat>, done: seq<Group> := [], [];
      for k := 0 to |sentences|
        invariant currentTokens == inp.Sum(currentWindow)
        invariant windows == inp.Layout(0, done) && currentStart == EndOffset(0, done)
        invariant done + inp.Plan(k, ids, currentWindow) == inp.Plan(0, [], [])
      {
        var sentence := sentences[k];
        var sentenceTokens := countTokens(sentence);
        inp.PlanStep(done, k, ids, currentWindow);
        if sentenceTokens > maxTokens {
          var wordWindows;
          ghost var parts;
          wordWindows, currentStart, parts := SplitByWords(inp, k, sentence, currentStart);
          windows := windows + wordWindows;
          LayoutConcat(inp, 0, done, parts);
          done := done + parts;
          continue;
        }
        if currentTokens + sentenceTokens > maxTokens && currentWindow != [] {
          windows, currentStart := AppendWindow(windows, currentWindow, currentTokens, currentStart,
                                               inp, 0, done, Packed(ids, currentWindow));
          done := done + [Packed(ids, currentWindow)];
          currentWindow, currentTokens, ids := [], 0, [];
          assert [] + [k] == [k] && [] + [sentence] == [sentence];
        }
        inp.SumAppend(currentWindow, sentence);
        currentWindow, ids := currentWindow + [sentence], ids + [k];
        currentTokens := currentTokens + sentenceTokens;
      }
      assert done + [] == done;
      if currentWindow != [] {
        windows, currentStart := AppendWindow(windows, currentWindow, currentTokens, currentStart,
                                               inp, 0, done, Packed(ids, currentWindow));
      }
    }

    /** The word loop for one oversized sentence; the open window is left alone. */
    method SplitByWords(ghost inp: Input, ghost k: nat, sentence: string, start: nat)
      returns (windows: seq<Window>, currentStart: nat, ghost parts: seq<Group>)
      requires inp.max == maxTokens
      ensures parts == Parts(k, Words(sentence), inp.Chunk())
      ensures windows == inp.Layout(start, parts) && currentStart == EndOffset(start, parts)
    {
      windows, currentStart, parts := [], start, [];
      var words := Words(sentence);
      var wordWindow: seq<string> := [];
      var wordTokens: nat := 0;
      ghost var lo := 0;
      for i := 0 to |words|
        invariant lo <= i && wordTokens == i - lo <= inp.Chunk() && wordWindow == words[lo..i]
        invariant windows == inp.Layout(start, parts) && currentStart == EndOffset(start, parts)
        invariant parts + Parts(k, words[lo..], inp.Chunk()) == Parts(k, words, inp.Chunk())
      {
        if wordTokens + 1 > maxTokens && wordWindow != [] {
          windows, currentStart := AppendWindow(windows, wordWindow, wordTokens, currentStart,
                                               inp, start, parts, Part(k, wordWindow));
          EmitPart(inp, parts, k, words, lo, i);
          parts, lo := parts + [Part(k, wordWindow)], i;
          wordWindow, wordTokens := [], 0;
        }
        wordWindow := wordWindow + [words[i]];
        wordTokens := wordTokens + 1;
      }
      if wordWindow != [] {
        windows, currentStart := AppendWindow(windows, wordWindow, wordTokens, currentStart,
                                               inp, start, parts, Part(k, wordWindow));
        EmitPart(inp, parts, k, words, lo, |words|);
        parts, lo := parts + [Part(k, wordWindow)], |words|;
      }
      assert words[lo..] == [] && parts + [] == parts;
    }
  }
}
