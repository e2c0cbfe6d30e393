module WindowPositions {
  // When the spans of the windows are positions in the text.
  //
  // The offsets of the windows are counted over the windows themselves, one character between
  // neighbours. Whether `text[start..end]` is the window therefore depends on the whitespace of
  // the text. `SpansAreTextPositionsIff` says exactly when it is so, in terms of the text.

  import opened Text
  import opened TierB
  import opened Tilings

  // ---------- spans ----------

  /** Every window is at its place in a text whose first character has offset `start`. */
  ghost predicate SpansFrom(start: nat, t: string, ws: seq<Window>)
  {
    forall i :: 0 <= i < |ws| ==> SpanFrom(start, t, ws[i])
  }

  ghost predicate SpanFrom(start: nat, t: string, w: Window)
  {
    && start <= w.start <= w.end <= start + |t|
    && t[w.start - start..w.end - start] == w.content
  }

  lemma PlacedRest(start: nat, ws: seq<Window>)
    requires Placed(start, ws) && ws != []
    ensures Placed(ws[0].end + 1, ws[1..])
    ensures ws[0].start == start && ws[0].end == start + |ws[0].content|
    ensures Contents(ws) == [ws[0].content] + Contents(ws[1..])
  {
    assert forall i :: 0 <= i < |ws[1..]| ==> ws[1..][i] == ws[i + 1];
  }

  lemma {:induction false} PlacedBeyond(start: nat, ws: seq<Window>)
    requires Placed(start, ws)
    ensures forall i :: 0 <= i < |ws| ==> ws[i].start >= start
    decreases |ws|
  {
    if ws != [] {
      PlacedRest(start, ws);
      PlacedBeyond(ws[0].end + 1, ws[1..]);
      forall i | 0 < i < |ws| ensures ws[i].start >= start {
        assert ws[i] == ws[1..][i - 1];
      }
    }
  }

  lemma FirstSpan(start: nat, t: string, w: Window)
    requires w.start == start && w.end == start + |w.content|
    ensures SpanFrom(start, t, w) <==> w.content <= t
  {
    var c := w.content;
    if c <= t { assert t[..|c|] == c; }
  }

  /** The first window is at its place, and the others are at theirs behind it. */
  lemma SpansStep(start: nat, t: string, ws: seq<Window>)
    requires Placed(start, ws) && ws != []
    ensures var c := ws[0].content;
      SpansFrom(start, t, ws) <==>
      c <= t && (ws[1..] == [] || (|c| < |t| && SpansFrom(start + |c| + 1, t[|c| + 1..], ws[1..])))
  {
    hide Contents, Placed, SpanFrom;
    PlacedRest(start, ws);
    var c, rest := ws[0].content, ws[1..];
    FirstSpan(start, t, ws[0]);
    if rest != [] {
      var next := start + |c| + 1;
      PlacedBeyond(next, rest);
      forall i | 0 <= i < |rest|
        ensures SpanFrom(start, t, ws[i + 1]) <==> |c| < |t| && SpanFrom(next, t[|c| + 1..], rest[i])
      {
        assert rest[i].start >= next;
        SpanShift(start, t, |c| + 1, rest[i]);
      }
      SpansRest(start, t, ws, c);
    }
  }

  lemma SpanShift(start: nat, t: string, n: nat, w: Window)
    requires w.start >= start + n
    ensures SpanFrom(start, t, w) <==> n <= |t| && SpanFrom(start + n, t[n..], w)
  {
    if n <= |t| && start + n <= w.start <= w.end <= start + |t| {
      assert t[n..][w.start - start - n..w.end - start - n] == t[w.start - start..w.end - start];
    }
  }

  lemma SpansRest(start: nat, t: string, ws: seq<Window>, c: string)
    requires |ws| > 1
    requires SpanFrom(start, t, ws[0]) <==> c <= t
    requires forall i :: 0 <= i < |ws| - 1 ==>
      (SpanFrom(start, t, ws[i + 1]) <==>
       |c| < |t| && SpanFrom(start + |c| + 1, t[|c| + 1..], ws[1..][i]))
    ensures SpansFrom(start, t, ws) <==>
            c <= t && |c| < |t| && SpansFrom(start + |c| + 1, t[|c| + 1..], ws[1..])
  {
    hide SpanFrom;
    var rest, next := ws[1..], start + |c| + 1;
    if SpansFrom(start, t, ws) {
      assert SpanFrom(start, t, ws[1]);
      forall i | 0 <= i < |rest| ensures |c| < |t| && SpanFrom(next, t[|c| + 1..], rest[i]) {
        assert SpanFrom(start, t, ws[i + 1]);
      }
    }
    if c <= t && |c| < |t| && SpansFrom(next, t[|c| + 1..], rest) {
      forall i | 0 <= i < |ws| ensures SpanFrom(start, t, ws[i]) {
        if i > 0 { assert SpanFrom(next, t[|c| + 1..], rest[i - 1]); }
      }
    }
  }

  lemma {:induction false} SpansHoldInk(start: nat, t: string, ws: seq<Window>)
    requires Placed(start, ws) && SpansFrom(start, t, ws)
    ensures Ink(t) >= InkOf(Contents(ws))
    decreases |ws|
  {
    hide Placed, SpanFrom, SpansFrom, Ink, InkOf, IsSpace, Contents;
    NoContents();
    if ws != [] {
      var c, rest := ws[0].content, ws[1..];
      SpansStep(start, t, ws);
      PlacedRest(start, ws);
      InkOfCons(c, Contents(rest));
      InkBehind(t, c);
      if rest != [] {
        SpansHoldInk(start + |c| + 1, t[|c| + 1..], rest);
      }
    }
  }

  lemma InkBehind(t: string, c: string)
    requires c <= t
    ensures Ink(t) == Ink(c) + Ink(t[|c|..])
    ensures |c| < |t| ==> Ink(t[|c|..]) == (if IsSpace(t[|c|]) then 0 else 1) + Ink(t[|c| + 1..])
  {
    InkConcat(c, t[|c|..]);
    assert t == c + t[|c|..];
    if |c| < |t| { assert t[|c|..][1..] == t[|c| + 1..]; }
  }

  /** Windows that hold all the ink of a text are at their places exactly when they tile it:
      whatever lies between two of them is then blank. */
  lemma {:induction false} SpansAreTiles(start: nat, t: string, ws: seq<Window>)
    requires Placed(start, ws) && Ink(t) == InkOf(Contents(ws))
    ensures SpansFrom(start, t, ws) <==> Tiles(t, Contents(ws))
    decreases |ws|, 1
  {
    hide Placed, SpanFrom, SpansFrom, Tiles, Tail, Ink, InkOf, IsSpace, AllSpace, Contents;
    if ws == [] {
      NoWindows(start, t);
    } else {
      var c, rest := ws[0].content, ws[1..];
      SpansStep(start, t, ws);
      PlacedRest(start, ws);
      TilesCons(t, c, Contents(rest));
      InkOfCons(c, Contents(rest));
      if c <= t {
        InkBehind(t, c);
        if rest == [] {
          NoInk(t[|c|..]);
          NoContents();
          TilesOne(t, c);
          assert [c] + [] == [c];
        } else {
          BehindTheFirst(start, t, c, rest);
        }
      }
    }
  }

  lemma NoWindows(start: nat, t: string)
    ensures SpansFrom(start, t, [])
    ensures Ink(t) == InkOf(Contents([])) ==> Tiles(t, Contents([]))
  {
    NoInk(t);
  }

  lemma NoContents()
    ensures Contents([]) == [] && InkOf([]) == 0
  {
  }

  lemma BehindTheFirst(start: nat, t: string, c: string, rest: seq<Window>)
    requires c <= t && rest != [] && Placed(start + |c| + 1, rest)
    requires Ink(t[|c|..]) == InkOf(Contents(rest))
    ensures Tail(t, |c|, Contents(rest)) <==>
            |c| < |t| && SpansFrom(start + |c| + 1, t[|c| + 1..], rest)
    decreases |rest|, 2
  {
    hide Placed, SpanFrom, SpansFrom, Tiles, Ink, IsSpace, InkOf;
    if |c| < |t| {
      var next, t' := start + |c| + 1, t[|c| + 1..];
      InkBehind(t, c);
      if SpansFrom(next, t', rest) { SpansHoldInk(next, t', rest); }
      if IsSpace(t[|c|]) || SpansFrom(next, t', rest) { SpansAreTiles(next, t', rest); }
    }
  }

  lemma InkOfCons(c: string, cs: seq<string>)
    ensures InkOf([c] + cs) == Ink(c) + InkOf(cs)
  {
    assert ([c] + cs)[1..] == cs;
  }

  // ---------- windows in place ----------

  /** The texts of the windows of a plan. */
  function Texts(gs: seq<Group>): seq<string>
  {
    if gs == [] then [] else [Content(gs[0])] + Texts(gs[1..])
  }

  lemma {:induction false} TextsConcat(a: seq<Group>, b: seq<Group>)
    ensures Texts(a + b) == Texts(a) + Texts(b)
  {
    if a == [] {
      assert a + b == b;
    } else {
      assert (a + b)[1..] == a[1..] + b;
      TextsConcat(a[1..], b);
    }
  }

  lemma {:induction false} ContentsAreTexts(inp: Input, start: nat, gs: seq<Group>)
    ensures Contents(inp.Layout(start, gs)) == Texts(gs)
    decreases gs
  {
    if gs != [] {
      var c := Content(gs[0]);
      var rest := inp.Layout(start + |c| + 1, gs[1..]);
      ContentsAreTexts(inp, start + |c| + 1, gs[1..]);
      assert ([Window(c, inp.Tokens(gs[0]), start, start + |c|)] + rest)[1..] == rest;
    }
  }

  /** The texts of the windows of an oversized sentence with these words. */
  function PartTexts(id: nat, words: seq<string>, chunk: nat): seq<string>
    requires chunk >= 1
  {
    Texts(Parts(id, words, chunk))
  }

  lemma PartTextsStep(id: nat, words: seq<string>, chunk: nat)
    requires chunk >= 1
    ensures words != [] && |words| <= chunk ==> PartTexts(id, words, chunk) == [Join(' ', words)]
    ensures |words| > chunk ==>
      PartTexts(id, words, chunk) == [Join(' ', words[..chunk])] + PartTexts(id, words[chunk..], chunk)
    ensures words != [] ==> PartTexts(id, words, chunk) != []
  {
    if |words| > chunk {
      var part := Part(id, words[..chunk]);
      TextsConcat([part], Parts(id, words[chunk..], chunk));
      assert Texts([part]) == [Content(part)];
    } else if words != [] {
      assert Texts([Part(id, words)]) == [Join(' ', words)];
    }
  }

  lemma {:induction false} JoinedParts(id: nat, words: seq<string>, chunk: nat)
    requires chunk >= 1 && words != []
    ensures Join(' ', PartTexts(id, words, chunk)) == Join(' ', words)
  {
    PartTextsStep(id, words, chunk);
    if |words| <= chunk {
      JoinOne(Join(' ', words));
    } else {
      var x, y := words[..chunk], words[chunk..];
      JoinedParts(id, y, chunk);
      PartTextsStep(id, y, chunk);
      JoinConcat(' ', x, y);
      assert x + y == words;
      JoinConcat(' ', [Join(' ', x)], PartTexts(id, y, chunk));
      JoinOne(Join(' ', x));
    }
  }

  /** The whitespace between words that share a window of `chunk` words is a plain space. */
  ghost predicate PlainInside(t: string, words: seq<string>, chunk: nat)
    requires chunk >= 1
  {
    forall j :: 0 < j < |words| && j % chunk != 0 ==> PlainAfter(t, words, j)
  }

  lemma Remainders(chunk: nat, j: nat)
    requires chunk >= 1
    ensures j < chunk ==> j % chunk == j
    ensures (chunk + j) % chunk == j % chunk && chunk % chunk == 0
  {
    var q, r := j / chunk, j % chunk;
    assert chunk + j == (q + 1) * chunk + r;
    QuotientUnique(chunk + j, chunk, q + 1, r);
    QuotientUnique(chunk, chunk, 1, 0);
    if j < chunk { QuotientUnique(j, chunk, 0, j); }
  }

  lemma PlainInsideFew(t: string, words: seq<string>, chunk: nat)
    requires chunk >= 1 && |words| <= chunk
    ensures PlainInside(t, words, chunk) <==> forall j :: 0 < j < |words| ==> PlainAfter(t, words, j)
  {
    hide PlainAfter;
    forall j | 0 < j < |words| ensures j % chunk != 0 { Remainders(chunk, j); }
  }

  lemma PlainInsideStep(t: string, x: seq<string>, y: seq<string>, chunk: nat)
    requires |x| == chunk >= 1 && y != [] && Width(x) < |t|
    ensures PlainInside(t, x + y, chunk) <==>
            (forall j :: 0 < j < chunk ==> PlainAfter(t, x + y, j)) && PlainInside(t[Width(x) + 1..], y, chunk)
  {
    hide PlainAfter;
    var t', words := t[Width(x) + 1..], x + y;
    forall j | 0 < j < |y| ensures PlainAfter(t', y, j) <==> PlainAfter(t, words, chunk + j) {
      PlainShift(t, x, y, j);
    }
    if PlainInside(t, words, chunk) {
      forall j | 0 < j < chunk ensures PlainAfter(t, words, j) { Remainders(chunk, j); }
      forall j | 0 < j < |y| && j % chunk != 0 ensures PlainAfter(t', y, j) {
        Remainders(chunk, j);
        assert PlainAfter(t, words, chunk + j);
      }
    }
    if (forall j :: 0 < j < chunk ==> PlainAfter(t, words, j)) && PlainInside(t', y, chunk) {
      forall j | 0 < j < |words| && j % chunk != 0 ensures PlainAfter(t, words, j) {
        if j >= chunk {
          Remainders(chunk, j - chunk);
          if j > chunk { assert PlainAfter(t', y, j - chunk); }
        }
      }
    }
  }

  /** The windows of an oversized sentence tile a string exactly when its words do, with plain
      spaces inside each window. */
  lemma {:induction false} TiledByPartsIff(e: string, id: nat, words: seq<string>, chunk: nat)
    requires chunk >= 1 && words != []
    ensures Tiles(e, PartTexts(id, words, chunk)) <==> Tiles(e, words) && PlainInside(e, words, chunk)
  {
    hide Tiles, Tail, Join, PlainInside, PlainAfter, PartTexts;
    PartTextsStep(id, words, chunk);
    if |words| <= chunk {
      assert [Join(' ', words)] + [] == [Join(' ', words)] && words + [] == words;
      GlueFirst(e, words, []);
      if Tiles(e, words) { GlueIffPlain(e, words, []); }
      PlainInsideFew(e, words, chunk);
    } else {
      var x, y := words[..chunk], words[chunk..];
      assert x + y == words;
      GlueFirst(e, x, PartTexts(id, y, chunk));
      PartTextsStep(id, y, chunk);
      TilesConcat(e, x, y);
      TilesConcat(e, x, PartTexts(id, y, chunk));
      if Width(x) < |e| {
        TiledByPartsIff(e[Width(x) + 1..], id, y, chunk);
        PlainInsideStep(e, x, y, chunk);
      }
      if Tiles(e, words) { GlueIffPlain(e, x, y); }
      NoTail(e, Width(x), y, PartTexts(id, y, chunk));
    }
  }

  lemma NoTail(t: string, m: nat, a: seq<string>, b: seq<string>)
    ensures m == |t| && a != [] ==> !Tail(t, m, a)
    ensures m == |t| && b != [] ==> !Tail(t, m, b)
    ensures m < |t| && a != [] ==> (Tail(t, m, a) <==> IsSpace(t[m]) && Tiles(t[m + 1..], a))
    ensures m < |t| && b != [] ==> (Tail(t, m, b) <==> IsSpace(t[m]) && Tiles(t[m + 1..], b))
  {
  }

  /** What tells whether an oversized sentence is found again in its windows. */
  ghost predicate SpacedForParts(s: string, chunk: nat)
    requires chunk >= 1
  {
    SingleSpaced(s) && PlainInside(s, Words(s), chunk)
  }

  lemma OversizedInPlaceIff(s: string, id: nat, chunk: nat)
    requires Sentence(s) && chunk >= 1
    ensures Tiles(s, PartTexts(id, Words(s), chunk)) <==> SpacedForParts(s, chunk)
  {
    WordsNonempty(s);
    TiledByPartsIff(s, id, Words(s), chunk);
    TiledByWordsIff(s);
  }

  /** What the windows of an oversized sentence cover is itself a sentence, with the same words. */
  lemma PartsCover(e: string, id: nat, s: string, chunk: nat)
    requires Sentence(s) && chunk >= 1
    requires var parts := PartTexts(id, Words(s), chunk); Tiles(e, parts) && |e| == Width(parts)
    ensures Sentence(e) && Words(e) == Words(s) && (EndsInStop(e) <==> EndsInStop(s))
  {
    WordsNonempty(s);
    WordsAreWords(s);
    StopsEndSentences(s);
    TiledByPartsIff(e, id, Words(s), chunk);
    JoinedParts(id, Words(s), chunk);
    TiledWords(e, Words(s));
  }

  /** Of two sentences at the same place with the same words, neither is longer. */
  lemma SameCover(t: string, a: string, b: string)
    requires a <= t && b <= t && Sentence(a) && Sentence(b) && Words(a) == Words(b)
    ensures a == b
  {
    if |a| < |b| {
      NoLonger(a, b);
    } else if |b| < |a| {
      NoLonger(b, a);
    }
  }

  lemma NoLonger(a: string, b: string)
    requires a <= b && Words(a) == Words(b) && EndsInInk(b)
    ensures a == b
  {
    var rest := b[|a|..];
    InkEnd(b, |a|);
    assert b == a + rest;
    InkConcat(a, rest);
    InkIsInWords(a);
    InkIsInWords(b);
    NoInk(rest);
  }

  lemma InkEnd(s: string, m: nat)
    requires m <= |s| && EndsInInk(s)
    ensures AllSpace(s[m..]) ==> m == |s|
  {
    var rest := s[m..];
    assert m < |s| ==> rest[|rest| - 1] == s[|s| - 1];
  }

  lemma PartTextsNonempty(id: nat, s: string, chunk: nat)
    requires Sentence(s) && chunk >= 1
    ensures PartTexts(id, Words(s), chunk) != []
  {
    WordsNonempty(s);
    PartTextsStep(id, Words(s), chunk);
  }

  /** An oversized sentence at the front of a text, read as the windows made of it. */
  lemma PartsInPlace(t: string, s: string, id: nat, chunk: nat, b: seq<string>)
    requires Sentence(s) && s <= t && chunk >= 1
    ensures Tiles(t, PartTexts(id, Words(s), chunk) + b) <==> SpacedForParts(s, chunk) && Tail(t, |s|, b)
  {
    hide Tiles, Tail, Join, Words, Sentence, SpacedForParts;
    var parts := PartTexts(id, Words(s), chunk);
    PartTextsNonempty(id, s, chunk);
    TilesConcat(t, parts, b);
    TilesConcat(s, parts, []);
    assert parts + [] == parts;
    OversizedInPlaceIff(s, id, chunk);
    var m := Width(parts);
    assert t[..|s|] == s;
    if m <= |t| && Tiles(t[..m], parts) {
      PartsCover(t[..m], id, s, chunk);
      SameCover(t, t[..m], s);
    }
    if Tiles(s, parts) {
      PartsCover(s[..m], id, s, chunk);
      SameCover(s, s[..m], s);
    }
  }

  // ---------- sentences that share a window ----------

  /** The sentences in the open window when sentence `k` is read. */
  function OpenAt(inp: Input, k: nat): seq<string>
    requires k <= |inp.ss|
  {
    if k == 0 then []
    else
      var cur := OpenAt(inp, k - 1);
      if inp.Oversized(k - 1) then cur
      else if inp.Overflows(cur, k - 1) then [inp.ss[k - 1]]
      else cur + [inp.ss[k - 1]]
  }

  /** Sentence `k` is put into a window that already holds a sentence. */
  predicate Joined(inp: Input, k: nat)
    requires k < |inp.ss|
  {
    !inp.Oversized(k) && OpenAt(inp, k) != [] && !inp.Overflows(OpenAt(inp, k), k)
  }

  /** Sentences `k..` stand behind the first `n` strings of `cs`; those that join a window come
      after a plain space. */
  ghost predicate JoinedPlain(inp: Input, k: nat, t: string, cs: seq<string>, n: nat)
    requires k <= |inp.ss| && |cs| == n + |inp.ss| - k
  {
    forall i :: k <= i < |inp.ss| && Joined(inp, i) ==> PlainAfter(t, cs, n + i - k)
  }

  ghost predicate OversizedSpaced(inp: Input, k: nat)
  {
    forall i :: k <= i < |inp.ss| && inp.Oversized(i) ==> SpacedForParts(inp.ss[i], inp.Chunk())
  }

  ghost predicate OpenPlain(t: string, cs: seq<string>, n: nat)
    requires n <= |cs|
  {
    forall j :: 0 < j < n ==> PlainAfter(t, cs, j)
  }

  /** The whitespace in `t`, which starts with the open window, is where the windows have it. */
  ghost predicate InPlace(inp: Input, k: nat, cur: seq<string>, t: string)
    requires k <= |inp.ss|
  {
    var cs := cur + inp.ss[k..];
    OpenPlain(t, cs, |cur|) && JoinedPlain(inp, k, t, cs, |cur|) && OversizedSpaced(inp, k)
  }

  /** The sentences of a text: each but the last ends in a stop. */
  ghost predicate Proper(inp: Input)
  {
    forall i :: 0 <= i < |inp.ss| ==>
      Sentence(inp.ss[i]) && (i < |inp.ss| - 1 ==> EndsInStop(inp.ss[i]))
  }

  lemma InPlaceAtEnd(inp: Input, cur: seq<string>, t: string)
    requires Tiles(t, cur)
    ensures var n := |inp.ss|;
      InPlace(inp, n, cur, t) <==> cur == [] || Join(' ', cur) <= t
  {
    hide Join, Tiles, PlainAfter;
    var n := |inp.ss|;
    assert inp.ss[n..] == [] && cur + inp.ss[n..] == cur && cur + [] == cur;
    if cur != [] { GlueIffPlain(t, cur, []); }
  }

  lemma OversizedSpacedStep(inp: Input, k: nat)
    requires k < |inp.ss|
    ensures OversizedSpaced(inp, k) <==>
      (inp.Oversized(k) ==> SpacedForParts(inp.ss[k], inp.Chunk())) && OversizedSpaced(inp, k + 1)
  {
    hide SpacedForParts;
  }

  /** The condition on the joined sentences, carried past the first strings `x` of a tiling. */
  lemma JoinedBehind(inp: Input, k: nat, l: nat, t: string, x: seq<string>, y: seq<string>, n: nat, n': nat)
    requires k <= l <= |inp.ss| && |x + y| == n + |inp.ss| - k && |y| == n' + |inp.ss| - l
    requires x != [] && Width(x) < |t|
    requires forall i :: k <= i < l ==> !Joined(inp, i)
    requires n' > 0 || l == |inp.ss| || !Joined(inp, l)
    ensures JoinedPlain(inp, k, t, x + y, n) <==> JoinedPlain(inp, l, t[Width(x) + 1..], y, n')
  {
    hide PlainAfter, Joined;
    var t' := t[Width(x) + 1..];
    forall i | l <= i < |inp.ss| && Joined(inp, i)
      ensures PlainAfter(t, x + y, n + i - k) <==> PlainAfter(t', y, n' + i - l)
    {
      PlainShift(t, x, y, n' + i - l);
    }
  }

  lemma InPlaceEmpty(inp: Input, k: nat, t: string)
    requires k <= |inp.ss|
    ensures InPlace(inp, k, [], t) <==> JoinedPlain(inp, k, t, inp.ss[k..], 0) && OversizedSpaced(inp, k)
  {
    hide JoinedPlain, OversizedSpaced, PlainAfter;
    assert [] + inp.ss[k..] == inp.ss[k..];
  }

  lemma NothingLeft(inp: Input, t: string, cs: seq<string>, n: nat)
    requires |cs| == n
    ensures JoinedPlain(inp, |inp.ss|, t, cs, n) && OversizedSpaced(inp, |inp.ss|)
  {
  }

  lemma NoneToJoin(inp: Input, k: nat)
    requires k < |inp.ss| && inp.Oversized(k) && OpenAt(inp, k) == []
    ensures OpenAt(inp, k + 1) == [] && !Joined(inp, k)
    ensures k + 1 < |inp.ss| ==> !Joined(inp, k + 1)
  {
  }

  lemma InPlaceOversized(inp: Input, k: nat, t: string)
    requires k < |inp.ss| && inp.Oversized(k) && OpenAt(inp, k) == []
    requires |inp.ss[k]| < |t| || k + 1 == |inp.ss|
    ensures OpenAt(inp, k + 1) == []
    ensures InPlace(inp, k, [], t) <==>
      SpacedForParts(inp.ss[k], inp.Chunk()) &&
      (k + 1 == |inp.ss| || InPlace(inp, k + 1, [], t[|inp.ss[k]| + 1..]))
  {
    hide SpacedForParts, InPlace, JoinedPlain, Joined, OpenAt, OversizedSpaced;
    var ss := inp.ss;
    InPlaceEmpty(inp, k, t);
    NoneToJoin(inp, k);
    OversizedSpacedStep(inp, k);
    if k + 1 < |ss| {
      SplitHead([], ss, k);
      JoinOne(ss[k]);
      JoinedBehind(inp, k, k + 1, t, [ss[k]], ss[k + 1..], 0, 0);
      InPlaceEmpty(inp, k + 1, t[|ss[k]| + 1..]);
    } else {
      JoinedAtLast(inp, k, t);
      NothingLeft(inp, "", [], 0);
    }
  }

  lemma JoinedAtLast(inp: Input, k: nat, t: string)
    requires k + 1 == |inp.ss| && !Joined(inp, k)
    ensures JoinedPlain(inp, k, t, inp.ss[k..], 0)
  {
    hide Joined;
  }

  lemma InPlaceFlushed(inp: Input, k: nat, cur: seq<string>, t: string)
    requires k < |inp.ss| && !inp.Oversized(k) && cur == OpenAt(inp, k) && inp.Overflows(cur, k)
    requires Tiles(t, cur + inp.ss[k..]) && Width(cur) < |t|
    ensures OpenAt(inp, k + 1) == [inp.ss[k]]
    ensures InPlace(inp, k, cur, t) <==>
      Join(' ', cur) <= t && InPlace(inp, k + 1, [inp.ss[k]], t[Width(cur) + 1..])
  {
    assert !Joined(inp, k);
    hide PlainAfter, JoinedPlain, Joined, OversizedSpaced, Tiles, Join;
    var ss := inp.ss;
    SplitHead([], ss, k);
    OversizedSpacedStep(inp, k);
    GlueIffPlain(t, cur, ss[k..]);
    JoinedBehind(inp, k, k + 1, t, cur, ss[k..], |cur|, 1);
  }

  lemma InPlaceAdded(inp: Input, k: nat, cur: seq<string>, t: string)
    requires k < |inp.ss| && !inp.Oversized(k) && cur == OpenAt(inp, k) && !inp.Overflows(cur, k)
    ensures OpenAt(inp, k + 1) == cur + [inp.ss[k]]
    ensures InPlace(inp, k, cur, t) <==> InPlace(inp, k + 1, cur + [inp.ss[k]], t)
  {
    hide PlainAfter, OversizedSpaced;
    var ss := inp.ss;
    SplitHead(cur, ss, k);
    OversizedSpacedStep(inp, k);
    JoinedNext(inp, k, cur, t, cur + ss[k..]);
  }

  lemma JoinedNext(inp: Input, k: nat, cur: seq<string>, t: string, cs: seq<string>)
    requires k < |inp.ss| && !inp.Oversized(k) && cur == OpenAt(inp, k) && !inp.Overflows(cur, k)
    requires |cs| == |cur| + |inp.ss| - k
    ensures OpenPlain(t, cs, |cur|) && JoinedPlain(inp, k, t, cs, |cur|) <==>
            OpenPlain(t, cs, |cur| + 1) && JoinedPlain(inp, k + 1, t, cs, |cur| + 1)
  {
    hide PlainAfter, OpenAt;
    assert Joined(inp, k) <==> cur != [];
  }

  // ---------- from the text to the windows ----------

  lemma {:induction false} OpenWindowGivesText(inp: Input, k: nat, ids: seq<nat>, cur: seq<string>)
    requires k <= |inp.ss| && cur != []
    ensures Texts(inp.Plan(k, ids, cur)) != []
    decreases |inp.ss| - k
  {
    if k < |inp.ss| {
      if inp.Oversized(k) {
        OpenWindowGivesText(inp, k + 1, ids, cur);
        TextsConcat(Parts(k, Words(inp.ss[k]), inp.Chunk()), inp.Plan(k + 1, ids, cur));
      } else if !inp.Overflows(cur, k) {
        OpenWindowGivesText(inp, k + 1, ids + [k], cur + [inp.ss[k]]);
      }
    }
  }

  /** Sentences still to be read give further windows. */
  lemma UnreadGivesText(inp: Input, k: nat, ids: seq<nat>, cur: seq<string>)
    requires k < |inp.ss| && Proper(inp)
    ensures Texts(inp.Plan(k, ids, cur)) != []
  {
    var s := inp.ss[k];
    if inp.Oversized(k) {
      WordsNonempty(s);
      PartTextsStep(k, Words(s), inp.Chunk());
      TextsConcat(Parts(k, Words(s), inp.Chunk()), inp.Plan(k + 1, ids, cur));
    } else if !inp.Overflows(cur, k) {
      OpenWindowGivesText(inp, k + 1, ids + [k], cur + [s]);
    }
  }

  lemma OversizedTexts(inp: Input, k: nat, ids: seq<nat>, cur: seq<string>)
    requires k < |inp.ss| && inp.Oversized(k)
    ensures Texts(inp.Plan(k, ids, cur)) ==
            PartTexts(k, Words(inp.ss[k]), inp.Chunk()) + Texts(inp.Plan(k + 1, ids, cur))
  {
    TextsConcat(Parts(k, Words(inp.ss[k]), inp.Chunk()), inp.Plan(k + 1, ids, cur));
  }

  lemma FlushedTexts(inp: Input, k: nat, ids: seq<nat>, cur: seq<string>)
    requires k < |inp.ss| && !inp.Oversized(k) && inp.Overflows(cur, k)
    ensures Texts(inp.Plan(k, ids, cur)) ==
            [Join(' ', cur)] + Texts(inp.Plan(k + 1, [k], [inp.ss[k]]))
  {
    TextsConcat([Packed(ids, cur)], inp.Plan(k + 1, [k], [inp.ss[k]]));
    assert Texts([Packed(ids, cur)]) == [Join(' ', cur)];
  }

  lemma NoTexts(inp: Input, ids: seq<nat>)
    ensures Texts(inp.Plan(|inp.ss|, ids, [])) == []
  {
  }

  lemma TilesBehindOversized(inp: Input, k: nat, ids: seq<nat>, t: string)
    requires k < |inp.ss| && inp.Oversized(k) && Proper(inp) && Tiles(t, [] + inp.ss[k..])
    ensures var s := inp.ss[k];
      && (|s| < |t| || k + 1 == |inp.ss|)
      && (k + 1 < |inp.ss| ==> Tiles(t[|s| + 1..], [] + inp.ss[k + 1..]))
      && (Tiles(t, Texts(inp.Plan(k, ids, []))) <==>
          SpacedForParts(s, inp.Chunk()) &&
          (k + 1 == |inp.ss| || Tiles(t[|s| + 1..], Texts(inp.Plan(k + 1, ids, [])))))
  {
    assert Sentence(inp.ss[k]);
    hide Tiles, Tail, Words, SpacedForParts, Join, PartTexts, Texts, Proper;
    var s, rest, b := inp.ss[k], inp.ss[k + 1..], Texts(inp.Plan(k + 1, ids, []));
    SplitHead([], inp.ss, k);
    assert [] + inp.ss[k..] == [s] + rest && [] + rest == rest;
    TilesCons(t, s, rest);
    OversizedTexts(inp, k, ids, []);
    PartsInPlace(t, s, k, inp.Chunk(), b);
    if k + 1 < |inp.ss| {
      UnreadGivesText(inp, k + 1, ids, []);
    } else {
      NoTexts(inp, ids);
      assert rest == [];
    }
    NoTail(t, |s|, rest, b);
  }

  lemma TilesBehindFlushed(inp: Input, k: nat, ids: seq<nat>, cur: seq<string>, t: string)
    requires k < |inp.ss| && !inp.Oversized(k) && inp.Overflows(cur, k) && Tiles(t, cur + inp.ss[k..])
    ensures && Width(cur) < |t|
      && Tiles(t[Width(cur) + 1..], [inp.ss[k]] + inp.ss[k + 1..])
      && (Tiles(t, Texts(inp.Plan(k, ids, cur))) <==>
          Join(' ', cur) <= t &&
          Tiles(t[Width(cur) + 1..], Texts(inp.Plan(k + 1, [k], [inp.ss[k]]))))
  {
    hide Tiles, Tail, Join;
    var rest, b := inp.ss[k..], Texts(inp.Plan(k + 1, [k], [inp.ss[k]]));
    SplitHead([], inp.ss, k);
    assert cur != [] && rest != [];
    FlushedTexts(inp, k, ids, cur);
    GlueFirst(t, cur, b);
    TilesConcat(t, cur, rest);
    TilesConcat(t, cur, b);
    OpenWindowGivesText(inp, k + 1, [k], [inp.ss[k]]);
    NoTail(t, Width(cur), rest, b);
  }

  /** When sentences tile their text, and none is oversized behind one that fits, the windows
      tile it exactly when the whitespace is where they have it. */
  lemma {:induction false} PlanTilesIff(inp: Input, k: nat, ids: seq<nat>, cur: seq<string>, t: string)
    requires k <= |inp.ss| && cur == OpenAt(inp, k) && Proper(inp)
    requires !inp.LateOversized(k) && (cur == [] || inp.NoOversizedFrom(k))
    requires Tiles(t, cur + inp.ss[k..])
    ensures Tiles(t, Texts(inp.Plan(k, ids, cur))) <==> InPlace(inp, k, cur, t)
    decreases |inp.ss| - k
  {
    hide OpenAt, InPlace, Tiles, Tail, Join, Proper, SpacedForParts;
    var ss := inp.ss;
    if k == |ss| {
      assert ss[k..] == [] && cur + [] == cur;
      InPlaceAtEnd(inp, cur, t);
      TextsAtEnd(inp, ids, cur, t);
    } else {
      inp.OversizedNext(k);
      SplitHead(cur, ss, k);
      if inp.Oversized(k) {
        TilesBehindOversized(inp, k, ids, t);
        InPlaceOversized(inp, k, t);
        if k + 1 < |ss| {
          PlanTilesIff(inp, k + 1, ids, [], t[|ss[k]| + 1..]);
        }
      } else if inp.Overflows(cur, k) {
        TilesBehindFlushed(inp, k, ids, cur, t);
        InPlaceFlushed(inp, k, cur, t);
        PlanTilesIff(inp, k + 1, [k], [ss[k]], t[Width(cur) + 1..]);
      } else {
        InPlaceAdded(inp, k, cur, t);
        PlanTilesIff(inp, k + 1, ids + [k], cur + [ss[k]], t);
      }
    }
  }

  lemma TextsAtEnd(inp: Input, ids: seq<nat>, cur: seq<string>, t: string)
    requires Tiles(t, cur)
    ensures Tiles(t, Texts(inp.Plan(|inp.ss|, ids, cur))) <==> cur == [] || Join(' ', cur) <= t
  {
    if cur == [] {
      assert Texts(inp.Plan(|inp.ss|, ids, cur)) == [];
    } else {
      GlueFirst(t, cur, []);
      assert cur + [] == cur && [Join(' ', cur)] + [] == [Join(' ', cur)];
      assert Texts([Packed(ids, cur)]) == [Join(' ', cur)];
    }
  }

  // ---------- from the windows to the text ----------

  /** The last word does not end in a stop. */
  predicate Bare(t: string)
  {
    NoStopAtEnd(Words(t))
  }

  predicate NoStopAtEnd(ws: seq<string>)
  {
    ws == [] || !EndsInStop(ws[|ws| - 1])
  }

  /** When the last sentence lacks a stop, so does the text `t` at its end. */
  predicate EndsAlike(inp: Input, t: string)
  {
    inp.ss == [] || EndsInStop(inp.ss[|inp.ss| - 1]) || Bare(t)
  }

  lemma BareBehind(t: string, e: string)
    requires e <= t && |e| < |t| && IsSpace(t[|e|])
    ensures Words(t) == Words(e) + Words(t[|e| + 1..])
    ensures Bare(t) ==> Bare(t[|e| + 1..])
  {
    hide Words, IsSpace, NoStopAtEnd;
    var t' := t[|e| + 1..];
    SplitAt(t, e);
    WordsAcrossSpace(e, t[|e|], t');
    NoStopBehind(Words(e), Words(t'));
  }

  lemma SplitAt(t: string, e: string)
    requires e <= t && |e| < |t|
    ensures t == e + [t[|e|]] + t[|e| + 1..]
  {
    assert e == t[..|e|];
  }

  lemma NoStopBehind(a: seq<string>, b: seq<string>)
    ensures NoStopAtEnd(a + b) ==> NoStopAtEnd(b)
  {
    if b != [] { LastOfConcat(a, b); }
  }

  lemma LastOfConcat(a: seq<string>, b: seq<string>)
    requires b != []
    ensures a + b != [] && (a + b)[|a + b| - 1] == b[|b| - 1]
  {
  }

  /** The sentences held in the open window before sentence `k`: all fit, and each ends in a stop
      unless it is the last of the text. */
  ghost predicate Held(inp: Input, k: nat, cur: seq<string>)
  {
    forall j :: 0 <= j < |cur| ==>
      && Sentence(cur[j]) && inp.count(cur[j]) <= inp.max
      && (j < |cur| - 1 || k < |inp.ss| ==> EndsInStop(cur[j]))
  }

  lemma HeldNext(inp: Input, k: nat, cur: seq<string>)
    requires k < |inp.ss| && Held(inp, k, cur) && Proper(inp)
    ensures Held(inp, k + 1, cur)
    ensures !inp.Oversized(k) ==> Held(inp, k + 1, [inp.ss[k]]) && Held(inp, k + 1, cur + [inp.ss[k]])
  {
    hide Sentence;
  }

  lemma LastWordOfJoin(cur: seq<string>)
    requires cur != [] && Sentence(cur[|cur| - 1])
    ensures Words(Join(' ', cur)) != []
    ensures Bare(Join(' ', cur)) <==> !EndsInStop(cur[|cur| - 1])
  {
    hide Join, Words;
    var n := |cur| - 1;
    assert cur == cur[..n] + [cur[n]];
    WordsOfJoin(' ', cur);
    AllWordsConcat(cur[..n], [cur[n]]);
    AllWordsOne(cur[n]);
    StopsEndSentences(cur[n]);
    LastOfConcat(AllWords(cur[..n]), Words(cur[n]));
  }

  /** A text that is one joined window ends as the window's last sentence does. */
  lemma OneWindowEnds(t: string, cur: seq<string>)
    requires cur != [] && Sentence(cur[|cur| - 1]) && Tiles(t, [Join(' ', cur)])
    ensures Words(t) != [] && (Bare(t) <==> !EndsInStop(cur[|cur| - 1]))
  {
    hide Join, Words, Tiles;
    var all := Join(' ', cur);
    TilesOne(t, all);
    LastWordOfJoin(cur);
    WordsBeforeBlank(all, t[|all|..]);
    assert t == all + t[|all|..];
  }

  /** Joined sentences at the front of a text are its first sentences. */
  lemma {:induction false} SentencesOfTiles(t: string, a: seq<string>, b: seq<string>)
    requires a != [] && Tiles(t, a + b)
    requires forall j :: 0 <= j < |a| ==> Sentence(a[j]) && (j < |a| - 1 || b != [] ==> EndsInStop(a[j]))
    ensures b == [] ==> Sentences(t) == a
    ensures b != [] ==> Width(a) < |t| && IsSpace(t[Width(a)]) && Tiles(t[Width(a) + 1..], b)
    ensures b != [] ==> Sentences(t) == a + Sentences(t[Width(a) + 1..])
    decreases |a|
  {
    hide Tiles, Tail, Join, Sentence, Sentences;
    var e, rest := a[0], a[1..];
    assert a == [e] + rest && a + b == [e] + (rest + b);
    TilesCons(t, e, rest + b);
    if rest + b == [] {
      TilesOne(t, e);
      LastSentence(t, e);
      assert a == [e];
    } else {
      NoTail(t, |e|, rest + b, []);
      FirstSentence(t, e);
      JoinOne(e);
      if rest == [] {
        assert rest + b == b && a == [e];
      } else {
        JoinStep(a);
        var t' := t[|e| + 1..];
        SentencesOfTiles(t', rest, b);
        if b != [] {
          assert t'[Width(rest) + 1..] == t[Width(a) + 1..];
          Associate([e], rest, Sentences(t[Width(a) + 1..]));
        }
      }
    }
  }

  /** The windows of an oversized sentence, read off the front of the text, cover one sentence of it. */
  lemma ReadOversized(inp: Input, k: nat, ids: seq<nat>, cur: seq<string>, t: string) returns (e: string, t': string)
    requires k < |inp.ss| && inp.Oversized(k) && Proper(inp) && Held(inp, k, cur) && EndsAlike(inp, t)
    requires Tiles(t, Texts(inp.Plan(k, ids, cur))) && (cur != [] || k + 1 < |inp.ss|)
    ensures e <= t && |e| < |t| && IsSpace(t[|e|]) && t' == t[|e| + 1..]
    ensures Sentence(e) && Words(e) == Words(inp.ss[k]) && Sentences(t) == [e] + Sentences(t')
    ensures Tiles(t', Texts(inp.Plan(k + 1, ids, cur))) && EndsAlike(inp, t')
  {
    hide Tiles, Tail, Join, Words, Sentence, Sentences, Bare;
    var s, b := inp.ss[k], Texts(inp.Plan(k + 1, ids, cur));
    var parts := PartTexts(k, Words(s), inp.Chunk());
    OversizedTexts(inp, k, ids, cur);
    if cur != [] { OpenWindowGivesText(inp, k + 1, ids, cur); } else { UnreadGivesText(inp, k + 1, ids, cur); }
    PartTextsNonempty(k, s, inp.Chunk());
    TilesConcat(t, parts, b);
    NoTail(t, Width(parts), b, []);
    e := t[..Width(parts)];
    t' := t[|e| + 1..];
    PartsCover(e, k, s, inp.Chunk());
    BareBehind(t, e);
    if k + 1 == |inp.ss| { LastHasStop(inp, ids, cur, t, t'); }
    FirstSentence(t, e);
  }

  lemma LastHasStop(inp: Input, ids: seq<nat>, cur: seq<string>, t: string, t': string)
    requires inp.ss != [] && cur != [] && Held(inp, |inp.ss| - 1, cur) && EndsAlike(inp, t)
    requires Tiles(t', Texts(inp.Plan(|inp.ss|, ids, cur)))
    requires Bare(t) ==> Bare(t')
    ensures EndsInStop(inp.ss[|inp.ss| - 1])
  {
    hide Bare, Tiles, Join;
    assert Texts([Packed(ids, cur)]) == [Join(' ', cur)];
    OneWindowEnds(t', cur);
  }

  /** A window that is closed holds the next sentences of the text. */
  lemma ReadFlushed(inp: Input, k: nat, ids: seq<nat>, cur: seq<string>, t: string) returns (t': string)
    requires k < |inp.ss| && !inp.Oversized(k) && inp.Overflows(cur, k)
    requires Held(inp, k, cur) && EndsAlike(inp, t) && Tiles(t, Texts(inp.Plan(k, ids, cur)))
    ensures Width(cur) < |t| && IsSpace(t[Width(cur)]) && t' == t[Width(cur) + 1..] && Join(' ', cur) <= t
    ensures Sentences(t) == cur + Sentences(t')
    ensures Tiles(t', Texts(inp.Plan(k + 1, [k], [inp.ss[k]]))) && EndsAlike(inp, t')
  {
    hide Tiles, Tail, Join, Sentences, Sentence, Bare;
    var b := Texts(inp.Plan(k + 1, [k], [inp.ss[k]]));
    FlushedTexts(inp, k, ids, cur);
    OpenWindowGivesText(inp, k + 1, [k], [inp.ss[k]]);
    GlueFirst(t, cur, b);
    SentencesOfTiles(t, cur, b);
    t' := t[Width(cur) + 1..];
    BareBehind(t, Join(' ', cur));
  }

  /** How many of the sentences fit. */
  function Fitting(inp: Input, xs: seq<string>): nat
  {
    if xs == [] then 0 else (if inp.count(xs[0]) <= inp.max then 1 else 0) + Fitting(inp, xs[1..])
  }

  lemma {:induction false} FittingConcat(inp: Input, a: seq<string>, b: seq<string>)
    ensures Fitting(inp, a + b) == Fitting(inp, a) + Fitting(inp, b)
  {
    if a == [] {
      assert a + b == b;
    } else {
      assert (a + b)[1..] == a[1..] + b;
      FittingConcat(inp, a[1..], b);
    }
  }

  lemma {:induction false} FittingAll(inp: Input, k: nat, cur: seq<string>)
    requires Held(inp, k, cur)
    ensures Fitting(inp, cur) == |cur|
  {
    hide Sentence, EndsInStop;
    if cur != [] {
      FittingAll(inp, k, cur[1..]);
    }
  }

  lemma FittingStep(inp: Input, k: nat)
    requires k < |inp.ss|
    ensures Fitting(inp, inp.ss[k..]) == (if inp.Oversized(k) then 0 else 1) + Fitting(inp, inp.ss[k + 1..])
  {
    assert inp.ss[k..][1..] == inp.ss[k + 1..];
  }

  /** A text tiled by windows has at least as many fitting sentences as went into the windows. */
  lemma {:induction false} FittingInText(inp: Input, k: nat, ids: seq<nat>, cur: seq<string>, t: string)
    requires k <= |inp.ss| && Proper(inp) && Held(inp, k, cur) && EndsAlike(inp, t)
    requires Tiles(t, Texts(inp.Plan(k, ids, cur)))
    ensures Fitting(inp, Sentences(t)) >= |cur| + Fitting(inp, inp.ss[k..])
    decreases |inp.ss| - k
  {
    hide Tiles, Sentences, Held, EndsAlike, Proper, Sentence, Join;
    var ss := inp.ss;
    if k == |ss| {
      assert ss[k..] == [];
      if cur != [] { FittingAtEnd(inp, ids, cur, t); }
    } else {
      HeldNext(inp, k, cur);
      FittingStep(inp, k);
      if inp.Oversized(k) {
        if cur != [] || k + 1 < |ss| {
          var e, t' := ReadOversized(inp, k, ids, cur, t);
          FittingInText(inp, k + 1, ids, cur, t');
          FittingConcat(inp, [e], Sentences(t'));
        } else {
          assert ss[k + 1..] == [];
        }
      } else if inp.Overflows(cur, k) {
        var t' := ReadFlushed(inp, k, ids, cur, t);
        FittingInText(inp, k + 1, [k], [ss[k]], t');
        FittingConcat(inp, cur, Sentences(t'));
        FittingAll(inp, k, cur);
      } else {
        FittingInText(inp, k + 1, ids + [k], cur + [ss[k]], t);
      }
    }
  }

  lemma FittingAtEnd(inp: Input, ids: seq<nat>, cur: seq<string>, t: string)
    requires cur != [] && Held(inp, |inp.ss|, cur) && Tiles(t, Texts(inp.Plan(|inp.ss|, ids, cur)))
    ensures Sentences(t) == cur && Tiles(t, cur) && Fitting(inp, Sentences(t)) == |cur|
  {
    hide Sentence, Sentences, Tiles, Join;
    assert Texts([Packed(ids, cur)]) == [Join(' ', cur)];
    assert cur + [] == cur && [Join(' ', cur)] + [] == [Join(' ', cur)];
    GlueFirst(t, cur, []);
    SentencesOfTiles(t, cur, []);
    FittingAll(inp, |inp.ss|, cur);
  }

  lemma SameHead(a: string, x: seq<string>, b: string, y: seq<string>)
    requires [a] + x == [b] + y
    ensures a == b && x == y
  {
    assert ([a] + x)[0] == ([b] + y)[0];
    assert ([a] + x)[1..] == x && ([b] + y)[1..] == y;
  }

  lemma SameRest(a: seq<string>, x: seq<string>, y: seq<string>)
    requires a + x == a + y
    ensures x == y
  {
    assert (a + x)[|a|..] == x && (a + y)[|a|..] == y;
  }

  lemma TilesBehind(t: string, a: seq<string>, b: seq<string>)
    requires a != [] && Join(' ', a) <= t && Width(a) < |t| && IsSpace(t[Width(a)])
    requires Tiles(t[Width(a) + 1..], b)
    ensures Tiles(t, a + b)
  {
    hide Join;
    TilesCons(t, Join(' ', a), b);
    GlueFirst(t, a, b);
  }

  /** The windows of an oversized sentence ahead of the open window would leave the text short of
      a sentence that fits. */
  lemma OpenWindowIsNotOvertaken(inp: Input, k: nat, ids: seq<nat>, cur: seq<string>, t: string)
    requires k < |inp.ss| && inp.Oversized(k)
    requires Proper(inp) && Held(inp, k, cur) && EndsAlike(inp, t)
    requires Sentences(t) == cur + inp.ss[k..]
    requires Tiles(t, Texts(inp.Plan(k, ids, cur)))
    ensures cur == []
  {
    hide Tiles, Sentences, EndsAlike, Proper, Sentence, Join, Held;
    if cur != [] {
      var e, t' := ReadOversized(inp, k, ids, cur, t);
      HeldNext(inp, k, cur);
      FittingInText(inp, k + 1, ids, cur, t');
      FittingAll(inp, k, cur);
      FittingStep(inp, k);
      FirstFits(inp, k, e, Sentences(t'), cur, inp.ss[k..]);
    }
  }

  lemma FirstFits(inp: Input, k: nat, e: string, x: seq<string>, cur: seq<string>, y: seq<string>)
    requires [e] + x == cur + y && cur != [] && Held(inp, k, cur)
    ensures Fitting(inp, cur) + Fitting(inp, y) == 1 + Fitting(inp, x)
  {
    hide Sentence, EndsInStop;
    assert ([e] + x)[0] == e && (cur + y)[0] == cur[0];
    OneFits(inp, e);
    FittingConcat(inp, [e], x);
    FittingConcat(inp, cur, y);
  }

  lemma OneFits(inp: Input, e: string)
    ensures Fitting(inp, [e]) == if inp.count(e) <= inp.max then 1 else 0
  {
  }

  lemma OnlyOversized(inp: Input, k: nat, ids: seq<nat>, t: string)
    requires k + 1 == |inp.ss| && inp.Oversized(k) && Proper(inp) && Sentences(t) == [] + inp.ss[k..]
    requires Tiles(t, Texts(inp.Plan(k, ids, [])))
    ensures Tiles(t, [] + inp.ss[k..])
  {
    hide Tiles, Words, Sentence, Sentences, Join;
    var s := inp.ss[k];
    var parts := PartTexts(k, Words(s), inp.Chunk());
    OversizedTexts(inp, k, ids, []);
    assert Texts(inp.Plan(k + 1, ids, [])) == [];
    PartTextsNonempty(k, s, inp.Chunk());
    TilesConcat(t, parts, []);
    var e := t[..Width(parts)];
    PartsCover(e, k, s, inp.Chunk());
    TailIsBlank(t, Width(parts));
    LastSentence(t, e);
    assert [] + inp.ss[k..] == [s] && [e] == [s];
    TilesOne(t, s);
  }

  lemma TailIsBlank(t: string, m: nat)
    requires m <= |t| && Tail(t, m, [])
    ensures AllSpace(t[m..])
  {
    if m < |t| { BlankStep(t, m); }
  }

  /** Windows that tile their text let no sentence overtake another. */
  lemma {:induction false} NoneOvertakes(inp: Input, k: nat, ids: seq<nat>, cur: seq<string>, t: string)
    requires k <= |inp.ss| && Proper(inp) && Held(inp, k, cur) && EndsAlike(inp, t)
    requires Sentences(t) == cur + inp.ss[k..]
    requires Tiles(t, Texts(inp.Plan(k, ids, cur)))
    ensures !inp.LateOversized(k) && (cur == [] || inp.NoOversizedFrom(k))
    ensures Tiles(t, cur + inp.ss[k..])
    decreases |inp.ss| - k
  {
    hide Tiles, Sentences, Held, EndsAlike, Proper, Sentence, Join;
    var ss := inp.ss;
    if k == |ss| {
      assert ss[k..] == [] && cur + [] == cur;
      if cur != [] { FittingAtEnd(inp, ids, cur, t); }
    } else {
      HeldNext(inp, k, cur);
      SplitHead(cur, ss, k);
      if inp.Oversized(k) {
        OpenWindowIsNotOvertaken(inp, k, ids, cur, t);
        if k + 1 < |ss| {
          var e, t' := ReadOversized(inp, k, ids, cur, t);
          assert [] + ss[k + 1..] == ss[k + 1..] && [] + ss[k..] == [ss[k]] + ss[k + 1..];
          SameHead(e, Sentences(t'), ss[k], ss[k + 1..]);
          NoneOvertakes(inp, k + 1, ids, [], t');
          JoinOne(e);
          TilesBehind(t, [e], ss[k + 1..]);
        } else {
          OnlyOversized(inp, k, ids, t);
        }
      } else if inp.Overflows(cur, k) {
        var t' := ReadFlushed(inp, k, ids, cur, t);
        SameRest(cur, Sentences(t'), ss[k..]);
        NoneOvertakes(inp, k + 1, [k], [ss[k]], t');
        TilesBehind(t, cur, ss[k..]);
      } else {
        NoneOvertakes(inp, k + 1, ids + [k], cur + [ss[k]], t);
      }
    }
  }

  // ---------- the theorem ----------

  /** Every window is the text between its `start` and its `end`. */
  ghost predicate SpansInText(text: string, ws: seq<Window>)
  {
    forall i :: 0 <= i < |ws| ==>
      ws[i].start <= ws[i].end <= |text| && text[ws[i].start..ws[i].end] == ws[i].content
  }

  /** The whitespace of the text is where the windows have it: none before the first sentence, one
      character between neighbouring sentences, plain where they share a window; an oversized
      sentence has one character between words, plain inside a window, and none follows a sentence
      that fits. */
  ghost predicate Aligned(text: string, count: string -> nat, max: int)
  {
    var inp := InputOf(text, count, max);
    && SingleCuts(text)
    && !inp.LateOversized(0)
    && (forall k :: 0 <= k < |inp.ss| && Joined(inp, k) ==> PlainAfter(text, inp.ss, k))
    && (forall k :: 0 <= k < |inp.ss| && inp.Oversized(k) ==> SpacedForParts(inp.ss[k], inp.Chunk()))
  }

  ghost predicate HoldWords(gs: seq<Group>)
  {
    forall j :: 0 <= j < |gs| && gs[j].Part? ==> WordList(gs[j].words)
  }

  lemma {:induction false} PlanHoldsWords(inp: Input, k: nat, ids: seq<nat>, cur: seq<string>)
    requires k <= |inp.ss|
    ensures HoldWords(inp.Plan(k, ids, cur))
    decreases |inp.ss| - k
  {
    hide WordList, Words, Parts;
    if k < |inp.ss| {
      if inp.Oversized(k) {
        WordsAreWords(inp.ss[k]);
        PartsHoldWords(k, Words(inp.ss[k]), inp.Chunk());
        PlanHoldsWords(inp, k + 1, ids, cur);
      } else if inp.Overflows(cur, k) {
        PlanHoldsWords(inp, k + 1, [k], [inp.ss[k]]);
      } else {
        PlanHoldsWords(inp, k + 1, ids + [k], cur + [inp.ss[k]]);
      }
    }
  }

  lemma {:induction false} PartsHoldWords(id: nat, words: seq<string>, chunk: nat)
    requires chunk >= 1 && WordList(words)
    ensures HoldWords(Parts(id, words, chunk))
  {
    if |words| > chunk {
      assert WordList(words[..chunk]) && WordList(words[chunk..]);
      PartsHoldWords(id, words[chunk..], chunk);
    }
  }

  /** The windows have as many printing characters as the text. */
  lemma WindowsHoldTheInk(text: string, count: string -> nat, max: int)
    ensures Ink(text) == InkOf(Contents(WindowsOf(text, count, max)))
  {
    hide Words, Ink, InkOf, Total, WordList, Sentences;
    var inp := InputOf(text, count, max);
    var plan := inp.Plan(0, [], []);
    PlanHoldsWords(inp, 0, [], []);
    LayoutWords(inp, 0, plan);
    inp.PlanKeepsWords(0, [], []);
    assert inp.ss[0..] == inp.ss;
    SentencesKeepWords(text);
    InkIsInWords(text);
    InkOfAllWords(Contents(WindowsOf(text, count, max)));
    TotalOfMultiset(PlanWords(plan), Words(text));
  }

  /** Windows are at their places in the text exactly when they tile it. */
  lemma SpansInTextIffTiles(text: string, count: string -> nat, max: int)
    ensures var inp := InputOf(text, count, max);
      SpansInText(text, WindowsOf(text, count, max)) <==> Tiles(text, Texts(inp.Plan(0, [], [])))
  {
    hide Tiles, Ink, InkOf, Placed;
    var inp := InputOf(text, count, max);
    var ws := WindowsOf(text, count, max);
    LayoutPlaced(inp, 0, inp.Plan(0, [], []));
    WindowsHoldTheInk(text, count, max);
    SpansAreTiles(0, text, ws);
    ContentsAreTexts(inp, 0, inp.Plan(0, [], []));
    assert SpansInText(text, ws) <==> SpansFrom(0, text, ws);
  }

  lemma TextIsProper(text: string, count: string -> nat, max: int)
    ensures var inp := InputOf(text, count, max); Proper(inp) && EndsAlike(inp, text)
  {
    var ss := Sentences(text);
    SentencesAreSentences(text);
    SentencesAreCutAtStops(text);
    if ss != [] {
      var n := |ss| - 1;
      SentencesKeepWords(text);
      assert ss == ss[..n] + [ss[n]];
      AllWordsConcat(ss[..n], [ss[n]]);
      AllWordsOne(ss[n]);
      StopsEndSentences(ss[n]);
      LastOfConcat(AllWords(ss[..n]), Words(ss[n]));
    }
  }

  /** `text[start..end]` is the window, for every window, exactly when the whitespace of the text
      is where the windows have it. */
  lemma SpansAreTextPositionsIff(text: string, count: string -> nat, max: int)
    ensures SpansInText(text, WindowsOf(text, count, max)) <==> Aligned(text, count, max)
  {
    hide SpansInText, Tiles, SingleCuts, Sentences, PlainAfter, SpacedForParts, Proper, EndsAlike;
    var inp := InputOf(text, count, max);
    var ss := inp.ss;
    assert [] + ss[0..] == ss;
    SpansInTextIffTiles(text, count, max);
    TextIsProper(text, count, max);
    TiledBySentencesIff(text);
    if Tiles(text, Texts(inp.Plan(0, [], []))) {
      NoneOvertakes(inp, 0, [], [], text);
    }
    if Tiles(text, ss) && !inp.LateOversized(0) {
      PlanTilesIff(inp, 0, [], [], text);
    }
  }

  // ---------- tidy texts ----------

  /** Plain spaces only, and no two side by side. */
  predicate Tidy(s: string)
  {
    SingleSpaced(s) && forall i :: 0 <= i < |s| && IsSpace(s[i]) ==> s[i] == ' '
  }

  lemma TidyParts(a: string, b: string)
    requires Tidy(a + b)
    ensures Tidy(a) && Tidy(b)
  {
    var s := a + b;
    forall i | 0 <= i < |a| ensures s[i] == a[i] {}
    forall i | 0 <= i < |b| ensures s[|a| + i] == b[i] {}
    forall i | 0 < i < |b| && IsSpace(b[i - 1]) ensures !IsSpace(b[i]) {
      assert IsSpace(s[|a| + i - 1]);
    }
  }

  lemma {:induction false} TidyTiles(t: string, cs: seq<string>)
    requires Tiles(t, cs) && cs != [] && Tidy(t) && EndsInInk(t)
    ensures t == Join(' ', cs)
    decreases |cs|
  {
    assert forall i :: 0 <= i < |t| && IsSpace(t[i]) ==> t[i] == ' ';
    hide Tiles, Tidy, IsSpace, Join;
    var c, rest := cs[0], cs[1..];
    assert cs == [c] + rest;
    TilesCons(t, c, rest);
    if rest == [] {
      TilesOne(t, c);
      JoinOne(c);
      InkEnd(t, |c|);
      assert cs == [c] && t[..|c|] == c && t[..|t|] == t;
    } else {
      NoTail(t, |c|, rest, []);
      SplitAt(t, c);
      InkAtEnd(t, |c|);
      TidyParts(c + [t[|c|]], t[|c| + 1..]);
      TidyTiles(t[|c| + 1..], rest);
      JoinStep(cs);
    }
  }

  lemma {:induction false} TidyMembers(cs: seq<string>, i: nat)
    requires i < |cs| && Tidy(Join(' ', cs))
    ensures Tidy(cs[i])
  {
    hide Tidy, Join;
    if |cs| == 1 {
      JoinOne(cs[0]);
      assert cs == [cs[0]];
    } else {
      JoinStep(cs);
      TidyParts(cs[0] + [' '], Join(' ', cs[1..]));
      TidyParts(cs[0], [' ']);
      if i > 0 { TidyMembers(cs[1..], i - 1); }
    }
  }

  lemma TidySentence(s: string, chunk: nat)
    requires Sentence(s) && Tidy(s) && chunk >= 1
    ensures SpacedForParts(s, chunk)
  {
    WordsNonempty(s);
    hide Join, PlainAfter, Words;
    TiledByWordsIff(s);
    TidyTiles(s, Words(s));
    assert Words(s) + [] == Words(s);
    GlueIffPlain(s, Words(s), []);
  }

  lemma TidyCuts(text: string)
    requires Tidy(text) && Trimmed(text)
    ensures SingleCuts(text)
  {
  }

  lemma TidyIsAligned(text: string, count: string -> nat, max: int)
    requires Tidy(text) && Trimmed(text) && !InputOf(text, count, max).LateOversized(0)
    ensures Aligned(text, count, max)
  {
    hide Tidy, SingleCuts, Sentences, PlainAfter, SpacedForParts, Join, Tiles;
    var inp := InputOf(text, count, max);
    var ss := inp.ss;
    TidyCuts(text);
    TiledBySentencesIff(text);
    if ss != [] {
      TidyTiles(text, ss);
      assert ss + [] == ss;
      GlueIffPlain(text, ss, []);
      SentencesAreSentences(text);
      forall k | 0 <= k < |ss| ensures SpacedForParts(ss[k], inp.Chunk()) {
        TidyMembers(ss, k);
        TidySentence(ss[k], inp.Chunk());
      }
      assert forall k :: 0 <= k < |ss| && Joined(inp, k) ==> k > 0;
    }
  }

  lemma SpansOfKeptText(text: string, count: string -> nat, max: int)
    requires Join(' ', Contents(WindowsOf(text, count, max))) == text
    ensures SpansInText(text, WindowsOf(text, count, max))
  {
    hide WindowsOf, Contents, Join;
    var ws := WindowsOf(text, count, max);
    forall i | 0 <= i < |ws|
      ensures ws[i].start <= ws[i].end <= |text| && text[ws[i].start..ws[i].end] == ws[i].content
    {
      WindowSpans(text, count, max, i);
    }
  }

  lemma WindowTexts(text: string, count: string -> nat, max: int)
    ensures Contents(WindowsOf(text, count, max)) == Texts(InputOf(text, count, max).Plan(0, [], []))
  {
    var inp := InputOf(text, count, max);
    ContentsAreTexts(inp, 0, inp.Plan(0, [], []));
  }

  lemma KeptWhenTiled(text: string, cs: seq<string>)
    requires Tidy(text) && Trimmed(text) && Tiles(text, cs)
    ensures Join(' ', cs) == text
  {
    if cs != [] { TidyTiles(text, cs); }
  }

  lemma TidyTextIsKept(text: string, count: string -> nat, max: int)
    requires Tidy(text) && Trimmed(text) && !InputOf(text, count, max).LateOversized(0)
    ensures Join(' ', Contents(WindowsOf(text, count, max))) == text
  {
    hide Tidy, Aligned, SpansInText, Tiles, Trimmed;
    TidyIsAligned(text, count, max);
    SpansAreTextPositionsIff(text, count, max);
    SpansInTextIffTiles(text, count, max);
    WindowTexts(text, count, max);
    KeptWhenTiled(text, Contents(WindowsOf(text, count, max)));
  }

  /** The windows of a trimmed text with single plain spaces, joined, are the text, exactly when no
      oversized sentence follows one that fits. */
  lemma TidyTextIsKeptIff(text: string, count: string -> nat, max: int)
    requires Tidy(text) && Trimmed(text)
    ensures Join(' ', Contents(WindowsOf(text, count, max))) == text <==>
            !InputOf(text, count, max).LateOversized(0)
  {
    if Join(' ', Contents(WindowsOf(text, count, max))) == text {
      SpansOfKeptText(text, count, max);
      SpansAreTextPositionsIff(text, count, max);
    }
    if !InputOf(text, count, max).LateOversized(0) {
      TidyTextIsKept(text, count, max);
    }
  }

  // ---------- two texts ----------

  /** For every counter and budget, the one window of `" a"` is the letter and claims to start at 0. */
  lemma LeadingBlankIsSkipped(count: string -> nat, max: int)
    ensures var ws := WindowsOf(" a", count, max);
      |ws| == 1 && ws[0].content == "a" && ws[0].start == 0 && ws[0].end == 1 && !SpansInText(" a", ws)
  {
    var inp := InputOf(" a", count, max);
    OneLetter();
    assert inp.ss == ["a"];
    WordsOfWord("a");
    if inp.Oversized(0) {
      assert inp.Plan(1, [], []) == [];
      assert inp.Plan(0, [], []) == [Part(0, ["a"])];
    } else {
      assert inp.Plan(0, [], []) == inp.Plan(1, [0], ["a"]) == [Packed([0], ["a"])] by {
        assert [] + ["a"] == ["a"] && [] + [0] == [0];
      }
    }
    var gs := inp.Plan(0, [], []);
    assert Content(gs[0]) == "a";
    assert gs[1..] == [] && inp.Layout(2, []) == [];
    assert " a"[0..1] == " ";
  }

  lemma OneLetter()
    ensures Sentences(" a") == ["a"]
  {
    assert Uncut(" a");
    UncutPieces(" a");
    StripUnique(" ", "a", "");
    assert " " + "a" + "" == " a";
    StripNonemptyCons(" a", []);
    NoPieces();
    assert [" a"] + [] == [" a"];
  }

  function WordCount(s: string): nat
  {
    |Words(s)|
  }

  lemma TwoSentences()
    ensures Sentences("a. b c") == ["a.", "b c"]
    ensures Words("a.") == ["a."] && Words("b c") == ["b", "c"]
    ensures Words("a. b c") == ["a.", "b", "c"]
  {
    var t := "a. b c";
    hide Sentences, Words;
    assert t[|"a."| + 1..] == "b c" && t[..2] == "a.";
    FirstSentence(t, "a.");
    assert AllSpace("b c"[|"b c"|..]);
    LastSentence("b c", "b c");
    OneWord("a.");
    OneWord("b");
    OneWord("c");
    assert "b" + [' '] + "c" == "b c" && "a." + [' '] + "b c" == t;
    WordsAcrossSpace("b", ' ', "c");
    WordsAcrossSpace("a.", ' ', "b c");
  }

  /** One token a word and one token a window: the second sentence of `"a. b c"` overtakes the first. */
  lemma OversizedOvertakes()
    ensures Words("a. b c") == ["a.", "b", "c"]
    ensures AllWords(Contents(WindowsOf("a. b c", WordCount, 1))) == ["b", "c", "a."]
    ensures !SpansInText("a. b c", WindowsOf("a. b c", WordCount, 1))
  {
    hide Words, Sentences, Contents, WindowsOf, SpansInText, Aligned, Join;
    var inp := InputOf("a. b c", WordCount, 1);
    TwoSentences();
    WindowTexts("a. b c", WordCount, 1);
    OvertakingTexts(inp);
    AllWordsCons("b", ["c", "a."]);
    AllWordsCons("c", ["a."]);
    AllWordsOne("a.");
    OneWord("b");
    OneWord("c");
    assert ["b"] + ["c", "a."] == ["b", "c", "a."] && ["c"] + ["a."] == ["c", "a."];
    assert !inp.Oversized(0) && inp.Oversized(1);
    SpansAreTextPositionsIff("a. b c", WordCount, 1);
    LateIsNotAligned("a. b c", WordCount, 1);
  }

  lemma LateIsNotAligned(text: string, count: string -> nat, max: int)
    ensures InputOf(text, count, max).LateOversized(0) ==> !Aligned(text, count, max)
  {
  }

  lemma OvertakingTexts(inp: Input)
    requires inp.ss == ["a.", "b c"] && inp.max == 1 && inp.count == WordCount
    requires Words("a.") == ["a."] && Words("b c") == ["b", "c"]
    ensures Texts(inp.Plan(0, [], [])) == ["b", "c", "a."]
  {
    hide Words, Texts, Join;
    assert [] + ["a."] == ["a."] && [] + [0] == [0];
    assert inp.Plan(0, [], []) == inp.Plan(1, [0], ["a."]);
    OversizedTexts(inp, 1, [0], ["a."]);
    assert ["b", "c"][..1] == ["b"] && ["b", "c"][1..] == ["c"];
    PartTextsStep(1, ["b", "c"], 1);
    PartTextsStep(1, ["c"], 1);
    JoinOne("b");
    JoinOne("c");
    JoinOne("a.");
    assert inp.Plan(2, [0], ["a."]) == [Packed([0], ["a."])];
    OnePacked([0], ["a."]);
  }

  lemma OnePacked(ids: seq<nat>, cur: seq<string>)
    ensures Texts([Packed(ids, cur)]) == [Join(' ', cur)]
  {
  }
}
