/** Texts made of strings with one whitespace character between neighbours. `Tiles` is the relation;
    the lemmas say how a tiling is cut and joined, that its strings hold all of its printing
    characters, and when the sentences of a text, or the words of a sentence, tile it. */
module Tilings {

  import opened Text
  import opened TierB

  // ---------- tilings ----------

  /** `t` is the strings `cs` in order, one whitespace character of any kind between neighbours
      and nothing but whitespace after the last. */
  predicate Tiles(t: string, cs: seq<string>)
    decreases |cs|, 0
  {
    if cs == [] then AllSpace(t) else cs[0] <= t && Tail(t, |cs[0]|, cs[1..])
  }

  /** Behind its first `m` characters `t` ends, or goes on with one whitespace character and `cs`. */
  predicate Tail(t: string, m: nat, cs: seq<string>)
    requires m <= |t|
    decreases |cs|, 1
  {
    if m == |t| then cs == [] else IsSpace(t[m]) && Tiles(t[m + 1..], cs)
  }

  function Width(cs: seq<string>): nat
  {
    |Join(' ', cs)|
  }

  lemma TilesCons(t: string, c: string, cs: seq<string>)
    ensures Tiles(t, [c] + cs) <==> c <= t && Tail(t, |c|, cs)
  {
    assert ([c] + cs)[1..] == cs;
  }

  lemma TilesOne(t: string, c: string)
    ensures Tiles(t, [c]) <==> c <= t && AllSpace(t[|c|..])
  {
    assert [c] + [] == [c];
    TilesCons(t, c, []);
    if c <= t && |c| < |t| {
      BlankStep(t, |c|);
    }
  }

  lemma BlankStep(t: string, m: nat)
    requires m < |t|
    ensures AllSpace(t[m..]) <==> IsSpace(t[m]) && AllSpace(t[m + 1..])
  {
    var rest := t[m + 1..];
    assert t[m..] == [t[m]] + rest;
    if AllSpace(t[m..]) {
      forall i | 0 <= i < |rest| ensures IsSpace(rest[i]) {
        assert rest[i] == t[m..][i + 1];
      }
    }
  }

  lemma TailShift(t: string, n: nat, m: nat, cs: seq<string>)
    requires n + m <= |t|
    ensures Tail(t, n + m, cs) <==> Tail(t[n..], m, cs)
  {
    if n + m < |t| {
      assert t[n..][m + 1..] == t[n + m + 1..];
    }
  }

  lemma JoinStep(cs: seq<string>)
    requires |cs| > 1
    ensures Join(' ', cs) == cs[0] + [' '] + Join(' ', cs[1..])
    ensures Width(cs) == |cs[0]| + 1 + Width(cs[1..])
  {
  }

  /** A tiling by `a + b` is a tiling of its first part by `a`, followed by one by `b`. */
  lemma {:induction false} TilesConcat(t: string, a: seq<string>, b: seq<string>)
    requires a != []
    ensures Tiles(t, a + b) <==> Width(a) <= |t| && Tiles(t[..Width(a)], a) && Tail(t, Width(a), b)
    decreases |a|
  {
    hide Join, AllSpace, IsSpace;
    var c, rest, m := a[0], a[1..], Width(a);
    assert a == [c] + rest && a + b == [c] + (rest + b);
    TilesCons(t, c, rest + b);
    if rest == [] {
      assert a == [c] && rest + b == b;
      JoinOne(c);
      if c <= t { assert t[..m] == c && c[..m] == c; TilesCons(c, c, []); }
    } else {
      JoinStep(a);
      if c <= t && |c| < |t| {
        var t' := t[|c| + 1..];
        TilesConcat(t', rest, b);
        if m <= |t| { FirstPart(t, c, rest, b); }
      }
      if m <= |t| { TilesCons(t[..m], c, rest); }
    }
  }

  lemma JoinOne(c: string)
    ensures Join(' ', [c]) == c && Width([c]) == |c|
  {
  }

  lemma FirstPart(t: string, c: string, rest: seq<string>, b: seq<string>)
    requires c <= t && rest != [] && |c| + 1 + Width(rest) <= |t|
    ensures var m, t' := |c| + 1 + Width(rest), t[|c| + 1..];
      && (Tiles(t[..m], [c] + rest) <==> IsSpace(t[|c|]) && Tiles(t'[..Width(rest)], rest))
      && (Tail(t, m, b) <==> Tail(t', Width(rest), b))
  {
    hide Join, AllSpace, IsSpace;
    var m := |c| + 1 + Width(rest);
    var t', u := t[|c| + 1..], t[..m];
    TilesCons(u, c, rest);
    assert u[|c| + 1..] == t'[..Width(rest)];
    assert c <= u;
    TailShift(t, |c| + 1, Width(rest), b);
  }

  lemma {:induction false} JoinTiles(cs: seq<string>)
    requires cs != []
    ensures Tiles(Join(' ', cs), cs)
  {
    var c, rest := cs[0], cs[1..];
    assert cs == [c] + rest;
    TilesCons(Join(' ', cs), c, rest);
    if rest == [] {
      JoinOne(c);
    } else {
      JoinStep(cs);
      JoinTiles(rest);
      assert (c + [' '] + Join(' ', rest))[|c| + 1..] == Join(' ', rest);
    }
  }

  /** The first strings of a tiling, read as one joined string. */
  lemma GlueFirst(t: string, a: seq<string>, b: seq<string>)
    requires a != []
    ensures Tiles(t, [Join(' ', a)] + b) <==> Tiles(t, a + b) && Join(' ', a) <= t
  {
    hide Tiles, Tail, Join;
    var all := Join(' ', a);
    TilesCons(t, all, b);
    TilesConcat(t, a, b);
    if all <= t {
      JoinTiles(a);
      assert t[..|all|] == all;
    }
  }

  /** The character behind the first `j` strings of a tiling is a plain space. */
  predicate PlainAfter(t: string, cs: seq<string>, j: nat)
    requires j <= |cs|
  {
    Width(cs[..j]) < |t| && t[Width(cs[..j])] == ' '
  }

  lemma PlainShift(t: string, x: seq<string>, y: seq<string>, j: nat)
    requires x != [] && 0 < j <= |y| && Width(x) < |t|
    ensures PlainAfter(t, x + y, |x| + j) <==> PlainAfter(t[Width(x) + 1..], y, j)
  {
    assert (x + y)[..|x| + j] == x + y[..j];
    JoinConcat(' ', x, y[..j]);
  }

  /** Read as one joined string, a tiling must have plain spaces between the strings joined. */
  lemma {:induction false} GlueIffPlain(t: string, a: seq<string>, b: seq<string>)
    requires a != [] && Tiles(t, a + b)
    ensures Join(' ', a) <= t <==> forall j :: 0 < j < |a| ==> PlainAfter(t, a + b, j)
    decreases |a|
  {
    hide Join, AllSpace, IsSpace, PlainAfter;
    var c, rest := a[0], a[1..];
    assert a == [c] + rest && a + b == [c] + (rest + b);
    TilesCons(t, c, rest + b);
    if rest == [] {
      JoinOne(c);
      assert a == [c];
    } else {
      JoinStep(a);
      JoinOne(c);
      var t' := t[|c| + 1..];
      GlueIffPlain(t', rest, b);
      PlainAtFirst(t, c, rest + b);
      assert Join(' ', a) <= t <==> t[|c|] == ' ' && Join(' ', rest) <= t' by {
        PrefixStep(t, c, Join(' ', rest));
      }
      forall j | 0 < j < |rest|
        ensures PlainAfter(t', rest + b, j) <==> PlainAfter(t, a + b, j + 1)
      {
        PlainShift(t, [c], rest + b, j);
      }
      PlainNext(t, t', a + b, rest + b, |a|);
    }
  }

  lemma PlainAtFirst(t: string, c: string, cs: seq<string>)
    requires c <= t && |c| < |t| && cs != []
    ensures PlainAfter(t, [c] + cs, 1) <==> t[|c|] == ' '
  {
    assert ([c] + cs)[..1] == [c];
  }

  lemma PlainNext(t: string, t': string, xs: seq<string>, ys: seq<string>, n: nat)
    requires 1 < n <= |xs| == |ys| + 1
    requires forall j :: 0 < j < n - 1 ==> (PlainAfter(t', ys, j) <==> PlainAfter(t, xs, j + 1))
    ensures (forall j :: 0 < j < n ==> PlainAfter(t, xs, j)) <==>
            PlainAfter(t, xs, 1) && forall j :: 0 < j < n - 1 ==> PlainAfter(t', ys, j)
  {
    hide PlainAfter;
    if PlainAfter(t, xs, 1) && forall j :: 0 < j < n - 1 ==> PlainAfter(t', ys, j) {
      forall j | 0 < j < n ensures PlainAfter(t, xs, j) {
        if j > 1 { assert PlainAfter(t', ys, j - 1); }
      }
    }
    if forall j :: 0 < j < n ==> PlainAfter(t, xs, j) {
      forall j | 0 < j < n - 1 ensures PlainAfter(t', ys, j) {
        assert PlainAfter(t, xs, j + 1);
      }
    }
  }

  lemma PrefixStep(t: string, c: string, s: string)
    requires c <= t && |c| < |t|
    ensures c + [' '] + s <= t <==> t[|c|] == ' ' && s <= t[|c| + 1..]
  {
    var all, t' := c + [' '] + s, t[|c| + 1..];
    if t[|c|] == ' ' && s <= t' {
      assert t == c + [t[|c|]] + t';
    }
    if all <= t {
      assert t[..|all|] == all;
      assert t'[..|s|] == all[|c| + 1..] == s;
      assert all[|c|] == ' ';
    }
  }

  // ---------- ink ----------

  /** The number of printing characters. */
  function Ink(s: string): nat
  {
    if s == "" then 0 else (if IsSpace(s[0]) then 0 else 1) + Ink(s[1..])
  }

  function InkOf(cs: seq<string>): nat
  {
    if cs == [] then 0 else Ink(cs[0]) + InkOf(cs[1..])
  }

  function Total(ws: seq<string>): nat
  {
    if ws == [] then 0 else |ws[0]| + Total(ws[1..])
  }

  lemma {:induction false} InkConcat(a: string, b: string)
    ensures Ink(a + b) == Ink(a) + Ink(b)
  {
    if a == "" {
      assert a + b == b;
    } else {
      assert (a + b)[1..] == a[1..] + b;
      InkConcat(a[1..], b);
    }
  }

  lemma {:induction false} NoInk(s: string)
    ensures Ink(s) == 0 <==> AllSpace(s)
  {
    if s != "" {
      NoInk(s[1..]);
      BlankStep(s, 0);
      assert s[0..] == s;
    }
  }

  lemma {:induction false} WordInk(w: string)
    requires NoSpace(w)
    ensures Ink(w) == |w|
  {
    if w != "" {
      WordInk(w[1..]);
    }
  }

  /** The printing characters of a text are those of its words. */
  lemma {:induction false} InkIsInWords(s: string)
    ensures Ink(s) == Total(Words(s))
    decreases |s|
  {
    if s == "" {
    } else if IsSpace(s[0]) {
      InkIsInWords(s[1..]);
    } else {
      var k := WordLength(s);
      WordLengthEnds(s);
      WordInk(s[..k]);
      InkIsInWords(s[k..]);
      InkConcat(s[..k], s[k..]);
      assert s[..k] + s[k..] == s;
      assert ([s[..k]] + Words(s[k..]))[1..] == Words(s[k..]);
    }
  }

  lemma {:induction false} TotalConcat(a: seq<string>, b: seq<string>)
    ensures Total(a + b) == Total(a) + Total(b)
  {
    if a == [] {
      assert a + b == b;
    } else {
      assert (a + b)[1..] == a[1..] + b;
      TotalConcat(a[1..], b);
    }
  }

  lemma {:induction false} InkOfAllWords(cs: seq<string>)
    ensures InkOf(cs) == Total(AllWords(cs))
  {
    if cs != [] {
      InkIsInWords(cs[0]);
      InkOfAllWords(cs[1..]);
      TotalConcat(Words(cs[0]), AllWords(cs[1..]));
    }
  }

  function Without(b: seq<string>, i: nat): seq<string>
    requires i < |b|
  {
    b[..i] + b[i + 1..]
  }

  lemma WithoutOne(b: seq<string>, i: nat)
    requires i < |b|
    ensures multiset(Without(b, i)) == multiset(b) - multiset{b[i]}
    ensures Total(b) == |b[i]| + Total(Without(b, i))
    ensures |Without(b, i)| == |b| - 1
  {
    assert b == b[..i] + ([b[i]] + b[i + 1..]);
    TotalConcat(b[..i], [b[i]] + b[i + 1..]);
    assert ([b[i]] + b[i + 1..])[1..] == b[i + 1..];
    TotalConcat(b[..i], b[i + 1..]);
  }

  lemma PlaceOf(w: string, b: seq<string>) returns (i: nat)
    requires w in multiset(b)
    ensures i < |b| && b[i] == w
  {
    i :| 0 <= i < |b| && b[i] == w;
  }

  lemma NothingIn(b: seq<string>)
    requires multiset(b) == multiset{}
    ensures b == []
  {
    assert |b| == |multiset(b)|;
  }

  /** The same words in another order are as long together. */
  lemma {:induction false} TotalOfMultiset(a: seq<string>, b: seq<string>)
    requires multiset(a) == multiset(b)
    ensures Total(a) == Total(b)
    decreases |a|
  {
    hide Total, Without;
    if a == [] {
      NothingIn(b);
    } else {
      assert a[0] in multiset(a);
      var i := PlaceOf(a[0], b);
      WithoutOne(a, 0);
      WithoutOne(b, i);
      TotalOfMultiset(Without(a, 0), Without(b, i));
    }
  }

  // ---------- sentences in place ----------

  /** No cut happens while reading `x`. */
  lemma {:induction false} PiecesRun(cur: string, x: string, rest: string)
    requires Uncut(cur + x)
    ensures Pieces(cur, x + rest) == Pieces(cur + x, rest)
    decreases |x|
  {
    if x == "" {
      assert x + rest == rest && cur + x == cur;
    } else {
      var all := cur + x;
      assert cur != "" ==> all[|cur| - 1] == cur[|cur| - 1];
      assert all[|cur|] == x[0] == (x + rest)[0];
      assert (x + rest)[1..] == x[1..] + rest;
      assert cur + [x[0]] + x[1..] == all;
      PiecesRun(cur + [x[0]], x[1..], rest);
    }
  }

  lemma {:induction false} LStripSkips(blank: string, s: string)
    requires AllSpace(blank)
    ensures LStrip(blank + s) == LStrip(s)
  {
    if blank == "" {
      assert blank + s == s;
    } else {
      assert (blank + s)[1..] == blank[1..] + s;
      LStripSkips(blank[1..], s);
    }
  }

  lemma StripSkips(blank: string, s: string)
    requires AllSpace(blank)
    ensures Strip(blank + s) == Strip(s)
  {
    LStripSkips(blank, s);
  }

  lemma StripNonemptyCons(p: string, ps: seq<string>)
    ensures StripNonempty([p] + ps) ==
            (if Strip(p) == "" then [] else [Strip(p)]) + StripNonempty(ps)
  {
    assert ([p] + ps)[1..] == ps;
  }

  /** Whitespace ahead of a text changes no sentence. */
  lemma {:induction false} LeadingBlanks(blank: string, cur: string, rest: string)
    requires AllSpace(blank)
    ensures StripNonempty(Pieces(blank + cur, rest)) == StripNonempty(Pieces(cur, rest))
    decreases |rest|
  {
    hide Strip, IsSpace;
    StripSkips(blank, cur);
    if rest == "" {
      StripNonemptyCons(blank + cur, []);
      StripNonemptyCons(cur, []);
      assert [blank + cur] + [] == [blank + cur] && [cur] + [] == [cur];
    } else {
      SameEnd(blank, cur);
      if cur != "" && IsStop(cur[|cur| - 1]) && IsSpace(rest[0]) {
        StripNonemptyCons(blank + cur, Pieces("", LStrip(rest)));
        StripNonemptyCons(cur, Pieces("", LStrip(rest)));
      } else {
        assert blank + cur + [rest[0]] == blank + (cur + [rest[0]]);
        LeadingBlanks(blank, cur + [rest[0]], rest[1..]);
      }
    }
  }

  lemma SameEnd(blank: string, cur: string)
    requires AllSpace(blank)
    ensures EndsInStop(blank + cur) <==> EndsInStop(cur)
  {
    if cur == "" { assert blank + cur == blank; }
  }

  lemma SentencesOfBlank(t: string)
    requires AllSpace(t)
    ensures Sentences(t) == []
  {
    BlankIsUncut(t);
    UncutPieces(t);
    LStripBlank(t);
    StripNonemptyCons(t, []);
    assert [t] + [] == [t];
  }

  /** A sentence: non-empty, without whitespace at its ends, and with no cut inside. */
  predicate Sentence(e: string)
  {
    e != "" && Trimmed(e) && Uncut(e)
  }

  /** A sentence that ends in a stop, read off the front of a text. */
  lemma FirstSentence(t: string, e: string)
    requires Sentence(e) && EndsInStop(e) && e <= t && |e| < |t| && IsSpace(t[|e|])
    ensures Sentences(t) == [e] + Sentences(t[|e| + 1..])
  {
    hide StripNonempty, Trimmed, IsSpace, Strip, LStrip;
    var rest, next := t[|e|..], t[|e| + 1..];
    assert t == e + rest && "" + t == t && "" + e == e && rest == [t[|e|]] + next;
    PiecesRun("", e, rest);
    var pieces := Pieces("", LStrip(rest));
    assert Pieces(e, rest) == [e] + pieces;
    StripNonemptyCons(e, pieces);
    StripTrimmed(e);
    LStripSkips([t[|e|]], next);
    SentencesOfRest(next);
  }

  lemma SentencesOfRest(next: string)
    ensures StripNonempty(Pieces("", LStrip(next))) == Sentences(next)
  {
    hide StripNonempty, Pieces, IsSpace, Strip, LStrip;
    LStripParts(next);
    var k := |next| - |LStrip(next)|;
    var blank, tail := next[..k], LStrip(next);
    assert next == blank + tail;
    PiecesOfBlank(blank, tail);
    LeadingBlanks(blank, "", tail);
    assert blank + "" == blank;
  }

  lemma PiecesOfBlank(blank: string, tail: string)
    requires AllSpace(blank)
    ensures Pieces("", blank + tail) == Pieces(blank, tail)
  {
    hide Pieces, IsSpace;
    BlankIsUncut(blank);
    assert "" + blank == blank;
    PiecesRun("", blank, tail);
  }

  lemma BlankIsUncut(blank: string)
    requires AllSpace(blank)
    ensures Uncut(blank)
  {
  }

  /** The last sentence of a text, with whatever whitespace follows it. */
  lemma LastSentence(t: string, e: string)
    requires Sentence(e) && e <= t && AllSpace(t[|e|..])
    ensures Sentences(t) == [e]
  {
    hide Sentences, Trimmed, Uncut;
    if EndsInStop(e) && |e| < |t| {
      BlankStep(t, |e|);
      FirstSentence(t, e);
      SentencesOfBlank(t[|e| + 1..]);
    } else {
      UncutToTheEnd(t, e);
    }
  }

  lemma UncutToTheEnd(t: string, e: string)
    requires Sentence(e) && e <= t && AllSpace(t[|e|..]) && (e == t || !EndsInStop(e))
    ensures Sentences(t) == [e]
  {
    hide StripNonempty, IsSpace, IsStop, Strip, LStrip, Pieces;
    var rest := t[|e|..];
    assert t == e + rest && "" + e + rest == t;
    UncutWithBlanks(e, rest);
    UncutPieces(t);
    StripUnique("", e, rest);
    StripNonemptyCons(t, []);
    NoPieces();
    assert [t] + [] == [t] && [e] + [] == [e];
  }

  lemma UncutPieces(t: string)
    requires Uncut(t)
    ensures Pieces("", t) == [t]
  {
    assert "" + t == t && t + "" == t;
    PiecesRun("", t, "");
  }

  lemma NoPieces()
    ensures StripNonempty([]) == []
  {
  }

  lemma UncutWithBlanks(e: string, rest: string)
    requires Uncut(e) && AllSpace(rest) && (rest == "" || !EndsInStop(e))
    ensures Uncut(e + rest)
  {
  }

  /** Nothing but whitespace, or a printing character first. */
  predicate NoLead(t: string)
  {
    AllSpace(t) || !IsSpace(t[0])
  }

  /** No whitespace stands before the first sentence, and one whitespace character between
      neighbouring sentences. */
  predicate SingleCuts(t: string)
  {
    && NoLead(t)
    && forall i :: 0 < i < |t| && IsStop(t[i - 1]) && IsSpace(t[i]) ==> NoLead(t[i + 1..])
  }

  /** Position of the first whitespace after a stop, or the length when there is none. */
  function FirstCut(t: string, i: nat): (n: nat)
    requires 0 < i <= |t|
    ensures i <= n <= |t|
    ensures n < |t| ==> IsStop(t[n - 1]) && IsSpace(t[n])
    ensures forall j :: i <= j < n && IsStop(t[j - 1]) ==> !IsSpace(t[j])
    decreases |t| - i
  {
    if i == |t| || (IsStop(t[i - 1]) && IsSpace(t[i])) then i else FirstCut(t, i + 1)
  }

  lemma SingleCutsAfter(t: string, n: nat)
    requires SingleCuts(t) && 0 < n < |t| && IsStop(t[n - 1]) && IsSpace(t[n])
    ensures SingleCuts(t[n + 1..])
  {
    hide NoLead, IsSpace, IsStop;
    var u := t[n + 1..];
    forall i | 0 < i < |u| && IsStop(u[i - 1]) && IsSpace(u[i]) ensures NoLead(u[i + 1..]) {
      var j := n + 1 + i;
      assert t[j - 1] == u[i - 1] && t[j] == u[i];
      assert u[i + 1..] == t[j + 1..];
    }
  }

  lemma {:induction false} SingleCutsTile(t: string)
    requires SingleCuts(t)
    ensures Tiles(t, Sentences(t))
    decreases |t|
  {
    hide Sentences, Tiles, Uncut;
    if AllSpace(t) {
      SentencesOfBlank(t);
      NoTiles(t);
    } else {
      var n := FirstCut(t, 1);
      var e := t[..n];
      UncutUpTo(t, n);
      if n < |t| {
        FirstSentence(t, e);
        SingleCutsAfter(t, n);
        SingleCutsTile(t[n + 1..]);
        TilesCons(t, e, Sentences(t[n + 1..]));
      } else {
        assert e == t;
        OnlySentence(t);
      }
    }
  }

  lemma NoTiles(t: string)
    ensures Tiles(t, []) <==> AllSpace(t)
  {
  }

  lemma UncutUpTo(t: string, n: nat)
    requires 0 < n <= |t| && forall j :: 1 <= j < n && IsStop(t[j - 1]) ==> !IsSpace(t[j])
    ensures Uncut(t[..n])
  {
  }

  lemma OnlySentence(t: string)
    requires t != "" && !IsSpace(t[0]) && Uncut(t)
    ensures Sentences(t) == [RStrip(t)] && Tiles(t, Sentences(t))
  {
    var e := RStrip(t);
    RStripParts(t);
    RStripInk(t);
    LastSentence(t, e);
    TilesOne(t, e);
  }

  lemma {:induction false} TilesAreSingleCuts(t: string, cs: seq<string>)
    requires Tiles(t, cs) && forall i :: 0 <= i < |cs| ==> Sentence(cs[i])
    ensures SingleCuts(t)
    decreases |cs|
  {
    if cs != [] {
      var e, rest := cs[0], cs[1..];
      var t' := t[|e|..];
      if |e| < |t| {
        t' := t[|e| + 1..];
        TilesAreSingleCuts(t', rest);
        CutsBehind(t, e);
      } else {
        assert t == e;
      }
    }
  }

  lemma CutsBehind(t: string, e: string)
    requires Sentence(e) && e <= t && |e| < |t| && IsSpace(t[|e|]) && SingleCuts(t[|e| + 1..])
    ensures SingleCuts(t)
  {
    assert NoLead(t) by { assert t[0] == e[0]; }
    hide NoLead, Trimmed;
    var t' := t[|e| + 1..];
    forall i | 0 < i < |t| && IsStop(t[i - 1]) && IsSpace(t[i]) ensures NoLead(t[i + 1..]) {
      if i > |e| + 1 {
        var j := i - |e| - 1;
        assert t'[j - 1] == t[i - 1] && t'[j] == t[i] && t'[j + 1..] == t[i + 1..];
      }
    }
  }

  lemma SentencesAreSentences(text: string)
    ensures forall i :: 0 <= i < |Sentences(text)| ==> Sentence(Sentences(text)[i])
  {
    StripNonemptyIsTrimmed(Pieces("", text));
    SentencesAreCutAtStops(text);
  }

  /** The sentences tile their text exactly when they are one whitespace character apart. */
  lemma TiledBySentencesIff(text: string)
    ensures Tiles(text, Sentences(text)) <==> SingleCuts(text)
  {
    SentencesAreSentences(text);
    if Tiles(text, Sentences(text)) { TilesAreSingleCuts(text, Sentences(text)); }
    if SingleCuts(text) { SingleCutsTile(text); }
  }

  // ---------- words in place ----------

  /** No two whitespace characters stand side by side. */
  predicate SingleSpaced(s: string)
  {
    forall i :: 0 < i < |s| && IsSpace(s[i - 1]) ==> !IsSpace(s[i])
  }

  predicate EndsInInk(s: string)
  {
    s == "" || !IsSpace(s[|s| - 1])
  }

  lemma {:induction false} WordTilesAreSingleSpaced(s: string, ws: seq<string>)
    requires Tiles(s, ws) && WordList(ws) && EndsInInk(s)
    ensures SingleSpaced(s)
    decreases |ws|
  {
    if ws == [] {
      assert s == "";
    } else {
      var w, rest := ws[0], ws[1..];
      if |w| < |s| {
        var s' := s[|w| + 1..];
        InkAtEnd(s, |w|);
        WordTilesAreSingleSpaced(s', rest);
        assert rest != [] && rest[0] <= s' && s'[0] == rest[0][0];
        SpacesBehind(s, w);
      } else {
        assert s == w;
      }
    }
  }

  lemma InkAtEnd(s: string, m: nat)
    requires m < |s| && IsSpace(s[m]) && EndsInInk(s)
    ensures m + 1 < |s| && EndsInInk(s[m + 1..]) && !AllSpace(s[m + 1..])
  {
    var rest := s[m + 1..];
    assert rest[|rest| - 1] == s[|s| - 1];
  }

  lemma SpacesBehind(s: string, w: string)
    requires w <= s && |w| + 1 < |s| && NoSpace(w)
    requires SingleSpaced(s[|w| + 1..]) && !IsSpace(s[|w| + 1])
    ensures SingleSpaced(s)
  {
    var s' := s[|w| + 1..];
    forall i | 0 < i < |s| && IsSpace(s[i - 1]) ensures !IsSpace(s[i]) {
      if i > |w| + 1 {
        assert s'[i - |w| - 2] == s[i - 1] && s'[i - |w| - 1] == s[i];
      }
    }
  }

  lemma {:induction false} SingleSpacedTiles(s: string)
    requires SingleSpaced(s) && s != "" && Trimmed(s)
    ensures Tiles(s, Words(s))
    decreases |s|
  {
    var k := WordLength(s);
    var w := s[..k];
    WordLengthEnds(s);
    if k == |s| {
      assert w == s;
      WordsOfWord(s);
      TilesOne(s, s);
    } else {
      var s' := s[k + 1..];
      InkAtEnd(s, k);
      assert Words(s[k..]) == Words(s') by { assert s[k..][1..] == s'; }
      SingleSpacedTiles(s');
      TilesCons(s, w, Words(s'));
    }
  }

  /** The words tile their sentence exactly when no two whitespace characters are neighbours. */
  lemma TiledByWordsIff(s: string)
    requires s != "" && Trimmed(s)
    ensures Tiles(s, Words(s)) <==> SingleSpaced(s)
  {
    WordsAreWords(s);
    if Tiles(s, Words(s)) { WordTilesAreSingleSpaced(s, Words(s)); }
    if SingleSpaced(s) { SingleSpacedTiles(s); }
  }

  lemma StopsBehind(s: string, k: nat)
    requires 0 < k < |s| && Uncut(s) && EndsInInk(s)
    ensures Uncut(s[k..]) && EndsInInk(s[k..]) && (EndsInStop(s[k..]) <==> EndsInStop(s))
    ensures IsSpace(s[k]) ==> !EndsInStop(s[..k])
  {
    hide IsStop, IsSpace;
    assert s[k..][|s| - k - 1] == s[|s| - 1];
  }

  /** A sentence's words hold a stop at an end only at the end of the sentence. */
  lemma {:induction false} StopsEndSentences(s: string)
    requires Uncut(s) && EndsInInk(s)
    ensures forall j :: 0 <= j < |Words(s)| - 1 ==> !EndsInStop(Words(s)[j])
    ensures s != "" ==> Words(s) != [] && (EndsInStop(Words(s)[|Words(s)| - 1]) <==> EndsInStop(s))
    decreases |s|
  {
    hide IsStop, IsSpace, Uncut, EndsInStop, EndsInInk, WordLength;
    if s == "" {
    } else if IsSpace(s[0]) {
      InkAtEnd(s, 0);
      StopsBehind(s, 1);
      StopsEndSentences(s[1..]);
    } else {
      var k := WordLength(s);
      WordLengthEnds(s);
      if k < |s| {
        StopsBehind(s, k);
        StopsEndSentences(s[k..]);
        assert Words(s) == [s[..k]] + Words(s[k..]);
      } else {
        assert s[..k] == s && s[k..] == "";
        assert Words(s) == [s];
      }
    }
  }

  /** Words with single whitespace between them make a sentence when only the last may end in a stop. */
  lemma {:induction false} TiledWords(e: string, ws: seq<string>)
    requires ws != [] && WordList(ws) && forall j :: 0 <= j < |ws| - 1 ==> !EndsInStop(ws[j])
    requires Tiles(e, ws) && |e| == Width(ws)
    ensures Sentence(e) && Words(e) == ws
    ensures EndsInStop(e) <==> EndsInStop(ws[|ws| - 1])
    decreases |ws|
  {
    hide Join, Words, IsSpace, IsStop, Uncut, Trimmed;
    var w, rest := ws[0], ws[1..];
    assert ws == [w] + rest;
    TilesCons(e, w, rest);
    if rest == [] {
      JoinOne(w);
      assert ws == [w] && e[..|w|] == w && e[..|e|] == e;
      OneWord(w);
    } else {
      JoinStep(ws);
      var e' := e[|w| + 1..];
      TiledWords(e', rest);
      WordAhead(e, w, e');
    }
  }

  lemma OneWord(w: string)
    requires w != "" && NoSpace(w)
    ensures Sentence(w) && Words(w) == [w]
  {
    WordsOfWord(w);
  }

  lemma WordAhead(e: string, w: string, e': string)
    requires w != "" && NoSpace(w) && !EndsInStop(w) && w <= e && |w| < |e| && IsSpace(e[|w|])
    requires e' == e[|w| + 1..] && Sentence(e')
    ensures Sentence(e) && Words(e) == [w] + Words(e') && (EndsInStop(e) <==> EndsInStop(e'))
  {
    assert e == w + [e[|w|]] + e';
    WordsAcrossSpace(w, e[|w|], e');
    WordsOfWord(w);
    UncutAhead(e, w, e');
    assert [w] + Words(e') == Words(e);
    assert e[0] == w[0] && e[|e| - 1] == e'[|e'| - 1];
  }

  lemma UncutAhead(e: string, w: string, e': string)
    requires w != "" && NoSpace(w) && !EndsInStop(w) && w <= e && |w| < |e| && IsSpace(e[|w|])
    requires e' == e[|w| + 1..] && Uncut(e')
    ensures Uncut(e)
  {
    assert !IsStop(e[|w| - 1]) && !IsStop(e[|w|]);
    forall i | 0 < i < |e| && IsStop(e[i - 1]) ensures !IsSpace(e[i]) {
      if i < |w| {
        assert e[i] == w[i];
      } else if i > |w| + 1 {
        assert e'[i - |w| - 2] == e[i - 1] && e'[i - |w| - 1] == e[i];
      }
    }
  }
}
