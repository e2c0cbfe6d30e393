/** Strings as the source's standard library sees them: whitespace, trimming, splitting and joining,
    and the sequence operations the models share. Each function comes with the lemmas its users need:
    trimming peels whitespace off both ends and nothing else, words are neither joined nor lost across
    a space, and splitting at a character undoes joining with it. */
module Text {

  datatype Option<+T> = None | Some(value: T)

  datatype Result<+T, +E> = Ok(value: T) | Err(error: E)

  // ---------- sequences ----------

  function Flatten<T>(parts: seq<seq<T>>): seq<T>
  {
    if parts == [] then [] else parts[0] + Flatten(parts[1..])
  }

  lemma {:induction false} FlattenConcat<T>(a: seq<seq<T>>, b: seq<seq<T>>)
    ensures Flatten(a + b) == Flatten(a) + Flatten(b)
  {
    if a == [] {
      assert a + b == b;
    } else {
      assert (a + b)[1..] == a[1..] + b;
      FlattenConcat(a[1..], b);
    }
  }

  lemma SplitHead<T>(a: seq<T>, s: seq<T>, k: nat)
    requires k < |s|
    ensures s[k..] == [s[k]] + s[k + 1..]
    ensures a + s[k..] == a + [s[k]] + s[k + 1..]
  {
  }

  lemma Associate<T>(a: seq<T>, b: seq<T>, c: seq<T>)
    ensures a + b + c == a + (b + c)
  {
  }

  // ---------- whitespace ----------

  /** The characters Python's `str.isspace` and `\s` accept. */
  predicate IsSpace(c: char)
  {
    var n := c as int;
    || 0x09 <= n <= 0x0D || 0x1C <= n <= 0x20 || n == 0x85 || n == 0xA0 || n == 0x1680
    || 0x2000 <= n <= 0x200A || n == 0x2028 || n == 0x2029 || n == 0x202F || n == 0x205F || n == 0x3000
  }

  predicate NoSpace(s: string)
  {
    forall i :: 0 <= i < |s| ==> !IsSpace(s[i])
  }

  predicate AllSpace(s: string)
  {
    forall i :: 0 <= i < |s| ==> IsSpace(s[i])
  }

  function LStrip(s: string): (r: string)
    ensures |r| <= |s|
  {
    if s == "" || !IsSpace(s[0]) then s else LStrip(s[1..])
  }

  function RStrip(s: string): (r: string)
    ensures |r| <= |s|
  {
    if s == "" || !IsSpace(s[|s| - 1]) then s else RStrip(s[..|s| - 1])
  }

  /** Python's `str.strip()`. */
  function Strip(s: string): string
  {
    RStrip(LStrip(s))
  }

  lemma {:induction false} LStripParts(s: string)
    ensures var r := LStrip(s);
      && r == s[|s| - |r|..] && AllSpace(s[..|s| - |r|])
      && (r != "" ==> !IsSpace(r[0]))
  {
    if s != "" && IsSpace(s[0]) {
      LStripParts(s[1..]);
      var r := LStrip(s[1..]);
      assert s[..|s| - |r|] == [s[0]] + s[1..][..|s[1..]| - |r|];
    }
  }

  lemma {:induction false} RStripParts(s: string)
    ensures var r := RStrip(s);
      && r == s[..|r|] && AllSpace(s[|r|..])
      && (r != "" ==> !IsSpace(r[|r| - 1]))
  {
    if s != "" && IsSpace(s[|s| - 1]) {
      RStripParts(s[..|s| - 1]);
      var r := RStrip(s[..|s| - 1]);
      assert s[|r|..] == s[..|s| - 1][|r|..] + [s[|s| - 1]];
    }
  }

  lemma StripIsTrimmed(s: string)
    ensures Trimmed(Strip(s))
  {
    LStripParts(s);
    RStripParts(LStrip(s));
  }

  predicate Trimmed(s: string)
  {
    s != "" ==> !IsSpace(s[0]) && !IsSpace(s[|s| - 1])
  }

  lemma {:induction false} RStripInk(s: string)
    requires s != "" && !IsSpace(s[0])
    ensures RStrip(s) != ""
  {
    if IsSpace(s[|s| - 1]) {
      RStripInk(s[..|s| - 1]);
    }
  }

  lemma StripInk(s: string)
    requires s != "" && !IsSpace(s[0])
    ensures Strip(s) != ""
  {
    assert LStrip(s) == s;
    RStripInk(s);
  }

  lemma StripTrimmed(s: string)
    requires Trimmed(s)
    ensures Strip(s) == s
  {
  }

  /** Trimming removes a run of whitespace at each end and nothing else. */
  lemma StripParts(s: string) returns (lo: nat, hi: nat)
    ensures lo <= hi <= |s| && Strip(s) == s[lo..hi]
    ensures AllSpace(s[..lo]) && AllSpace(s[hi..])
  {
    LStripParts(s);
    RStripParts(LStrip(s));
    var l := LStrip(s);
    var n := |RStrip(l)|;
    lo := |s| - |l|;
    hi := lo + n;
    assert l == s[lo..];
    assert l[n..] == s[hi..] && l[..n] == s[lo..hi];
  }

  /** The trimmed string is the only way to peel whitespace off both ends of a core
      that is empty or starts and ends with a printing character. */
  lemma {:induction false} StripUnique(left: string, core: string, right: string)
    requires AllSpace(left) && AllSpace(right) && Trimmed(core)
    ensures Strip(left + core + right) == core
  {
    if left != "" {
      assert (left + core + right)[1..] == left[1..] + core + right;
      StripUnique(left[1..], core, right);
    } else if core == "" {
      LStripBlank(right);
      assert left + core + right == right;
    } else {
      assert left + core + right == core + right;
      RStripTail(core, right);
    }
  }

  lemma {:induction false} LStripBlank(s: string)
    requires AllSpace(s)
    ensures LStrip(s) == ""
  {
    if s != "" {
      LStripBlank(s[1..]);
    }
  }

  lemma {:induction false} RStripTail(core: string, right: string)
    requires AllSpace(right) && core != "" && !IsSpace(core[|core| - 1])
    ensures RStrip(core + right) == core
  {
    if right == "" {
      assert core + right == core;
    } else {
      assert (core + right)[..|core + right| - 1] == core + right[..|right| - 1];
      RStripTail(core, right[..|right| - 1]);
    }
  }

  // ---------- words ----------

  function WordLength(s: string): (k: nat)
    ensures k <= |s|
  {
    if s == "" || IsSpace(s[0]) then 0 else 1 + WordLength(s[1..])
  }

  lemma {:induction false} WordLengthEnds(s: string)
    ensures NoSpace(s[..WordLength(s)])
    ensures WordLength(s) < |s| ==> IsSpace(s[WordLength(s)])
  {
    if s != "" && !IsSpace(s[0]) {
      WordLengthEnds(s[1..]);
      assert s[..WordLength(s)] == [s[0]] + s[1..][..WordLength(s[1..])];
    }
  }

  predicate WordList(ws: seq<string>)
  {
    forall i :: 0 <= i < |ws| ==> ws[i] != "" && NoSpace(ws[i])
  }

  /** Python's `str.split()` without arguments. */
  function Words(s: string): seq<string>
    decreases |s|
  {
    if s == "" then []
    else if IsSpace(s[0]) then Words(s[1..])
    else
      var k := WordLength(s);
      [s[..k]] + Words(s[k..])
  }

  lemma {:induction false} WordsAreWords(s: string)
    ensures WordList(Words(s))
    decreases |s|
  {
    if s == "" {
    } else if IsSpace(s[0]) {
      WordsAreWords(s[1..]);
    } else {
      WordLengthEnds(s);
      WordsAreWords(s[WordLength(s)..]);
    }
  }

  /** A whitespace character separates words: nothing on its left and right is joined. */
  lemma {:induction false} WordsAcrossSpace(a: string, c: char, b: string)
    requires IsSpace(c)
    ensures Words(a + [c] + b) == Words(a) + Words(b)
    decreases |a|
  {
    var s := a + [c] + b;
    if a == "" {
      assert s[1..] == b;
    } else if IsSpace(a[0]) {
      assert s[1..] == a[1..] + [c] + b;
      WordsAcrossSpace(a[1..], c, b);
    } else {
      var k := WordLength(a);
      WordLengthPrefix(a, [c] + b);
      assert s == a + ([c] + b);
      assert s[..k] == a[..k];
      assert s[k..] == a[k..] + [c] + b;
      WordsAcrossSpace(a[k..], c, b);
    }
  }

  lemma {:induction false} WordLengthPrefix(a: string, b: string)
    requires b != "" && IsSpace(b[0])
    ensures WordLength(a + b) == WordLength(a)
  {
    if a == "" {
      assert a + b == b;
    } else if !IsSpace(a[0]) {
      assert (a + b)[1..] == a[1..] + b;
      WordLengthPrefix(a[1..], b);
    }
  }

  lemma {:induction false} WordsOfBlank(s: string)
    requires AllSpace(s)
    ensures Words(s) == []
  {
    if s != "" {
      WordsOfBlank(s[1..]);
    }
  }

  lemma {:induction false} WordsOfWord(w: string)
    requires w != "" && NoSpace(w)
    ensures Words(w) == [w]
  {
    WordLengthEnds(w);
    assert WordLength(w) == |w|;
    assert w[..|w|] == w;
    assert w[|w|..] == "";
  }

  lemma {:induction false} WordsAfterBlank(blank: string, s: string)
    requires AllSpace(blank)
    ensures Words(blank + s) == Words(s)
  {
    if blank == "" {
      assert blank + s == s;
    } else {
      assert (blank + s)[1..] == blank[1..] + s;
      WordsAfterBlank(blank[1..], s);
    }
  }

  lemma {:induction false} WordsBeforeBlank(s: string, blank: string)
    requires AllSpace(blank)
    ensures Words(s + blank) == Words(s)
  {
    if blank == "" {
      assert s + blank == s;
    } else {
      assert s + blank == s + [blank[0]] + blank[1..];
      WordsAcrossSpace(s, blank[0], blank[1..]);
      WordsOfBlank(blank[1..]);
    }
  }

  lemma WordsOfStrip(s: string)
    ensures Words(Strip(s)) == Words(s)
  {
    var lo, hi := StripParts(s);
    WordsBetweenBlanks(s, lo, hi);
  }

  lemma WordsBetweenBlanks(s: string, lo: nat, hi: nat)
    requires lo <= hi <= |s| && AllSpace(s[..lo]) && AllSpace(s[hi..])
    ensures Words(s[lo..hi]) == Words(s)
  {
    assert s == s[..lo] + s[lo..];
    WordsAfterBlank(s[..lo], s[lo..]);
    assert s[lo..] == s[lo..hi] + s[hi..];
    WordsBeforeBlank(s[lo..hi], s[hi..]);
  }

  lemma {:induction false} WordsOfLStrip(s: string)
    ensures Words(LStrip(s)) == Words(s)
  {
    if s != "" && IsSpace(s[0]) {
      WordsOfLStrip(s[1..]);
    }
  }

  lemma WordsNonempty(s: string)
    requires s != "" && !IsSpace(s[0])
    ensures Words(s) != []
  {
  }

  // ---------- splitting and joining ----------

  /** Python's `sep.join(parts)` for a one-character separator. */
  function Join(sep: char, parts: seq<string>): string
  {
    if parts == [] then ""
    else if |parts| == 1 then parts[0]
    else parts[0] + [sep] + Join(sep, parts[1..])
  }

  lemma {:induction false} JoinConcat(sep: char, a: seq<string>, b: seq<string>)
    requires a != [] && b != []
    ensures Join(sep, a + b) == Join(sep, a) + [sep] + Join(sep, b)
  {
    if |a| == 1 {
      assert (a + b)[1..] == b;
    } else {
      assert (a + b)[1..] == a[1..] + b;
      JoinConcat(sep, a[1..], b);
    }
  }

  function AllWords(parts: seq<string>): seq<string>
  {
    if parts == [] then [] else Words(parts[0]) + AllWords(parts[1..])
  }

  lemma {:induction false} AllWordsConcat(a: seq<string>, b: seq<string>)
    ensures AllWords(a + b) == AllWords(a) + AllWords(b)
  {
    if a == [] {
      assert a + b == b;
    } else {
      assert (a + b)[1..] == a[1..] + b;
      AllWordsConcat(a[1..], b);
    }
  }

  lemma AllWordsCons(p: string, rest: seq<string>)
    ensures AllWords([p] + rest) == Words(p) + AllWords(rest)
  {
    assert ([p] + rest)[1..] == rest;
  }

  lemma AllWordsOne(s: string)
    ensures AllWords([s]) == Words(s)
  {
    assert AllWords([s]) == Words(s) + AllWords([]);
  }

  /** Joining with a whitespace separator keeps every word, in order. */
  lemma {:induction false} WordsOfJoin(sep: char, parts: seq<string>)
    requires IsSpace(sep)
    ensures Words(Join(sep, parts)) == AllWords(parts)
  {
    if |parts| == 1 {
      AllWordsOne(parts[0]);
      assert parts == [parts[0]];
    } else if |parts| > 1 {
      WordsAcrossSpace(parts[0], sep, Join(sep, parts[1..]));
      WordsOfJoin(sep, parts[1..]);
    }
  }

  lemma {:induction false} WordsOfWordList(ws: seq<string>)
    requires WordList(ws)
    ensures AllWords(ws) == ws
  {
    if ws != [] {
      WordsOfWord(ws[0]);
      WordsOfWordList(ws[1..]);
    }
  }

  /** Position of the first `c`, or the length when there is none. */
  function IndexOf(c: char, s: string): (k: nat)
    ensures k <= |s|
  {
    if s == "" || s[0] == c then 0 else 1 + IndexOf(c, s[1..])
  }

  lemma {:induction false} IndexOfFirst(c: char, s: string)
    ensures c !in s[..IndexOf(c, s)]
    ensures IndexOf(c, s) < |s| ==> s[IndexOf(c, s)] == c
  {
    if s != "" && s[0] != c {
      IndexOfFirst(c, s[1..]);
      assert s[..IndexOf(c, s)] == [s[0]] + s[1..][..IndexOf(c, s[1..])];
    }
  }

  /** Python's `s.split(sep)` for a one-character separator. */
  function Split(sep: char, s: string): (parts: seq<string>)
    ensures parts != []
    decreases |s|
  {
    var k := IndexOf(sep, s);
    if k == |s| then [s] else [s[..k]] + Split(sep, s[k + 1..])
  }

  /** No part holds the separator. */
  ghost predicate Separated(sep: char, parts: seq<string>)
  {
    forall i :: 0 <= i < |parts| ==> sep !in parts[i]
  }

  lemma {:induction false} SplitParts(sep: char, s: string)
    ensures Join(sep, Split(sep, s)) == s && Separated(sep, Split(sep, s))
    decreases |s|
  {
    IndexOfFirst(sep, s);
    var k := IndexOf(sep, s);
    if k < |s| {
      SplitParts(sep, s[k + 1..]);
      var rest := Split(sep, s[k + 1..]);
      assert s == s[..k] + [sep] + s[k + 1..];
      assert ([s[..k]] + rest)[1..] == rest;
    } else {
      assert s[..k] == s;
    }
  }

  lemma {:induction false} IndexOfPrefix(c: char, a: string, b: string)
    requires c !in a && (b == "" || b[0] == c)
    ensures IndexOf(c, a + b) == |a|
  {
    if a == "" {
      assert a + b == b;
    } else {
      assert (a + b)[1..] == a[1..] + b;
      IndexOfPrefix(c, a[1..], b);
    }
  }

  lemma {:induction false} SplitStep(sep: char, a: string, b: string)
    requires sep !in a
    ensures Split(sep, a + [sep] + b) == [a] + Split(sep, b)
  {
    var s := a + [sep] + b;
    assert s == a + ([sep] + b);
    IndexOfPrefix(sep, a, [sep] + b);
    assert s[..|a|] == a && s[|a| + 1..] == b;
  }

  /** Splitting undoes joining when no part holds the separator. */
  lemma {:induction false} SplitJoin(sep: char, parts: seq<string>)
    requires parts != []
    requires Separated(sep, parts)
    ensures Split(sep, Join(sep, parts)) == parts
  {
    if |parts| == 1 {
      IndexOfPrefix(sep, parts[0], "");
      assert parts[0] + "" == parts[0];
    } else {
      var p, rest := parts[0], parts[1..];
      SplitJoin(sep, rest);
      SplitStep(sep, p, Join(sep, rest));
      assert [p] + rest == parts;
    }
  }

  function StripAll(parts: seq<string>): (r: seq<string>)
    ensures |r| == |parts|
  {
    if parts == [] then [] else [Strip(parts[0])] + StripAll(parts[1..])
  }
}
