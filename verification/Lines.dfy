/** Searching inside single lines and multi-line texts, for the hand-written scanners: prefixes,
    containment, counts of a character, and the directive search `name\s+([^;]+);`, with the lemmas that
    say where a search may skip a line and where it must find its directive. */
module Lines {
  import opened Text

  predicate HasPrefix(s: string, p: string)
  {
    |p| <= |s| && s[..|p|] == p
  }

  /** Python's `sub in s`. */
  predicate Contains(s: string, sub: string)
  {
    HasPrefix(s, sub) || (s != "" && Contains(s[1..], sub))
  }

  function Count(c: char, s: string): nat
  {
    if s == "" then 0 else (if s[0] == c then 1 else 0) + Count(c, s[1..])
  }

  lemma {:induction false} CountConcat(c: char, a: string, b: string)
    ensures Count(c, a + b) == Count(c, a) + Count(c, b)
  {
    if a == "" {
      assert a + b == b;
    } else {
      assert (a + b)[1..] == a[1..] + b;
      CountConcat(c, a[1..], b);
    }
  }

  lemma {:induction false} CountNone(c: char, s: string)
    requires c !in s
    ensures Count(c, s) == 0
  {
    if s != "" {
      CountNone(c, s[1..]);
    }
  }

  lemma PrefixStarts(s: string, p: string)
    requires p != ""
    ensures HasPrefix(s, p) ==> s != "" && s[0] == p[0]
  {
    if HasPrefix(s, p) {
      assert s[..|p|][0] == s[0];
    }
  }

  lemma PrefixMember(s: string, p: string, c: char)
    ensures HasPrefix(s, p) && c in p ==> c in s
  {
  }

  lemma {:induction false} NotContained(s: string, sub: string, c: char)
    requires c in sub && c !in s
    ensures !Contains(s, sub)
  {
    PrefixMember(s, sub, c);
    if s != "" {
      NotContained(s[1..], sub, c);
    }
  }

  lemma PrefixBeforeSeparator(a: string, c: char, b: string, p: string)
    requires c !in p
    ensures HasPrefix(a + [c] + b, p) <==> HasPrefix(a, p)
  {
    var s := a + [c] + b;
    if |p| <= |a| {
      assert s[..|p|] == a[..|p|];
    } else if |p| <= |s| {
      assert s[..|p|][|a|] == c;
    }
  }

  /** A string without the separator is found on one side of it or not at all. */
  lemma {:induction false} ContainsAcross(a: string, c: char, b: string, sub: string)
    requires c !in sub && sub != ""
    ensures Contains(a + [c] + b, sub) <==> Contains(a, sub) || Contains(b, sub)
  {
    PrefixBeforeSeparator(a, c, b, sub);
    var s := a + [c] + b;
    if a == "" {
      assert s[1..] == b;
      assert !HasPrefix("", sub);
    } else {
      assert s[1..] == a[1..] + [c] + b;
      ContainsAcross(a[1..], c, b, sub);
    }
  }

  // ---------- occurrences followed by whitespace ----------

  /** No occurrence of `name` at the start of `s` with whitespace or the end right after it. */
  predicate FreeHere(name: string, s: string)
  {
    HasPrefix(s, name) ==> |s| > |name| && !IsSpace(s[|name|])
  }

  /** No occurrence of `name` anywhere in `s` with whitespace or the end right after it. */
  predicate Free(name: string, s: string)
  {
    FreeHere(name, s) && (s == "" || Free(name, s[1..]))
  }

  lemma {:induction false} FreeAcross(name: string, a: string, c: char, b: string)
    requires name != "" && NoSpace(name) && IsSpace(c)
    ensures Free(name, a + [c] + b) <==> Free(name, a) && Free(name, b)
  {
    var s := a + [c] + b;
    assert c !in name;
    PrefixBeforeSeparator(a, c, b, name);
    if a == "" {
      assert s[1..] == b;
    } else {
      assert s[1..] == a[1..] + [c] + b;
      FreeAcross(name, a[1..], c, b);
      if |a| > |name| { assert s[|name|] == a[|name|]; }
    }
  }

  /** A word whose last character differs from the name's. */
  lemma {:induction false} FreeWord(name: string, w: string)
    requires name != "" && NoSpace(w) && (w == "" || w[|w| - 1] != name[|name| - 1])
    ensures Free(name, w)
  {
    if w != "" {
      if HasPrefix(w, name) {
        assert w[|name| - 1] == w[..|name|][|name| - 1];
      }
      FreeWord(name, w[1..]);
    }
  }

  lemma {:induction false} FreeWithout(name: string, s: string)
    requires name != "" && name[0] !in s
    ensures Free(name, s)
  {
    PrefixStarts(s, name);
    if s != "" {
      FreeWithout(name, s[1..]);
    }
  }

  lemma {:induction false} FreeAfterBlanks(name: string, blanks: string, s: string)
    requires name != "" && NoSpace(name) && AllSpace(blanks)
    ensures Free(name, blanks + s) <==> Free(name, s)
  {
    if blanks == "" {
      assert blanks + s == s;
    } else {
      PrefixStarts(blanks + s, name);
      assert (blanks + s)[1..] == blanks[1..] + s;
      FreeAfterBlanks(name, blanks[1..], s);
    }
  }

  // ---------- directives ----------

  /** The value of a match of `name\s+([^;]+);` right at the start of `t`. */
  function DirectiveHere(name: string, t: string): Option<string>
  {
    if !HasPrefix(t, name) then None
    else
      var r := t[|name|..];
      var blanks := |r| - |LStrip(r)|;
      var end := IndexOf(';', r);
      if blanks == 0 || end == |r| then None
      else if end > blanks then Some(r[blanks..end])
      else if blanks >= 2 then Some(r[blanks - 1..blanks])  // the value is one blank given back
      else None
  }

  /** The first of the characters `c` is where the search for it stops. */
  lemma FirstIndex(c: char, r: string)
    ensures forall k :: 0 <= k < |r| && r[k] == c && c !in r[..k] ==> k == IndexOf(c, r)
  {
    IndexOfFirst(c, r);
    var j := IndexOf(c, r);
    forall k | 0 <= k < |r| && r[k] == c && c !in r[..k] ensures k == j {
      NoneBefore(c, r, k);
      NoneBefore(c, r, j);
    }
  }

  lemma NoneBefore(c: char, r: string, k: nat)
    requires k <= |r| && c !in r[..k]
    ensures forall i :: 0 <= i < k ==> r[i] != c
  {
    forall i | 0 <= i < k ensures r[i] != c {
      assert r[..k][i] == r[i];
    }
  }

  lemma {:induction false} LStripAhead(b: string, s: string)
    requires AllSpace(b) && s != "" && !IsSpace(s[0])
    ensures LStrip(b + s) == s
  {
    if b == "" {
      assert b + s == s;
    } else {
      assert (b + s)[1..] == b[1..] + s;
      LStripAhead(b[1..], s);
    }
  }

  lemma BlankHasNo(c: char, b: string)
    requires AllSpace(b) && !IsSpace(c)
    ensures c !in b
  {
  }

  /** A directive is the name, whitespace and a value up to the first semicolon. */
  lemma DirectiveOf(name: string, b: string, v: string, rest: string)
    requires AllSpace(b) && b != "" && v != "" && !IsSpace(v[0]) && ';' !in v
    ensures DirectiveHere(name, name + (b + v + (";" + rest))) == Some(v)
  {
    var r := b + v + (";" + rest);
    assert (name + r)[|name|..] == r && (name + r)[..|name|] == name;
    BlankHasNo(';', b);
    IndexOfPrefix(';', b + v, ";" + rest);
    Associate(b, v, ";" + rest);
    LStripAhead(b, v + (";" + rest));
    assert r[|b|..|b| + |v|] == v;
  }

  /** With nothing but whitespace before the semicolon the last of it is the value, and one character is
      too few. */
  lemma BlankDirective(name: string, b: string, rest: string)
    requires AllSpace(b)
    ensures DirectiveHere(name, name + (b + (";" + rest))) == if |b| >= 2 then Some(b[|b| - 1..]) else None
  {
    var r := b + (";" + rest);
    assert (name + r)[|name|..] == r && (name + r)[..|name|] == name;
    BlankHasNo(';', b);
    IndexOfPrefix(';', b, ";" + rest);
    LStripAhead(b, ";" + rest);
    if |b| >= 2 { assert r[|b| - 1..|b|] == b[|b| - 1..]; }
  }

  /** There is one exactly when whitespace follows the name and at least one more character stands before
      the first semicolon. */
  lemma DirectiveIff(name: string, t: string)
    ensures DirectiveHere(name, t).Some? <==>
            HasPrefix(t, name) &&
            var r := t[|name|..];
            exists k :: 2 <= k < |r| && r[k] == ';' && ';' !in r[..k] && IsSpace(r[0])
  {
    if HasPrefix(t, name) {
      var r := t[|name|..];
      IndexOfFirst(';', r);
      FirstIndex(';', r);
      LStripParts(r);
      BlankAhead(r, |r| - |LStrip(r)|);
    }
  }

  lemma BlankAhead(r: string, n: nat)
    requires n <= |r| && AllSpace(r[..n])
    ensures forall i :: 0 <= i < n ==> IsSpace(r[i])
  {
    forall i | 0 <= i < n ensures IsSpace(r[i]) {
      assert r[..n][i] == r[i];
    }
  }

  /** The leftmost match of `name\s+([^;]+);`. */
  function FindDirective(name: string, t: string): Option<string>
  {
    if DirectiveHere(name, t).Some? then DirectiveHere(name, t)
    else if t == "" then None
    else FindDirective(name, t[1..])
  }

  lemma NoDirectiveHere(name: string, s: string)
    requires FreeHere(name, s)
    ensures DirectiveHere(name, s).None?
  {
    if HasPrefix(s, name) {
      assert s[|name|..][0] == s[|name|];
    }
  }

  /** A part without the name, up to a whitespace character, is skipped by the search. */
  lemma {:induction false} SkipPart(name: string, part: string, c: char, rest: string)
    requires name != "" && NoSpace(name) && Free(name, part) && IsSpace(c)
    ensures FindDirective(name, part + [c] + rest) == FindDirective(name, rest)
  {
    var t := part + [c] + rest;
    assert c !in name;
    PrefixBeforeSeparator(part, c, rest, name);
    if HasPrefix(t, name) {
      assert t[|name|] == part[|name|];
    }
    NoDirectiveHere(name, t);
    if part == "" {
      assert t[1..] == rest;
    } else {
      assert t[1..] == part[1..] + [c] + rest;
      SkipPart(name, part[1..], c, rest);
    }
  }

  lemma {:induction false} SkipBlanks(name: string, blanks: string, t: string)
    requires name != "" && NoSpace(name) && AllSpace(blanks)
    ensures FindDirective(name, blanks + t) == FindDirective(name, t)
  {
    if blanks == "" {
      assert blanks + t == t;
    } else {
      var s := blanks + t;
      PrefixStarts(s, name);
      assert s[1..] == blanks[1..] + t;
      SkipBlanks(name, blanks[1..], t);
    }
  }

  /** The canonical form of a directive is read back. */
  lemma ReadDirective(name: string, value: string, rest: string)
    requires value != "" && !IsSpace(value[0]) && ';' !in value
    ensures FindDirective(name, name + " " + value + ";" + rest) == Some(value)
  {
    var t := name + " " + value + ";" + rest;
    var r := " " + value + ";" + rest;
    assert t[..|name|] == name && t[|name|..] == r;
    assert r[0] == ' ' && r[1..] == value + ";" + rest;
    assert LStrip(r) == r[1..];
    assert r == (" " + value) + (";" + rest);
    IndexOfPrefix(';', " " + value, ";" + rest);
    assert r[1..1 + |value|] == value;
  }

  lemma {:induction false} NoSemicolon(name: string, t: string)
    requires ';' !in t
    ensures FindDirective(name, t).None?
  {
    if HasPrefix(t, name) {
      IndexOfFirst(';', t[|name|..]);
    }
    if t != "" {
      NoSemicolon(name, t[1..]);
    }
  }

  // ---------- an occurrence that ends a word ----------

  /** What follows the first occurrence of the name that ends a word, without the blanks before it. */
  function AfterName(name: string, s: string): string
    requires !Free(name, s)
  {
    if !FreeHere(name, s) then LStrip(s[|name|..]) else AfterName(name, s[1..])
  }

  lemma {:induction false} LStripBefore(b: string, w: string)
    requires w != "" && !IsSpace(w[0])
    ensures LStrip(b + [' '] + w) == if LStrip(b) == "" then w else LStrip(b) + [' '] + w
  {
    var s := b + [' '] + w;
    if b == "" {
      assert s[1..] == w;
      assert LStrip(w) == w;
    } else {
      assert s[1..] == b[1..] + [' '] + w;
      LStripBefore(b[1..], w);
    }
  }

  lemma LStripShortens(s: string)
    requires s != "" && IsSpace(s[0])
    ensures |LStrip(s)| < |s|
  {
  }

  /** Such an occurrence in `s` makes the rest of `s` and all of `v` the value of the directive. */
  function Captured(name: string, s: string, v: string): string
    requires !Free(name, s)
  {
    if AfterName(name, s) == "" then v else AfterName(name, s) + [' '] + v
  }

  lemma ValueCaptured(b: string, v: string, z: string)
    requires (b == "" || IsSpace(b[0])) && ';' !in b && ';' !in v && v != "" && !IsSpace(v[0])
    ensures var r, x := b + [' '] + (v + ";" + z), if LStrip(b) == "" then v else LStrip(b) + [' '] + v;
            var blanks, end := |r| - |LStrip(r)|, IndexOf(';', r);
            0 < blanks < end < |r| && r[blanks..end] == x
  {
    hide LStrip, IndexOf;
    var w, pre := v + ";" + z, b + [' '] + v;
    var r := b + [' '] + w;
    LStripBefore(b, w);
    LStripParts(r);
    LStripShortens(r);
    CaptureParts(b, v, z);
    IndexOfPrefix(';', pre, ";" + z);
    CaptureParts(LStrip(b), v, z);
    var x := if LStrip(b) == "" then v else LStrip(b) + [' '] + v;
    SuffixSlice(r, LStrip(r), pre, x, ";" + z);
  }

  lemma CaptureParts(b: string, v: string, z: string)
    ensures b + [' '] + (v + ";" + z) == b + [' '] + v + (";" + z) && v + ";" + z == v + (";" + z)
  {
  }

  lemma SuffixSlice(r: string, l: string, pre: string, x: string, tail: string)
    requires r == pre + tail && l == x + tail && |l| <= |r| && l == r[|r| - |l|..]
    ensures |r| - |l| == |pre| - |x| && r[|r| - |l|..|pre|] == x
  {
    assert l[..|x|] == x;
  }

  lemma CapturesHere(name: string, s: string, v: string, z: string)
    requires NoSpace(name) && name != "" && ';' !in s && ';' !in v && v != "" && !IsSpace(v[0]) && !FreeHere(name, s)
    ensures DirectiveHere(name, s + [' '] + (v + ";" + z)) == Some(Captured(name, s, v))
  {
    hide LStrip, IndexOf;
    var b, w := s[|name|..], v + ";" + z;
    var t := s + [' '] + w;
    assert t[..|name|] == s[..|name|] && t[|name|..] == b + [' '] + w;
    ValueCaptured(b, v, z);
  }

  lemma {:induction false} CapturesRest(name: string, s: string, v: string, z: string)
    requires NoSpace(name) && name != "" && ';' !in s && ';' !in v && v != "" && !IsSpace(v[0]) && !Free(name, s)
    ensures FindDirective(name, s + [' '] + (v + ";" + z)) == Some(Captured(name, s, v))
  {
    var t := s + [' '] + (v + ";" + z);
    if !FreeHere(name, s) {
      CapturesHere(name, s, v, z);
    } else {
      PrefixBeforeSeparator(s, ' ', v + ";" + z, name);
      if HasPrefix(t, name) {
        assert t[|name|] == s[|name|];
      }
      NoDirectiveHere(name, t);
      assert t[1..] == s[1..] + [' '] + (v + ";" + z);
      CapturesRest(name, s[1..], v, z);
    }
  }
}
