/** The normaliser's whitespace cleanup: what it keeps, and when a second pass changes something. */
module Whitespace {
  import opened Text

  // ---------- ink: the characters that are not whitespace ----------

  function Ink(s: string): string
  {
    if s == "" then "" else (if IsSpace(s[0]) then "" else [s[0]]) + Ink(s[1..])
  }

  lemma {:induction false} InkConcat(a: string, b: string)
    ensures Ink(a + b) == Ink(a) + Ink(b)
  {
    if a == "" {
      assert a + b == b;
    } else {
      assert (a + b)[1..] == a[1..] + b;
      InkConcat(a[1..], b);
    }
  }

  lemma {:induction false} InkOfBlank(s: string)
    requires AllSpace(s)
    ensures Ink(s) == ""
  {
    if s != "" {
      InkOfBlank(s[1..]);
    }
  }

  lemma InkOfStrip(s: string)
    ensures Ink(Strip(s)) == Ink(s)
  {
    hide Strip;
    var lo, hi := StripParts(s);
    assert s == s[..lo] + s[lo..hi] + s[hi..];
    InkConcat(s[..lo] + s[lo..hi], s[hi..]);
    InkConcat(s[..lo], s[lo..hi]);
    InkOfBlank(s[..lo]);
    InkOfBlank(s[hi..]);
  }

  lemma {:induction false} InkOfNothing(s: string)
    ensures Ink(s) == "" <==> AllSpace(s)
  {
    if s != "" {
      InkOfNothing(s[1..]);
    }
  }

  lemma StripEmptyIffNoInk(s: string)
    ensures Strip(s) == "" <==> Ink(s) == ""
  {
    hide Strip;
    InkOfStrip(s);
    StripIsTrimmed(s);
    InkOfNothing(Strip(s));
  }

  // ---------- substitutions ----------

  /** `re.sub(c{max+1,}, c * max, s)`: runs of `c` are cut to `max`; `run` of them came just before. */
  function CutRuns(c: char, max: nat, s: string, run: nat): string
    decreases s
  {
    if s == "" then ""
    else if s[0] != c then [s[0]] + CutRuns(c, max, s[1..], 0)
    else if run < max then [c] + CutRuns(c, max, s[1..], run + 1)
    else CutRuns(c, max, s[1..], run)
  }

  lemma {:induction false} InkOfCutRuns(c: char, max: nat, s: string, run: nat)
    requires IsSpace(c)
    ensures Ink(CutRuns(c, max, s, run)) == Ink(s)
    decreases s
  {
    if s != "" {
      InkOfCutRuns(c, max, s[1..], if s[0] != c then 0 else if run < max then run + 1 else run);
    }
  }

  /** `re.sub(\s+, " ", s)`; `blank` says whether the character before was whitespace. */
  function CollapseBlanks(s: string, blank: bool): string
    decreases s
  {
    if s == "" then ""
    else if !IsSpace(s[0]) then [s[0]] + CollapseBlanks(s[1..], false)
    else (if blank then "" else " ") + CollapseBlanks(s[1..], true)
  }

  lemma {:induction false} InkOfCollapse(s: string, blank: bool)
    ensures Ink(CollapseBlanks(s, blank)) == Ink(s)
    decreases s
  {
    if s != "" {
      InkOfCollapse(s[1..], IsSpace(s[0]));
      InkConcat(if blank then "" else " ", CollapseBlanks(s[1..], true));
    }
  }

  // ---------- whitespace cleanup ----------

  /** The text after the two substitutions, before its lines are trimmed. */
  function Squeezed(text: string): string
  {
    CutRuns('\n', 2, CutRuns(' ', 1, text, 0), 0)
  }

  function CleanWhitespace(text: string): string
  {
    Strip(Join('\n', StripAll(Split('\n', Squeezed(text)))))
  }

  lemma {:induction false} InkOfLines(lines: seq<string>)
    ensures Ink(Join('\n', StripAll(lines))) == Ink(Join('\n', lines))
  {
    hide Strip, Ink;
    if |lines| == 1 {
      assert StripAll(lines) == [Strip(lines[0])] + [] == [Strip(lines[0])];
      InkOfStrip(lines[0]);
    } else if lines != [] {
      InkOfStrip(lines[0]);
      InkOfLines(lines[1..]);
      assert StripAll(lines)[1..] == StripAll(lines[1..]);
      InkOfJoin(lines[0], Join('\n', lines[1..]));
      InkOfJoin(Strip(lines[0]), Join('\n', StripAll(lines[1..])));
    }
  }

  lemma InkOfJoin(a: string, b: string)
    ensures Ink(a + ['\n'] + b) == Ink(a) + Ink(b)
  {
    InkConcat(a + ['\n'], b);
    InkConcat(a, ['\n']);
    InkOfBlank(['\n']);
  }

  /** Cleaning keeps every character that is not whitespace, in order. */
  lemma CleaningKeepsInk(text: string)
    ensures Ink(CleanWhitespace(text)) == Ink(text)
  {
    hide Ink, Strip, Join, Split, CutRuns, StripAll;
    var cut := CutRuns(' ', 1, text, 0);
    InkOfCutRuns(' ', 1, text, 0);
    InkOfCutRuns('\n', 2, cut, 0);
    SplitParts('\n', Squeezed(text));
    InkOfLines(Split('\n', Squeezed(text)));
    InkOfStrip(Join('\n', StripAll(Split('\n', Squeezed(text)))));
  }

  // ---------- no double spaces ----------

  ghost predicate NoDouble(s: string)
  {
    forall i :: 0 <= i < |s| - 1 ==> s[i] != ' ' || s[i + 1] != ' '
  }

  lemma NoDoubleCons(c: char, s: string)
    requires NoDouble(s) && (c != ' ' || s == "" || s[0] != ' ')
    ensures NoDouble([c] + s)
  {
  }

  lemma NoDoubleSlice(s: string, lo: nat, hi: nat)
    requires NoDouble(s) && lo <= hi <= |s|
    ensures NoDouble(s[lo..hi])
  {
  }

  lemma {:induction false} CutSpaces(s: string, run: nat)
    requires run <= 1
    ensures var r := CutRuns(' ', 1, s, run); NoDouble(r) && (run == 1 ==> r == "" || r[0] != ' ')
    decreases s
  {
    hide NoDouble;
    if s == "" {
      NoDoubleSlice("  "[..0], 0, 0);
    } else {
      CutSpaces(s[1..], if s[0] == ' ' then 1 else 0);
      NoDoubleCons(s[0], CutRuns(' ', 1, s[1..], if s[0] == ' ' then 1 else 0));
    }
  }

  lemma {:induction false} SingleSpacesStay(s: string, run: nat)
    requires NoDouble(s) && run <= 1 && (run == 1 ==> s == "" || s[0] != ' ')
    ensures CutRuns(' ', 1, s, run) == s
    decreases s
  {
    if s != "" {
      SingleSpacesStay(s[1..], if s[0] == ' ' then 1 else 0);
    }
  }

  lemma {:induction false} CutNewlinesKeepsSingle(s: string, run: nat)
    requires NoDouble(s)
    ensures var r := CutRuns('\n', 2, s, run);
            NoDouble(r) && (s != "" && (run < 2 || s[0] != '\n') ==> r != "" && r[0] == s[0])
    decreases s
  {
    hide NoDouble;
    if s != "" {
      NoDoubleSlice(s, 1, |s|);
      assert s[1..|s|] == s[1..];
      var next := if s[0] != '\n' then 0 else if run < 2 then run + 1 else run;
      CutNewlinesKeepsSingle(s[1..], next);
      SecondIsNoSpace(s);
      NoDoubleCons(s[0], CutRuns('\n', 2, s[1..], next));
    }
  }

  lemma SecondIsNoSpace(s: string)
    requires NoDouble(s)
    ensures |s| > 1 && s[0] == ' ' ==> s[1] != ' '
  {
  }

  /** Lines as the cleanup leaves them: trimmed, without double spaces. */
  ghost predicate CleanLine(s: string)
  {
    Trimmed(s) && '\n' !in s && NoDouble(s)
  }

  ghost predicate CleanLines(ls: seq<string>)
  {
    forall i :: 0 <= i < |ls| ==> CleanLine(ls[i])
  }

  lemma {:induction false} SplitKeepsSingle(s: string)
    requires NoDouble(s)
    ensures forall i :: 0 <= i < |Split('\n', s)| ==> NoDouble(Split('\n', s)[i])
    decreases |s|
  {
    hide NoDouble;
    var k := IndexOf('\n', s);
    if k < |s| {
      NoDoubleSlice(s, 0, k);
      NoDoubleSlice(s, k + 1, |s|);
      assert s[0..k] == s[..k] && s[k + 1..|s|] == s[k + 1..];
      SplitKeepsSingle(s[k + 1..]);
    }
  }

  lemma StripIsClean(s: string)
    requires NoDouble(s) && '\n' !in s
    ensures CleanLine(Strip(s))
  {
    hide Strip;
    var lo, hi := StripParts(s);
    StripIsTrimmed(s);
    NoDoubleSlice(s, lo, hi);
  }

  lemma {:induction false} StripAllIsClean(ls: seq<string>)
    requires Separated('\n', ls) && forall i :: 0 <= i < |ls| ==> NoDouble(ls[i])
    ensures CleanLines(StripAll(ls))
  {
    hide NoDouble, CleanLine, Strip;
    if ls != [] {
      StripIsClean(ls[0]);
      StripAllIsClean(ls[1..]);
    }
  }

  /** The trimmed lines of the squeezed text. */
  function TrimmedLines(text: string): seq<string>
  {
    StripAll(Split('\n', Squeezed(text)))
  }

  lemma TrimmedLinesAreClean(text: string)
    ensures CleanLines(TrimmedLines(text))
  {
    hide NoDouble, CutRuns, Split, StripAll;
    CutSpaces(text, 0);
    CutNewlinesKeepsSingle(CutRuns(' ', 1, text, 0), 0);
    SplitKeepsSingle(Squeezed(text));
    SplitParts('\n', Squeezed(text));
    StripAllIsClean(Split('\n', Squeezed(text)));
  }

  // ---------- blank lines at the ends ----------

  function DropLeading(ls: seq<string>): seq<string>
  {
    if ls != [] && ls[0] == "" then DropLeading(ls[1..]) else ls
  }

  function DropTrailing(ls: seq<string>): seq<string>
  {
    if ls != [] && ls[|ls| - 1] == "" then DropTrailing(ls[..|ls| - 1]) else ls
  }

  function Core(ls: seq<string>): seq<string>
  {
    DropTrailing(DropLeading(ls))
  }

  ghost predicate AllBlank(ls: seq<string>)
  {
    forall i :: 0 <= i < |ls| ==> ls[i] == ""
  }

  lemma {:induction false} DropLeadingParts(ls: seq<string>) returns (k: nat)
    ensures k <= |ls| && DropLeading(ls) == ls[k..] && AllBlank(ls[..k]) && (k < |ls| ==> ls[k] != "")
  {
    k := 0;
    if ls != [] && ls[0] == "" {
      var j := DropLeadingParts(ls[1..]);
      k := j + 1;
      assert ls[..k] == [ls[0]] + ls[1..][..j] && ls[1..][j..] == ls[k..];
    }
  }

  lemma {:induction false} DropTrailingParts(ls: seq<string>) returns (k: nat)
    ensures k <= |ls| && DropTrailing(ls) == ls[..k] && AllBlank(ls[k..]) && (k > 0 ==> ls[k - 1] != "")
  {
    k := |ls|;
    if ls != [] && ls[|ls| - 1] == "" {
      var init := ls[..|ls| - 1];
      k := DropTrailingParts(init);
      assert ls[k..] == init[k..] + [""] && init[..k] == ls[..k];
    } else {
      assert ls[..k] == ls;
    }
  }

  /** Ends with a printing line on both sides, or has none at all. */
  ghost predicate Closed(ls: seq<string>)
  {
    ls != [] ==> ls[0] != "" && ls[|ls| - 1] != ""
  }

  lemma CoreParts(ls: seq<string>) returns (lo: nat, hi: nat)
    ensures lo <= hi <= |ls| && Core(ls) == ls[lo..hi]
    ensures AllBlank(ls[..lo]) && AllBlank(ls[hi..]) && Closed(Core(ls))
  {
    hide DropLeading, DropTrailing;
    lo := DropLeadingParts(ls);
    var n := DropTrailingParts(ls[lo..]);
    hi := lo + n;
    assert ls[lo..][..n] == ls[lo..hi] && ls[lo..][n..] == ls[hi..];
    assert n > 0 ==> ls[lo..][n - 1] == ls[hi - 1];
  }

  lemma {:induction false} LStripJoin(ls: seq<string>)
    requires CleanLines(ls)
    ensures LStrip(Join('\n', ls)) == Join('\n', DropLeading(ls))
  {
    hide NoDouble;
    if ls != [] {
      var text := Join('\n', ls);
      assert CleanLine(ls[0]);
      if ls[0] != "" {
        assert text[0] == ls[0][0];
      } else {
        LStripJoin(ls[1..]);
        if |ls| > 1 { assert text[1..] == Join('\n', ls[1..]); }
      }
    }
  }

  lemma JoinLast(ls: seq<string>)
    requires |ls| > 1
    ensures Join('\n', ls) == Join('\n', ls[..|ls| - 1]) + ['\n'] + ls[|ls| - 1]
  {
    var init, last := ls[..|ls| - 1], ls[|ls| - 1];
    assert ls == init + [last];
    JoinConcat('\n', init, [last]);
  }

  lemma {:induction false} RStripJoin(ls: seq<string>)
    requires CleanLines(ls)
    ensures RStrip(Join('\n', ls)) == Join('\n', DropTrailing(ls))
  {
    hide NoDouble, Join;
    JoinOne();
    if ls != [] {
      var text, init, last := Join('\n', ls), ls[..|ls| - 1], ls[|ls| - 1];
      assert CleanLine(last);
      JoinShape(ls);
      if last != "" {
        assert text[|text| - 1] == last[|last| - 1];
      } else {
        RStripJoin(init);
        if |ls| > 1 {
          assert text[..|text| - 1] == Join('\n', init);
        }
      }
    }
  }

  lemma JoinOne()
    ensures Join('\n', []) == ""
  {
  }

  lemma JoinShape(ls: seq<string>)
    requires ls != []
    ensures |ls| == 1 ==> Join('\n', ls) == ls[0]
    ensures |ls| > 1 ==> Join('\n', ls) == Join('\n', ls[..|ls| - 1]) + ['\n'] + ls[|ls| - 1]
  {
    if |ls| > 1 { JoinLast(ls); }
  }

  lemma DropLeadingIsClean(ls: seq<string>)
    requires CleanLines(ls)
    ensures CleanLines(DropLeading(ls)) && CleanLines(Core(ls))
  {
    hide DropLeading, DropTrailing, CleanLine;
    var k := DropLeadingParts(ls);
    var n := DropTrailingParts(ls[k..]);
  }

  /** The cleaned text is the core lines: trimmed, no double spaces, no blank line at either end. */
  lemma CleanedLines(text: string)
    ensures CleanWhitespace(text) == Join('\n', Core(TrimmedLines(text)))
    ensures CleanLines(Core(TrimmedLines(text))) && Closed(Core(TrimmedLines(text)))
  {
    hide Squeezed, StripAll, Split, Join, DropLeading, DropTrailing, CleanLines;
    var ls := TrimmedLines(text);
    TrimmedLinesAreClean(text);
    LStripJoin(ls);
    DropLeadingIsClean(ls);
    RStripJoin(DropLeading(ls));
    var lo, hi := CoreParts(ls);
  }

  /** The cleaned text has no double space, and it and all its lines are trimmed. */
  lemma CleanedText(text: string)
    ensures var r := CleanWhitespace(text);
      && NoDouble(r) && Trimmed(r) && forall i :: 0 <= i < |Split('\n', r)| ==> Trimmed(Split('\n', r)[i])
  {
    hide Squeezed, StripAll, Split, Core, TrimmedLines, NoDouble, LStrip, RStrip;
    var ls := Core(TrimmedLines(text));
    CleanedLines(text);
    JoinIsSingle(ls);
    StripIsTrimmed(Join('\n', StripAll(Split('\n', Squeezed(text)))));
    if ls == [] {
      NoLine();
    } else {
      CleanIsSeparated(ls);
      SplitJoin('\n', ls);
      assert forall i :: 0 <= i < |ls| ==> CleanLine(ls[i]);
    }
  }

  lemma NoLine()
    ensures Split('\n', Join('\n', [])) == [""]
  {
  }

  // ---------- the second pass ----------

  /** The lines without a blank line right after a blank line. */
  function Fewer(ls: seq<string>, blank: bool): seq<string>
    decreases ls
  {
    if ls == [] then []
    else if ls[0] == "" && blank then Fewer(ls[1..], true)
    else [ls[0]] + Fewer(ls[1..], ls[0] == "")
  }

  lemma {:induction false} CutNone(line: string, rest: string, run: nat)
    requires '\n' !in line && line != ""
    ensures CutRuns('\n', 2, line + rest, run) == line + CutRuns('\n', 2, rest, 0)
    decreases line
  {
    var s := line + rest;
    assert s[1..] == line[1..] + rest;
    if |line| == 1 {
      assert line[1..] + rest == rest;
      assert line == [line[0]];
    } else {
      CutNone(line[1..], rest, 0);
      assert line == [line[0]] + line[1..];
    }
  }

  ghost predicate LastPrints(ls: seq<string>)
  {
    ls != [] && ls[|ls| - 1] != ""
  }

  lemma CutBlankLine(text: string, run: nat)
    requires 1 <= run <= 2
    ensures CutRuns('\n', 2, "" + ['\n'] + text, run) ==
              if run == 1 then ['\n'] + CutRuns('\n', 2, text, 2) else CutRuns('\n', 2, text, 2)
  {
    var s := "" + ['\n'] + text;
    assert s[0] == '\n' && s[1..] == text;
  }

  lemma CutPrintingLine(line: string, text: string, run: nat)
    requires '\n' !in line && line != ""
    ensures CutRuns('\n', 2, line + ['\n'] + text, run) == line + ['\n'] + CutRuns('\n', 2, text, 1)
  {
    var rest := ['\n'] + text;
    Associate(line, ['\n'], text);
    CutNone(line, rest, run);
    assert rest[1..] == text;
    assert CutRuns('\n', 2, rest, 0) == ['\n'] + CutRuns('\n', 2, text, 1);
    Associate(line, ['\n'], CutRuns('\n', 2, text, 1));
  }

  lemma JoinMore(line: string, rest: seq<string>)
    requires rest != []
    ensures Join('\n', [line] + rest) == line + ['\n'] + Join('\n', rest)
  {
    assert ([line] + rest)[1..] == rest;
  }

  lemma {:induction false} FewerPrints(ls: seq<string>, blank: bool)
    requires LastPrints(ls)
    ensures LastPrints(Fewer(ls, blank))
    decreases ls
  {
    if |ls| > 1 {
      FewerPrints(ls[1..], ls[0] == "");
    }
  }

  /** Cutting runs of newlines drops repeated blank lines. */
  lemma {:induction false} CutIsFewer(ls: seq<string>, run: nat)
    requires LastPrints(ls) && Separated('\n', ls) && run <= 2 && (run == 0 ==> ls[0] != "")
    ensures CutRuns('\n', 2, Join('\n', ls), run) == Join('\n', Fewer(ls, run == 2))
    decreases ls
  {
    hide CutRuns, Join;
    JoinShape(ls);
    if |ls| == 1 {
      LastLineStays(ls[0], run);
      assert Fewer(ls, run == 2) == [ls[0]] + Fewer([], false) == [ls[0]];
      JoinShape([ls[0]]);
    } else {
      var rest := ls[1..];
      assert ls == [ls[0]] + rest;
      JoinMore(ls[0], rest);
      if ls[0] == "" {
        CutIsFewer(rest, 2);
        CutBlankLine(Join('\n', rest), run);
        FewerPrints(rest, true);
        JoinMore("", Fewer(rest, true));
        assert "" + ['\n'] == ['\n'];
      } else {
        CutIsFewer(rest, 1);
        CutPrintingLine(ls[0], Join('\n', rest), run);
        FewerPrints(rest, false);
        JoinMore(ls[0], Fewer(rest, false));
      }
    }
  }

  lemma LastLineStays(line: string, run: nat)
    requires '\n' !in line && line != ""
    ensures CutRuns('\n', 2, line, run) == line
  {
    CutNone(line, "", run);
    assert line + "" == line && CutRuns('\n', 2, "", 0) == "";
  }

  lemma {:induction false} FewerMembers(ls: seq<string>, blank: bool)
    requires CleanLines(ls)
    ensures CleanLines(Fewer(ls, blank))
    decreases ls
  {
    hide CleanLine;
    if ls != [] {
      FewerMembers(ls[1..], ls[0] == "");
    }
  }

  lemma {:induction false} StripAllStays(ls: seq<string>)
    requires CleanLines(ls)
    ensures StripAll(ls) == ls
  {
    hide NoDouble;
    if ls != [] {
      StripTrimmed(ls[0]);
      StripAllStays(ls[1..]);
    }
  }

  lemma {:induction false} JoinIsSingle(ls: seq<string>)
    requires CleanLines(ls)
    ensures NoDouble(Join('\n', ls))
  {
    if |ls| > 1 {
      JoinIsSingle(ls[1..]);
      assert CleanLine(ls[0]);
    }
  }

  lemma CoreStays(ls: seq<string>)
    requires Closed(ls)
    ensures Core(ls) == ls
  {
  }

  lemma SqueezeLines(ls: seq<string>)
    requires CleanLines(ls) && Closed(ls) && ls != []
    ensures Squeezed(Join('\n', ls)) == Join('\n', Fewer(ls, false))
  {
    hide NoDouble, CutRuns, Join, Fewer;
    JoinIsSingle(ls);
    SingleSpacesStay(Join('\n', ls), 0);
    CutIsFewer(ls, 0);
  }

  lemma FewerIsClosed(ls: seq<string>)
    requires Closed(ls) && ls != []
    ensures Closed(Fewer(ls, false)) && Fewer(ls, false) != []
  {
    FewerPrints(ls, false);
  }

  /** A pass over clean lines drops repeated blank lines and changes nothing else. */
  lemma SecondPass(ls: seq<string>)
    requires CleanLines(ls) && Closed(ls)
    ensures CleanWhitespace(Join('\n', ls)) == Join('\n', Fewer(ls, false))
    ensures CleanLines(Fewer(ls, false)) && Closed(Fewer(ls, false))
  {
    hide Squeezed, Split, StripAll, Core, Join, Fewer, CleanLine;
    CleanedLines(Join('\n', ls));
    if ls == [] {
      EmptyStays();
    } else {
      var fewer := Fewer(ls, false);
      SqueezeLines(ls);
      FewerIsClosed(ls);
      FewerMembers(ls, false);
      CleanIsSeparated(fewer);
      SplitJoin('\n', fewer);
      StripAllStays(fewer);
      CoreStays(fewer);
    }
  }

  lemma CleanIsSeparated(ls: seq<string>)
    requires CleanLines(ls)
    ensures Separated('\n', ls)
  {
    forall i | 0 <= i < |ls| ensures '\n' !in ls[i] {
      assert CleanLine(ls[i]);
    }
  }

  lemma EmptyStays()
    ensures Fewer([], false) == [] && Join('\n', []) == "" && CleanWhitespace("") == ""
  {
    assert Squeezed("") == "";
    assert Split('\n', "") == [""];
    assert StripAll([""]) == [""] + StripAll([]) == [""];
    assert Join('\n', [""]) == "";
  }

  lemma {:induction false} FewerTwice(ls: seq<string>, blank: bool)
    ensures Fewer(Fewer(ls, blank), blank) == Fewer(ls, blank)
    decreases ls
  {
    if ls != [] {
      FewerTwice(ls[1..], ls[0] == "");
      assert ([ls[0]] + Fewer(ls[1..], ls[0] == ""))[1..] == Fewer(ls[1..], ls[0] == "");
    }
  }

  /** From the second pass on the cleanup changes nothing. */
  lemma StableFromSecondPass(text: string)
    ensures var twice := CleanWhitespace(CleanWhitespace(text)); CleanWhitespace(twice) == twice
  {
    hide CleanWhitespace, Join, Core, Fewer, TrimmedLines;
    var ls := Core(TrimmedLines(text));
    CleanedLines(text);
    SecondPass(ls);
    SecondPass(Fewer(ls, false));
    FewerTwice(ls, false);
  }

  // ---------- when one pass is enough ----------

  ghost predicate BlankPair(ls: seq<string>)
  {
    exists i :: 0 <= i < |ls| - 1 && ls[i] == "" && ls[i + 1] == ""
  }

  lemma {:induction false} FewerStays(ls: seq<string>, blank: bool)
    ensures |Fewer(ls, blank)| <= |ls|
    ensures Fewer(ls, blank) == ls <==> !BlankPair(ls) && !(blank && ls != [] && ls[0] == "")
    decreases ls
  {
    if ls != [] {
      var rest := ls[1..];
      FewerStays(rest, ls[0] == "");
      BlankPairCons(ls);
      if !(ls[0] == "" && blank) {
        assert ([ls[0]] + Fewer(rest, ls[0] == ""))[1..] == Fewer(rest, ls[0] == "");
      }
    }
  }

  lemma BlankPairCons(ls: seq<string>)
    requires ls != []
    ensures BlankPair(ls) <==> BlankPair(ls[1..]) || (|ls| > 1 && ls[0] == "" && ls[1] == "")
  {
    var rest := ls[1..];
    if BlankPair(ls) {
      var i :| 0 <= i < |ls| - 1 && ls[i] == "" && ls[i + 1] == "";
      assert i > 0 ==> rest[i - 1] == "" && rest[i] == "";
    }
    if BlankPair(rest) {
      var i :| 0 <= i < |rest| - 1 && rest[i] == "" && rest[i + 1] == "";
      assert ls[i + 1] == "" && ls[i + 2] == "";
    }
  }

  /** Two blank lines in a row with a printing line somewhere before and somewhere after them. */
  ghost predicate InnerBlankPair(ls: seq<string>)
  {
    exists i :: 0 <= i < |ls| - 1 && ls[i] == "" && ls[i + 1] == "" && !AllBlank(ls[..i]) && !AllBlank(ls[i + 2..])
  }

  lemma CorePairIsInner(ls: seq<string>, lo: nat, hi: nat, i: nat)
    requires lo <= hi <= |ls| && i + 1 < hi - lo && Closed(ls[lo..hi])
    requires ls[lo..hi][i] == "" && ls[lo..hi][i + 1] == ""
    ensures InnerBlankPair(ls)
  {
    var core := ls[lo..hi];
    var a := lo + i;
    assert ls[a] == "" && ls[a + 1] == "";
    assert core[0] == ls[..a][lo] && core[|core| - 1] == ls[a + 2..][hi - 1 - (a + 2)];
  }

  lemma InnerPairIsInCore(ls: seq<string>, lo: nat, hi: nat)
    requires lo <= hi <= |ls| && AllBlank(ls[..lo]) && AllBlank(ls[hi..]) && InnerBlankPair(ls)
    ensures BlankPair(ls[lo..hi])
  {
    var core := ls[lo..hi];
    var i :| 0 <= i < |ls| - 1 && ls[i] == "" && ls[i + 1] == "" && !AllBlank(ls[..i]) && !AllBlank(ls[i + 2..]);
    var a :| 0 <= a < i && ls[..i][a] != "";
    var b :| 0 <= b < |ls| - (i + 2) && ls[i + 2..][b] != "";
    BlankEnds(ls, lo, hi);
    assert ls[a] != "" && ls[i + 2 + b] != "";
    assert core[i - lo] == "" && core[i + 1 - lo] == "";
  }

  lemma CoreBlankPair(ls: seq<string>)
    ensures BlankPair(Core(ls)) <==> InnerBlankPair(ls)
  {
    hide Core, InnerBlankPair, AllBlank, Closed;
    var lo, hi := CoreParts(ls);
    var core := Core(ls);
    if BlankPair(core) {
      var i :| 0 <= i < |core| - 1 && core[i] == "" && core[i + 1] == "";
      CorePairIsInner(ls, lo, hi, i);
    }
    if InnerBlankPair(ls) {
      InnerPairIsInCore(ls, lo, hi);
    }
  }

  lemma BlankEnds(ls: seq<string>, lo: nat, hi: nat)
    requires lo <= hi <= |ls| && AllBlank(ls[..lo]) && AllBlank(ls[hi..])
    ensures forall j :: 0 <= j < lo || hi <= j < |ls| ==> ls[j] == ""
  {
    forall j | 0 <= j < lo ensures ls[j] == "" {
      assert ls[..lo][j] == "";
    }
    forall j | hi <= j < |ls| ensures ls[j] == "" {
      assert ls[hi..][j - hi] == "";
    }
  }

  /** One pass is enough exactly when the trimmed lines have no two blank lines in a row between
      printing ones. */
  lemma IdempotentIff(text: string)
    ensures CleanWhitespace(CleanWhitespace(text)) == CleanWhitespace(text) <==> !InnerBlankPair(TrimmedLines(text))
  {
    hide CleanWhitespace, Join, Core, Fewer, TrimmedLines, InnerBlankPair, BlankPair, CleanLine;
    var ls := Core(TrimmedLines(text));
    CleanedLines(text);
    SecondPass(ls);
    FewerStays(ls, false);
    CoreBlankPair(TrimmedLines(text));
    if ls == [] {
      EmptyStays();
    } else {
      FewerIsClosed(ls);
      CleanIsSeparated(ls);
      CleanIsSeparated(Fewer(ls, false));
      SplitJoin('\n', ls);
      SplitJoin('\n', Fewer(ls, false));
    }
  }

  // ---------- the condition on the text itself ----------

  /** Line ends in the whitespace `g`, of a run at most two; `run` of them came just before. */
  function LineEnds(g: string, run: nat): nat
  {
    if g == "" then 0
    else if g[0] != '\n' then LineEnds(g[1..], 0)
    else if run < 2 then 1 + LineEnds(g[1..], run + 1)
    else LineEnds(g[1..], run)
  }

  /** The text begins with whitespace that, with the `n` line ends before it, has three, and a
      printing character follows. */
  ghost predicate WideAtFirst(s: string, n: nat, run: nat)
  {
    exists j :: 0 <= j < |s| && InkAfterBlanks(s, j) && n + LineEnds(s[..j], run) >= 3
  }

  predicate InkAfterBlanks(s: string, j: nat)
    requires j < |s|
  {
    AllSpace(s[..j]) && !IsSpace(s[j])
  }

  /** Two printing characters have only whitespace between them, and in it three line ends or more,
      of a run at most two counted. */
  ghost predicate WideGap(text: string)
  {
    exists i :: 0 <= i < |text| && !IsSpace(text[i]) && WideAtFirst(text[i + 1..], 0, 0)
  }

  lemma WideGapStep(s: string)
    requires s != ""
    ensures WideGap(s) <==> WideGap(s[1..]) || (!IsSpace(s[0]) && WideAtFirst(s[1..], 0, 0))
  {
    hide WideAtFirst, IsSpace;
    var t := s[1..];
    if WideGap(s) {
      var i :| 0 <= i < |s| && !IsSpace(s[i]) && WideAtFirst(s[i + 1..], 0, 0);
      assert i > 0 ==> s[i] == t[i - 1] && s[i + 1..] == t[i - 1 + 1..];
    }
    if WideGap(t) {
      var i :| 0 <= i < |t| && !IsSpace(t[i]) && WideAtFirst(t[i + 1..], 0, 0);
      assert s[i + 1] == t[i] && s[i + 1 + 1..] == t[i + 1..];
    }
  }

  lemma InkAfterMore(s: string, j: nat)
    requires 0 < j < |s| && IsSpace(s[0])
    ensures InkAfterBlanks(s, j) <==> InkAfterBlanks(s[1..], j - 1)
    ensures s[..j][1..] == s[1..][..j - 1] && s[..j][0] == s[0]
  {
    assert s[..j] == [s[0]] + s[1..][..j - 1];
  }

  lemma WideAtFirstStep(s: string, n: nat, run: nat)
    requires s != ""
    ensures !IsSpace(s[0]) ==> (WideAtFirst(s, n, run) <==> n >= 3)
    ensures s[0] == '\n' ==> (WideAtFirst(s, n, run) <==>
              if run < 2 then WideAtFirst(s[1..], n + 1, run + 1) else WideAtFirst(s[1..], n, run))
    ensures IsSpace(s[0]) && s[0] != '\n' ==> (WideAtFirst(s, n, run) <==> WideAtFirst(s[1..], n, 0))
  {
    assert IsSpace('\n');
    hide IsSpace;
    if !IsSpace(s[0]) {
      InkFirst(s, n, run);
    } else {
      forall j | 0 < j < |s|
        ensures InkAfterBlanks(s, j) <==> InkAfterBlanks(s[1..], j - 1)
        ensures s[..j][1..] == s[1..][..j - 1] && s[..j][0] == s[0]
      {
        InkAfterMore(s, j);
      }
      BlankFirst(s, n, run);
    }
  }

  lemma BlankHead(s: string, j: nat)
    requires j < |s| && InkAfterBlanks(s, j)
    ensures j > 0 ==> IsSpace(s[0])
  {
    assert j > 0 ==> s[..j][0] == s[0];
  }

  lemma InkFirst(s: string, n: nat, run: nat)
    requires s != "" && !IsSpace(s[0])
    ensures WideAtFirst(s, n, run) <==> n >= 3
  {
    hide IsSpace;
    if WideAtFirst(s, n, run) {
      var j :| 0 <= j < |s| && InkAfterBlanks(s, j) && n + LineEnds(s[..j], run) >= 3;
      BlankHead(s, j);
    }
    assert InkAfterBlanks(s, 0) && s[..0] == "";
  }

  lemma BlankFirst(s: string, n: nat, run: nat)
    requires s != "" && IsSpace(s[0])
    requires forall j :: 0 < j < |s| ==>
      && (InkAfterBlanks(s, j) <==> InkAfterBlanks(s[1..], j - 1))
      && s[..j][1..] == s[1..][..j - 1] && s[..j][0] == s[0]
    ensures WideAtFirst(s, n, run) <==>
      (if s[0] != '\n' then WideAtFirst(s[1..], n, 0)
       else if run < 2 then WideAtFirst(s[1..], n + 1, run + 1) else WideAtFirst(s[1..], n, run))
  {
    hide IsSpace;
    var t := s[1..];
    var n' := if s[0] == '\n' && run < 2 then n + 1 else n;
    var run' := if s[0] != '\n' then 0 else if run < 2 then run + 1 else run;
    forall j | 0 < j < |s| ensures n + LineEnds(s[..j], run) == n' + LineEnds(t[..j - 1], run') {
      assert s[..j][1..] == t[..j - 1];
    }
    if WideAtFirst(s, n, run) {
      var j :| 0 <= j < |s| && InkAfterBlanks(s, j) && n + LineEnds(s[..j], run) >= 3;
      assert j > 0 && InkAfterBlanks(t, j - 1);
    }
    if WideAtFirst(t, n', run') {
      var j :| 0 <= j < |t| && InkAfterBlanks(t, j) && n' + LineEnds(t[..j], run') >= 3;
      assert InkAfterBlanks(s, j + 1);
    }
  }

  /** The same as a scan: `seen` a printing character, and `n` line ends since the last one. */
  predicate Wide(s: string, seen: bool, n: nat, run: nat)
    decreases s
  {
    if s == "" then false
    else if s[0] == '\n' then
      if run < 2 then Wide(s[1..], seen, n + 1, run + 1) else Wide(s[1..], seen, n, run)
    else if IsSpace(s[0]) then Wide(s[1..], seen, n, 0)
    else (seen && n >= 3) || Wide(s[1..], true, 0, 0)
  }

  lemma {:induction false} WideIsGap(s: string, seen: bool, n: nat, run: nat)
    ensures Wide(s, seen, n, run) <==> WideGap(s) || (seen && WideAtFirst(s, n, run))
    decreases s
  {
    assert IsSpace('\n');
    if s != "" {
      hide WideGap, WideAtFirst, IsSpace;
      WideGapStep(s);
      WideAtFirstStep(s, n, run);
      if s[0] == '\n' {
        if run < 2 { WideIsGap(s[1..], seen, n + 1, run + 1); } else { WideIsGap(s[1..], seen, n, run); }
      } else if IsSpace(s[0]) {
        WideIsGap(s[1..], seen, n, 0);
      } else {
        WideIsGap(s[1..], true, 0, 0);
      }
    }
  }

  /** The scan of a text whose runs of line ends are already cut. */
  predicate WideCut(s: string, seen: bool, n: nat)
    decreases s
  {
    if s == "" then false
    else if s[0] == '\n' then WideCut(s[1..], seen, n + 1)
    else if IsSpace(s[0]) then WideCut(s[1..], seen, n)
    else (seen && n >= 3) || WideCut(s[1..], true, 0)
  }

  lemma {:induction false} WideAfterCut(s: string, seen: bool, n: nat, run: nat)
    ensures WideCut(CutRuns('\n', 2, s, run), seen, n) <==> Wide(s, seen, n, run)
    decreases s
  {
    hide IsSpace;
    if s != "" {
      if s[0] == '\n' {
        if run < 2 { WideAfterCut(s[1..], seen, n + 1, run + 1); } else { WideAfterCut(s[1..], seen, n, run); }
      } else if IsSpace(s[0]) {
        WideAfterCut(s[1..], seen, n, 0);
      } else {
        WideAfterCut(s[1..], true, 0, 0);
      }
    }
  }

  lemma {:induction false} WideAfterSpaces(s: string, r: nat, seen: bool, n: nat, run: nat)
    requires r > 0 ==> run == 0
    ensures Wide(CutRuns(' ', 1, s, r), seen, n, run) <==> Wide(s, seen, n, run)
    decreases s
  {
    if s != "" {
      if s[0] == ' ' {
        if r < 1 { WideAfterSpaces(s[1..], r + 1, seen, n, 0); } else { WideAfterSpaces(s[1..], r, seen, n, 0); }
      } else if s[0] == '\n' {
        WideAfterSpaces(s[1..], 0, seen, if run < 2 then n + 1 else n, if run < 2 then run + 1 else run);
      } else if IsSpace(s[0]) {
        WideAfterSpaces(s[1..], 0, seen, n, 0);
      } else {
        WideAfterSpaces(s[1..], 0, true, 0, 0);
      }
    }
  }

  /** The scan line by line, over trimmed lines. */
  predicate WideLines(ls: seq<string>, seen: bool, n: nat)
  {
    if ls == [] then false
    else if ls[0] == "" then WideLines(ls[1..], seen, n + 1)
    else (seen && n >= 3) || WideLines(ls[1..], true, 1)
  }

  lemma {:induction false} WideAcrossLine(l: string, rest: string, seen: bool, n: nat)
    requires '\n' !in l
    ensures WideCut(l + ['\n'] + rest, seen, n) <==>
      if AllSpace(l) then WideCut(rest, seen, n + 1) else (seen && n >= 3) || WideCut(rest, true, 1)
    decreases l
  {
    hide IsSpace;
    var s := l + ['\n'] + rest;
    if l == "" {
      assert s[1..] == rest;
    } else {
      assert s[1..] == l[1..] + ['\n'] + rest && s[0] == l[0];
      assert l == [l[0]] + l[1..];
      WideAcrossLine(l[1..], rest, if IsSpace(l[0]) then seen else true, if IsSpace(l[0]) then n else 0);
    }
  }

  lemma {:induction false} WideInLine(l: string, seen: bool, n: nat)
    requires '\n' !in l
    ensures WideCut(l, seen, n) <==> !AllSpace(l) && seen && n >= 3
    decreases l
  {
    hide IsSpace;
    if l != "" {
      assert l == [l[0]] + l[1..];
      WideInLine(l[1..], if IsSpace(l[0]) then seen else true, if IsSpace(l[0]) then n else 0);
    }
  }

  lemma {:induction false} WideByLines(lines: seq<string>, seen: bool, n: nat)
    requires lines != [] && Separated('\n', lines)
    ensures WideCut(Join('\n', lines), seen, n) <==> WideLines(StripAll(lines), seen, n)
    decreases |lines|
  {
    hide Strip, AllSpace, WideCut;
    var l, rest := lines[0], lines[1..];
    StripEmptyIffNoInk(l);
    InkOfNothing(l);
    assert StripAll(lines) == [Strip(l)] + StripAll(rest);
    if rest == [] {
      assert Join('\n', lines) == l;
      WideInLine(l, seen, n);
    } else {
      assert Separated('\n', rest);
      WideAcrossLine(l, Join('\n', rest), seen, n);
      if AllSpace(l) { WideByLines(rest, seen, n + 1); } else { WideByLines(rest, true, 1); }
    }
  }

  /** Two blank lines in a row, and a printing line somewhere after them. */
  ghost predicate PairThenInk(ls: seq<string>)
  {
    exists i :: 0 <= i < |ls| - 1 && ls[i] == "" && ls[i + 1] == "" && !AllBlank(ls[i + 2..])
  }

  lemma BlankCons(ls: seq<string>)
    requires ls != []
    ensures AllBlank(ls) <==> ls[0] == "" && AllBlank(ls[1..])
  {
    assert ls == [ls[0]] + ls[1..];
  }

  lemma PairThenInkStep(ls: seq<string>)
    requires ls != []
    ensures PairThenInk(ls) <==>
      PairThenInk(ls[1..]) || (|ls| > 1 && ls[0] == "" && ls[1] == "" && !AllBlank(ls[2..]))
  {
    hide AllBlank;
    var t := ls[1..];
    if PairThenInk(ls) {
      var i :| 0 <= i < |ls| - 1 && ls[i] == "" && ls[i + 1] == "" && !AllBlank(ls[i + 2..]);
      assert i > 0 ==> t[i - 1] == "" && t[i - 1 + 1] == "" && t[i - 1 + 2..] == ls[i + 2..];
    }
    if PairThenInk(t) {
      var i :| 0 <= i < |t| - 1 && t[i] == "" && t[i + 1] == "" && !AllBlank(t[i + 2..]);
      assert ls[i + 1] == "" && ls[i + 1 + 1] == "" && ls[i + 1 + 2..] == t[i + 2..];
    }
  }

  /** What the scan looks for `n` line ends after a printing line. */
  ghost predicate AfterInk(ls: seq<string>, n: nat)
  {
    if n <= 1 then PairThenInk(ls) else if n == 2 then PairThenInk([""] + ls) else !AllBlank(ls)
  }

  lemma AfterInkBlank(ls: seq<string>, n: nat)
    requires n >= 1
    ensures AfterInk([""] + ls, n) <==> AfterInk(ls, n + 1)
  {
    hide AllBlank, PairThenInk;
    var more := [""] + ls;
    BlankAhead(ls);
    BlankAhead(more);
    assert more[1..] == ls;
  }

  lemma AfterInkPrinting(l: string, ls: seq<string>, n: nat)
    requires n >= 1 && l != ""
    ensures AfterInk([l] + ls, n) <==> n >= 3 || AfterInk(ls, 1)
  {
    hide AllBlank, PairThenInk;
    var more := [l] + ls;
    assert more[1..] == ls;
    PairThenInkStep(more);
    BlankAhead(more);
    BlankCons(more);
  }

  lemma {:induction false} WideLinesAfterInk(ls: seq<string>, n: nat)
    requires n >= 1
    ensures WideLines(ls, true, n) <==> AfterInk(ls, n)
    decreases |ls|
  {
    if ls != [] {
      hide AfterInk;
      var rest := ls[1..];
      assert ls == [ls[0]] + rest;
      if ls[0] == "" {
        AfterInkBlank(rest, n);
        WideLinesAfterInk(rest, n + 1);
      } else {
        AfterInkPrinting(ls[0], rest, n);
        WideLinesAfterInk(rest, 1);
      }
    }
  }

  /** A blank line ahead of the lines makes a pair with a first blank line. */
  lemma BlankAhead(ls: seq<string>)
    ensures PairThenInk([""] + ls) <==> PairThenInk(ls) || (ls != [] && ls[0] == "" && !AllBlank(ls[1..]))
    ensures PairThenInk(ls) ==> !AllBlank(ls)
    ensures AllBlank([""] + ls) <==> AllBlank(ls)
  {
    var more := [""] + ls;
    PairThenInkStep(more);
    assert more[1..] == ls;
    if ls != [] { assert more[2..] == ls[1..]; }
    BlankCons(more);
    PairHasInk(ls);
  }

  lemma PairHasInk(ls: seq<string>)
    ensures PairThenInk(ls) ==> !AllBlank(ls)
  {
    if PairThenInk(ls) {
      var i :| 0 <= i < |ls| - 1 && ls[i] == "" && ls[i + 1] == "" && !AllBlank(ls[i + 2..]);
      var j :| 0 <= j < |ls| - (i + 2) && ls[i + 2..][j] != "";
      assert ls[i + 2 + j] != "";
    }
  }

  lemma InnerBlankPairStep(ls: seq<string>)
    requires ls != []
    ensures InnerBlankPair(ls) <==> if ls[0] == "" then InnerBlankPair(ls[1..]) else PairThenInk(ls[1..])
  {
    assert AllBlank(ls[..0]);
    hide AllBlank;
    var t := ls[1..];
    forall i | 0 < i <= |ls| ensures AllBlank(ls[..i]) <==> ls[0] == "" && AllBlank(t[..i - 1]) {
      BlankCons(ls[..i]);
      assert ls[..i][1..] == t[..i - 1];
    }
    if InnerBlankPair(ls) {
      var i :| 0 <= i < |ls| - 1 && ls[i] == "" && ls[i + 1] == "" && !AllBlank(ls[..i]) && !AllBlank(ls[i + 2..]);
      assert i > 0;
      assert t[i - 1] == "" && t[i - 1 + 1] == "" && t[i - 1 + 2..] == ls[i + 2..];
    }
    if PairThenInk(t) && ls[0] != "" {
      var i :| 0 <= i < |t| - 1 && t[i] == "" && t[i + 1] == "" && !AllBlank(t[i + 2..]);
      assert ls[i + 1] == "" && ls[i + 1 + 1] == "" && ls[i + 1 + 2..] == t[i + 2..] && !AllBlank(ls[..i + 1]);
    }
    if InnerBlankPair(t) && ls[0] == "" {
      var i :| 0 <= i < |t| - 1 && t[i] == "" && t[i + 1] == "" && !AllBlank(t[..i]) && !AllBlank(t[i + 2..]);
      assert ls[i + 1] == "" && ls[i + 1 + 1] == "" && ls[i + 1 + 2..] == t[i + 2..] && !AllBlank(ls[..i + 1]);
    }
  }

  lemma {:induction false} WideLinesIff(ls: seq<string>, n: nat)
    ensures WideLines(ls, false, n) <==> InnerBlankPair(ls)
    decreases |ls|
  {
    if ls != [] {
      hide InnerBlankPair, PairThenInk;
      InnerBlankPairStep(ls);
      if ls[0] == "" { WideLinesIff(ls[1..], n + 1); } else { WideLinesAfterInk(ls[1..], 1); }
    }
  }

  lemma GapsAreBlankPairs(text: string)
    ensures WideGap(text) <==> InnerBlankPair(TrimmedLines(text))
  {
    hide WideGap, InnerBlankPair, Wide, WideCut, WideLines, CutRuns;
    var spaced := CutRuns(' ', 1, text, 0);
    WideIsGap(text, false, 0, 0);
    WideAfterSpaces(text, 0, false, 0, 0);
    WideAfterCut(spaced, false, 0, 0);
    SplitParts('\n', Squeezed(text));
    WideByLines(Split('\n', Squeezed(text)), false, 0);
    WideLinesIff(TrimmedLines(text), 0);
  }

  /** One pass is enough exactly when no two printing characters have three line ends in the
      whitespace between them, counting at most two of a run: a condition on the text as given. */
  lemma OnePassIsEnoughIff(text: string)
    ensures CleanWhitespace(CleanWhitespace(text)) == CleanWhitespace(text) <==> !WideGap(text)
  {
    IdempotentIff(text);
    GapsAreBlankPairs(text);
  }

  /** Two blank lines kept apart by a space survive the first pass as three newlines. */
  lemma NotIdempotent()
    ensures CleanWhitespace(CleanWhitespace("a\n \n \nb")) != CleanWhitespace("a\n \n \nb")
  {
    hide CleanWhitespace, CutRuns, Split, Strip;
    var text := "a\n \n \nb";
    var ls := TrimmedLines(text);
    ExampleLines();
    assert ls[1] == "" && ls[2] == "" && ls[..1][0] == "a" && ls[3..][0] == "b";
    IdempotentIff(text);
  }

  lemma ExampleLines()
    ensures TrimmedLines("a\n \n \nb") == ["a", "", "", "b"]
  {
    var text, lines := "a\n \n \nb", ["a", " ", " ", "b"];
    assert Join('\n', ["b"]) == "b";
    assert lines[1..][1..] == [" ", "b"] && lines[1..] == [" ", " ", "b"] && [" ", "b"][1..] == ["b"];
    assert Join('\n', [" ", "b"]) == " \nb";
    assert Join('\n', [" ", " ", "b"]) == " \n \nb";
    assert Join('\n', lines) == text;
    SingleSpacesStay(text, 0);
    assert CutRuns('\n', 2, "b", 0) == "b";
    CutPrintingLine(" ", "b", 1);
    CutPrintingLine(" ", " \nb", 1);
    CutPrintingLine("a", " \n \nb", 0);
    LastLineStays("b", 1);
    SplitJoin('\n', lines);
    StripExample();
  }

  lemma StripExample()
    ensures StripAll(["a", " ", " ", "b"]) == ["a", "", "", "b"]
  {
    StripTrimmed("a");
    StripTrimmed("b");
    StripUnique(" ", "", "");
    assert " " + "" + "" == " ";
    hide Strip;
    assert ["a", " ", " ", "b"][1..] == [" ", " ", "b"] && [" ", " ", "b"][1..] == [" ", "b"] &&
        [" ", "b"][1..] == ["b"] && ["b"][1..] == [];
    assert StripAll(["b"]) == ["b"] + StripAll([]) == ["b"];
    assert StripAll([" ", "b"]) == [""] + StripAll(["b"]);
    assert StripAll([" ", " ", "b"]) == [""] + StripAll([" ", "b"]);
  }
}
