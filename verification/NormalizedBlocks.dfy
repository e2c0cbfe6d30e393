module NormalizedBlocks {
  // What a page of headings and paragraphs becomes: every block on a line of its own, a blank line
  // between neighbours, headings with their marks, text with single spaces and code as it stands.

  import opened Text
  import opened Whitespace
  import opened Normalizer

  // ---------- pages ----------

  /** Inline content: text, an inline code element, or a line break. */
  datatype Inline = Plain(text: string) | Code(text: string) | Break

  datatype Block = Heading(level: nat, content: seq<Inline>) | Paragraph(content: seq<Inline>)

  function HeadingTag(level: nat): string
    requires 1 <= level <= 6
  {
    "h" + ["123456"[level - 1]]
  }

  predicate GoodBlock(b: Block)
  {
    b.Heading? ==> 1 <= b.level <= 6
  }

  function InlineEvents(content: seq<Inline>): seq<Event>
  {
    if content == [] then []
    else
      (match content[0]
       case Plain(text) => [Data(text)]
       case Code(text) => [Start("code"), Data(text), End("code")]
       case Break => [Start("br")])
      + InlineEvents(content[1..])
  }

  function BlockEvents(b: Block): seq<Event>
    requires GoodBlock(b)
  {
    var tag := if b.Heading? then HeadingTag(b.level) else "p";
    [Start(tag)] + InlineEvents(b.content) + [End(tag)]
  }

  ghost predicate GoodBlocks(bs: seq<Block>)
  {
    forall i :: 0 <= i < |bs| ==> GoodBlock(bs[i])
  }

  function PageEvents(bs: seq<Block>): seq<Event>
    requires GoodBlocks(bs)
  {
    if bs == [] then [] else BlockEvents(bs[0]) + PageEvents(bs[1..])
  }

  // ---------- inline content ----------

  /** Text with every run of whitespace as one space, and nothing for text that is all whitespace. */
  function ShownText(text: string): string
  {
    if AllSpace(text) then "" else Lead(text) + Join(' ', Words(text)) + Trail(text)
  }

  function Lead(text: string): string
  {
    if text != "" && IsSpace(text[0]) then " " else ""
  }

  function Trail(text: string): string
  {
    if text != "" && IsSpace(text[|text| - 1]) then " " else ""
  }

  function Shown(content: seq<Inline>): string
  {
    if content == [] then ""
    else
      (match content[0]
       case Plain(text) => ShownText(text)
       case Code(text) => text
       case Break => "\n")
      + Shown(content[1..])
  }

  lemma {:induction false} CollapseWord(w: string, rest: string, blank: bool)
    requires NoSpace(w) && w != ""
    ensures CollapseBlanks(w + rest, blank) == w + CollapseBlanks(rest, false)
  {
    assert (w + rest)[0] == w[0] && (w + rest)[1..] == w[1..] + rest;
    if |w| == 1 {
      assert w == [w[0]] && w[1..] + rest == rest;
    } else {
      CollapseWord(w[1..], rest, false);
      assert w == [w[0]] + w[1..];
    }
  }

  /** After whitespace was written, or at its start, the rest of a text is its words with single spaces. */
  lemma {:induction false} CollapseIs(s: string)
    ensures CollapseBlanks(s, true) == if AllSpace(s) then "" else Join(' ', Words(s)) + Trail(s)
    ensures CollapseBlanks(s, false) ==
            if AllSpace(s) then Lead(s) else Lead(s) + Join(' ', Words(s)) + Trail(s)
    decreases |s|
  {
    if s == "" {
    } else if IsSpace(s[0]) {
      assert AllSpace(s) <==> AllSpace(s[1..]) by { BlankStep(s); }
      CollapseIs(s[1..]);
      assert " " + "" == " ";
      if !AllSpace(s) { Associate(" ", Join(' ', Words(s)), Trail(s)); }
    } else {
      var k := WordLength(s);
      var w, rest := s[..k], s[k..];
      WordLengthEnds(s);
      assert s == w + rest && w[0] == s[0];
      CollapseWord(w, rest, true);
      CollapseWord(w, rest, false);
      CollapseIs(rest);
      AfterWord(s, k);
    }
  }

  lemma BlankStep(s: string)
    requires s != ""
    ensures AllSpace(s) <==> IsSpace(s[0]) && AllSpace(s[1..])
  {
    assert s == [s[0]] + s[1..];
  }

  lemma AfterWord(s: string, k: nat)
    requires 0 < k <= |s| && !IsSpace(s[0]) && k == WordLength(s) && (k < |s| ==> IsSpace(s[k]))
    ensures var rest := s[k..];
      "" + Join(' ', Words(s)) + Trail(s) == Join(' ', Words(s)) + Trail(s) ==
      s[..k] + if AllSpace(rest) then Lead(rest) else Lead(rest) + Join(' ', Words(rest)) + Trail(rest)
  {
    var w, rest := s[..k], s[k..];
    WordLengthEnds(s);
    assert Words(s) == [w] + Words(rest);
    hide Words, Join, WordLength, IsSpace;
    SameTrail(s, w, rest);
    if AllSpace(rest) {
      WordsOfBlank(rest);
      assert [w] + [] == [w];
      JoinedWith(w, []);
    } else {
      SomeWord(rest);
      JoinedWith(w, Words(rest));
      Associate(w, " ", Join(' ', Words(rest)));
      Associate(w, " " + Join(' ', Words(rest)), Trail(rest));
    }
    assert "" + Join(' ', Words(s)) == Join(' ', Words(s));
  }

  lemma SameTrail(s: string, w: string, rest: string)
    requires s == w + rest && w != "" && NoSpace(w) && (rest != "" ==> IsSpace(rest[0]))
    ensures AllSpace(rest) ==> Trail(s) == Lead(rest)
    ensures !AllSpace(rest) ==> Trail(s) == Trail(rest) && Lead(rest) == " "
  {
    if rest != "" {
      assert s[|s| - 1] == rest[|rest| - 1];
    } else {
      assert s[|s| - 1] == w[|w| - 1];
    }
  }

  lemma JoinedWith(w: string, ws: seq<string>)
    ensures Join(' ', [w] + ws) == if ws == [] then w else w + " " + Join(' ', ws)
  {
    assert ([w] + ws)[1..] == ws;
  }

  lemma {:induction false} SomeWord(s: string)
    requires !AllSpace(s)
    ensures Words(s) != []
  {
    if IsSpace(s[0]) {
      BlankStep(s);
      SomeWord(s[1..]);
    }
  }

  // ---------- the converter on a page ----------

  /** Between blocks: nothing open, and inside no element. */
  predicate AtRest(s: State)
  {
    s.current == [] && !s.inCode && !s.inPre && !s.skip && s.level == 0
  }

  lemma {:induction false} StepsConcat(s: State, a: seq<Event>, b: seq<Event>)
    ensures s.Steps(a + b) == s.Steps(a).Steps(b)
    decreases a
  {
    if a == [] {
      assert a + b == b;
    } else {
      assert (a + b)[0] == a[0] && (a + b)[1..] == a[1..] + b;
      StepsConcat(s.Step(a[0]), a[1..], b);
    }
  }

  lemma StepsOne(s: State, e: Event)
    ensures s.Steps([e]) == s.Step(e)
  {
    assert [e][1..] == [];
  }

  lemma OneInline(s: State, x: Inline)
    requires !s.inCode && !s.inPre && !s.skip
    ensures var t := s.Steps(InlineEvents([x]));
      && Concat(t.current) == Concat(s.current) + Shown([x])
      && t == s.(current := t.current)
  {
    hide CollapseBlanks, Strip, Concat, Words, HeadingLevel;
    assert [x][1..] == [];
    match x {
      case Plain(text) =>
        PlainText(s, text);
      case Code(text) =>
        var events := [Start("code"), Data(text), End("code")];
        assert InlineEvents([x]) == events + [] == events;
        assert Shown([x]) == text + "" == text;
        CodeText(s, text);
      case Break =>
        assert InlineEvents([x]) == [Start("br")] + [] == [Start("br")];
        assert Shown([x]) == "\n" + "" == "\n";
        StepsOne(s, Start("br"));
        BreakIsPlain();
        ConcatAppend(s.current, "\n");
    }
  }

  lemma BreakIsPlain()
    ensures HeadingLevel("br") == 0 && !Skipped("br")
  {
  }

  lemma PlainText(s: State, text: string)
    requires !s.inCode && !s.inPre && !s.skip
    ensures var t := s.Steps(InlineEvents([Plain(text)]));
      && Concat(t.current) == Concat(s.current) + Shown([Plain(text)])
      && t == s.(current := t.current)
  {
    hide CollapseBlanks, Strip, Concat, Words;
    var x := Plain(text);
    assert [x][1..] == [];
    assert InlineEvents([x]) == [Data(text)] + [] == [Data(text)];
    StepsOne(s, Data(text));
    CollapseIs(text);
    var cleaned := CollapseBlanks(text, false);
    InkOfCollapse(text, false);
    InkOfNothing(text);
    StripEmptyIffNoInk(cleaned);
    ConcatAppend(s.current, cleaned);
    assert Shown([x]) == ShownText(text) + "" == ShownText(text);
    assert Concat(s.current) + "" == Concat(s.current);
  }

  lemma CodeText(s: State, text: string)
    requires !s.inCode && !s.inPre && !s.skip
    ensures var t := s.Steps([Start("code"), Data(text), End("code")]);
      && Concat(t.current) == Concat(s.current) + text && t == s.(current := t.current)
  {
    hide CollapseBlanks, Strip, Concat;
    StepsConcat(s, [Start("code")], [Data(text), End("code")]);
    assert [Start("code")] + [Data(text), End("code")] == [Start("code"), Data(text), End("code")];
    StepsOne(s, Start("code"));
    var u := s.Step(Start("code"));
    StepsConcat(u, [Data(text)], [End("code")]);
    assert [Data(text)] + [End("code")] == [Data(text), End("code")];
    StepsOne(u, Data(text));
    StepsOne(u.Step(Data(text)), End("code"));
    ConcatAppend(s.current, text);
  }

  /** The content of an element adds what it shows to the open text and changes nothing else. */
  lemma {:induction false} InlineIsShown(s: State, content: seq<Inline>)
    requires !s.inCode && !s.inPre && !s.skip
    ensures var t := s.Steps(InlineEvents(content));
      && Concat(t.current) == Concat(s.current) + Shown(content) && t == s.(current := t.current)
    decreases content
  {
    if content == [] {
      assert Concat(s.current) + "" == Concat(s.current);
    } else {
      hide Concat, ShownText, Strip, CollapseBlanks;
      var x, rest := content[0], content[1..];
      InlineCons(x, rest);
      assert content == [x] + rest;
      OneInline(s, x);
      StepsConcat(s, InlineEvents([x]), InlineEvents(rest));
      var u := s.Steps(InlineEvents([x]));
      InlineIsShown(u, rest);
      Associate(Concat(s.current), Shown([x]), Shown(rest));
    }
  }

  lemma InlineCons(x: Inline, rest: seq<Inline>)
    ensures InlineEvents([x] + rest) == InlineEvents([x]) + InlineEvents(rest)
    ensures Shown([x] + rest) == Shown([x]) + Shown(rest)
  {
    assert ([x] + rest)[1..] == rest && [x][1..] == [];
  }

  /** The line of a block. */
  function Line(b: Block): string
  {
    match b
    case Heading(level, content) => Hashes(level) + " " + Strip(Shown(content))
    case Paragraph(content) => Strip(Shown(content))
  }

  /** A block shows something. */
  predicate Shows(b: Block)
  {
    Strip(Shown(b.content)) != ""
  }

  lemma HeadingTags(level: nat)
    requires 1 <= level <= 6
    ensures HeadingLevel(HeadingTag(level)) == level && !Skipped(HeadingTag(level))
    ensures HeadingTag(level) !in {"pre", "code", "p", "br"}
  {
    assert HeadingTag(level) == ["h1", "h2", "h3", "h4", "h5", "h6"][level - 1];
  }

  lemma NothingOpen()
    ensures Concat([]) == ""
  {
  }

  /** What stands between text left open and the content of a block: a blank line before a paragraph,
      unless there is one already, and nothing before a heading. */
  function Gap(s: State, b: Block): string
  {
    if b.Paragraph? && s.current != [] && s.current[|s.current| - 1] != "\n\n" then "\n\n" else ""
  }

  /** In no element, whatever text was left open. */
  predicate Outside(s: State)
  {
    !s.inCode && !s.inPre && !s.skip && s.level == 0
  }

  /** A block that shows something becomes one part with the text left open before it: a heading takes
      that text into its line. */
  lemma BlockTakesOpenText(s: State, b: Block)
    requires Outside(s) && GoodBlock(b) && Strip(Concat(s.current) + Gap(s, b) + Shown(b.content)) != ""
    ensures var text := Strip(Concat(s.current) + Gap(s, b) + Shown(b.content));
      var line := if b.Heading? then Hashes(b.level) + " " + text else text;
      s.Steps(BlockEvents(b)) == s.(parts := s.parts + [line + "\n\n"], current := [])
  {
    hide Concat, Strip, Shown, InlineEvents, HeadingLevel, Hashes;
    var tag := if b.Heading? then HeadingTag(b.level) else "p";
    if b.Heading? { HeadingTags(b.level); } else { PlainTag("p"); }
    StepsConcat(s, [Start(tag)] + InlineEvents(b.content), [End(tag)]);
    StepsConcat(s, [Start(tag)], InlineEvents(b.content));
    StepsOne(s, Start(tag));
    var u := s.Step(Start(tag));
    ConcatAppend(s.current, "\n\n");
    assert Concat(s.current) + "" == Concat(s.current);
    assert Concat(u.current) == Concat(s.current) + Gap(s, b);
    InlineIsShown(u, b.content);
    var v := u.Steps(InlineEvents(b.content));
    StepsOne(v, End(tag));
  }

  /** Preformatted text is left open as it stands, with a blank line after it. */
  lemma PreIsLeftOpen(s: State, text: string)
    requires Outside(s)
    ensures s.Steps([Start("pre"), Data(text), End("pre")]) == s.(current := s.current + [text, "\n\n"])
  {
    hide CollapseBlanks, Strip, Concat;
    PlainTag("pre");
    assert [Start("pre"), Data(text), End("pre")][1..] == [Data(text), End("pre")];
    assert [Data(text), End("pre")][1..] == [End("pre")];
    StepsOne(s.Step(Start("pre")).Step(Data(text)), End("pre"));
    assert s.current + [text] + ["\n\n"] == s.current + [text, "\n\n"];
  }

  /** Nothing that stands in a skipped element is read, nor does it change what is open. */
  lemma {:induction false} SkippedData(s: State, tag: string, texts: seq<string>)
    requires !s.skip && tag in {"script", "style", "nav", "footer", "aside"}
    ensures s.Steps([Start(tag)] + DataEvents(texts) + [End(tag)]) == s
  {
    hide CollapseBlanks, Strip, Concat;
    StepsConcat(s, [Start(tag)] + DataEvents(texts), [End(tag)]);
    StepsConcat(s, [Start(tag)], DataEvents(texts));
    StepsOne(s, Start(tag));
    SkippedStays(s.(skip := true), texts);
    StepsOne(s.(skip := true), End(tag));
  }

  function DataEvents(texts: seq<string>): seq<Event>
  {
    if texts == [] then [] else [Data(texts[0])] + DataEvents(texts[1..])
  }

  lemma {:induction false} SkippedStays(s: State, texts: seq<string>)
    requires s.skip
    ensures s.Steps(DataEvents(texts)) == s
    decreases texts
  {
    if texts != [] {
      StepsConcat(s, [Data(texts[0])], DataEvents(texts[1..]));
      StepsOne(s, Data(texts[0]));
      SkippedStays(s, texts[1..]);
    }
  }

  /** Asking for the document puts the text still open among the parts, so that the parts alone give the
      document, and leaves it open as well. */
  lemma FlushedHoldsDocument(s: State)
    ensures s.Markdown() == Strip(CutRuns('\n', 2, Concat(s.Flushed().parts), 0))
    ensures s.Flushed() == s.(parts := s.Flushed().parts) && s.parts <= s.Flushed().parts
  {
  }

  /** A block that shows something becomes one part, its line with a blank line after it. */
  lemma BlockIsPart(s: State, b: Block)
    requires AtRest(s) && GoodBlock(b) && Shows(b)
    ensures s.Steps(BlockEvents(b)) == s.(parts := s.parts + [Line(b) + "\n\n"])
  {
    hide Strip, Shown, BlockEvents, Hashes;
    NothingOpen();
    assert "" + "" + Shown(b.content) == Shown(b.content);
    BlockTakesOpenText(s, b);
  }

  function Lines(bs: seq<Block>): seq<string>
  {
    if bs == [] then [] else [Line(bs[0])] + Lines(bs[1..])
  }

  /** Each line with a blank line after it. */
  function Parts(lines: seq<string>): seq<string>
  {
    if lines == [] then [] else [lines[0] + "\n\n"] + Parts(lines[1..])
  }

  ghost predicate AllShow(bs: seq<Block>)
  {
    GoodBlocks(bs) && forall i :: 0 <= i < |bs| ==> Shows(bs[i])
  }

  /** For any page whose blocks show something the converter writes one part a block, in order: nothing is
      merged and nothing left open. */
  lemma {:induction false} PageIsParts(s: State, bs: seq<Block>)
    requires AtRest(s) && AllShow(bs)
    ensures s.Steps(PageEvents(bs)) == s.(parts := s.parts + Parts(Lines(bs)))
    decreases bs
  {
    if bs == [] {
      assert s.parts + [] == s.parts;
    } else {
      hide Line, BlockEvents, Shows;
      BlockIsPart(s, bs[0]);
      StepsConcat(s, BlockEvents(bs[0]), PageEvents(bs[1..]));
      var t := s.(parts := s.parts + [Line(bs[0]) + "\n\n"]);
      PageIsParts(t, bs[1..]);
      Associate(s.parts, [Line(bs[0]) + "\n\n"], Parts(Lines(bs[1..])));
      assert ([Line(bs[0])] + Lines(bs[1..]))[1..] == Lines(bs[1..]);
    }
  }

  // ---------- the document ----------

  /** Lines with a blank line between neighbours. */
  function Page(lines: seq<string>): string
  {
    if lines == [] then "" else if |lines| == 1 then lines[0] else lines[0] + "\n\n" + Page(lines[1..])
  }

  /** A line that prints: not empty, trimmed, without a line end or two spaces in a row. */
  ghost predicate PrintedLines(lines: seq<string>)
  {
    forall i :: 0 <= i < |lines| ==> lines[i] != "" && CleanLine(lines[i])
  }

  lemma {:induction false} PartsArePage(lines: seq<string>)
    requires lines != []
    ensures Concat(Parts(lines)) == Page(lines) + "\n\n"
  {
    if |lines| == 1 {
      assert Parts(lines) == [lines[0] + "\n\n"] + Parts([]);
      assert Concat([lines[0] + "\n\n"]) == lines[0] + "\n\n" + Concat([]);
    } else {
      PartsArePage(lines[1..]);
      assert ([lines[0] + "\n\n"] + Parts(lines[1..]))[1..] == Parts(lines[1..]);
      Associate(lines[0] + "\n\n", Page(lines[1..]), "\n\n");
    }
  }

  /** A page has no three line ends in a row. */
  lemma {:induction false} PageStays(lines: seq<string>, run: nat)
    requires lines != [] && PrintedLines(lines)
    ensures CutRuns('\n', 2, Page(lines) + "\n\n", run) == Page(lines) + "\n\n"
    decreases lines
  {
    hide CutRuns, CleanLine, Page;
    assert '\n' !in lines[0] by { LineHasNoEnd(lines); }
    TwoEnds();
    PageStep(lines);
    if |lines| == 1 {
      CutNone(lines[0], "\n\n", run);
    } else {
      var rest := Page(lines[1..]) + "\n\n";
      Associate(lines[0] + "\n\n", Page(lines[1..]), "\n\n");
      Associate(lines[0], "\n\n", rest);
      CutNone(lines[0], "\n\n" + rest, run);
      TwoEndsThen(rest);
      PageStays(lines[1..], 2);
    }
  }

  lemma LineHasNoEnd(lines: seq<string>)
    requires lines != [] && PrintedLines(lines)
    ensures '\n' !in lines[0]
  {
  }

  lemma PageStep(lines: seq<string>)
    requires lines != []
    ensures Page(lines) == if |lines| == 1 then lines[0] else lines[0] + "\n\n" + Page(lines[1..])
  {
  }

  lemma TwoEnds()
    ensures CutRuns('\n', 2, "\n\n", 0) == "\n\n"
  {
    assert "\n\n"[1..] == "\n" && "\n"[1..] == "";
    assert CutRuns('\n', 2, "\n", 1) == ['\n'] + CutRuns('\n', 2, "", 2);
  }

  lemma TwoEndsThen(rest: string)
    ensures CutRuns('\n', 2, "\n\n" + rest, 0) == "\n\n" + CutRuns('\n', 2, rest, 2)
  {
    var t := "\n\n" + rest;
    assert t[1..] == "\n" + rest && (("\n" + rest)[1..]) == rest;
    assert CutRuns('\n', 2, "\n" + rest, 1) == ['\n'] + CutRuns('\n', 2, rest, 2);
  }

  lemma {:induction false} PageIsTrimmed(lines: seq<string>)
    requires lines != [] && PrintedLines(lines)
    ensures Page(lines) != "" && Trimmed(Page(lines))
  {
    if |lines| > 1 {
      PageIsTrimmed(lines[1..]);
      var p := Page(lines);
      assert p[0] == lines[0][0] && p[|p| - 1] == Page(lines[1..])[|Page(lines[1..])| - 1];
    }
  }

  /** The lines with an empty one between neighbours. */
  function Spaced(lines: seq<string>): seq<string>
  {
    if lines == [] then [] else if |lines| == 1 then [lines[0]] else [lines[0], ""] + Spaced(lines[1..])
  }

  lemma {:induction false} PageIsJoin(lines: seq<string>)
    requires lines != []
    ensures Spaced(lines) != [] && Join('\n', Spaced(lines)) == Page(lines)
  {
    if |lines| > 1 {
      PageIsJoin(lines[1..]);
      var rest := Spaced(lines[1..]);
      assert Spaced(lines)[1..] == [""] + rest && ([""] + rest)[1..] == rest;
      assert Join('\n', [""] + rest) == "" + ['\n'] + Join('\n', rest);
      assert "\n\n" == ['\n'] + ("" + ['\n']);
      assert lines[0] + ['\n'] + ("" + ['\n'] + Page(lines[1..])) == lines[0] + "\n\n" + Page(lines[1..]);
    }
  }

  lemma {:induction false} SpacedIsClean(lines: seq<string>)
    requires PrintedLines(lines) && lines != []
    ensures CleanLines(Spaced(lines)) && Closed(Spaced(lines))
    ensures Spaced(lines) != [] && Spaced(lines)[0] == lines[0]
    ensures forall blank :: (lines[0] != "") ==> Fewer(Spaced(lines), blank) == Spaced(lines)
  {
    hide CleanLine;
    EmptyIsClean();
    if |lines| > 1 {
      SpacedIsClean(lines[1..]);
      var rest := Spaced(lines[1..]);
      assert Spaced(lines) == [lines[0], ""] + rest && Spaced(lines)[1..] == [""] + rest && ([""] + rest)[1..] == rest;
      assert Fewer([""] + rest, false) == [""] + Fewer(rest, true);
      assert [lines[0]] + ([""] + rest) == [lines[0], ""] + rest;
    }
  }

  lemma EmptyIsClean()
    ensures CleanLine("")
  {
  }

  /** The normalised document of a page of blocks that show one printed line each: these lines in order
      with a blank line between neighbours. */
  lemma PageIsNormalised(bs: seq<Block>)
    requires AllShow(bs) && bs != [] && PrintedLines(Lines(bs))
    ensures CleanWhitespace(FRESH.Steps(PageEvents(bs)).Markdown()) == Page(Lines(bs))
  {
    hide CleanWhitespace, CutRuns, Strip, Concat, Page, Line, Shows, CleanLine, PrintedLines;
    var lines := Lines(bs);
    PageIsParts(FRESH, bs);
    assert [] + Parts(lines) == Parts(lines);
    PartsArePage(lines);
    PageStays(lines, 0);
    PageIsTrimmed(lines);
    BlankEnds();
    StripUnique("", Page(lines), "\n\n");
    assert "" + Page(lines) + "\n\n" == Page(lines) + "\n\n";
    MarkdownOf(FRESH.(parts := Parts(lines)));
    PageIsJoin(lines);
    SpacedIsClean(lines);
    FirstPrints(lines);
    SecondPass(Spaced(lines));
  }

  lemma FirstPrints(lines: seq<string>)
    requires lines != [] && PrintedLines(lines)
    ensures lines[0] != ""
  {
  }

  lemma BlankEnds()
    ensures AllSpace("\n\n") && AllSpace("")
  {
  }

  lemma MarkdownOf(s: State)
    requires s.current == []
    ensures s.Markdown() == Strip(CutRuns('\n', 2, Concat(s.parts), 0))
  {
    assert Concat([]) == "" && Strip("") == "";
  }
}
