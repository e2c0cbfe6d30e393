/** The HTML to Markdown normaliser: a converter driven by tag and data events. */
module Normalizer {
  import opened Text
  import opened Whitespace

  // ---------- the converter ----------

  datatype Event = Start(tag: string) | End(tag: string) | Data(text: string)

  predicate Skipped(tag: string)
  {
    tag in {"script", "style", "nav", "footer", "aside"}
  }

  /** The level of `h1` to `h6`, 0 for other tags. */
  function HeadingLevel(tag: string): nat
  {
    if tag == "h1" then 1 else if tag == "h2" then 2 else if tag == "h3" then 3
    else if tag == "h4" then 4 else if tag == "h5" then 5 else if tag == "h6" then 6 else 0
  }

  function Concat(parts: seq<string>): string
  {
    if parts == [] then "" else parts[0] + Concat(parts[1..])
  }

  lemma {:induction false} ConcatAppend(parts: seq<string>, s: string)
    ensures Concat(parts + [s]) == Concat(parts) + s
  {
    if parts == [] {
      assert parts + [s] == [s];
    } else {
      assert (parts + [s])[1..] == parts[1..] + [s];
      ConcatAppend(parts[1..], s);
    }
  }

  function Hashes(n: nat): string
  {
    if n == 0 then "" else "#" + Hashes(n - 1)
  }

  lemma {:induction false} InkOfHashes(n: nat)
    ensures Ink(Hashes(n)) == Hashes(n)
  {
    if n > 0 {
      InkOfHashes(n - 1);
    }
  }

  /** The converter's fields; `level` is 0 outside a heading. */
  datatype State = State(parts: seq<string>, current: seq<string>, inCode: bool, inPre: bool, skip: bool, level: nat)
  {
    function Append(s: string): State
    {
      this.(current := current + [s])
    }

    function Flush(s: string): State
    {
      this.(parts := parts + [s], current := [])
    }

    function StartTag(tag: string): State
    {
      if Skipped(tag) then this.(skip := true)
      else if tag == "pre" then this.(inPre := true)
      else if tag == "code" then this.(inCode := true)
      else if HeadingLevel(tag) > 0 then this.(level := HeadingLevel(tag))
      else if tag == "br" then Append("\n")
      else if tag == "p" && current != [] && current[|current| - 1] != "\n\n" then Append("\n\n")
      else this
    }

    function EndTag(tag: string): State
    {
      var text := Strip(Concat(current));
      if Skipped(tag) then this.(skip := false)
      else if tag == "pre" then this.(inPre := false).Append("\n\n")
      else if tag == "code" then this.(inCode := false)
      else if HeadingLevel(tag) > 0 then
        if level > 0 then Flush(Hashes(level) + " " + text + "\n\n").(level := 0) else this
      else if tag == "p" && text != "" then Flush(text + "\n\n")
      else this
    }

    function OnData(text: string): State
    {
      var cleaned := CollapseBlanks(text, false);
      if skip then this
      else if inCode || inPre then Append(text)
      else if Strip(cleaned) != "" then Append(cleaned)
      else this
    }

    function Step(e: Event): State
    {
      match e
      case Start(tag) => StartTag(tag)
      case End(tag) => EndTag(tag)
      case Data(text) => OnData(text)
    }

    function Steps(events: seq<Event>): State
      decreases events
    {
      if events == [] then this else Step(events[0]).Steps(events[1..])
    }

    /** The fields once the document was asked for: the text still open is among the parts, and
        stays open. */
    function Flushed(): State
    {
      var remaining := Strip(Concat(current));
      if remaining != "" then this.(parts := parts + [remaining]) else this
    }

    function Markdown(): string
    {
      var remaining := Strip(Concat(current));
      var all := if remaining != "" then parts + [remaining] else parts;
      Strip(CutRuns('\n', 2, Concat(all), 0))
    }
  }

  const FRESH := State([], [], false, false, false, 0)

  class MarkdownConverter {
    var markdownParts: seq<string>
    var currentText: seq<string>
    var inCode: bool
    var inPre: bool
    var skipTag: bool
    var headingLevel: nat

    function Fields(): State
      reads this
    {
      State(markdownParts, currentText, inCode, inPre, skipTag, headingLevel)
    }

    constructor ()
      ensures Fields() == FRESH
    {
      markdownParts, currentText := [], [];
      inCode, inPre, skipTag, headingLevel := false, false, false, 0;
    }

    method HandleStartTag(tag: string)
      modifies this
      ensures Fields() == old(Fields()).StartTag(tag)
    {
      if Skipped(tag) {
        skipTag := true;
        return;
      }
      if tag == "pre" {
        inPre := true;
      } else if tag == "code" {
        inCode := true;
      } else if HeadingLevel(tag) > 0 {
        headingLevel := HeadingLevel(tag);
      } else if tag == "br" {
        currentText := currentText + ["\n"];
      } else if tag == "p" && currentText != [] && currentText[|currentText| - 1] != "\n\n" {
        currentText := currentText + ["\n\n"];
      }
    }

    method HandleEndTag(tag: string)
      modifies this
      ensures Fields() == old(Fields()).EndTag(tag)
    {
      hide Strip, Concat;
      if Skipped(tag) {
        skipTag := false;
        return;
      }
      if tag == "pre" {
        inPre := false;
        currentText := currentText + ["\n\n"];
      } else if tag == "code" {
        inCode := false;
      } else if HeadingLevel(tag) > 0 {
        if headingLevel > 0 {
          var headingText := Strip(Concat(currentText));
          markdownParts := markdownParts + [Hashes(headingLevel) + " " + headingText + "\n\n"];
          currentText := [];
          headingLevel := 0;
        }
      } else if tag == "p" {
        var text := Strip(Concat(currentText));
        if text != "" {
          markdownParts := markdownParts + [text + "\n\n"];
          currentText := [];
        }
      }
    }

    method HandleData(data: string)
      modifies this
      ensures Fields() == old(Fields()).OnData(data)
    {
      hide Strip, CollapseBlanks;
      if skipTag { return; }
      if inCode || inPre {
        currentText := currentText + [data];
      } else {
        var cleaned := CollapseBlanks(data, false);
        if Strip(cleaned) != "" {
          currentText := currentText + [cleaned];
        }
      }
    }

    method Feed(events: seq<Event>)
      modifies this
      ensures Fields() == old(Fields()).Steps(events)
    {
      for i := 0 to |events|
        invariant Fields().Steps(events[i..]) == old(Fields()).Steps(events)
      {
        assert events[i..][0] == events[i] && events[i..][1..] == events[i + 1..];
        match events[i] {
          case Start(tag) => HandleStartTag(tag);
          case End(tag) => HandleEndTag(tag);
          case Data(text) => HandleData(text);
        }
      }
    }

    method GetMarkdown() returns (markdown: string)
      modifies this
      ensures markdown == old(Fields()).Markdown()
      ensures Fields() == old(Fields()).Flushed()
    {
      var remaining := Strip(Concat(currentText));
      if remaining != "" {
        markdownParts := markdownParts + [remaining];
      }
      markdown := Strip(CutRuns('\n', 2, Concat(markdownParts), 0));
    }
  }

  // ---------- what the converter should keep ----------

  /** A heading mark, or a character of the data. */
  datatype Piece = Mark | Char(c: char)

  function Written(t: seq<Piece>): string
  {
    if t == [] then "" else [if t[0].Mark? then '#' else t[0].c] + Written(t[1..])
  }

  function Chars(t: seq<Piece>): string
  {
    if t == [] then "" else (if t[0].Mark? then "" else [t[0].c]) + Chars(t[1..])
  }

  function MarksIn(t: seq<Piece>): nat
  {
    if t == [] then 0 else (if t[0].Mark? then 1 else 0) + MarksIn(t[1..])
  }

  function Pieces(s: string): seq<Piece>
  {
    if s == "" then [] else [Char(s[0])] + Pieces(s[1..])
  }

  function Marks(n: nat): seq<Piece>
  {
    if n == 0 then [] else [Mark] + Marks(n - 1)
  }

  /** What is kept: `done` is settled; the marks of a heading go before `open`, all that was read since
      the last heading or non-empty paragraph ended. */
  datatype Kept = Kept(done: seq<Piece>, open: seq<Piece>, skip: bool, level: nat)
  {
    function All(): seq<Piece>
    {
      done + open
    }

    function Step(e: Event): Kept
    {
      match e
      case Start(tag) =>
        if Skipped(tag) then this.(skip := true)
        else if HeadingLevel(tag) > 0 then this.(level := HeadingLevel(tag))
        else this
      case End(tag) =>
        if Skipped(tag) then this.(skip := false)
        else if HeadingLevel(tag) > 0 && level > 0 then Kept(done + (Marks(level) + open), [], skip, 0)
        else if tag == "p" then Kept(done + open, [], skip, level)
        else this
      case Data(text) =>
        if skip then this else this.(open := open + Pieces(Ink(text)))
    }

    function Steps(events: seq<Event>): Kept
      decreases events
    {
      if events == [] then this else Step(events[0]).Steps(events[1..])
    }
  }

  /** The data read while not skipping, without whitespace. */
  function VisibleInk(events: seq<Event>, skip: bool): string
    decreases events
  {
    if events == [] then ""
    else
      match events[0]
      case Start(tag) => VisibleInk(events[1..], skip || Skipped(tag))
      case End(tag) => VisibleInk(events[1..], skip && !Skipped(tag))
      case Data(text) => (if skip then "" else Ink(text)) + VisibleInk(events[1..], skip)
  }

  /** The levels of all headings that are ended, added up. A start inside a skipped element counts. */
  function HeadingMarks(events: seq<Event>, level: nat): nat
    decreases events
  {
    if events == [] then 0
    else
      match events[0]
      case Start(tag) => HeadingMarks(events[1..], if HeadingLevel(tag) > 0 then HeadingLevel(tag) else level)
      case End(tag) => if HeadingLevel(tag) > 0 then level + HeadingMarks(events[1..], 0)
        else HeadingMarks(events[1..], level)
      case Data(text) => HeadingMarks(events[1..], level)
  }

  lemma {:induction false} TextConcat(a: seq<Piece>, b: seq<Piece>)
    ensures Written(a + b) == Written(a) + Written(b)
  {
    if a == [] {
      assert a + b == b;
    } else {
      assert (a + b)[1..] == a[1..] + b && (a + b)[0] == a[0];
      TextConcat(a[1..], b);
    }
  }

  lemma {:induction false} CharsConcat(a: seq<Piece>, b: seq<Piece>)
    ensures Chars(a + b) == Chars(a) + Chars(b)
  {
    if a == [] {
      assert a + b == b;
    } else {
      assert (a + b)[1..] == a[1..] + b && (a + b)[0] == a[0];
      CharsConcat(a[1..], b);
    }
  }

  lemma {:induction false} MarksConcat(a: seq<Piece>, b: seq<Piece>)
    ensures MarksIn(a + b) == MarksIn(a) + MarksIn(b)
  {
    if a == [] {
      assert a + b == b;
    } else {
      assert (a + b)[1..] == a[1..] + b && (a + b)[0] == a[0];
      MarksConcat(a[1..], b);
    }
  }

  lemma WrittenConcat(a: seq<Piece>, b: seq<Piece>)
    ensures Written(a + b) == Written(a) + Written(b)
    ensures Chars(a + b) == Chars(a) + Chars(b)
    ensures MarksIn(a + b) == MarksIn(a) + MarksIn(b)
  {
    TextConcat(a, b);
    CharsConcat(a, b);
    MarksConcat(a, b);
  }

  lemma {:induction false} WrittenPieces(s: string)
    ensures Written(Pieces(s)) == s && Chars(Pieces(s)) == s && MarksIn(Pieces(s)) == 0
  {
    if s != "" {
      WrittenPieces(s[1..]);
    }
  }

  lemma {:induction false} WrittenMarks(n: nat)
    ensures Written(Marks(n)) == Hashes(n) && Chars(Marks(n)) == "" && MarksIn(Marks(n)) == n
  {
    if n > 0 {
      WrittenMarks(n - 1);
    }
  }

  lemma SkippedIsNoHeading(tag: string)
    requires Skipped(tag)
    ensures HeadingLevel(tag) == 0
  {
  }

  lemma KeptStep(k: Kept, e: Event)
    ensures var ink := if e.Data? && !k.skip then Ink(e.text) else "";
            Chars(k.Step(e).All()) == Chars(k.All()) + ink
    ensures var marks := if e.End? && HeadingLevel(e.tag) > 0 then k.level else 0;
            MarksIn(k.Step(e).All()) == MarksIn(k.All()) + marks
  {
    hide Ink, HeadingLevel, Skipped, Chars, MarksIn, Written;
    match e {
      case Start(tag) =>
      case End(tag) =>
        NoPieces();
        if Skipped(tag) { SkippedIsNoHeading(tag); }
        WrittenMarks(k.level);
        KeptParts(k.done, Marks(k.level), k.open);
        WrittenConcat(k.done + k.open, []);
        WrittenConcat(k.done + (Marks(k.level) + k.open), []);
      case Data(text) =>
        Associate(k.done, k.open, Pieces(Ink(text)));
        WrittenPieces(Ink(text));
        WrittenConcat(k.done + k.open, Pieces(Ink(text)));
    }
  }

  lemma NoPieces()
    ensures Written([]) == "" && Chars([]) == "" && MarksIn([]) == 0
  {
  }

  lemma KeptParts(done: seq<Piece>, marks: seq<Piece>, open: seq<Piece>)
    requires Chars(marks) == ""
    ensures Chars(done + (marks + open)) == Chars(done + open)
    ensures MarksIn(done + (marks + open)) == MarksIn(done + open) + MarksIn(marks)
  {
    WrittenConcat(marks, open);
    WrittenConcat(done, marks + open);
    WrittenConcat(done, open);
  }

  /** The characters kept are exactly the visible ink, in order, and the marks exactly those of the
      headings that ended. */
  lemma {:induction false} KeptIsVisible(k: Kept, events: seq<Event>)
    ensures Chars(k.Steps(events).All()) == Chars(k.All()) + VisibleInk(events, k.skip)
    ensures MarksIn(k.Steps(events).All()) == MarksIn(k.All()) + HeadingMarks(events, k.level)
    decreases events
  {
    hide Chars, MarksIn, Ink, HeadingLevel, Skipped;
    if events != [] {
      var e := events[0];
      KeptStep(k, e);
      KeptIsVisible(k.Step(e), events[1..]);
      if !e.Data? && Skipped(e.tag) { SkippedIsNoHeading(e.tag); }
    }
  }

  // ---------- the converter writes what is kept ----------

  /** The converter's texts hold the ink of the pieces kept. */
  ghost predicate Agrees(s: State, k: Kept)
  {
    && Ink(Concat(s.parts)) == Written(k.done) && Ink(Concat(s.current)) == Written(k.open)
    && s.skip == k.skip && s.level == k.level
  }

  lemma InkAppended(parts: seq<string>, s: string)
    ensures Ink(Concat(parts + [s])) == Ink(Concat(parts)) + Ink(s)
  {
    ConcatAppend(parts, s);
    InkConcat(Concat(parts), s);
  }

  lemma InkBlank(s: string)
    requires s in {"", " ", "\n", "\n\n"}
    ensures Ink(s) == ""
  {
    InkOfBlank(s);
  }

  lemma AgreesStart(s: State, k: Kept, tag: string)
    requires Agrees(s, k)
    ensures Agrees(s.StartTag(tag), k.Step(Start(tag)))
  {
    hide Ink, Concat, Written;
    InkBlank("\n");
    InkBlank("\n\n");
    InkAppended(s.current, "\n");
    InkAppended(s.current, "\n\n");
  }

  lemma InkOfHeading(level: nat, text: string)
    ensures Ink(Hashes(level) + " " + text + "\n\n") == Hashes(level) + Ink(text)
  {
    InkConcat(Hashes(level) + " " + text, "\n\n");
    InkConcat(Hashes(level) + " ", text);
    InkConcat(Hashes(level), " ");
    InkBlank(" ");
    InkBlank("\n\n");
    InkOfHashes(level);
  }

  lemma InkOfParagraph(text: string)
    ensures Ink(text + "\n\n") == Ink(text)
  {
    InkConcat(text, "\n\n");
    InkBlank("\n\n");
  }

  lemma Nothing()
    ensures Concat([]) == "" && Ink("") == "" && Written([]) == ""
  {
  }

  lemma AgreesEnd(s: State, k: Kept, tag: string)
    requires Agrees(s, k)
    ensures Agrees(s.EndTag(tag), k.Step(End(tag)))
  {
    hide Ink, Concat, Written, Strip, Skipped, HeadingLevel;
    var text := Strip(Concat(s.current));
    InkOfStrip(Concat(s.current));
    StripEmptyIffNoInk(Concat(s.current));
    Nothing();
    if tag == "pre" {
      InkBlank("\n\n");
      InkAppended(s.current, "\n\n");
      PlainTag(tag);
    } else if tag == "code" {
      PlainTag(tag);
    } else if Skipped(tag) {
      SkippedIsNoHeading(tag);
      PlainTag("p");
    } else if HeadingLevel(tag) > 0 {
      PlainTag("p");
      InkOfHeading(s.level, text);
      InkAppended(s.parts, Hashes(s.level) + " " + text + "\n\n");
      WrittenMarks(k.level);
      WrittenConcat(Marks(k.level), k.open);
      WrittenConcat(k.done, Marks(k.level) + k.open);
    } else if tag == "p" {
      InkOfParagraph(text);
      InkAppended(s.parts, text + "\n\n");
      WrittenConcat(k.done, k.open);
    }
  }

  lemma PlainTag(tag: string)
    requires tag in {"p", "pre", "code"}
    ensures !Skipped(tag) && HeadingLevel(tag) == 0
  {
  }

  lemma AgreesData(s: State, k: Kept, text: string)
    requires Agrees(s, k)
    ensures Agrees(s.OnData(text), k.Step(Data(text)))
  {
    hide Ink, Concat, Written, Strip, CollapseBlanks;
    var cleaned := CollapseBlanks(text, false);
    InkOfCollapse(text, false);
    StripEmptyIffNoInk(cleaned);
    InkAppended(s.current, text);
    InkAppended(s.current, cleaned);
    WrittenPieces(Ink(text));
    WrittenConcat(k.open, Pieces(Ink(text)));
  }

  lemma {:induction false} AgreesSteps(s: State, k: Kept, events: seq<Event>)
    requires Agrees(s, k)
    ensures Agrees(s.Steps(events), k.Steps(events))
    decreases events
  {
    hide Agrees;
    if events != [] {
      match events[0] {
        case Start(tag) => AgreesStart(s, k, tag);
        case End(tag) => AgreesEnd(s, k, tag);
        case Data(text) => AgreesData(s, k, text);
      }
      AgreesSteps(s.Step(events[0]), k.Step(events[0]), events[1..]);
    }
  }

  lemma InkOfMarkdown(s: State)
    ensures Ink(s.Markdown()) == Ink(Concat(s.parts)) + Ink(Concat(s.current))
  {
    hide Ink, Concat, Strip, CutRuns;
    var remaining := Strip(Concat(s.current));
    var all := if remaining != "" then s.parts + [remaining] else s.parts;
    InkOfStrip(Concat(s.current));
    StripEmptyIffNoInk(Concat(s.current));
    InkAppended(s.parts, remaining);
    InkOfCutRuns('\n', 2, Concat(all), 0);
    InkOfStrip(CutRuns('\n', 2, Concat(all), 0));
  }

  /** The normalised document holds, in order, exactly the visible ink and the heading marks. */
  lemma NormalisedDocument(events: seq<Event>) returns (t: seq<Piece>)
    ensures Ink(CleanWhitespace(FRESH.Steps(events).Markdown())) == Written(t)
    ensures t == Kept([], [], false, 0).Steps(events).All()
    ensures Chars(t) == VisibleInk(events, false) && MarksIn(t) == HeadingMarks(events, 0)
  {
    hide Ink, CleanWhitespace, VisibleInk, HeadingMarks;
    var k := Kept([], [], false, 0);
    t := k.Steps(events).All();
    Nothing();
    AgreesSteps(FRESH, k, events);
    InkOfMarkdown(FRESH.Steps(events));
    CleaningKeepsInk(FRESH.Steps(events).Markdown());
    WrittenConcat(k.Steps(events).done, k.Steps(events).open);
    KeptIsVisible(k, events);
  }
}
