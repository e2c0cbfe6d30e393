/** The Tier A markdown table parser: two nested loops over the lines of a text. */
module Tables {
  import opened Text

  datatype Table = Table(headers: seq<string>, rows: seq<seq<string>>)

  // ---------- what the loops compute ----------

  predicate IsRow(line: string)
  {
    var s := Strip(line);
    s != "" && s[0] == '|' && s[|s| - 1] == '|'
  }

  /** `^\|[\s\-|]+\|$` on the trimmed line. */
  predicate IsSeparator(line: string)
  {
    var s := Strip(line);
    |s| >= 3 && IsRow(line) && forall i :: 1 <= i < |s| - 1 ==> IsSpace(s[i]) || s[i] == '-' || s[i] == '|'
  }

  /** A row is what begins and ends with a pipe, a single one included; of a pipe, some text and a pipe it
      is a separator exactly when the text is not empty and has only dashes, pipes and whitespace. */
  lemma RowsAndSeparators(left: string, x: string, right: string)
    requires AllSpace(left) && AllSpace(right)
    ensures IsRow(left + ("|" + x + "|") + right) && IsRow(left + "|" + right)
    ensures IsSeparator(left + ("|" + x + "|") + right) <==>
            x != "" && forall c :: c in x ==> IsSpace(c) || c in "-|"
    ensures !IsSeparator(left + "|" + right)
    ensures Trimmed(x) && x != "" && (x[0] != '|' || x[|x| - 1] != '|') ==> !IsRow(left + x + right)
  {
    var s := "|" + x + "|";
    assert s[0] == '|' && s[|s| - 1] == '|' && !IsSpace('|');
    StripUnique(left, s, right);
    StripUnique(left, "|", right);
    forall i | 1 <= i < |s| - 1 ensures s[i] == x[i - 1] {}
    if Trimmed(x) { StripUnique(left, x, right); }
    SeparatorInside(s, x);
  }

  lemma SeparatorInside(s: string, x: string)
    requires s == "|" + x + "|"
    ensures (forall i :: 1 <= i < |s| - 1 ==> IsSpace(s[i]) || s[i] == '-' || s[i] == '|') <==>
            forall c :: c in x ==> IsSpace(c) || c in "-|"
  {
    if forall c :: c in x ==> IsSpace(c) || c in "-|" {
      forall i | 1 <= i < |s| - 1 ensures IsSpace(s[i]) || s[i] == '-' || s[i] == '|' {
        assert s[i] == x[i - 1] && x[i - 1] in x;
      }
    }
    if forall i :: 1 <= i < |s| - 1 ==> IsSpace(s[i]) || s[i] == '-' || s[i] == '|' {
      forall c | c in x ensures IsSpace(c) || c in "-|" {
        var j :| 0 <= j < |x| && x[j] == c;
        assert s[j + 1] == c;
      }
    }
  }

  function LPipes(s: string): (r: string)
    ensures |r| <= |s|
  {
    if s == "" || s[0] != '|' then s else LPipes(s[1..])
  }

  function RPipes(s: string): (r: string)
    ensures |r| <= |s|
  {
    if s == "" || s[|s| - 1] != '|' then s else RPipes(s[..|s| - 1])
  }

  /** The cells of a row. All pipes at either end are dropped, so empty outer cells are lost. */
  function Cells(line: string): seq<string>
  {
    StripAll(Split('|', RPipes(LPipes(Strip(line)))))
  }

  /** Whitespace around a row changes none of its cells, and every cell is trimmed. */
  lemma CellsAreTrimmed(left: string, row: string, right: string)
    requires AllSpace(left) && AllSpace(right) && Trimmed(row)
    ensures Cells(left + row + right) == Cells(row)
    ensures forall i :: 0 <= i < |Cells(row)| ==> Trimmed(Cells(row)[i])
  {
    hide Strip, LPipes, RPipes;
    StripUnique(left, row, right);
    StripUnique("", row, "");
    assert "" + row + "" == row;
    StrippedAll(Split('|', RPipes(LPipes(row))));
  }

  lemma {:induction false} StrippedAll(parts: seq<string>)
    ensures forall i :: 0 <= i < |StripAll(parts)| ==> Trimmed(StripAll(parts)[i])
  {
    if parts != [] {
      StripIsTrimmed(parts[0]);
      StrippedAll(parts[1..]);
    }
  }

  /** The rows right at the start of `lines`. */
  function LeadingRows(lines: seq<string>): (rows: seq<seq<string>>)
    ensures |rows| <= |lines|
  {
    if lines == [] || !IsRow(lines[0]) then [] else [Cells(lines[0])] + LeadingRows(lines[1..])
  }

  /** A table starts where a row is followed by a separator. */
  predicate StartsTable(lines: seq<string>)
  {
    |lines| >= 2 && IsRow(lines[0]) && IsSeparator(lines[1])
  }

  function ParseLines(lines: seq<string>): seq<Table>
    decreases |lines|
  {
    if lines == [] then []
    else if StartsTable(lines) then
      var rows := LeadingRows(lines[2..]);
      [Table(Cells(lines[0]), rows)] + ParseLines(lines[2 + |rows|..])
    else ParseLines(lines[1..])
  }

  method ParseTables(content: string) returns (tables: seq<Table>)
    ensures tables == ParseLines(Split('\n', content))
  {
    hide IsRow, IsSeparator, Cells, Strip;
    var lines := Split('\n', content);
    if content == "" {
      EmptyText();
      return [];
    }
    tables := [];
    var i := 0;
    assert lines[0..] == lines;
    while i < |lines|
      invariant 0 <= i <= |lines|
      invariant ParseLines(lines) == tables + ParseLines(lines[i..])
    {
      SplitHead([], lines, i);
      assert lines[i..][1..] == lines[i + 1..];
      if IsRow(lines[i]) {
        var headers := Cells(lines[i]);
        if i + 1 < |lines| && IsSeparator(lines[i + 1]) {
          assert lines[i..][1] == lines[i + 1] && lines[i..][2..] == lines[i + 2..];
          var rows, j := ParseRows(lines, i + 2);
          assert lines[i..][2 + |rows|..] == lines[j..];
          Associate(tables, [Table(headers, rows)], ParseLines(lines[j..]));
          tables := tables + [Table(headers, rows)];
          i := j;
          continue;
        }
      }
      i := i + 1;
    }
  }

  /** The inner loop: the rows from line `start` on, and the first line after them. */
  method ParseRows(lines: seq<string>, start: nat) returns (rows: seq<seq<string>>, j: nat)
    requires start <= |lines|
    ensures rows == LeadingRows(lines[start..]) && j == start + |rows|
  {
    hide IsRow, Cells;
    rows, j := [], start;
    while j < |lines|
      invariant start <= j <= |lines| && j == start + |rows|
      invariant LeadingRows(lines[start..]) == rows + LeadingRows(lines[j..])
    {
      SplitHead([], lines, j);
      assert lines[j..][1..] == lines[j + 1..];
      if !IsRow(lines[j]) { break; }
      Associate(rows, [Cells(lines[j])], LeadingRows(lines[j + 1..]));
      rows, j := rows + [Cells(lines[j])], j + 1;
    }
  }

  lemma EmptyText()
    ensures ParseLines(Split('\n', "")) == []
  {
    assert Split('\n', "") == [""];
    assert !StartsTable([""]);
    assert [""][1..] == [];
  }

  // ---------- lines that are not rows separate ----------

  lemma {:induction false} RowsStop(a: seq<string>, line: string, b: seq<string>)
    requires !IsRow(line)
    ensures LeadingRows(a + [line] + b) == LeadingRows(a)
  {
    hide IsRow, Cells;
    var s := a + [line] + b;
    if a == [] {
      assert s[0] == line;
    } else {
      assert s[1..] == a[1..] + [line] + b;
      RowsStop(a[1..], line, b);
    }
  }

  lemma StartsSame(a: seq<string>, line: string, b: seq<string>)
    requires !IsRow(line) && a != []
    ensures StartsTable(a + [line] + b) == StartsTable(a)
  {
    hide IsRow, Strip;
    assert (a + [line] + b)[1] == if |a| > 1 then a[1] else line;
  }

  /** No table reaches across a line that is not a row. */
  lemma {:induction false} ParsePiecewise(a: seq<string>, line: string, b: seq<string>)
    requires !IsRow(line)
    ensures ParseLines(a + [line] + b) == ParseLines(a) + ParseLines(b)
    decreases |a|
  {
    hide IsRow, Cells, LeadingRows, IsSeparator;
    var s := a + [line] + b;
    if a == [] {
      assert s[1..] == b && s[0] == line;
    } else {
      StartsSame(a, line, b);
      hide StartsTable;
      if StartsTable(a) {
        RowsStop(a[2..], line, b);
        var n := |LeadingRows(a[2..])|;
        assert s[2..] == a[2..] + [line] + b && s[2 + n..] == a[2 + n..] + [line] + b;
        ParsePiecewise(a[2 + n..], line, b);
        Associate([Table(Cells(a[0]), LeadingRows(a[2..]))], ParseLines(a[2 + n..]), ParseLines(b));
      } else {
        assert s[1..] == a[1..] + [line] + b;
        ParsePiecewise(a[1..], line, b);
      }
    }
  }

  // ---------- printing ----------

  /** A document of prose lines and tables; a blank line follows each table. */
  datatype Item = Prose(line: string) | TableItem(table: Table)

  function Pad(cell: string): string
  {
    " " + cell + " "
  }

  function PadAll(cells: seq<string>): (r: seq<string>)
    ensures |r| == |cells|
  {
    if cells == [] then [] else [Pad(cells[0])] + PadAll(cells[1..])
  }

  function RowLine(cells: seq<string>): string
  {
    "|" + Join('|', PadAll(cells)) + "|"
  }

  function Dashes(n: nat): string
  {
    if n == 0 then "" else "---|" + Dashes(n - 1)
  }

  function RowLines(rows: seq<seq<string>>): (lines: seq<string>)
    ensures |lines| == |rows|
  {
    if rows == [] then [] else [RowLine(rows[0])] + RowLines(rows[1..])
  }

  function TableLines(t: Table): seq<string>
  {
    [RowLine(t.headers), "|" + Dashes(|t.headers|)] + RowLines(t.rows)
  }

  function ItemLines(item: Item): seq<string>
  {
    match item
    case Prose(line) => [line]
    case TableItem(t) => TableLines(t) + [""]
  }

  function DocumentLines(doc: seq<Item>): seq<string>
  {
    if doc == [] then [] else ItemLines(doc[0]) + DocumentLines(doc[1..])
  }

  function Print(doc: seq<Item>): string
  {
    Join('\n', DocumentLines(doc))
  }

  function TablesOf(doc: seq<Item>): seq<Table>
  {
    if doc == [] then []
    else (if doc[0].TableItem? then [doc[0].table] else []) + TablesOf(doc[1..])
  }

  predicate GoodCells(cells: seq<string>)
  {
    cells != [] && forall i :: 0 <= i < |cells| ==> Trimmed(cells[i]) && '|' !in cells[i] && '\n' !in cells[i]
  }

  predicate GoodTable(t: Table)
  {
    GoodCells(t.headers) && forall i :: 0 <= i < |t.rows| ==> GoodCells(t.rows[i])
  }

  predicate GoodItem(item: Item)
  {
    match item
    case Prose(line) => !IsRow(line) && '\n' !in line
    case TableItem(t) => GoodTable(t)
  }

  // ---------- the round trip ----------

  lemma {:induction false} PadAllIsSeparated(c: char, cells: seq<string>)
    requires c != ' ' && forall i :: 0 <= i < |cells| ==> c !in cells[i]
    ensures Separated(c, PadAll(cells))
  {
    if cells != [] {
      PadAllIsSeparated(c, cells[1..]);
    }
  }

  lemma {:induction false} StripPadded(cells: seq<string>)
    requires forall i :: 0 <= i < |cells| ==> Trimmed(cells[i])
    ensures StripAll(PadAll(cells)) == cells
  {
    if cells != [] {
      StripUnique(" ", cells[0], " ");
      StripPadded(cells[1..]);
      assert PadAll(cells)[1..] == PadAll(cells[1..]);
    }
  }

  lemma {:induction false} JoinPadded(cells: seq<string>)
    requires cells != []
    ensures var s := Join('|', PadAll(cells)); |s| >= 2 && s[0] == ' ' && s[|s| - 1] == ' '
  {
    if |cells| > 1 {
      JoinPadded(cells[1..]);
      assert PadAll(cells)[1..] == PadAll(cells[1..]);
    }
  }

  lemma PipesAround(core: string)
    requires core != "" && core[0] != '|' && core[|core| - 1] != '|'
    ensures RPipes(LPipes("|" + core + "|")) == core
  {
    var s := "|" + core + "|";
    assert s[1..] == core + "|";
    assert LPipes(core + "|") == core + "|";
    assert (core + "|")[..|core|] == core;
    assert RPipes(core) == core;
  }

  lemma RowReadBack(cells: seq<string>)
    requires GoodCells(cells)
    ensures IsRow(RowLine(cells)) && Cells(RowLine(cells)) == cells
  {
    hide PadAll, Join, Split, StripAll, LPipes, RPipes;
    var core := Join('|', PadAll(cells));
    JoinPadded(cells);
    StripTrimmed(RowLine(cells));
    PipesAround(core);
    PadAllIsSeparated('|', cells);
    SplitJoin('|', PadAll(cells));
    StripPadded(cells);
  }

  lemma {:induction false} JoinWithout(c: char, sep: char, parts: seq<string>)
    requires c != sep && Separated(c, parts)
    ensures c !in Join(sep, parts)
  {
    if |parts| > 1 {
      JoinWithout(c, sep, parts[1..]);
    }
  }

  lemma RowIsOneLine(cells: seq<string>)
    requires GoodCells(cells)
    ensures '\n' !in RowLine(cells)
  {
    PadAllIsSeparated('\n', cells);
    JoinWithout('\n', '|', PadAll(cells));
  }

  lemma {:induction false} DashesShape(n: nat)
    requires n > 0
    ensures var d := Dashes(n); |d| >= 4 && d[|d| - 1] == '|' && forall i :: 0 <= i < |d| ==> d[i] == '-' || d[i] == '|'
  {
    if n > 1 {
      DashesShape(n - 1);
    }
  }

  lemma DashesAreSeparator(n: nat)
    requires n > 0
    ensures IsSeparator("|" + Dashes(n)) && '\n' !in "|" + Dashes(n)
  {
    hide Dashes;
    DashesShape(n);
    StripTrimmed("|" + Dashes(n));
  }

  lemma {:induction false} RowsReadBack(rows: seq<seq<string>>)
    requires forall i :: 0 <= i < |rows| ==> GoodCells(rows[i])
    ensures LeadingRows(RowLines(rows)) == rows && Separated('\n', RowLines(rows))
  {
    hide IsRow, Cells, RowLine, GoodCells;
    if rows != [] {
      RowReadBack(rows[0]);
      RowIsOneLine(rows[0]);
      RowsReadBack(rows[1..]);
      assert RowLines(rows)[1..] == RowLines(rows[1..]);
    }
  }

  lemma TableReadBack(t: Table)
    requires GoodTable(t)
    ensures ParseLines(TableLines(t)) == [t] && Separated('\n', TableLines(t))
  {
    hide IsRow, Cells, RowLine, IsSeparator, Dashes, GoodCells, LeadingRows;
    var lines := TableLines(t);
    RowReadBack(t.headers);
    RowIsOneLine(t.headers);
    HeadersNonempty(t);
    DashesAreSeparator(|t.headers|);
    RowsReadBack(t.rows);
    assert lines[2..] == RowLines(t.rows);
    assert lines[2 + |t.rows|..] == [];
  }

  lemma HeadersNonempty(t: Table)
    requires GoodTable(t)
    ensures |t.headers| > 0
  {
  }

  lemma ItemReadBack(item: Item, rest: seq<string>)
    requires GoodItem(item)
    ensures ParseLines(ItemLines(item) + rest) == TablesOf([item]) + ParseLines(rest)
    ensures Separated('\n', ItemLines(item))
  {
    hide IsRow, ParseLines, GoodTable;
    TablesOfOne(item);
    match item {
      case Prose(line) =>
        ParsePiecewise([], line, rest);
        NoLines();
        assert [] + [line] + rest == [line] + rest;
      case TableItem(t) =>
        BlankIsNoRow();
        TableReadBack(t);
        ParsePiecewise(TableLines(t), "", rest);
    }
  }

  lemma TablesOfOne(item: Item)
    ensures TablesOf([item]) == if item.TableItem? then [item.table] else []
  {
  }

  lemma NoLines()
    ensures ParseLines([]) == []
  {
  }

  lemma BlankIsNoRow()
    ensures !IsRow("")
  {
  }

  lemma {:induction false} LinesReadBack(doc: seq<Item>)
    requires forall i {:trigger GoodItem(doc[i])} :: 0 <= i < |doc| ==> GoodItem(doc[i])
    ensures ParseLines(DocumentLines(doc)) == TablesOf(doc) && Separated('\n', DocumentLines(doc))
  {
    hide GoodItem, ItemLines, ParseLines;
    NoLines();
    if doc != [] {
      ItemReadBack(doc[0], DocumentLines(doc[1..]));
      TablesOfOne(doc[0]);
      LinesReadBack(doc[1..]);
    }
  }

  /** Printing any document of prose and well-formed tables and parsing the text gives the tables in order. */
  lemma RoundTrip(doc: seq<Item>)
    requires forall i {:trigger GoodItem(doc[i])} :: 0 <= i < |doc| ==> GoodItem(doc[i])
    ensures ParseLines(Split('\n', Print(doc))) == TablesOf(doc)
  {
    hide GoodItem, ParseLines, DocumentLines, Join;
    LinesReadBack(doc);
    if DocumentLines(doc) == [] {
      NothingPrinted(doc);
    } else {
      SplitJoin('\n', DocumentLines(doc));
    }
  }

  lemma NothingPrinted(doc: seq<Item>)
    ensures DocumentLines(doc) == [] ==> Print(doc) == "" && ParseLines(Split('\n', Print(doc))) == [] == ParseLines([])
  {
    EmptyText();
  }

  lemma TwoPipesAround(core: string)
    requires core != "" && core[0] != '|' && core[|core| - 1] != '|'
    ensures RPipes(LPipes("||" + core + "||")) == core
  {
    var s, r := "||" + core + "||", core + "||";
    assert s[1..][1..] == r;
    assert LPipes(s) == LPipes(s[1..]) == LPipes(r) == r;
    assert r[..|r| - 1] == core + "|" && (core + "|")[..|core|] == core;
    assert RPipes(r) == RPipes(core + "|") == RPipes(core) == core;
  }

  /** Extra pipes at the ends of a row, which mark empty outer cells, change nothing. */
  lemma OuterPipesAreIgnored(cells: seq<string>)
    requires GoodCells(cells)
    ensures IsRow("|" + RowLine(cells) + "|") && Cells("|" + RowLine(cells) + "|") == cells
  {
    hide PadAll, Join, LPipes, RPipes;
    var core := Join('|', PadAll(cells));
    var line := "|" + RowLine(cells) + "|";
    RowReadBack(cells);
    JoinPadded(cells);
    StripTrimmed(line);
    StripTrimmed(RowLine(cells));
    PipesAround(core);
    TwoPipesAround(core);
    assert line == "||" + core + "||";
  }
}
