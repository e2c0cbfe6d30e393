module Migrations {
  // The Cypher migration runner. A run may break off before any statement or version row. Statements are
  // of the kind the directory is meant to hold: each adds one thing unless it is there already.

  import opened Text

  datatype File = File(stem: string, cypher: string)

  datatype Row = Row(version: string, description: string)

  /** What the statements added to the graph schema, and the version rows in insertion order. */
  datatype State = State(schema: set<string>, rows: seq<Row>)

  datatype Error = NoDirectory | BadName | Interrupted

  // ---------- reading files ----------

  /** The version and description around the first underscore. */
  function ParseName(stem: string): Option<Row>
  {
    var k := IndexOf('_', stem);
    if k == |stem| then None else Some(Row(stem[..k], stem[k + 1..]))
  }

  function NonEmpty(parts: seq<string>): seq<string>
  {
    if parts == [] then []
    else
      var s := Strip(parts[0]);
      (if s == "" then [] else [s]) + NonEmpty(parts[1..])
  }

  function Statements(cypher: string): seq<string>
  {
    NonEmpty(Split(';', cypher))
  }

  /** Statements as a file holds them: not empty, trimmed, and without a semicolon inside. */
  ghost predicate Good(statements: seq<string>)
  {
    forall i :: 0 <= i < |statements| ==> statements[i] != "" && Trimmed(statements[i]) && ';' !in statements[i]
  }

  lemma {:induction false} NonEmptyKeeps(statements: seq<string>)
    requires Good(statements)
    ensures NonEmpty(statements) == statements
  {
    if statements != [] {
      StripTrimmed(statements[0]);
      NonEmptyKeeps(statements[1..]);
    }
  }

  /** A file made of statements with a semicolon between them gives these statements in order. */
  lemma StatementsReadBack(statements: seq<string>)
    requires Good(statements) && statements != []
    ensures Statements(Join(';', statements)) == statements
  {
    SplitJoin(';', statements);
    NonEmptyKeeps(statements);
  }

  /** Whitespace around a statement, and pieces of nothing but whitespace, are dropped: a file split at its
      semicolons gives its trimmed non-empty pieces in order. */
  lemma {:induction false} PieceByPiece(a: seq<string>, p: string, b: seq<string>)
    ensures NonEmpty(a + [p] + b) == NonEmpty(a) + (if AllSpace(p) then [] else [Strip(p)]) + NonEmpty(b)
  {
    if a == [] {
      assert a + [p] + b == [p] + b && ([p] + b)[1..] == b;
      BlankIffNothing(p);
    } else {
      assert (a + [p] + b)[1..] == a[1..] + [p] + b;
      PieceByPiece(a[1..], p, b);
    }
  }

  lemma BlankIffNothing(p: string)
    ensures AllSpace(p) <==> Strip(p) == ""
  {
    var lo, hi := StripParts(p);
    if Strip(p) == "" { assert p == p[..lo] + p[hi..]; }
    if AllSpace(p) {
      StripUnique(p, "", "");
      assert p + "" + "" == p;
    }
  }

  /** The description of a file is what follows the first underscore of its name, the version what
      precedes it, and a name without one is refused. */
  lemma NameIsRead(stem: string)
    ensures match ParseName(stem)
            case Some(row) => stem == row.version + "_" + row.description && '_' !in row.version
            case None => '_' !in stem
  {
    IndexOfFirst('_', stem);
    var k := IndexOf('_', stem);
    if k < |stem| { assert stem == stem[..k] + [stem[k]] + stem[k + 1..]; } else { assert stem[..k] == stem; }
  }

  // ---------- the operations of a run ----------

  datatype Op = Exec(statement: string) | Record(row: Row)

  function Execs(statements: seq<string>): (ops: seq<Op>)
    ensures |ops| == |statements|
  {
    if statements == [] then [] else [Exec(statements[0])] + Execs(statements[1..])
  }

  /** All operations for one file, its version row last. */
  function FileOps(f: File, row: Row): seq<Op>
  {
    Execs(Statements(f.cypher)) + [Record(row)]
  }

  /** The operations of a whole run, with the versions it found applied when it began. A file name
      without an underscore ends the run. */
  function Ops(files: seq<File>, applied: set<string>): seq<Op>
    decreases files
  {
    if files == [] then []
    else
      match ParseName(files[0].stem)
      case None => []
      case Some(row) =>
        if row.version in applied then Ops(files[1..], applied)
        else FileOps(files[0], row) + Ops(files[1..], applied)
  }

  function Do(st: State, ops: seq<Op>): State
    decreases ops
  {
    if ops == [] then st
    else
      match ops[0]
      case Exec(s) => Do(st.(schema := st.schema + {s}), ops[1..])
      case Record(row) => Do(st.(rows := st.rows + [row]), ops[1..])
  }

  function Applied(rows: seq<Row>): set<string>
  {
    set i | 0 <= i < |rows| :: rows[i].version
  }

  /** A run that breaks off after `n` operations. */
  function Broken(st: State, files: seq<File>, n: nat): State
    requires n <= |Ops(files, Applied(st.rows))|
  {
    Do(st, Ops(files, Applied(st.rows))[..n])
  }

  function Full(st: State, files: seq<File>): State
  {
    Do(st, Ops(files, Applied(st.rows)))
  }

  // ---------- the runner ----------

  class Neo4jMigrationRunner {
    const fails: nat -> bool  // whether operation number n raises before it takes effect
    var done: nat
    var schema: set<string>
    var rows: seq<Row>

    function Store(): State
      reads this
    {
      State(schema, rows)
    }

    constructor (st: State, fails: nat -> bool)
      ensures Store() == st && this.fails == fails && done == 0
    {
      this.fails, schema, rows, done := fails, st.schema, st.rows, 0;
    }

    /** A full run, or the part of it before the operation that raised. */
    method ApplyMigrations(found: bool, files: seq<File>) returns (r: Result<(), Error>)
      modifies this
      ensures !found ==> r == Err(NoDirectory) && Store() == old(Store())
      ensures found && r.Ok? ==>
                && Store() == Full(old(Store()), files)
                && forall f :: f in files ==> ParseName(f.stem).Some?
      ensures found && r.Err? ==> match r.error
                case NoDirectory => false
                case BadName =>
                  Store() == Full(old(Store()), files) && exists f :: f in files && ParseName(f.stem).None?
                case Interrupted =>
                  exists n: nat :: n < |Ops(files, Applied(old(rows)))| && Store() == Broken(old(Store()), files, n)
    {
      hide ParseName, FileOps, Applied;
      if !found { return Err(NoDirectory); }
      var applied := Applied(rows);
      ghost var st, all, n: nat := Store(), Ops(files, applied), 0;
      NothingDone(st, all);
      for i := 0 to |files|
        invariant n <= |all| && Store() == Do(st, all[..n]) && all[n..] == Ops(files[i..], applied)
        invariant forall f :: f in files[..i] ==> ParseName(f.stem).Some?
      {
        assert files[i..][0] == files[i] && files[i..][1..] == files[i + 1..];
        assert files[..i + 1] == files[..i] + [files[i]];
        var row := ParseName(files[i].stem);
        if row.None? {
          assert files[i] in files && all[..n] == all;
          return Err(BadName);
        }
        if row.value.version in applied {
          continue;
        }
        var ok, k := RunFile(files[i], row.value);
        ghost var ops := FileOps(files[i], row.value);
        OpsSlice(st, all, n, ops, k);
        n := n + k;
        if !ok {
          assert n < |all| && Store() == Broken(st, files, n);
          return Err(Interrupted);
        }
      }
      assert all[..n] == all && files[..|files|] == files;
      r := Ok(());
    }

    /** One file: its statements and then its version row, up to the operation that raises. */
    method RunFile(f: File, row: Row) returns (ok: bool, ghost k: nat)
      modifies this
      ensures k <= |FileOps(f, row)| && Store() == Do(old(Store()), FileOps(f, row)[..k])
      ensures ok <==> k == |FileOps(f, row)|
    {
      hide Statements;
      ghost var st, ops := Store(), FileOps(f, row);
      var statements := Statements(f.cypher);
      NothingDone(st, ops);
      k := 0;
      for i := 0 to |statements|
        invariant k == i && Store() == Do(st, ops[..k])
      {
        done := done + 1;
        if fails(done - 1) { return false, k; }
        ExecsAt(statements, i);
        OneMore(st, ops, i);
        schema := schema + {statements[i]};
        k := k + 1;
      }
      done := done + 1;
      if fails(done - 1) { return false, k; }
      OneMore(st, ops, k);
      rows := rows + [row];
      k := k + 1;
      ok := true;
    }
  }

  lemma NothingDone(st: State, ops: seq<Op>)
    ensures Do(st, ops[..0]) == st && ops[0..] == ops
  {
  }

  lemma {:induction false} ExecsAt(statements: seq<string>, i: nat)
    requires i < |statements|
    ensures Execs(statements)[i] == Exec(statements[i])
  {
    if i > 0 {
      ExecsAt(statements[1..], i - 1);
    }
  }

  lemma {:induction false} DoConcat(st: State, a: seq<Op>, b: seq<Op>)
    ensures Do(st, a + b) == Do(Do(st, a), b)
    decreases a
  {
    if a == [] {
      assert a + b == b;
    } else {
      assert (a + b)[1..] == a[1..] + b;
      match a[0] {
        case Exec(s) => DoConcat(st.(schema := st.schema + {s}), a[1..], b);
        case Record(row) => DoConcat(st.(rows := st.rows + [row]), a[1..], b);
      }
    }
  }

  lemma OneMore(st: State, ops: seq<Op>, k: nat)
    requires k < |ops|
    ensures Do(st, ops[..k + 1]) == match ops[k]
              case Exec(s) => Do(st, ops[..k]).(schema := Do(st, ops[..k]).schema + {s})
              case Record(row) => Do(st, ops[..k]).(rows := Do(st, ops[..k]).rows + [row])
  {
    assert ops[..k + 1] == ops[..k] + [ops[k]];
    DoConcat(st, ops[..k], [ops[k]]);
  }

  lemma OpsSlice(st: State, all: seq<Op>, n: nat, ops: seq<Op>, k: nat)
    requires n <= |all| && k <= |ops| && ops <= all[n..]
    ensures n + k <= |all| && Do(Do(st, all[..n]), ops[..k]) == Do(st, all[..n + k])
    ensures all[n + k..] == all[n..][k..]
  {
    assert all[..n + k] == all[..n] + ops[..k];
    DoConcat(st, all[..n], ops[..k]);
  }

  // ---------- the versions of a directory ----------

  /** Whether a file before the first bad name has this version. */
  predicate HasVersion(files: seq<File>, v: string)
  {
    files != [] && ParseName(files[0].stem).Some?
    && (ParseName(files[0].stem).value.version == v || HasVersion(files[1..], v))
  }

  /** No two files still pending, before the first bad name, have the same version. */
  predicate DistinctPending(files: seq<File>, applied: set<string>)
    decreases files
  {
    files == [] || ParseName(files[0].stem).None?
    || (var v := ParseName(files[0].stem).value.version;
        (v in applied || !HasVersion(files[1..], v)) && DistinctPending(files[1..], applied))
  }

  lemma {:induction false} StaysDistinct(files: seq<File>, applied: set<string>, more: set<string>)
    requires DistinctPending(files, applied)
    ensures DistinctPending(files, applied + more)
    decreases files
  {
    hide ParseName, HasVersion;
    if files != [] && ParseName(files[0].stem).Some? {
      StaysDistinct(files[1..], applied, more);
    }
  }

  lemma {:induction false} OtherVersionsOnly(files: seq<File>, applied: set<string>, v: string)
    requires !HasVersion(files, v)
    ensures Ops(files, applied + {v}) == Ops(files, applied)
    decreases files
  {
    hide ParseName, FileOps;
    if files != [] && ParseName(files[0].stem).Some? {
      OtherVersionsOnly(files[1..], applied, v);
    }
  }

  /** The versions in the row operations. */
  function Recorded(ops: seq<Op>): set<string>
  {
    if ops == [] then {}
    else (if ops[0].Record? then {ops[0].row.version} else {}) + Recorded(ops[1..])
  }

  lemma {:induction false} RecordedConcat(a: seq<Op>, b: seq<Op>)
    ensures Recorded(a + b) == Recorded(a) + Recorded(b)
  {
    if a == [] {
      assert a + b == b;
    } else {
      assert (a + b)[1..] == a[1..] + b;
      RecordedConcat(a[1..], b);
    }
  }

  lemma {:induction false} AppliedAfter(st: State, ops: seq<Op>)
    ensures Applied(Do(st, ops).rows) == Applied(st.rows) + Recorded(ops)
    decreases ops
  {
    if ops != [] {
      match ops[0] {
        case Exec(s) => AppliedAfter(st.(schema := st.schema + {s}), ops[1..]);
        case Record(row) =>
          AppliedAppend(st.rows, row);
          AppliedAfter(st.(rows := st.rows + [row]), ops[1..]);
      }
    }
  }

  lemma AppliedAppend(rows: seq<Row>, row: Row)
    ensures Applied(rows + [row]) == Applied(rows) + {row.version}
  {
    var all := rows + [row];
    assert all[|rows|] == row && forall i :: 0 <= i < |rows| ==> all[i] == rows[i];
  }

  lemma {:induction false} ExecsRecordNothing(statements: seq<string>, k: nat)
    requires k <= |statements|
    ensures Recorded(Execs(statements)[..k]) == {}
  {
    if k > 0 {
      ExecsRecordNothing(statements[1..], k - 1);
      assert Execs(statements)[..k] == [Exec(statements[0])] + Execs(statements[1..])[..k - 1];
      RecordedConcat([Exec(statements[0])], Execs(statements[1..])[..k - 1]);
    }
  }

  function SetOf(statements: seq<string>): set<string>
  {
    if statements == [] then {} else {statements[0]} + SetOf(statements[1..])
  }

  lemma {:induction false} ExecsAdd(st: State, statements: seq<string>, k: nat)
    requires k <= |statements|
    ensures Do(st, Execs(statements)[..k]).rows == st.rows
    ensures st.schema <= Do(st, Execs(statements)[..k]).schema <= st.schema + SetOf(statements)
    ensures k == |statements| ==> Do(st, Execs(statements)[..k]).schema == st.schema + SetOf(statements)
    decreases statements
  {
    if k > 0 {
      var next := st.(schema := st.schema + {statements[0]});
      assert Execs(statements)[..k][1..] == Execs(statements[1..])[..k - 1];
      ExecsAdd(next, statements[1..], k - 1);
    }
  }

  /** A whole file run: its statements are in the schema and its row is the last. */
  lemma FileRun(st: State, f: File, row: Row)
    ensures Do(st, FileOps(f, row)) == State(st.schema + SetOf(Statements(f.cypher)), st.rows + [row])
    ensures Recorded(FileOps(f, row)) == {row.version}
  {
    hide Statements;
    var statements := Statements(f.cypher);
    var execs := Execs(statements);
    assert execs[..|statements|] == execs;
    ExecsAdd(st, statements, |statements|);
    ExecsRecordNothing(statements, |statements|);
    DoConcat(st, execs, [Record(row)]);
    RecordedConcat(execs, [Record(row)]);
    assert Recorded([Record(row)]) == {row.version} + Recorded([]);
  }

  /** A file run broken off: no row yet, and running the file again gives what one run gives. */
  lemma FileBroken(st: State, f: File, row: Row, n: nat)
    requires n < |FileOps(f, row)|
    ensures var half := Do(st, FileOps(f, row)[..n]);
      && half.rows == st.rows && st.schema <= half.schema && Recorded(FileOps(f, row)[..n]) == {}
      && Do(half, FileOps(f, row)) == Do(st, FileOps(f, row))
  {
    hide Statements;
    var statements := Statements(f.cypher);
    assert FileOps(f, row)[..n] == Execs(statements)[..n];
    ExecsAdd(st, statements, n);
    ExecsRecordNothing(statements, n);
    FileRun(st, f, row);
    FileRun(Do(st, FileOps(f, row)[..n]), f, row);
  }

  // ---------- interrupted runs ----------

  lemma {:induction false} Resume(st: State, files: seq<File>, applied: set<string>, n: nat)
    requires DistinctPending(files, applied) && n <= |Ops(files, applied)|
    ensures var ops := Ops(files, applied);
            Do(Do(st, ops[..n]), Ops(files, applied + Recorded(ops[..n]))) == Do(st, ops)
    decreases files
  {
    hide ParseName, FileOps, HasVersion;
    var ops := Ops(files, applied);
    if files == [] || ParseName(files[0].stem).None? {
      assert ops[..n] == [];
    } else {
      var row, rest := ParseName(files[0].stem).value, files[1..];
      if row.version in applied {
        Resume(st, rest, applied, n);
      } else {
        var first, more := FileOps(files[0], row), Ops(rest, applied);
        FileRun(st, files[0], row);
        DoConcat(st, first, more);
        if n < |first| {
          assert ops[..n] == first[..n];
          FileBroken(st, files[0], row, n);
          assert applied + {} == applied;
          DoConcat(Do(st, first[..n]), first, more);
        } else {
          var m := n - |first|;
          assert ops[..n] == first + more[..m];
          DoConcat(st, first, more[..m]);
          RecordedConcat(first, more[..m]);
          OtherVersionsOnly(rest, applied, row.version);
          StaysDistinct(rest, applied, {row.version});
          Resume(Do(st, first), rest, applied + {row.version}, m);
          assert applied + Recorded(ops[..n]) == applied + {row.version} + Recorded(more[..m]);
        }
      }
    }
  }

  /** Breaking a run off anywhere and running again to the end gives the state of one clean run. */
  lemma BrokenThenFull(st: State, files: seq<File>, n: nat)
    requires DistinctPending(files, Applied(st.rows)) && n <= |Ops(files, Applied(st.rows))|
    ensures Full(Broken(st, files, n), files) == Full(st, files)
  {
    hide Applied, DistinctPending;
    var ops := Ops(files, Applied(st.rows));
    Resume(st, files, Applied(st.rows), n);
    AppliedAfter(st, ops[..n]);
  }

  /** The states after any number of runs, each broken off at will. */
  ghost predicate Reachable(st: State, files: seq<File>, breaks: seq<nat>, end: State)
    decreases breaks
  {
    if breaks == [] then end == st
    else
      breaks[0] <= |Ops(files, Applied(st.rows))| && Reachable(Broken(st, files, breaks[0]), files, breaks[1..], end)
  }

  /** Any runs broken off anywhere, then one full run: the state of a single clean run. */
  lemma {:induction false} AnyBreaksThenFull(st: State, files: seq<File>, breaks: seq<nat>, end: State)
    requires DistinctPending(files, Applied(st.rows)) && Reachable(st, files, breaks, end)
    ensures Full(end, files) == Full(st, files)
    decreases breaks
  {
    hide Full, Broken, DistinctPending, Applied;
    if breaks != [] {
      StaysDistinctAfter(st, files, breaks[0]);
      BrokenThenFull(st, files, breaks[0]);
      AnyBreaksThenFull(Broken(st, files, breaks[0]), files, breaks[1..], end);
    }
  }

  lemma StaysDistinctAfter(st: State, files: seq<File>, n: nat)
    requires DistinctPending(files, Applied(st.rows)) && n <= |Ops(files, Applied(st.rows))|
    ensures DistinctPending(files, Applied(Broken(st, files, n).rows))
  {
    hide DistinctPending, Applied;
    var ops := Ops(files, Applied(st.rows))[..n];
    AppliedAfter(st, ops);
    StaysDistinct(files, Applied(st.rows), Recorded(ops));
  }

  lemma {:induction false} AllRecorded(files: seq<File>, applied: set<string>, v: string)
    requires HasVersion(files, v)
    ensures v in applied + Recorded(Ops(files, applied))
    decreases files
  {
    hide ParseName, FileOps;
    var row, rest := ParseName(files[0].stem).value, files[1..];
    FileRun(State({}, []), files[0], row);
    RecordedConcat(FileOps(files[0], row), Ops(rest, applied));
    if row.version != v { AllRecorded(rest, applied, v); }
  }

  lemma {:induction false} NothingPending(files: seq<File>, applied: set<string>)
    requires forall v :: HasVersion(files, v) ==> v in applied
    ensures Ops(files, applied) == []
    decreases files
  {
    hide ParseName;
    if files != [] && ParseName(files[0].stem).Some? {
      assert HasVersion(files, ParseName(files[0].stem).value.version);
      assert forall v :: HasVersion(files[1..], v) ==> HasVersion(files, v);
      NothingPending(files[1..], applied);
    }
  }

  /** A further full run changes nothing, shared versions or not. */
  lemma FullTwice(st: State, files: seq<File>)
    ensures Full(Full(st, files), files) == Full(st, files)
  {
    hide HasVersion, Applied;
    var ops := Ops(files, Applied(st.rows));
    AppliedAfter(st, ops);
    forall v | HasVersion(files, v) ensures v in Applied(Full(st, files).rows) {
      AllRecorded(files, Applied(st.rows), v);
    }
    NothingPending(files, Applied(Full(st, files).rows));
  }

  // ---------- exactly when a broken run can be resumed ----------

  function RowCount(ops: seq<Op>): nat
  {
    if ops == [] then 0 else (if ops[0].Record? then 1 else 0) + RowCount(ops[1..])
  }

  lemma {:induction false} RowCountConcat(a: seq<Op>, b: seq<Op>)
    ensures RowCount(a + b) == RowCount(a) + RowCount(b)
  {
    if a == [] {
      assert a + b == b;
    } else {
      assert (a + b)[1..] == a[1..] + b;
      RowCountConcat(a[1..], b);
    }
  }

  lemma {:induction false} RowsCounted(st: State, ops: seq<Op>)
    ensures |Do(st, ops).rows| == |st.rows| + RowCount(ops)
    decreases ops
  {
    if ops != [] {
      match ops[0] {
        case Exec(s) => RowsCounted(st.(schema := st.schema + {s}), ops[1..]);
        case Record(row) => RowsCounted(st.(rows := st.rows + [row]), ops[1..]);
      }
    }
  }

  lemma FileCounts(f: File, row: Row)
    ensures RowCount(FileOps(f, row)) == 1
  {
    hide FileOps;
    RowsCounted(State({}, []), FileOps(f, row));
    FileRun(State({}, []), f, row);
  }

  /** Once a version is applied, its files write no more rows. */
  lemma {:induction false} FewerRows(files: seq<File>, applied: set<string>, v: string)
    ensures RowCount(Ops(files, applied + {v})) <= RowCount(Ops(files, applied))
    ensures HasVersion(files, v) && v !in applied ==>
      RowCount(Ops(files, applied + {v})) < RowCount(Ops(files, applied))
    decreases files
  {
    hide ParseName, FileOps;
    if files != [] && ParseName(files[0].stem).Some? {
      var row := ParseName(files[0].stem).value;
      FewerRows(files[1..], applied, v);
      FileCounts(files[0], row);
      RowCountConcat(FileOps(files[0], row), Ops(files[1..], applied));
      RowCountConcat(FileOps(files[0], row), Ops(files[1..], applied + {v}));
    }
  }

  /** With two pending files of one version, a run broken off after the first writes too few rows in all. */
  lemma {:induction false} SharedLosesRows(files: seq<File>, applied: set<string>) returns (n: nat)
    requires !DistinctPending(files, applied)
    ensures n <= |Ops(files, applied)|
    ensures var done := Ops(files, applied)[..n];
            RowCount(done) + RowCount(Ops(files, applied + Recorded(done))) < RowCount(Ops(files, applied))
    decreases files
  {
    hide ParseName, FileOps;
    var ops := Ops(files, applied);
    var row, rest := ParseName(files[0].stem).value, files[1..];
    if row.version in applied {
      n := SharedLosesRows(rest, applied);
    } else {
      var first, more := FileOps(files[0], row), Ops(rest, applied);
      FileRun(State({}, []), files[0], row);
      FileCounts(files[0], row);
      RowCountConcat(first, more);
      if HasVersion(rest, row.version) {
        n := |first|;
        assert ops[..n] == first;
        FewerRows(rest, applied, row.version);
      } else {
        var m := SharedLosesRows(rest, applied);
        n := |first| + m;
        assert ops[..n] == first + more[..m];
        RowCountConcat(first, more[..m]);
        RecordedConcat(first, more[..m]);
        OtherVersionsOnly(rest, applied + Recorded(more[..m]), row.version);
        assert applied + Recorded(ops[..n]) == applied + Recorded(more[..m]) + {row.version};
      }
    }
  }

  /** Whatever operation a run breaks off at, a full run afterwards gives the state of one clean run. */
  ghost predicate Resumable(st: State, files: seq<File>)
  {
    forall n: nat :: n <= |Ops(files, Applied(st.rows))| ==> Full(Broken(st, files, n), files) == Full(st, files)
  }

  /** Exact condition: that holds if and only if no two files still pending share a version. */
  lemma ResumableIff(st: State, files: seq<File>)
    ensures Resumable(st, files) <==> DistinctPending(files, Applied(st.rows))
  {
    hide DistinctPending, Applied, Full;
    var applied := Applied(st.rows);
    if DistinctPending(files, applied) {
      forall n: nat | n <= |Ops(files, applied)| ensures Full(Broken(st, files, n), files) == Full(st, files) {
        BrokenThenFull(st, files, n);
      }
    } else {
      var n := SharedLosesRows(files, applied);
      BrokenRows(st, files, n);
    }
  }

  lemma BrokenRows(st: State, files: seq<File>, n: nat)
    requires var ops := Ops(files, Applied(st.rows)); n <= |ops|
    ensures var ops := Ops(files, Applied(st.rows));
      && |Full(st, files).rows| == |st.rows| + RowCount(ops)
      && |Full(Broken(st, files, n), files).rows| ==
         |st.rows| + RowCount(ops[..n]) + RowCount(Ops(files, Applied(st.rows) + Recorded(ops[..n])))
  {
    hide Applied;
    var ops := Ops(files, Applied(st.rows));
    var mid := Broken(st, files, n);
    AppliedAfter(st, ops[..n]);
    RowsCounted(st, ops);
    RowsCounted(st, ops[..n]);
    RowsCounted(mid, Ops(files, Applied(mid.rows)));
  }

  // ---------- rows only for completed migrations, in file order ----------

  /** Every file whose version is recorded has all its statements in the schema. */
  ghost predicate RowsAreEarned(st: State, files: seq<File>)
    decreases files
  {
    files == [] || ParseName(files[0].stem).None?
    || ((ParseName(files[0].stem).value.version in Applied(st.rows) ==> SetOf(Statements(files[0].cypher)) <= st.schema)
        && RowsAreEarned(st, files[1..]))
  }

  /** The rows still to be written, in file order. */
  function Pending(files: seq<File>, applied: set<string>): seq<Row>
    decreases files
  {
    if files == [] then []
    else
      match ParseName(files[0].stem)
      case None => []
      case Some(row) => (if row.version in applied then [] else [row]) + Pending(files[1..], applied)
  }

  /** A broken run records the first pending rows, in file order, and nothing else. */
  lemma {:induction false} RowsInOrder(st: State, files: seq<File>, applied: set<string>, n: nat)
    requires n <= |Ops(files, applied)|
    ensures exists k: nat ::
      && k <= |Pending(files, applied)|
      && Do(st, Ops(files, applied)[..n]).rows == st.rows + Pending(files, applied)[..k]
    ensures n == |Ops(files, applied)| ==> Do(st, Ops(files, applied)[..n]).rows == st.rows + Pending(files, applied)
    decreases files
  {
    hide ParseName, FileOps;
    var ops, pending := Ops(files, applied), Pending(files, applied);
    if files == [] || ParseName(files[0].stem).None? {
      assert ops[..n] == [] && st.rows + pending[..0] == st.rows && pending == [];
    } else {
      var row, rest := ParseName(files[0].stem).value, files[1..];
      if row.version in applied {
        RowsInOrder(st, rest, applied, n);
      } else {
        var first, more := FileOps(files[0], row), Ops(rest, applied);
        FileRun(st, files[0], row);
        if n < |first| {
          assert ops[..n] == first[..n];
          FileBroken(st, files[0], row, n);
          assert st.rows + pending[..0] == st.rows;
        } else {
          var m := n - |first|;
          assert ops[..n] == first + more[..m];
          DoConcat(st, first, more[..m]);
          RowsInOrder(Do(st, first), rest, applied, m);
          var k: nat :| k <= |Pending(rest, applied)| &&
              Do(Do(st, first), more[..m]).rows == st.rows + [row] + Pending(rest, applied)[..k];
          assert pending[..k + 1] == [row] + Pending(rest, applied)[..k];
          Associate(st.rows, [row], Pending(rest, applied)[..k]);
          Associate(st.rows, [row], Pending(rest, applied));
        }
      }
    }
  }

  lemma {:induction false} EarnedLater(st: State, files: seq<File>, later: State, added: set<string>)
    requires RowsAreEarned(st, files) && st.schema <= later.schema
    requires Applied(later.rows) == Applied(st.rows) + added
    requires forall v :: v in added ==> !HasVersion(files, v)
    ensures RowsAreEarned(later, files)
    decreases files
  {
    hide ParseName, Applied, Statements, SetOf;
    if files != [] && ParseName(files[0].stem).Some? {
      EarnedLater(st, files[1..], later, added);
    }
  }

  lemma {:induction false} SchemaGrows(st: State, ops: seq<Op>)
    ensures st.schema <= Do(st, ops).schema
    decreases ops
  {
    if ops != [] {
      match ops[0] {
        case Exec(s) => SchemaGrows(st.(schema := st.schema + {s}), ops[1..]);
        case Record(row) => SchemaGrows(st.(rows := st.rows + [row]), ops[1..]);
      }
    }
  }

  lemma {:induction false} EarnedStep(st: State, files: seq<File>, applied: set<string>, n: nat)
    requires DistinctPending(files, applied) && n <= |Ops(files, applied)| && RowsAreEarned(st, files)
    requires forall v :: HasVersion(files, v) ==> (v in applied <==> v in Applied(st.rows))
    ensures RowsAreEarned(Do(st, Ops(files, applied)[..n]), files)
    decreases files
  {
    hide ParseName, FileOps, Applied, Statements, SetOf;
    var ops := Ops(files, applied);
    if files == [] || ParseName(files[0].stem).None? {
      assert ops[..n] == [];
    } else {
      var row, rest := ParseName(files[0].stem).value, files[1..];
      var end := Do(st, ops[..n]);
      AppliedAfter(st, ops[..n]);
      SchemaGrows(st, ops[..n]);
      if row.version in applied {
        EarnedStep(st, rest, applied, n);
      } else {
        var first, more := FileOps(files[0], row), Ops(rest, applied);
        FileRun(st, files[0], row);
        if n < |first| {
          assert ops[..n] == first[..n];
          FileBroken(st, files[0], row, n);
          EarnedLater(st, rest, end, {});
        } else {
          var m, mid := n - |first|, Do(st, first);
          assert ops[..n] == first + more[..m];
          DoConcat(st, first, more[..m]);
          AppliedAfter(st, first);
          EarnedLater(st, rest, mid, {row.version});
          EarnedStep(mid, rest, applied, m);
          SchemaGrows(mid, more[..m]);
        }
      }
    }
  }

  /** Every run, however broken off, keeps the rule that a recorded migration ran completely. */
  lemma {:induction false} RowsStayEarned(st: State, files: seq<File>, breaks: seq<nat>, end: State)
    requires DistinctPending(files, Applied(st.rows)) && RowsAreEarned(st, files) && Reachable(st, files, breaks, end)
    ensures RowsAreEarned(end, files)
    decreases breaks
  {
    hide DistinctPending, RowsAreEarned, Applied;
    if breaks != [] {
      StaysDistinctAfter(st, files, breaks[0]);
      EarnedStep(st, files, Applied(st.rows), breaks[0]);
      RowsStayEarned(Broken(st, files, breaks[0]), files, breaks[1..], end);
    }
  }

  /** Version rows are not repeated. */
  ghost predicate RowsDistinct(rows: seq<Row>)
  {
    forall i, j :: 0 <= i < j < |rows| ==> rows[i].version != rows[j].version
  }

  lemma {:induction false} PendingDistinct(files: seq<File>, applied: set<string>)
    requires DistinctPending(files, applied)
    ensures RowsDistinct(Pending(files, applied))
    ensures forall i :: 0 <= i < |Pending(files, applied)| ==>
              HasVersion(files, Pending(files, applied)[i].version) && Pending(files, applied)[i].version !in applied
    decreases files
  {
    hide ParseName;
    if files != [] && ParseName(files[0].stem).Some? {
      PendingDistinct(files[1..], applied);
    }
  }

  /** No version is ever recorded twice. */
  lemma {:induction false} RecordedOnce(st: State, files: seq<File>, breaks: seq<nat>, end: State)
    requires DistinctPending(files, Applied(st.rows)) && RowsDistinct(st.rows) && Reachable(st, files, breaks, end)
    ensures RowsDistinct(end.rows)
    decreases breaks
  {
    hide DistinctPending, Ops, Pending;
    if breaks != [] {
      StaysDistinctAfter(st, files, breaks[0]);
      var applied := Applied(st.rows);
      var next := Broken(st, files, breaks[0]);
      RowsInOrder(st, files, applied, breaks[0]);
      PendingDistinct(files, applied);
      var k: nat :| k <= |Pending(files, applied)| && next.rows == st.rows + Pending(files, applied)[..k];
      MoreRowsDistinct(st.rows, Pending(files, applied)[..k]);
      RecordedOnce(next, files, breaks[1..], end);
    }
  }

  lemma MoreRowsDistinct(rows: seq<Row>, more: seq<Row>)
    requires RowsDistinct(rows) && RowsDistinct(more)
    requires forall i :: 0 <= i < |more| ==> more[i].version !in Applied(rows)
    ensures RowsDistinct(rows + more)
  {
    forall i, j | 0 <= i < |rows| && 0 <= j < |more| ensures rows[i].version != more[j].version {
      assert rows[i].version in Applied(rows);
    }
  }

  // ---------- two files of one version ----------

  /** Two files of one version. */
  function SharedVersion(v: string): seq<File>
  {
    [File(v + "_a", "x"), File(v + "_b", "y")]
  }

  lemma SharedVersionOps(v: string)
    requires '_' !in v
    ensures var a, b := FileOps(SharedVersion(v)[0], Row(v, "a")), FileOps(SharedVersion(v)[1], Row(v, "b"));
            Ops(SharedVersion(v), {}) == a + b && Ops(SharedVersion(v), {v}) == []
  {
    hide FileOps, ParseName;
    var files := SharedVersion(v);
    NameParts(v, "a");
    NameParts(v, "b");
    assert v + "_" + "a" == v + "_a" && v + "_" + "b" == v + "_b";
    OpsOfOne(files[1], Row(v, "b"), {});
    OpsOfOne(files[1], Row(v, "b"), {v});
    assert files[1..] == [files[1]];
    assert Ops(files, {}) == FileOps(files[0], Row(v, "a")) + Ops(files[1..], {});
    assert Ops(files, {v}) == Ops(files[1..], {v});
  }

  lemma SharedVersionRuns(st: State, v: string)
    ensures Do(st, FileOps(SharedVersion(v)[0], Row(v, "a"))) == State(st.schema + {"x"}, st.rows + [Row(v, "a")])
    ensures Do(st, FileOps(SharedVersion(v)[1], Row(v, "b"))) == State(st.schema + {"y"}, st.rows + [Row(v, "b")])
  {
    hide Statements, FileOps;
    FileRun(st, SharedVersion(v)[0], Row(v, "a"));
    FileRun(st, SharedVersion(v)[1], Row(v, "b"));
    OneStatement("x");
    OneStatement("y");
    assert SetOf(["x"]) == {"x"} + SetOf([]) == {"x"} && SetOf(["y"]) == {"y"} + SetOf([]) == {"y"};
  }

  /** With two files of one version, a run broken off after the first loses the second for good. */
  lemma SharedVersionLosesStatements(v: string)
    requires '_' !in v
    ensures "y" in Full(State({}, []), SharedVersion(v)).schema
    ensures exists n: nat :: n <= |Ops(SharedVersion(v), Applied([]))|
              && "y" !in Full(Broken(State({}, []), SharedVersion(v), n), SharedVersion(v)).schema
  {
    hide FileOps, Ops, Applied, Do;
    var st, files := State({}, []), SharedVersion(v);
    var a, b := FileOps(files[0], Row(v, "a")), FileOps(files[1], Row(v, "b"));
    var mid := State({"x"}, [Row(v, "a")]);
    NothingApplied();
    AppliedAppend([], Row(v, "a"));
    SharedVersionOps(v);
    SharedVersionRuns(st, v);
    SharedVersionRuns(mid, v);
    DoConcat(st, a, b);
    DoNothing(mid);
    assert (a + b)[..|a|] == a;
    assert [] + [Row(v, "a")] == [Row(v, "a")];
    assert Applied(mid.rows) == {} + {v} == {v};
    assert Broken(st, files, |a|) == mid && Full(mid, files) == mid;
    var n: nat := |a|;
    assert n <= |Ops(files, Applied([]))| && "y" !in Full(Broken(st, files, n), files).schema;
  }

  lemma DoNothing(st: State)
    ensures Do(st, []) == st
  {
  }

  lemma NothingApplied()
    ensures Applied([]) == {}
  {
  }

  lemma OpsOfOne(f: File, row: Row, applied: set<string>)
    requires ParseName(f.stem) == Some(row)
    ensures Ops([f], applied) == if row.version in applied then [] else FileOps(f, row)
  {
    hide ParseName, FileOps;
    assert [f][1..] == [];
    assert FileOps(f, row) + [] == FileOps(f, row);
  }

  lemma NameParts(v: string, d: string)
    requires '_' !in v
    ensures ParseName(v + "_" + d) == Some(Row(v, d))
  {
    IndexOfPrefix('_', v, "_" + d);
    assert v + ("_" + d) == v + "_" + d;
  }

  lemma OneStatement(s: string)
    requires s in {"x", "y"}
    ensures Statements(s) == [s]
  {
    assert Join(';', [s]) == s && Good([s]);
    StatementsReadBack([s]);
  }
}
