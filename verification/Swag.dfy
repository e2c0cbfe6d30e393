module Swag {
  // The SWAG reverse proxy reader: a line scanner for nginx server and location blocks with a brace
  // depth, and field searches inside the blocks it finds.

  import opened Text
  import opened Lines

  datatype Error = Mismatched | Unclosed | BadProxyPass

  datatype Route = Route(host: string, path: string, service: string, tls: bool)

  // ---------- server blocks ----------

  /** Any line with both `server` and `{` starts a server block, also inside another one. */
  predicate StartsServer(line: string)
  {
    Contains(Strip(line), "server") && '{' in Strip(line)
  }

  function Delta(line: string): int
  {
    Count('{', Strip(line)) - Count('}', Strip(line))
  }

  /** A server block: the number of its first line, and its lines so far. */
  datatype Block = Block(first: nat, lines: seq<string>)

  /** The scan over `lines`, numbered from `k`, with the block being read, if any, at `depth`. */
  function ScanServers(lines: seq<string>, k: nat, cur: Option<Block>, depth: int): Result<seq<Block>, Error>
    decreases lines
  {
    if lines == [] then
      if cur.Some? then Err(Unclosed) else Ok([])
    else if StartsServer(lines[0]) then
      ScanServers(lines[1..], k + 1, Some(Block(k, [lines[0]])), 1)
    else if cur.None? then
      ScanServers(lines[1..], k + 1, None, depth)
    else
      var block := Block(cur.value.first, cur.value.lines + [lines[0]]);
      var d := depth + Delta(lines[0]);
      if d < 0 then Err(Mismatched)
      else if d > 0 then ScanServers(lines[1..], k + 1, Some(block), d)
      else
        match ScanServers(lines[1..], k + 1, None, 0)
        case Ok(blocks) => Ok([block] + blocks)
        case Err(e) => Err(e)
  }

  /** Depth after line `i` of a block starting at line `a`. */
  function DepthAt(all: seq<string>, a: nat, i: nat): int
    requires a <= i < |all|
  {
    if i == a then 1 else DepthAt(all, a, i - 1) + Delta(all[i])
  }

  /** Lines `a..i` are the open part of a block: started at `a`, never restarted, depth positive. */
  ghost predicate Open(all: seq<string>, a: nat, i: nat)
    requires a <= i < |all|
  {
    && StartsServer(all[a])
    && forall j :: a < j <= i ==> !StartsServer(all[j]) && DepthAt(all, a, j) > 0
  }

  /** Lines `a..b` are a server block: open until the depth first reaches 0, at line `b`. */
  ghost predicate IsServerBlock(all: seq<string>, a: nat, b: nat)
  {
    a < b < |all| && Open(all, a, b - 1) && !StartsServer(all[b]) && DepthAt(all, a, b) == 0
  }

  /** Blocks in order, none overlapping the next, all at or after line `from`. */
  ghost predicate Ordered(from: nat, blocks: seq<Block>)
  {
    && (forall i :: 0 <= i < |blocks| ==> blocks[i].first >= from)
    && (forall i, j :: 0 <= i < j < |blocks| ==> blocks[i].first + |blocks[i].lines| <= blocks[j].first)
  }

  /** `b` holds the lines of a server block of the text. */
  ghost predicate FoundBlock(all: seq<string>, b: Block)
  {
    && |b.lines| >= 2 && b.first + |b.lines| <= |all|
    && IsServerBlock(all, b.first, b.first + |b.lines| - 1)
    && b.lines == all[b.first..b.first + |b.lines|]
  }

  /** Where the open block of a scan stands. */
  ghost predicate ScanState(all: seq<string>, k: nat, cur: Option<Block>, depth: int)
  {
    && k <= |all|
    && (cur.Some? ==>
          && cur.value.first < k && cur.value.lines == all[cur.value.first..k]
          && Open(all, cur.value.first, k - 1) && depth == DepthAt(all, cur.value.first, k - 1))
  }

  lemma NextLine(all: seq<string>, k: nat)
    requires k < |all|
    ensures all[k..] != [] && all[k..][0] == all[k] && all[k..][1..] == all[k + 1..]
  {
  }

  lemma TakeLine(all: seq<string>, a: nat, k: nat)
    requires a <= k < |all|
    ensures all[a..k] + [all[k]] == all[a..k + 1]
  {
  }

  /** The open block after reading line `k`, when it is neither restarted nor closed there. */
  lemma StaysOpen(all: seq<string>, k: nat, cur: Block, depth: int)
    requires k < |all| && ScanState(all, k, Some(cur), depth) && !StartsServer(all[k])
    ensures depth + Delta(all[k]) == DepthAt(all, cur.first, k)
    ensures cur.lines + [all[k]] == all[cur.first..k + 1]
    ensures depth + Delta(all[k]) > 0 ==>
              ScanState(all, k + 1, Some(Block(cur.first, cur.lines + [all[k]])), depth + Delta(all[k]))
    ensures depth + Delta(all[k]) == 0 ==> FoundBlock(all, Block(cur.first, cur.lines + [all[k]]))
  {
    hide StartsServer, Delta, Open, IsServerBlock;
    TakeLine(all, cur.first, k);
    OpenGrows(all, cur.first, k);
  }

  lemma OpenGrows(all: seq<string>, a: nat, k: nat)
    requires a < k < |all| && Open(all, a, k - 1) && !StartsServer(all[k])
    ensures DepthAt(all, a, k) > 0 ==> Open(all, a, k)
    ensures DepthAt(all, a, k) == 0 ==> IsServerBlock(all, a, k)
  {
    hide StartsServer, DepthAt;
  }

  lemma Restarts(all: seq<string>, k: nat)
    requires k < |all| && StartsServer(all[k])
    ensures ScanState(all, k + 1, Some(Block(k, [all[k]])), 1)
  {
    hide StartsServer, Delta;
    assert all[k..k + 1] == [all[k]];
  }

  /** Server blocks of the text, as disjoint line ranges in order from line `from` on. */
  ghost predicate Sound(all: seq<string>, from: nat, blocks: seq<Block>)
  {
    Ordered(from, blocks) && forall i :: 0 <= i < |blocks| ==> FoundBlock(all, blocks[i])
  }

  lemma SoundCons(all: seq<string>, b: Block, rest: seq<Block>, from: nat)
    requires Sound(all, b.first + |b.lines|, rest) && FoundBlock(all, b) && b.first >= from
    ensures Sound(all, from, [b] + rest)
  {
    hide IsServerBlock;
  }

  lemma SoundEarlier(all: seq<string>, blocks: seq<Block>, from: nat, k: nat)
    requires Sound(all, k, blocks) && from <= k
    ensures Sound(all, from, blocks)
  {
    hide FoundBlock;
  }

  lemma SoundNothing(all: seq<string>, from: nat)
    ensures Sound(all, from, [])
  {
  }

  /** The returned blocks are server blocks of the text, as disjoint line ranges in order. */
  lemma {:induction false} ScanIsSound(all: seq<string>, k: nat, cur: Option<Block>, depth: int)
    requires ScanState(all, k, cur, depth)
    requires ScanServers(all[k..], k, cur, depth).Ok?
    ensures Sound(all, if cur.Some? then cur.value.first else k, ScanServers(all[k..], k, cur, depth).value)
    decreases |all| - k
  {
    hide StartsServer, Delta, Sound, FoundBlock, Open;
    SoundNothing(all, k);
    if k < |all| {
      NextLine(all, k);
      if StartsServer(all[k]) {
        Restarts(all, k);
        ScanIsSound(all, k + 1, Some(Block(k, [all[k]])), 1);
        var blocks := ScanServers(all[k + 1..], k + 1, Some(Block(k, [all[k]])), 1).value;
        SoundEarlier(all, blocks, if cur.Some? then cur.value.first else k, k);
      } else if cur.None? {
        ScanIsSound(all, k + 1, None, depth);
        SoundEarlier(all, ScanServers(all[k + 1..], k + 1, None, depth).value, k, k + 1);
      } else {
        StaysOpen(all, k, cur.value, depth);
        var block := Block(cur.value.first, cur.value.lines + [all[k]]);
        if depth + Delta(all[k]) > 0 {
          ScanIsSound(all, k + 1, Some(block), depth + Delta(all[k]));
        } else {
          ScanIsSound(all, k + 1, None, 0);
          SoundCons(all, block, ScanServers(all[k + 1..], k + 1, None, 0).value, cur.value.first);
        }
      }
    }
  }

  /** Every server block of the text is returned. */
  lemma {:induction false} ScanIsComplete(all: seq<string>, k: nat, cur: Option<Block>, depth: int, a: nat, b: nat)
    requires ScanState(all, k, cur, depth)
    requires ScanServers(all[k..], k, cur, depth).Ok?
    requires IsServerBlock(all, a, b) && k <= b && (a >= k || (cur.Some? && a == cur.value.first))
    ensures Block(a, all[a..b + 1]) in ScanServers(all[k..], k, cur, depth).value
    decreases |all| - k
  {
    hide StartsServer, Delta;
    NextLine(all, k);
    if StartsServer(all[k]) {
      Restarts(all, k);
      ScanIsComplete(all, k + 1, Some(Block(k, [all[k]])), 1, a, b);
    } else if cur.None? {
      ScanIsComplete(all, k + 1, None, depth, a, b);
    } else {
      StaysOpen(all, k, cur.value, depth);
      var block := Block(cur.value.first, cur.value.lines + [all[k]]);
      if depth + Delta(all[k]) > 0 {
        ScanIsComplete(all, k + 1, Some(block), depth + Delta(all[k]), a, b);
      } else if a >= k {
        ScanIsComplete(all, k + 1, None, 0, a, b);
      } else {
        ClosesOnce(all, a, b, k);
      }
    }
  }

  /** A server block ends where its depth first reaches 0. */
  lemma ClosesOnce(all: seq<string>, a: nat, b: nat, k: nat)
    requires IsServerBlock(all, a, b) && a < k <= b && DepthAt(all, a, k) <= 0
    ensures k == b
  {
    hide StartsServer, Delta;
  }

  lemma MemberIsServerBlock(all: seq<string>, blocks: seq<Block>, a: nat, b: nat)
    requires Sound(all, 0, blocks) && a < b < |all| && Block(a, all[a..b + 1]) in blocks
    ensures IsServerBlock(all, a, b)
  {
    hide IsServerBlock, Ordered;
    var i :| 0 <= i < |blocks| && blocks[i] == Block(a, all[a..b + 1]);
    assert FoundBlock(all, blocks[i]);
  }

  /** The reader's blocks are exactly the server blocks of the text. */
  lemma ScanIsExact(all: seq<string>, a: nat, b: nat)
    requires ScanServers(all, 0, None, 0).Ok?
    ensures IsServerBlock(all, a, b) <==>
            a < b < |all| && Block(a, all[a..b + 1]) in ScanServers(all, 0, None, 0).value
  {
    hide StartsServer, Delta, Sound, Open, ScanServers;
    assert all[0..] == all;
    ScanIsSound(all, 0, None, 0);
    if IsServerBlock(all, a, b) {
      ScanIsComplete(all, 0, None, 0, a, b);
    } else if a < b < |all| && Block(a, all[a..b + 1]) in ScanServers(all, 0, None, 0).value {
      MemberIsServerBlock(all, ScanServers(all, 0, None, 0).value, a, b);
    }
  }

  /** Behind an open block started at line `a`, line `i` closes more braces than are open. */
  ghost predicate Breaks(all: seq<string>, a: nat, i: nat)
  {
    a < i < |all| && Open(all, a, i - 1) && !StartsServer(all[i]) && DepthAt(all, a, i) < 0
  }

  /** A block started at line `a` is open at the end of the text. */
  ghost predicate LeftOpen(all: seq<string>, a: nat)
  {
    a < |all| && Open(all, a, |all| - 1)
  }

  lemma {:induction false} MismatchIsBreak(all: seq<string>, k: nat, cur: Option<Block>, depth: int)
      returns (a: nat, i: nat)
    requires ScanState(all, k, cur, depth)
    requires ScanServers(all[k..], k, cur, depth) == Err(Mismatched)
    ensures Breaks(all, a, i)
    decreases |all| - k
  {
    hide StartsServer, Delta, Open;
    NextLine(all, k);
    if StartsServer(all[k]) {
      Restarts(all, k);
      a, i := MismatchIsBreak(all, k + 1, Some(Block(k, [all[k]])), 1);
    } else if cur.None? {
      a, i := MismatchIsBreak(all, k + 1, None, depth);
    } else {
      StaysOpen(all, k, cur.value, depth);
      var block := Block(cur.value.first, cur.value.lines + [all[k]]);
      var d := depth + Delta(all[k]);
      if d < 0 {
        a, i := cur.value.first, k;
      } else if d > 0 {
        a, i := MismatchIsBreak(all, k + 1, Some(block), d);
      } else {
        a, i := MismatchIsBreak(all, k + 1, None, 0);
      }
    }
  }

  lemma {:induction false} BreakIsMismatch(all: seq<string>, k: nat, cur: Option<Block>, depth: int, a: nat, i: nat)
    requires ScanState(all, k, cur, depth)
    requires Breaks(all, a, i) && k <= i && (a >= k || (cur.Some? && a == cur.value.first))
    ensures ScanServers(all[k..], k, cur, depth) == Err(Mismatched)
    decreases |all| - k
  {
    hide StartsServer, Delta;
    NextLine(all, k);
    if StartsServer(all[k]) {
      Restarts(all, k);
      BreakIsMismatch(all, k + 1, Some(Block(k, [all[k]])), 1, a, i);
    } else if cur.None? {
      BreakIsMismatch(all, k + 1, None, depth, a, i);
    } else {
      StaysOpen(all, k, cur.value, depth);
      var block := Block(cur.value.first, cur.value.lines + [all[k]]);
      var d := depth + Delta(all[k]);
      if d > 0 {
        BreakIsMismatch(all, k + 1, Some(block), d, a, i);
      } else if d == 0 {
        BreakIsMismatch(all, k + 1, None, 0, a, i);
      }
    }
  }

  lemma {:induction false} UnclosedIsLeftOpen(all: seq<string>, k: nat, cur: Option<Block>, depth: int) returns (a: nat)
    requires ScanState(all, k, cur, depth)
    requires ScanServers(all[k..], k, cur, depth) == Err(Unclosed)
    ensures LeftOpen(all, a)
    decreases |all| - k
  {
    hide StartsServer, Delta, Open;
    if k == |all| {
      a := cur.value.first;
    } else {
      NextLine(all, k);
      if StartsServer(all[k]) {
        Restarts(all, k);
        a := UnclosedIsLeftOpen(all, k + 1, Some(Block(k, [all[k]])), 1);
      } else if cur.None? {
        a := UnclosedIsLeftOpen(all, k + 1, None, depth);
      } else {
        StaysOpen(all, k, cur.value, depth);
        var block := Block(cur.value.first, cur.value.lines + [all[k]]);
        if depth + Delta(all[k]) > 0 {
          a := UnclosedIsLeftOpen(all, k + 1, Some(block), depth + Delta(all[k]));
        } else {
          a := UnclosedIsLeftOpen(all, k + 1, None, 0);
        }
      }
    }
  }

  lemma {:induction false} LeftOpenIsUnclosed(all: seq<string>, k: nat, cur: Option<Block>, depth: int, a: nat)
    requires ScanState(all, k, cur, depth) && ScanServers(all[k..], k, cur, depth) != Err(Mismatched)
    requires LeftOpen(all, a) && (a >= k || (cur.Some? && a == cur.value.first))
    ensures ScanServers(all[k..], k, cur, depth) == Err(Unclosed)
    decreases |all| - k
  {
    hide StartsServer, Delta;
    if k < |all| {
      NextLine(all, k);
      if StartsServer(all[k]) {
        Restarts(all, k);
        LeftOpenIsUnclosed(all, k + 1, Some(Block(k, [all[k]])), 1, a);
      } else if cur.None? {
        LeftOpenIsUnclosed(all, k + 1, None, depth, a);
      } else {
        StaysOpen(all, k, cur.value, depth);
        var block := Block(cur.value.first, cur.value.lines + [all[k]]);
        var d := depth + Delta(all[k]);
        if d > 0 {
          LeftOpenIsUnclosed(all, k + 1, Some(block), d, a);
        } else if d == 0 {
          LeftOpenIsUnclosed(all, k + 1, None, 0, a);
        }
      }
    }
  }

  /** The scan raises exactly when a line of an open block closes more than is open, or, without
      such a line, when a block is still open at the end. */
  lemma ScanRaisesIff(all: seq<string>)
    ensures ScanServers(all, 0, None, 0) == Err(Mismatched) <==> exists a, i :: Breaks(all, a, i)
    ensures ScanServers(all, 0, None, 0) == Err(Unclosed) <==>
            (forall a, i :: !Breaks(all, a, i)) && exists a :: LeftOpen(all, a)
  {
    hide Open, StartsServer, Delta, ScanServers;
    assert all[0..] == all;
    var r := ScanServers(all, 0, None, 0);
    if r == Err(Mismatched) { var a, i := MismatchIsBreak(all, 0, None, 0); }
    if a, i :| Breaks(all, a, i) {
      BreakIsMismatch(all, 0, None, 0, a, i);
    } else if r == Err(Unclosed) {
      var a := UnclosedIsLeftOpen(all, 0, None, 0);
    } else if a :| LeftOpen(all, a) {
      LeftOpenIsUnclosed(all, 0, None, 0, a);
    }
  }

  // ---------- location blocks ----------

  function Blanks(s: string): nat
  {
    |s| - |LStrip(s)|
  }

  /** The path in the text between `location ` and the brace, after a regular-expression mark `~ `. */
  function PathIn(seg: string): string
  {
    if |seg| >= 2 && seg[0] == '~' && IsSpace(seg[1]) then
      var rest := LStrip(seg[1..]);
      if rest != "" then Strip(rest) else if |seg| >= 3 then "" else "~"
    else
      Strip(seg)
  }

  /** The path captured by `location\s+(~\s+)?([^{]+)\s*{` at the start of a trimmed line, trimmed.
      When only blanks stand before the brace, the last of several is given back as the path. */
  function LocationPath(stripped: string): Option<string>
  {
    if !HasPrefix(stripped, "location") then None
    else
      var r := stripped[8..];
      var k := IndexOf('{', r);
      if Blanks(r) == 0 || k == |r| then None
      else if Blanks(r) < k then Some(PathIn(r[Blanks(r)..k]))
      else if Blanks(r) >= 2 then Some("")
      else None
  }

  /** A line opens a location exactly when whitespace follows the word, and at least one more character
      stands between it and the first brace. */
  lemma OpensLocationIff(line: string)
    ensures LocationPath(line).Some? <==>
            HasPrefix(line, "location") &&
            var r := line[8..];
            exists k :: 2 <= k < |r| && r[k] == '{' && '{' !in r[..k] && IsSpace(r[0])
  {
    if HasPrefix(line, "location") {
      var r := line[8..];
      IndexOfFirst('{', r);
      LStripParts(r);
      var k, n := IndexOf('{', r), Blanks(r);
      FirstIndex('{', r);
      BlankAhead(r, n);
    }
  }

  /** The path of a location line, with `b` the whitespace before it and `c` that behind it: the text
      between, without a mark `~` and the whitespace after it. A mark alone is the path itself, or
      nothing when more than one whitespace character follows it. */
  lemma PathOfLocation(b: string, p: string, c: string, rest: string)
    requires AllSpace(b) && b != "" && AllSpace(c) && p != "" && Trimmed(p) && '{' !in p
    ensures LocationPath("location" + (b + (p + c) + ("{" + rest))) ==
      Some(if p == "~" then (if |c| >= 2 then "" else "~")
           else if p[0] == '~' && IsSpace(p[1]) then LStrip(p[1..])
           else p)
  {
    assert !IsSpace('{');
    hide LStrip, Strip, IsSpace, PathIn;
    var seg := p + c;
    var r := b + seg + ("{" + rest);
    BlankHasNo('{', b);
    BlankHasNo('{', c);
    IndexOfPrefix('{', b + seg, "{" + rest);
    LStripAhead(b, seg + ("{" + rest));
    Associate(b, seg, "{" + rest);
    assert ("location" + r)[8..] == r && ("location" + r)[..8] == "location";
    assert r[|b|..|b| + |seg|] == seg;
    PathOf(p, c);
  }

  lemma PathOf(p: string, c: string)
    requires AllSpace(c) && p != "" && Trimmed(p)
    ensures PathIn(p + c) ==
      if p == "~" then (if |c| >= 2 then "" else "~")
      else if p[0] == '~' && IsSpace(p[1]) then LStrip(p[1..])
      else p
  {
    var seg := p + c;
    assert seg[0] == p[0];
    if p == "~" {
      assert seg[1..] == c;
      LStripBlank(c);
      if c == "" { assert seg == "~"; }
    } else if p[0] == '~' && IsSpace(p[1]) {
      MarkedPath(p, c);
    } else {
      if |p| > 1 { assert seg[1] == p[1]; } else { assert p == [p[0]] && p[0] != '~'; }
      StripUnique("", p, c);
      assert "" + p + c == seg;
    }
  }

  lemma MarkedPath(p: string, c: string)
    requires AllSpace(c) && |p| >= 2 && Trimmed(p) && p[0] == '~' && IsSpace(p[1])
    ensures PathIn(p + c) == LStrip(p[1..])
  {
    var seg, q := p + c, LStrip(p[1..]);
    LStripParts(p[1..]);
    var n := |p[1..]| - |q|;
    var b := p[1..][..n];
    assert p[1..] == b + q && p[1..][|p| - 2] == p[|p| - 1];
    assert !AllSpace(p[1..]);
    assert q != "" && q[|q| - 1] == p[|p| - 1];
    assert seg[1..] == b + (q + c) && seg[1] == p[1];
    LStripAhead(b, q + c);
    StripUnique("", q, c);
    assert "" + q + c == q + c;
  }

  /** With nothing but whitespace before the brace the path is empty, and one character is too few. */
  lemma BlankLocation(b: string, rest: string)
    requires AllSpace(b)
    ensures LocationPath("location" + (b + ("{" + rest))) == if |b| >= 2 then Some("") else None
  {
    var r := b + ("{" + rest);
    BlankHasNo('{', b);
    IndexOfPrefix('{', b, "{" + rest);
    LStripAhead(b, "{" + rest);
    assert ("location" + r)[8..] == r && ("location" + r)[..8] == "location";
  }

  datatype LocationBlock = LocationBlock(path: string, lines: seq<string>)

  /** A line opening a location restarts the block being read; a block never closed is dropped. */
  function ScanLocations(lines: seq<string>, cur: Option<LocationBlock>, depth: int): seq<LocationBlock>
    decreases lines
  {
    if lines == [] then []
    else
      var path := LocationPath(Strip(lines[0]));
      if path.Some? then ScanLocations(lines[1..], Some(LocationBlock(path.value, [lines[0]])), 1)
      else if cur.None? then ScanLocations(lines[1..], None, depth)
      else
        var block := LocationBlock(cur.value.path, cur.value.lines + [lines[0]]);
        var d := depth + Delta(lines[0]);
        if d == 0 then [block] + ScanLocations(lines[1..], None, 0)
        else ScanLocations(lines[1..], Some(block), d)
  }

  predicate StartsLocation(line: string)
  {
    LocationPath(Strip(line)).Some?
  }

  /** Lines `a..i` are the open part of a location: started at `a`, never restarted, depth not 0. Unlike
      for a server the depth may be negative. */
  ghost predicate OpenLocation(all: seq<string>, a: nat, i: nat)
    requires a <= i < |all|
  {
    && StartsLocation(all[a])
    && forall j :: a < j <= i ==> !StartsLocation(all[j]) && DepthAt(all, a, j) != 0
  }

  /** Lines `a..b` are a location block: open until the depth first becomes 0, at line `b`. */
  ghost predicate IsLocationBlock(all: seq<string>, a: nat, b: nat)
  {
    a < b < |all| && OpenLocation(all, a, b - 1) && !StartsLocation(all[b]) && DepthAt(all, a, b) == 0
  }

  /** First and last line of a block. */
  datatype Range = Range(first: nat, last: nat)

  /** `blocks` are the location blocks of the text at the line ranges `rs`. */
  ghost predicate LocatedAt(all: seq<string>, rs: seq<Range>, blocks: seq<LocationBlock>)
  {
    && |rs| == |blocks|
    && forall i :: 0 <= i < |rs| ==>
      && IsLocationBlock(all, rs[i].first, rs[i].last)
      && blocks[i] == LocationBlock(LocationPath(Strip(all[rs[i].first])).value, all[rs[i].first..rs[i].last + 1])
  }

  /** Ranges in order, none overlapping the next, all at or after line `from`. */
  ghost predicate InOrder(from: nat, rs: seq<Range>)
  {
    && (forall i :: 0 <= i < |rs| ==> from <= rs[i].first)
    && (forall i, j :: 0 <= i < j < |rs| ==> rs[i].last < rs[j].first)
  }

  /** Every location block that ends at line `k` or later and began at line `k` or later, or at the
      line `start` of the open block, is among the ranges. */
  ghost predicate Complete(all: seq<string>, k: nat, start: Option<nat>, rs: seq<Range>)
  {
    forall a: nat, b: nat ::
      IsLocationBlock(all, a, b) && k <= b && (a >= k || start == Some(a)) ==> Range(a, b) in rs
  }

  /** Where the open location of a scan stands. */
  ghost predicate LocationState(all: seq<string>, k: nat, start: Option<nat>, cur: Option<LocationBlock>, depth: int)
  {
    && k <= |all|
    && match start
       case None => cur.None?
       case Some(a) =>
         && a < k && OpenLocation(all, a, k - 1) && depth == DepthAt(all, a, k - 1)
         && cur == Some(LocationBlock(LocationPath(Strip(all[a])).value, all[a..k]))
  }

  lemma LocationRestarts(all: seq<string>, k: nat)
    requires k < |all| && StartsLocation(all[k])
    ensures var block := LocationBlock(LocationPath(Strip(all[k])).value, [all[k]]);
      LocationState(all, k + 1, Some(k), Some(block), 1)
  {
    hide LocationPath, Delta;
    assert all[k..k + 1] == [all[k]];
  }

  /** The open location after line `k`, when it is neither restarted nor closed there. */
  lemma LocationStaysOpen(all: seq<string>, k: nat, a: nat, cur: LocationBlock, depth: int)
    requires k < |all| && LocationState(all, k, Some(a), Some(cur), depth) && !StartsLocation(all[k])
    ensures var block, d := LocationBlock(cur.path, cur.lines + [all[k]]), depth + Delta(all[k]);
      && (d != 0 ==> LocationState(all, k + 1, Some(a), Some(block), d))
      && (d == 0 ==> IsLocationBlock(all, a, k)
                     && block == LocationBlock(LocationPath(Strip(all[a])).value, all[a..k + 1]))
  {
    hide LocationPath, StartsLocation, Delta;
    TakeLine(all, a, k);
  }

  lemma RestartedAtLine(all: seq<string>, k: nat, start: Option<nat>, a: nat, b: nat)
    requires k < |all| && (start.Some? ==> start.value < k)
    requires IsLocationBlock(all, a, b) && k <= b && (a >= k || start == Some(a))
    ensures a < b
    ensures StartsLocation(all[k]) ==> k + 1 <= b && (a >= k + 1 || a == k)
    ensures !StartsLocation(all[k]) && start.None? ==> a >= k + 1
    ensures !StartsLocation(all[k]) && start.Some? && DepthAt(all, start.value, k) != 0 ==> k + 1 <= b && a != k
    ensures !StartsLocation(all[k]) && start.Some? && DepthAt(all, start.value, k) == 0 ==>
      a >= k + 1 || (a == start.value && b == k)
  {
    hide StartsLocation, Delta;
  }

  /** Going on behind line `k` with the block started at `next` open, after the blocks `closed`, if
      any, misses nothing. */
  lemma CompleteBefore(all: seq<string>, k: nat, start: Option<nat>, next: Option<nat>, closed: seq<Range>,
      rs: seq<Range>)
    requires k < |all| && Complete(all, k + 1, next, rs) && (start.Some? ==> start.value < k)
    requires if StartsLocation(all[k]) then next == Some(k) && closed == []
             else if start.None? || DepthAt(all, start.value, k) != 0 then next == start && closed == []
             else next == None && closed == [Range(start.value, k)]
    ensures Complete(all, k, start, closed + rs)
  {
    hide IsLocationBlock, StartsLocation, DepthAt;
    forall a: nat, b: nat | IsLocationBlock(all, a, b) && k <= b && (a >= k || start == Some(a))
      ensures Range(a, b) in closed + rs
    {
      RestartedAtLine(all, k, start, a, b);
      assert b == k ==> Range(a, b) in closed;
      assert b > k ==> Range(a, b) in rs;
    }
  }

  lemma LocatedCons(all: seq<string>, r: Range, block: LocationBlock, rs: seq<Range>, blocks: seq<LocationBlock>)
    requires IsLocationBlock(all, r.first, r.last) && LocatedAt(all, rs, blocks) && InOrder(r.last + 1, rs)
    requires block == LocationBlock(LocationPath(Strip(all[r.first])).value, all[r.first..r.last + 1])
    ensures LocatedAt(all, [r] + rs, [block] + blocks) && InOrder(r.first, [r] + rs)
  {
    hide LocationPath, Delta, OpenLocation;
    var more, all' := [r] + rs, [block] + blocks;
    forall i | 0 < i < |more| ensures more[i] == rs[i - 1] && all'[i] == blocks[i - 1] {}
  }

  /** The location scan: what it returns are the location blocks of the text, at disjoint line ranges in
      order, and every location block is among them. */
  lemma {:induction false} LocationsFrom(all: seq<string>, k: nat, start: Option<nat>, cur: Option<LocationBlock>,
      depth: int) returns (rs: seq<Range>)
    requires LocationState(all, k, start, cur, depth)
    ensures LocatedAt(all, rs, ScanLocations(all[k..], cur, depth))
    ensures InOrder(if start.Some? then start.value else k, rs)
    ensures Complete(all, k, start, rs)
    decreases |all| - k, 1
  {
    hide LocationPath, Delta, IsLocationBlock, OpenLocation, LocatedAt, Complete, DepthAt;
    if k == |all| {
      rs := [];
      NothingLocated(all, start);
    } else {
      NextLine(all, k);
      if StartsLocation(all[k]) {
        LocationRestarts(all, k);
        var block := LocationBlock(LocationPath(Strip(all[k])).value, [all[k]]);
        rs := LocationsFrom(all, k + 1, Some(k), Some(block), 1);
        CompleteBefore(all, k, start, Some(k), [], rs);
      } else if cur.None? {
        rs := LocationsFrom(all, k + 1, None, None, depth);
        CompleteBefore(all, k, start, None, [], rs);
      } else {
        rs := LocationOpen(all, k, start.value, cur.value, depth);
      }
    }
    assert [] + rs == rs;
  }

  lemma {:induction false} LocationOpen(all: seq<string>, k: nat, a: nat, cur: LocationBlock, depth: int)
      returns (rs: seq<Range>)
    requires k < |all| && LocationState(all, k, Some(a), Some(cur), depth) && !StartsLocation(all[k])
    ensures LocatedAt(all, rs, ScanLocations(all[k..], Some(cur), depth))
    ensures InOrder(a, rs)
    ensures Complete(all, k, Some(a), rs)
    decreases |all| - k, 0
  {
    hide LocationPath, Delta, IsLocationBlock, OpenLocation, LocatedAt, Complete;
    NextLine(all, k);
    LocationStaysOpen(all, k, a, cur, depth);
    var block, d := LocationBlock(cur.path, cur.lines + [all[k]]), depth + Delta(all[k]);
    if d != 0 {
      rs := LocationsFrom(all, k + 1, Some(a), Some(block), d);
      CompleteBefore(all, k, Some(a), Some(a), [], rs);
      assert [] + rs == rs;
    } else {
      var rest := LocationsFrom(all, k + 1, None, None, 0);
      LocatedCons(all, Range(a, k), block, rest, ScanLocations(all[k + 1..], None, 0));
      CompleteBefore(all, k, Some(a), None, [Range(a, k)], rest);
      rs := [Range(a, k)] + rest;
    }
  }

  /** On any text the location blocks returned are the location blocks of the text: there are line
      ranges, disjoint and in order, at which they stand, and a range is one of these if and only if it
      begins at a line that opens a location, holds no other such line, and its depth becomes 0 first at
      its last line. */
  lemma LocationScanIsExact(all: seq<string>) returns (rs: seq<Range>)
    ensures LocatedAt(all, rs, ScanLocations(all, None, 0)) && InOrder(0, rs)
    ensures forall a: nat, b: nat :: IsLocationBlock(all, a, b) <==> Range(a, b) in rs
  {
    hide LocationPath, Delta, OpenLocation, ScanLocations, IsLocationBlock;
    assert all[0..] == all;
    rs := LocationsFrom(all, 0, None, None, 0);
    forall a: nat, b: nat | Range(a, b) in rs ensures IsLocationBlock(all, a, b) {
      var i :| 0 <= i < |rs| && rs[i] == Range(a, b);
    }
  }

  lemma NothingLocated(all: seq<string>, start: Option<nat>)
    ensures LocatedAt(all, [], []) && Complete(all, |all|, start, [])
  {
  }

  // ---------- fields ----------

  function ServerName(block: string): Option<string>
  {
    match FindDirective("server_name", block)
    case None => None
    case Some(value) =>
      var names := Words(Strip(value));
      if names == [] || names[0] == "_" then None else Some(names[0])
  }

  /** An ASCII character of a regular-expression word. */
  predicate IsWord(c: char)
  {
    'a' <= c <= 'z' || 'A' <= c <= 'Z' || '0' <= c <= '9' || c == '_'
  }

  lemma WordCharacters(c: char)
    ensures IsWord(c) <==> c in "abcdefghijklmnopqrstuvwxyz" || c in "ABCDEFGHIJKLMNOPQRSTUVWXYZ" || c in "0123456789_"
  {
  }

  /** The word `ssl` in `r` before any semicolon, with `prev` the character before `r`. */
  predicate SslWithin(prev: char, r: string)
    decreases r
  {
    && r != ""
    && ((HasPrefix(r, "ssl") && !IsWord(prev) && (|r| == 3 || !IsWord(r[3])))
        || (r[0] != ';' && SslWithin(r[0], r[1..])))
  }

  predicate ListensHere(t: string)
  {
    HasPrefix(t, "listen") && |t| > 6 && IsSpace(t[6]) && SslWithin(t[6], t[7..])
  }

  /** A match of `listen\s+[^;]*\bssl\b`. */
  predicate DetectTls(t: string)
  {
    ListensHere(t) || (t != "" && DetectTls(t[1..]))
  }

  function ProxyPass(content: string): Option<string>
  {
    match FindDirective("proxy_pass", content)
    case None => None
    case Some(value) => Some(Strip(value))
  }

  lemma UpstreamIsTrimmed(content: string)
    ensures ProxyPass(content).Some? ==> Trimmed(ProxyPass(content).value)
  {
    var found := FindDirective("proxy_pass", content);
    if found.Some? { StripIsTrimmed(found.value); }
  }

  function StripScheme(url: string): string
  {
    if HasPrefix(url, "http://") then url[7..]
    else if HasPrefix(url, "https://") then url[8..]
    else url
  }

  /** Length of the longest prefix without `:` and `/`. */
  function HostLength(url: string): (k: nat)
    ensures k <= |url|
  {
    if url == "" || url[0] == ':' || url[0] == '/' then 0 else 1 + HostLength(url[1..])
  }

  function ServiceName(proxyPass: string): Result<string, Error>
  {
    var url := StripScheme(proxyPass);
    var host := Strip(url[..HostLength(url)]);
    if host == "" then Err(BadProxyPass) else Ok(host)
  }

  function RoutesIn(host: string, tls: bool, blocks: seq<LocationBlock>): Result<seq<Route>, Error>
  {
    if blocks == [] then Ok([])
    else
      var pass := ProxyPass(Join('\n', blocks[0].lines));
      if pass.None? || pass.value == "" then RoutesIn(host, tls, blocks[1..])
      else
        match ServiceName(pass.value)
        case Err(e) => Err(e)
        case Ok(service) =>
          match RoutesIn(host, tls, blocks[1..])
          case Err(e) => Err(e)
          case Ok(rest) => Ok([Route(host, blocks[0].path, service, tls)] + rest)
  }

  function ServerRoutes(block: string): Result<seq<Route>, Error>
  {
    match ServerName(block)
    case None => Ok([])
    case Some(host) => RoutesIn(host, DetectTls(block), ScanLocations(Split('\n', block), None, 0))
  }

  function BlocksRoutes(blocks: seq<Block>): Result<seq<Route>, Error>
  {
    if blocks == [] then Ok([])
    else
      match ServerRoutes(Join('\n', blocks[0].lines))
      case Err(e) => Err(e)
      case Ok(routes) =>
        match BlocksRoutes(blocks[1..])
        case Err(e) => Err(e)
        case Ok(rest) => Ok(routes + rest)
  }

  function ConfigRoutes(config: string): Result<seq<Route>, Error>
  {
    if Strip(config) == "" then Ok([])
    else
      match ScanServers(Split('\n', config), 0, None, 0)
      case Err(e) => Err(e)
      case Ok(blocks) => BlocksRoutes(blocks)
  }

  // ---------- the reader ----------

  /** What a parse returns: the proxy node's name and the routes. */
  datatype ParsedConfig = ParsedConfig(proxyName: string, routes: seq<Route>)

  class SwagReader {
    const proxyName: string

    constructor (name: string)
      ensures proxyName == name
    {
      proxyName := name;
    }

    method ParseConfig(config: string) returns (r: Result<ParsedConfig, Error>)
      ensures match ConfigRoutes(config)
              case Ok(routes) => r == Ok(ParsedConfig(proxyName, routes))
              case Err(e) => r == Err(e)
    {
      hide ScanServers, ServerRoutes;
      if Strip(config) == "" { return Ok(ParsedConfig(proxyName, [])); }
      var found := ExtractServerBlocks(config);
      if found.Err? { return Err(found.error); }
      var blocks, routes, i := found.value, [], 0;
      assert blocks[0..] == blocks;
      AfterNoRoutes([], BlocksRoutes(blocks));
      while i < |blocks|
        invariant 0 <= i <= |blocks|
        invariant BlocksRoutes(blocks) == AfterRoutes(routes, BlocksRoutes(blocks[i..]))
      {
        SplitHead([], blocks, i);
        var more := ParseServerBlock(Join('\n', blocks[i].lines));
        if more.Err? { return Err(more.error); }
        AfterMoreRoutes(routes, more.value, BlocksRoutes(blocks[i + 1..]));
        routes := routes + more.value;
        i := i + 1;
      }
      AfterNoRoutes(routes, Ok([]));
      return Ok(ParsedConfig(proxyName, routes));
    }

    method ExtractServerBlocks(config: string) returns (r: Result<seq<Block>, Error>)
      ensures r == ScanServers(Split('\n', config), 0, None, 0)
    {
      var lines := Split('\n', config);
      var blocks: seq<Block> := [];
      var current: Option<Block> := None;
      var depth, i := 0, 0;
      assert lines[0..] == lines;
      AfterNoBlocks([], ScanServers(lines, 0, None, 0));
      while i < |lines|
        invariant 0 <= i <= |lines| && (current.None? ==> depth == 0)
        invariant ScanServers(lines, 0, None, 0) == AfterBlocks(blocks, ScanServers(lines[i..], i, current, depth))
      {
        NextLine(lines, i);
        var line := lines[i];
        ScanStep(lines[i..], i, current, depth);
        i := i + 1;
        if StartsServer(line) {
          current, depth := Some(Block(i - 1, [line])), 1;
          continue;
        }
        if current.Some? {
          current := Some(Block(current.value.first, current.value.lines + [line]));
          depth := depth + Delta(line);
          if depth < 0 { return Err(Mismatched); }
          if depth == 0 {
            AfterBlock(blocks, current.value, ScanServers(lines[i..], i, None, 0));
            blocks, current := blocks + [current.value], None;
          }
        }
      }
      AfterNoBlocks(blocks, Ok([]));
      if current.Some? || depth != 0 { return Err(Unclosed); }
      return Ok(blocks);
    }

    method ParseServerBlock(block: string) returns (r: Result<seq<Route>, Error>)
      ensures r == ServerRoutes(block)
    {
      hide DetectTls, ProxyPass, ServiceName;
      var name := ServerName(block);
      if name.None? { return Ok([]); }
      var tls := DetectTls(block);
      var blocks := ExtractLocationBlocks(block);
      var routes, i := [], 0;
      assert blocks[0..] == blocks;
      AfterNoRoutes([], RoutesIn(name.value, tls, blocks));
      while i < |blocks|
        invariant 0 <= i <= |blocks|
        invariant RoutesIn(name.value, tls, blocks) == AfterRoutes(routes, RoutesIn(name.value, tls, blocks[i..]))
      {
        SplitHead([], blocks, i);
        var pass := ProxyPass(Join('\n', blocks[i].lines));
        if pass.Some? && pass.value != "" {
          var service := ServiceName(pass.value);
          if service.Err? { return Err(service.error); }
          var route := Route(name.value, blocks[i].path, service.value, tls);
          AfterMoreRoutes(routes, [route], RoutesIn(name.value, tls, blocks[i + 1..]));
          routes := routes + [route];
        }
        i := i + 1;
      }
      AfterNoRoutes(routes, Ok([]));
      return Ok(routes);
    }

    method ExtractLocationBlocks(block: string) returns (blocks: seq<LocationBlock>)
      ensures blocks == ScanLocations(Split('\n', block), None, 0)
    {
      hide LocationPath, Delta;
      var lines := Split('\n', block);
      blocks := [];
      var current: Option<LocationBlock> := None;
      var depth, i := 0, 0;
      while i < |lines|
        invariant 0 <= i <= |lines|
        invariant ScanLocations(lines, None, 0) == blocks + ScanLocations(lines[i..], current, depth)
      {
        NextLine(lines, i);
        var line := lines[i];
        i := i + 1;
        var path := LocationPath(Strip(line));
        if path.Some? {
          current, depth := Some(LocationBlock(path.value, [line])), 1;
          continue;
        }
        if current.Some? {
          current := Some(LocationBlock(current.value.path, current.value.lines + [line]));
          depth := depth + Delta(line);
          if depth == 0 {
            Associate(blocks, [current.value], ScanLocations(lines[i..], None, 0));
            blocks, current := blocks + [current.value], None;
          }
        }
      }
    }
  }

  /** The result of a scan after `done` was found already. */
  function AfterBlocks(done: seq<Block>, r: Result<seq<Block>, Error>): Result<seq<Block>, Error>
  {
    match r
    case Ok(blocks) => Ok(done + blocks)
    case Err(e) => Err(e)
  }

  function AfterRoutes(done: seq<Route>, r: Result<seq<Route>, Error>): Result<seq<Route>, Error>
  {
    match r
    case Ok(routes) => Ok(done + routes)
    case Err(e) => Err(e)
  }

  lemma AfterNoRoutes(done: seq<Route>, r: Result<seq<Route>, Error>)
    ensures AfterRoutes([], r) == r && AfterRoutes(done, Ok([])) == Ok(done)
  {
    if r.Ok? { assert [] + r.value == r.value; }
    assert done + [] == done;
  }

  lemma AfterNoBlocks(done: seq<Block>, r: Result<seq<Block>, Error>)
    ensures AfterBlocks([], r) == r && AfterBlocks(done, Ok([])) == Ok(done)
  {
    if r.Ok? { assert [] + r.value == r.value; }
    assert done + [] == done;
  }

  lemma AfterMoreRoutes(a: seq<Route>, b: seq<Route>, r: Result<seq<Route>, Error>)
    ensures AfterRoutes(a, AfterRoutes(b, r)) == AfterRoutes(a + b, r)
  {
    if r.Ok? { Associate(a, b, r.value); }
  }

  lemma AfterBlock(done: seq<Block>, b: Block, r: Result<seq<Block>, Error>)
    ensures AfterBlocks(done, AfterBlocks([b], r)) == AfterBlocks(done + [b], r)
  {
    if r.Ok? { Associate(done, [b], r.value); }
  }

  /** One line of the server scan. */
  lemma ScanStep(lines: seq<string>, k: nat, cur: Option<Block>, depth: int)
    requires lines != []
    ensures StartsServer(lines[0]) ==>
              ScanServers(lines, k, cur, depth) == ScanServers(lines[1..], k + 1, Some(Block(k, [lines[0]])), 1)
    ensures !StartsServer(lines[0]) && cur.None? ==>
              ScanServers(lines, k, cur, depth) == ScanServers(lines[1..], k + 1, None, depth)
    ensures !StartsServer(lines[0]) && cur.Some? ==>
              var block, d := Block(cur.value.first, cur.value.lines + [lines[0]]), depth + Delta(lines[0]);
              ScanServers(lines, k, cur, depth) ==
                if d < 0 then Err(Mismatched)
                else if d == 0 then AfterBlocks([block], ScanServers(lines[1..], k + 1, None, 0))
                else ScanServers(lines[1..], k + 1, Some(block), d)
  {
    hide StartsServer, Delta;
  }
}
