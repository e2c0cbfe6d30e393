/** A canonical printer for SWAG proxy configurations, and what the reader makes of its output. */
module SwagPrinter {
  import opened Text
  import opened Lines
  import opened Swag

  datatype Scheme = Bare | Http | Https

  /** An upstream: `rest` is empty or starts at the colon or slash after the service. */
  datatype Upstream = Upstream(scheme: Scheme, service: string, rest: string)

  datatype Location = Location(path: string, upstream: Option<Upstream>)

  datatype Server = Server(host: string, tls: bool, locations: seq<Location>)

  // ---------- printing ----------

  function SchemeText(s: Scheme): string
  {
    match s
    case Bare => ""
    case Http => "http://"
    case Https => "https://"
  }

  function Url(u: Upstream): string
  {
    SchemeText(u.scheme) + u.service + u.rest
  }

  function OpenLine(l: Location): string
  {
    "    " + ("location " + l.path + " {")
  }

  function PassLine(u: Upstream): string
  {
    "        " + ("proxy_pass " + Url(u) + ";")
  }

  function LocationLines(l: Location): seq<string>
  {
    if l.upstream.Some? then [OpenLine(l), PassLine(l.upstream.value), "    }"] else [OpenLine(l), "    }"]
  }

  function AllLocationLines(ls: seq<Location>): seq<string>
  {
    if ls == [] then [] else LocationLines(ls[0]) + AllLocationLines(ls[1..])
  }

  function ListenLine(tls: bool): string
  {
    if tls then "    " + "listen 443 ssl;" else "    " + "listen 80;"
  }

  function NameLine(host: string): string
  {
    "    " + ("server_name " + host + ";")
  }

  function ServerLines(s: Server): seq<string>
  {
    ["server {", ListenLine(s.tls), NameLine(s.host)] + (AllLocationLines(s.locations) + ["}"])
  }

  function FileLines(servers: seq<Server>): seq<string>
  {
    if servers == [] then [] else ServerLines(servers[0]) + FileLines(servers[1..])
  }

  function Print(servers: seq<Server>): string
  {
    Join('\n', FileLines(servers))
  }

  // ---------- well-formed fields ----------

  /** Free of the characters that end a directive, a block or a line. */
  predicate Plain(s: string)
  {
    ';' !in s && '{' !in s && '}' !in s && '\n' !in s
  }

  predicate GoodUpstream(u: Upstream)
  {
    && Plain(u.service) && Plain(u.rest) && u.service != "" && NoSpace(u.service) && NoSpace(u.rest)
    && ':' !in u.service && '/' !in u.service
    && (u.rest == "" || u.rest[0] == ':' || u.rest[0] == '/')
    && (u.scheme.Bare? ==> !HasPrefix(Url(u), "http://") && !HasPrefix(Url(u), "https://"))
  }

  predicate GoodPath(path: string)
  {
    && path != "" && Trimmed(path) && Plain(path) && !Contains(path, "server")
    && !(|path| >= 2 && path[0] == '~' && IsSpace(path[1]))
  }

  predicate GoodLocation(l: Location)
  {
    GoodPath(l.path) && (l.upstream.Some? ==> GoodUpstream(l.upstream.value))
  }

  predicate GoodHost(host: string)
  {
    host != "" && NoSpace(host) && Plain(host)
  }

  predicate GoodServer(s: Server)
  {
    GoodHost(s.host) && forall i {:trigger GoodLocation(s.locations[i])} :: 0 <= i < |s.locations| ==>
        GoodLocation(s.locations[i])
  }

  // ---------- what a reader should find ----------

  function RoutesOf(host: string, tls: bool, ls: seq<Location>): seq<Route>
  {
    if ls == [] then []
    else if ls[0].upstream.None? then RoutesOf(host, tls, ls[1..])
    else [Route(host, ls[0].path, ls[0].upstream.value.service, tls)] + RoutesOf(host, tls, ls[1..])
  }

  /** The routes of all servers in order; `_` is the catch-all server and has none. */
  function AllRoutes(servers: seq<Server>): seq<Route>
  {
    if servers == [] then []
    else
      var s := servers[0];
      (if s.host == "_" then [] else RoutesOf(s.host, s.tls, s.locations)) + AllRoutes(servers[1..])
  }

  // ---------- single lines ----------

  /** The scanners' view of an ordinary line inside a block. */
  ghost predicate Ordinary(line: string, delta: int)
  {
    && !StartsServer(line) && Delta(line) == delta
    && LocationPath(Strip(line)).None? && '\n' !in line
  }

  lemma StripIndent(indent: string, s: string)
    requires AllSpace(indent) && Trimmed(s)
    ensures Strip(indent + s) == s
  {
    StripUnique(indent, s, "");
    assert indent + s + "" == indent + s;
  }

  lemma CountParts(c: char, a: string, b: string, d: string)
    ensures Count(c, a + b + d) == Count(c, a) + Count(c, b) + Count(c, d)
  {
    CountConcat(c, a + b, d);
    CountConcat(c, a, b);
  }

  lemma NoBraces(s: string)
    requires '{' !in s && '}' !in s
    ensures Count('{', s) == 0 && Count('}', s) == 0
  {
    CountNone('{', s);
    CountNone('}', s);
  }

  /** A trimmed line without braces that does not open a location. */
  lemma BracelessLine(indent: string, s: string)
    requires AllSpace(indent) && '\n' !in indent && Trimmed(s)
    requires '{' !in s && '}' !in s && '\n' !in s && !HasPrefix(s, "location")
    ensures Ordinary(indent + s, 0)
  {
    StripIndent(indent, s);
    NoBraces(s);
    hide Strip, Contains, Count, HasPrefix;
  }

  lemma ClosingLine(indent: string)
    requires AllSpace(indent) && '\n' !in indent
    ensures Ordinary(indent + "}", -1)
  {
    StripIndent(indent, "}");
  }

  lemma ServerLine()
    ensures StartsServer("server {") && LocationPath(Strip("server {")).None? && '\n' !in "server {"
  {
    StripTrimmed("server {");
  }

  lemma ListenLineIsOrdinary(tls: bool)
    ensures Ordinary(ListenLine(tls), 0)
  {
    var s := if tls then "listen 443 ssl;" else "listen 80;";
    assert s[..8][1] == 'i';
    BracelessLine("    ", s);
  }

  lemma NameLineIsOrdinary(host: string)
    requires GoodHost(host)
    ensures Ordinary(NameLine(host), 0)
  {
    BracelessLine("    ", "server_name " + host + ";");
  }

  lemma PassLineIsOrdinary(u: Upstream)
    requires GoodUpstream(u)
    ensures Ordinary(PassLine(u), 0)
  {
    BracelessLine("        ", "proxy_pass " + Url(u) + ";");
  }

  lemma BracesAround()
    ensures Count('{', "location ") == 0 && Count('}', "location ") == 0
    ensures Count('{', " {") == 1 && Count('}', " {") == 0
  {
    NoBraces("location ");
    NoBraces(" ");
    CountConcat('{', " ", "{");
    CountConcat('}', " ", "{");
    assert " " + "{" == " {";
  }

  lemma BracesOfLocation(path: string)
    requires Plain(path)
    ensures Count('{', "location " + path + " {") == 1 && Count('}', "location " + path + " {") == 0
  {
    hide Count;
    CountParts('{', "location ", path, " {");
    CountParts('}', "location ", path, " {");
    NoBraces(path);
    BracesAround();
  }

  lemma LineOfLocation(l: Location)
    requires GoodLocation(l)
    ensures !StartsServer(OpenLine(l)) && Delta(OpenLine(l)) == 1 && '\n' !in OpenLine(l)
    ensures LocationPath(Strip(OpenLine(l))) == Some(l.path)
  {
    hide Strip, Contains, HasPrefix, LocationPath, Count;
    StripIndent("    ", "location " + l.path + " {");
    BracesOfLocation(l.path);
    NoServerInLocation(l.path);
    PathOfLocation(l.path);
  }

  lemma NoServerInLocation(path: string)
    requires GoodPath(path)
    ensures !Contains("location " + path + " {", "server")
  {
    hide HasPrefix, Trimmed, Contains;
    ContainsAcross("location", ' ', path + " {", "server");
    ContainsAcross(path, ' ', "{", "server");
    NotContained("location", "server", 's');
    NotContained("{", "server", 's');
    assert "location" + [' '] + (path + " {") == "location " + path + " {";
    assert path + [' '] + "{" == path + " {";
  }

  lemma PathBeforeBrace(path: string)
    requires path != "" && Trimmed(path) && !(|path| >= 2 && path[0] == '~' && IsSpace(path[1]))
    ensures PathIn(path + " ") == path
  {
    var seg := path + " ";
    StripUnique("", path, " ");
    assert "" + path + " " == seg;
    if path == "~" {
      LStripBlank(" ");
      assert seg[1..] == " ";
    }
  }

  lemma PathOfLocation(path: string)
    requires GoodPath(path)
    ensures LocationPath("location " + path + " {") == Some(path)
  {
    hide PathIn, Contains;
    var s := "location " + path + " {";
    var seg := path + " ";
    var r := " " + (seg + "{");
    assert s[..8] == "location" && s[8..] == r;
    assert r[1..] == seg + "{";
    assert LStrip(r) == seg + "{";
    assert (" " + seg) + "{" == r;
    IndexOfPrefix('{', " " + seg, "{");
    assert r[1..|seg| + 1] == seg;
    PathBeforeBrace(path);
  }

  // ---------- the server scan over printed lines ----------

  /** The block after more lines. */
  function Longer(b: Block, lines: seq<string>): Block
  {
    Block(b.first, b.lines + lines)
  }

  lemma ScanOrdinary(line: string, delta: int, rest: seq<string>, k: nat, b: Block, depth: int)
    requires !StartsServer(line) && Delta(line) == delta && depth + delta > 0
    ensures ScanServers([line] + rest, k, Some(b), depth) ==
              ScanServers(rest, k + 1, Some(Longer(b, [line])), depth + delta)
  {
    hide StartsServer, Delta, ScanServers;
    ScanStep([line] + rest, k, Some(b), depth);
    assert ([line] + rest)[1..] == rest;
  }

  lemma LongerTwice(b: Block, x: seq<string>, y: seq<string>)
    ensures Longer(Longer(b, x), y) == Longer(b, x + y)
  {
    Associate(b.lines, x, y);
  }

  lemma ScanLocation(l: Location, rest: seq<string>, k: nat, b: Block)
    requires GoodLocation(l)
    ensures ScanServers(LocationLines(l) + rest, k, Some(b), 1) ==
              ScanServers(rest, k + |LocationLines(l)|, Some(Longer(b, LocationLines(l))), 1)
  {
    hide ScanServers, StartsServer, Delta, LocationPath, GoodLocation, GoodUpstream, OpenLine, PassLine, Longer;
    LineOfLocation(l);
    ClosingLine("    ");
    var close := "    " + "}";
    assert close == "    }";
    var b1 := Longer(b, [OpenLine(l)]);
    if l.upstream.Some? {
      UpstreamOf(l);
      PassLineIsOrdinary(l.upstream.value);
      var pass := PassLine(l.upstream.value);
      ScanOrdinary(OpenLine(l), 1, [pass] + ([close] + rest), k, b, 1);
      ScanOrdinary(pass, 0, [close] + rest, k + 1, b1, 2);
      ScanOrdinary(close, -1, rest, k + 2, Longer(b1, [pass]), 2);
      LongerTwice(b, [OpenLine(l)], [pass]);
      LongerTwice(b, [OpenLine(l)] + [pass], [close]);
      assert [OpenLine(l)] + [pass] + [close] == LocationLines(l);
      assert [OpenLine(l)] + ([pass] + ([close] + rest)) == LocationLines(l) + rest;
    } else {
      ScanOrdinary(OpenLine(l), 1, [close] + rest, k, b, 1);
      ScanOrdinary(close, -1, rest, k + 1, b1, 2);
      LongerTwice(b, [OpenLine(l)], [close]);
      assert [OpenLine(l)] + [close] == LocationLines(l);
      assert [OpenLine(l)] + ([close] + rest) == LocationLines(l) + rest;
    }
  }

  lemma UpstreamOf(l: Location)
    requires GoodLocation(l) && l.upstream.Some?
    ensures GoodUpstream(l.upstream.value)
  {
  }

  ghost predicate AllGood(ls: seq<Location>)
  {
    forall i {:trigger GoodLocation(ls[i])} :: 0 <= i < |ls| ==> GoodLocation(ls[i])
  }

  lemma {:induction false} ScanAllLocations(ls: seq<Location>, rest: seq<string>, k: nat, b: Block)
    requires AllGood(ls)
    ensures ScanServers(AllLocationLines(ls) + rest, k, Some(b), 1) ==
              ScanServers(rest, k + |AllLocationLines(ls)|, Some(Longer(b, AllLocationLines(ls))), 1)
    decreases ls
  {
    hide ScanServers, LocationLines, GoodLocation;
    if ls == [] {
      assert [] + rest == rest && b.lines + [] == b.lines;
    } else {
      var first, others := LocationLines(ls[0]), AllLocationLines(ls[1..]);
      ScanLocation(ls[0], others + rest, k, b);
      ScanAllLocations(ls[1..], rest, k + |first|, Longer(b, first));
      LongerTwice(b, first, others);
      Associate(first, others, rest);
    }
  }

  lemma ScanServer(s: Server, rest: seq<string>, k: nat)
    requires GoodServer(s)
    ensures ScanServers(ServerLines(s) + rest, k, None, 0) ==
              AfterBlocks([Block(k, ServerLines(s))], ScanServers(rest, k + |ServerLines(s)|, None, 0))
  {
    hide ScanServers, StartsServer, Delta, LocationPath, GoodLocation, AllLocationLines, ListenLine, NameLine,
        AfterBlocks, Longer;
    var open, listen, name, body := "server {", ListenLine(s.tls), NameLine(s.host), AllLocationLines(s.locations);
    var end := ["}"] + rest;
    var b := Block(k, [open]);
    var head := [listen] + [name];
    ServerLine();
    ScanStep([open] + ([listen] + ([name] + (body + end))), k, None, 0);
    assert ([open] + ([listen] + ([name] + (body + end))))[1..] == [listen] + ([name] + (body + end));
    ListenLineIsOrdinary(s.tls);
    ScanOrdinary(listen, 0, [name] + (body + end), k + 1, b, 1);
    NameLineIsOrdinary(s.host);
    ScanOrdinary(name, 0, body + end, k + 2, Longer(b, [listen]), 1);
    LongerTwice(b, [listen], [name]);
    ScanAllLocations(s.locations, end, k + 3, Longer(b, head));
    LongerTwice(b, head, body);
    LastLine(Longer(b, head + body), rest, k + 3 + |body|);
    LongerTwice(b, head + body, ["}"]);
    ServerLinesParts(s, rest, k);
  }

  lemma LastLine(b: Block, rest: seq<string>, k: nat)
    ensures ScanServers(["}"] + rest, k, Some(b), 1) ==
              AfterBlocks([Longer(b, ["}"])], ScanServers(rest, k + 1, None, 0))
  {
    ClosingLine("");
    assert "" + "}" == "}";
    hide StartsServer, Delta, ScanServers, LocationPath;
    ScanStep(["}"] + rest, k, Some(b), 1);
    assert (["}"] + rest)[1..] == rest;
  }

  lemma ServerLinesParts(s: Server, rest: seq<string>, k: nat)
    ensures var open, listen, name, body := "server {", ListenLine(s.tls), NameLine(s.host),
      AllLocationLines(s.locations);
      && ServerLines(s) + rest == [open] + ([listen] + ([name] + (body + (["}"] + rest))))
      && Block(k, ServerLines(s)) == Longer(Block(k, [open]), [listen] + [name] + body + ["}"])
      && |ServerLines(s)| == 4 + |body|
  {
    hide ListenLine, NameLine, AllLocationLines;
  }

  function PrintedBlocks(servers: seq<Server>, k: nat): seq<Block>
    decreases servers
  {
    if servers == [] then []
    else [Block(k, ServerLines(servers[0]))] + PrintedBlocks(servers[1..], k + |ServerLines(servers[0])|)
  }

  /** The reader's server blocks are the printed servers. */
  lemma {:induction false} ScanFile(servers: seq<Server>, k: nat)
    requires forall i {:trigger GoodServer(servers[i])} :: 0 <= i < |servers| ==> GoodServer(servers[i])
    ensures ScanServers(FileLines(servers), k, None, 0) == Ok(PrintedBlocks(servers, k))
    decreases servers
  {
    hide GoodServer, ServerLines;
    if servers != [] {
      ScanServer(servers[0], FileLines(servers[1..]), k);
      ScanFile(servers[1..], k + |ServerLines(servers[0])|);
    }
  }

  // ---------- the location scan over printed lines ----------

  lemma FindOutside(line: string, rest: seq<string>)
    requires LocationPath(Strip(line)).None?
    ensures ScanLocations([line] + rest, None, 0) == ScanLocations(rest, None, 0)
  {
    hide LocationPath, Strip;
    assert ([line] + rest)[1..] == rest;
  }

  lemma FindInside(line: string, delta: int, rest: seq<string>, b: LocationBlock, depth: int)
    requires LocationPath(Strip(line)).None? && Delta(line) == delta
    ensures var longer := LocationBlock(b.path, b.lines + [line]);
            ScanLocations([line] + rest, Some(b), depth) ==
              if depth + delta == 0 then [longer] + ScanLocations(rest, None, 0)
              else ScanLocations(rest, Some(longer), depth + delta)
  {
    hide LocationPath, Strip, Delta;
    assert ([line] + rest)[1..] == rest;
  }

  lemma FindStart(line: string, path: string, rest: seq<string>)
    requires LocationPath(Strip(line)) == Some(path)
    ensures ScanLocations([line] + rest, None, 0) == ScanLocations(rest, Some(LocationBlock(path, [line])), 1)
  {
    hide LocationPath, Strip;
    assert ([line] + rest)[1..] == rest;
  }

  lemma FindLocation(l: Location, rest: seq<string>)
    requires GoodLocation(l)
    ensures ScanLocations(LocationLines(l) + rest, None, 0) ==
              [LocationBlock(l.path, LocationLines(l))] + ScanLocations(rest, None, 0)
  {
    hide ScanLocations, StartsServer, Delta, LocationPath, GoodLocation, GoodUpstream, OpenLine, PassLine;
    LineOfLocation(l);
    ClosingLine("    ");
    var open, close := OpenLine(l), "    " + "}";
    assert close == "    }";
    if l.upstream.Some? {
      UpstreamOf(l);
      PassLineIsOrdinary(l.upstream.value);
      var pass := PassLine(l.upstream.value);
      FindStart(open, l.path, [pass] + ([close] + rest));
      FindInside(pass, 0, [close] + rest, LocationBlock(l.path, [open]), 1);
      FindInside(close, -1, rest, LocationBlock(l.path, [open] + [pass]), 1);
      assert [open] + [pass] + [close] == LocationLines(l);
      assert [open] + ([pass] + ([close] + rest)) == LocationLines(l) + rest;
    } else {
      FindStart(open, l.path, [close] + rest);
      FindInside(close, -1, rest, LocationBlock(l.path, [open]), 1);
      assert [open] + [close] == LocationLines(l);
      assert [open] + ([close] + rest) == LocationLines(l) + rest;
    }
  }

  function PrintedLocations(ls: seq<Location>): seq<LocationBlock>
  {
    if ls == [] then [] else [LocationBlock(ls[0].path, LocationLines(ls[0]))] + PrintedLocations(ls[1..])
  }

  lemma {:induction false} FindAllLocations(ls: seq<Location>)
    requires AllGood(ls)
    ensures ScanLocations(AllLocationLines(ls) + ["}"], None, 0) == PrintedLocations(ls)
  {
    hide ScanLocations, LocationLines, GoodLocation;
    if ls == [] {
      ClosingLine("");
      assert "" + "}" == "}" && [] + ["}"] == ["}"] && ["}"] + [] == ["}"];
      FindOutside("}", []);
      NothingToFind();
    } else {
      FindLocation(ls[0], AllLocationLines(ls[1..]) + ["}"]);
      FindAllLocations(ls[1..]);
      Associate(LocationLines(ls[0]), AllLocationLines(ls[1..]), ["}"]);
    }
  }

  lemma NothingToFind()
    ensures ScanLocations([], None, 0) == []
  {
  }

  /** The reader's location blocks are the printed locations. */
  lemma FindInServer(s: Server)
    requires GoodServer(s)
    ensures ScanLocations(ServerLines(s), None, 0) == PrintedLocations(s.locations)
  {
    hide ScanLocations, GoodLocation, Delta, StartsServer, LocationPath, ListenLine, NameLine, AllLocationLines;
    var listen, name, body := ListenLine(s.tls), NameLine(s.host), AllLocationLines(s.locations) + ["}"];
    ServerLine();
    ListenLineIsOrdinary(s.tls);
    NameLineIsOrdinary(s.host);
    FindOutside("server {", [listen] + ([name] + body));
    FindOutside(listen, [name] + body);
    FindOutside(name, body);
    assert ServerLines(s) == ["server {"] + ([listen] + ([name] + body));
    FindAllLocations(s.locations);
  }
}
