/** What the SWAG reader makes of a printed configuration: the exact condition on its fields under which
    every route is read back. */
module SwagRoundTrip {
  import opened Text
  import opened Lines
  import opened Swag
  import opened SwagPrinter

  // ---------- the upstream of a printed location ----------

  lemma JoinThree(a: string, b: string, c: string)
    ensures Join('\n', [a, b, c]) == a + ['\n'] + (b + ['\n'] + c)
  {
    assert [a, b, c][1..] == [b, c] && [b, c][1..] == [c];
    assert Join('\n', [b, c]) == b + ['\n'] + c;
  }

  lemma GoodUrl(u: Upstream)
    requires GoodUpstream(u)
    ensures Url(u) != "" && Plain(Url(u)) && NoSpace(Url(u)) && Trimmed(Url(u))
  {
  }

  lemma LocationIsFree(name: string)
    requires name in {"listen", "proxy_pass"}
    ensures Free(name, "location")
  {
    if name == "proxy_pass" {
      FreeWithout(name, "location");
    } else {
      var s := "location";
      assert s == "l" + s[1..];
      FreeWithout(name, s[1..]);
      assert s[..6][1] == 'o';
    }
  }

  lemma LocationText(l: Location)
    requires l.upstream.Some?
    ensures Join('\n', LocationLines(l)) ==
              OpenLine(l) + ['\n'] + ("        " + ("proxy_pass" + " " + Url(l.upstream.value) + ";" + "\n    }"))
  {
    hide OpenLine, Url;
    JoinThree(OpenLine(l), PassLine(l.upstream.value), "    }");
    PassText(Url(l.upstream.value));
  }

  lemma PassText(url: string)
    ensures "        " + ("proxy_pass " + url + ";") + ['\n'] + "    }" ==
              "        " + ("proxy_pass" + " " + url + ";" + "\n    }")
  {
  }

  /** From the brace of the location line on, up to the semicolon of the upstream. */
  function BraceToUrl(url: string): string
  {
    "{\n        proxy_pass " + url
  }

  lemma TextAfterPath(l: Location)
    requires l.upstream.Some?
    ensures Join('\n', LocationLines(l)) ==
              "    " + ("location" + [' '] + (l.path + [' '] + (BraceToUrl(Url(l.upstream.value)) + ";" + "\n    }")))
  {
    hide Url;
    LocationText(l);
    var url := Url(l.upstream.value);
    assert OpenLine(l) == "    " + ("location" + [' '] + (l.path + [' '] + "{"));
    assert "{" + ['\n'] + "        proxy_pass " == "{\n        proxy_pass ";
  }

  /** The search passes what stands before the path. */
  lemma SearchFromPath(l: Location)
    requires l.upstream.Some?
    ensures FindDirective("proxy_pass", Join('\n', LocationLines(l))) ==
              FindDirective("proxy_pass", l.path + [' '] + (BraceToUrl(Url(l.upstream.value)) + ";" + "\n    }"))
  {
    hide Url, Free, OpenLine, Join, LocationLines, FindDirective, BraceToUrl;
    var name, rest := "proxy_pass", BraceToUrl(Url(l.upstream.value)) + ";" + "\n    }";
    TextAfterPath(l);
    LocationIsFree(name);
    SkipBlanks(name, "    ", "location" + [' '] + (l.path + [' '] + rest));
    SkipPart(name, "location", ' ', l.path + [' '] + rest);
  }

  /** Past the brace the search finds the upstream. */
  lemma SearchFromBrace(url: string)
    requires url != "" && !IsSpace(url[0]) && ';' !in url
    ensures FindDirective("proxy_pass", BraceToUrl(url) + ";" + "\n    }") == Some(url)
  {
    hide Free, FindDirective;
    var name := "proxy_pass";
    var line := name + " " + url + ";" + "\n    }";
    BraceText(url);
    FreeWithout(name, "{");
    SkipPart(name, "{", '\n', "        " + line);
    SkipBlanks(name, "        ", line);
    ReadDirective(name, url, "\n    }");
  }

  lemma BraceText(url: string)
    ensures BraceToUrl(url) + ";" + "\n    }" ==
              "{" + ['\n'] + ("        " + ("proxy_pass" + " " + url + ";" + "\n    }"))
  {
    assert "{" + ['\n'] + "        " + "proxy_pass" + " " == "{\n        proxy_pass ";
  }

  /** What the search for `proxy_pass` gives: the upstream, or from the path on all up to its end. */
  lemma DirectiveRead(l: Location)
    requires GoodLocation(l) && l.upstream.Some?
    ensures var url, d := Url(l.upstream.value), FindDirective("proxy_pass", Join('\n', LocationLines(l)));
            d == Some(if Free("proxy_pass", l.path) then url else Captured("proxy_pass", l.path, BraceToUrl(url)))
  {
    hide GoodUpstream, Url, Contains, Free, Join, GoodPath, LocationLines, Captured, FindDirective;
    var name, url := "proxy_pass", Url(l.upstream.value);
    UpstreamOf(l);
    GoodUrl(l.upstream.value);
    PathIsPlain(l);
    SearchFromPath(l);
    if Free(name, l.path) {
      SkipPart(name, l.path, ' ', BraceToUrl(url) + ";" + "\n    }");
      SearchFromBrace(url);
    } else {
      assert ';' !in BraceToUrl(url) && BraceToUrl(url)[0] == '{';
      CapturesRest(name, l.path, BraceToUrl(url), "\n    }");
    }
  }

  lemma PathIsPlain(l: Location)
    requires GoodLocation(l)
    ensures Plain(l.path)
  {
  }

  lemma CapturedIsTrimmed(l: Location)
    requires GoodLocation(l) && l.upstream.Some? && !Free("proxy_pass", l.path)
    ensures var v := Captured("proxy_pass", l.path, BraceToUrl(Url(l.upstream.value)));
      Strip(v) == v && v != "" && '{' in v
  {
    hide GoodPath, GoodUpstream, Url, Free, AfterName;
    UpstreamOf(l);
    GoodUrl(l.upstream.value);
    var url := Url(l.upstream.value);
    var v, a := Captured("proxy_pass", l.path, BraceToUrl(url)), AfterName("proxy_pass", l.path);
    AfterNameStarts("proxy_pass", l.path);
    assert v[|v| - 1] == url[|url| - 1];
    assert BraceToUrl(url)[0] == '{';
    assert v[|v| - |BraceToUrl(url)|] == '{';
    StripTrimmed(v);
  }

  lemma {:induction false} AfterNameStarts(name: string, s: string)
    requires !Free(name, s)
    ensures var a := AfterName(name, s); a != "" ==> !IsSpace(a[0])
    ensures forall c :: c in AfterName(name, s) ==> c in s
  {
    if !FreeHere(name, s) {
      LStripParts(s[|name|..]);
    } else {
      AfterNameStarts(name, s[1..]);
    }
  }

  /** The upstream is read back exactly when the path does not end a word with `proxy_pass`. */
  lemma UpstreamReadBack(l: Location)
    requires GoodLocation(l) && l.upstream.Some?
    ensures ProxyPass(Join('\n', LocationLines(l))) == Some(Url(l.upstream.value)) <==> Free("proxy_pass", l.path)
  {
    hide GoodUpstream, Url, GoodPath, Free, Join, LocationLines, Strip, Captured;
    UpstreamOf(l);
    GoodUrl(l.upstream.value);
    DirectiveRead(l);
    StripTrimmed(Url(l.upstream.value));
    if !Free("proxy_pass", l.path) { CapturedIsTrimmed(l); }
  }

  lemma NoUpstream(l: Location)
    requires GoodLocation(l) && l.upstream.None?
    ensures ProxyPass(Join('\n', LocationLines(l))) == None
  {
    var text := OpenLine(l) + ['\n'] + "    }";
    assert LocationLines(l)[1..] == ["    }"];
    assert Join('\n', LocationLines(l)) == text;
    hide LStrip, Contains;
    assert ';' !in text;
    NoSemicolon("proxy_pass", text);
  }

  lemma {:induction false} HostEnds(service: string, rest: string)
    requires ':' !in service && '/' !in service && (rest == "" || rest[0] == ':' || rest[0] == '/')
    ensures HostLength(service + rest) == |service|
  {
    if service == "" {
      assert service + rest == rest;
    } else {
      assert (service + rest)[1..] == service[1..] + rest;
      HostEnds(service[1..], rest);
    }
  }

  /** The service of a well-formed upstream is found, whatever follows it. */
  lemma ServiceReadBack(u: Upstream)
    requires GoodUpstream(u)
    ensures ServiceName(Url(u)) == Ok(u.service)
  {
    var host := u.service + u.rest;
    SchemeRemoved(u);
    HostEnds(u.service, u.rest);
    assert host[..|u.service|] == u.service;
    StripTrimmed(u.service);
  }

  lemma SchemeRemoved(u: Upstream)
    requires GoodUpstream(u)
    ensures StripScheme(Url(u)) == u.service + u.rest
  {
    var host := u.service + u.rest;
    match u.scheme {
      case Bare =>
        assert "" + u.service + u.rest == host;
      case Http =>
        assert Url(u) == "http://" + host;
        assert Url(u)[..7] == "http://";
      case Https =>
        assert Url(u) == "https://" + host;
        assert Url(u)[..8] == "https://";
        assert Url(u)[..7][4] == 's';
    }
  }

  /** The service of the location is found: the path does not end a word with `proxy_pass`, or what
      follows there begins with the same service and a colon or slash. */
  predicate UpstreamKept(l: Location)
    requires l.upstream.Some?
  {
    Free("proxy_pass", l.path)
    || (var r := StripScheme(AfterName("proxy_pass", l.path));
        HostLength(r) < |r| && Strip(r[..HostLength(r)]) == l.upstream.value.service)
  }

  lemma {:induction false} HostLengthBefore(r: string, v: string)
    requires v != "" && v[0] == '{'
    ensures HostLength(r) < |r| ==> HostLength(r + [' '] + v) == HostLength(r)
    ensures HostLength(r) == |r| ==> HostLength(r + [' '] + v) > |r| + 1
  {
    var s := r + [' '] + v;
    if r == "" {
      assert s[1..] == v;
    } else {
      assert s[1..] == r[1..] + [' '] + v;
      HostLengthBefore(r[1..], v);
    }
  }

  lemma SchemeBefore(a: string, v: string)
    ensures StripScheme(a + [' '] + v) == StripScheme(a) + [' '] + v
  {
    PrefixBeforeSeparator(a, ' ', v, "http://");
    PrefixBeforeSeparator(a, ' ', v, "https://");
  }

  lemma BraceInHost(s: string, k: nat, service: string)
    requires k < HostLength(s) && s[k] == '{' && '{' !in service
    ensures ServiceNameOf(s) != Ok(service)
  {
    var h := s[..HostLength(s)];
    assert h[k] == '{';
    var lo, hi := StripParts(h);
    assert '{' !in h[..lo] && '{' !in h[hi..];
    assert h == h[..lo] + h[lo..hi] + h[hi..];
  }

  /** The service in a URL without its scheme. */
  function ServiceNameOf(url: string): Result<string, Error>
  {
    var host := Strip(url[..HostLength(url)]);
    if host == "" then Err(BadProxyPass) else Ok(host)
  }

  /** The service in a captured text. */
  lemma CapturedService(a: string, v: string, service: string)
    requires v != "" && v[0] == '{' && service != "" && '{' !in service
    ensures var text, r := if a == "" then v else a + [' '] + v, StripScheme(a);
            ServiceName(text) == Ok(service) <==> HostLength(r) < |r| && Strip(r[..HostLength(r)]) == service
  {
    hide Strip;
    var r := StripScheme(a);
    if a == "" {
      assert StripScheme(v) == v by { PrefixStarts(v, "http://"); PrefixStarts(v, "https://"); }
      BraceInHost(v, 0, service);
    } else {
      SchemeBefore(a, v);
      HostLengthBefore(r, v);
      var s := r + [' '] + v;
      if HostLength(r) < |r| {
        assert s[..HostLength(r)] == r[..HostLength(r)];
      } else {
        BraceInHost(s, |r| + 1, service);
      }
    }
  }

  /** The upstream line of a location always gives a service or an error, and it is the right service
      exactly under that condition. */
  lemma ServiceKept(l: Location)
    requires GoodLocation(l) && l.upstream.Some?
    ensures var pass := ProxyPass(Join('\n', LocationLines(l)));
            && pass.Some? && pass.value != ""
            && (ServiceName(pass.value) == Ok(l.upstream.value.service) <==> UpstreamKept(l))
  {
    hide GoodUpstream, Url, GoodPath, Free, Join, LocationLines, Strip, AfterName, ServiceName, StripScheme;
    UpstreamOf(l);
    var u := l.upstream.value;
    GoodUrl(u);
    DirectiveRead(l);
    StripTrimmed(Url(u));
    if Free("proxy_pass", l.path) {
      ServiceReadBack(u);
    } else {
      CapturedIsTrimmed(l);
      ServiceIsPlain(u);
      CapturedService(AfterName("proxy_pass", l.path), BraceToUrl(Url(u)), u.service);
    }
  }

  lemma ServiceIsPlain(u: Upstream)
    requires GoodUpstream(u)
    ensures u.service != "" && '{' !in u.service
  {
  }

  predicate AllKept(ls: seq<Location>)
  {
    ls == [] || ((ls[0].upstream.Some? ==> UpstreamKept(ls[0])) && AllKept(ls[1..]))
  }

  predicate Routed(ls: seq<Location>)
  {
    ls != [] && (ls[0].upstream.Some? || Routed(ls[1..]))
  }

  /** The routes read from the printed locations: as many as there are upstreams, and the right ones
      exactly when every service is kept and the TLS flag is right, if there is any route. */
  lemma {:induction false} RoutesReadBack(host: string, found: bool, tls: bool, ls: seq<Location>)
    requires AllGood(ls)
    ensures var r, routes := RoutesIn(host, found, PrintedLocations(ls)), RoutesOf(host, tls, ls);
            && (r.Ok? ==> |r.value| == |routes|)
            && (r == Ok(routes) <==> AllKept(ls) && (found == tls || !Routed(ls)))
    decreases ls
  {
    hide GoodLocation, ProxyPass, ServiceName, LocationLines, UpstreamKept, Join;
    if ls != [] {
      var l := ls[0];
      RoutesReadBack(host, found, tls, ls[1..]);
      assert PrintedLocations(ls)[1..] == PrintedLocations(ls[1..]);
      if l.upstream.Some? {
        ServiceKept(l);
        FirstRoute(host, found, tls, l, PrintedLocations(ls), RoutesOf(host, tls, ls[1..]));
      } else {
        NoUpstream(l);
      }
    }
  }

  /** One location with an upstream, before the rest. */
  lemma FirstRoute(host: string, found: bool, tls: bool, l: Location, blocks: seq<LocationBlock>, routes: seq<Route>)
    requires l.upstream.Some? && blocks != [] && blocks[0].path == l.path
    requires var pass := ProxyPass(Join('\n', blocks[0].lines)); pass.Some? && pass.value != ""
    ensures var service := ServiceName(ProxyPass(Join('\n', blocks[0].lines)).value);
            var r, rest := RoutesIn(host, found, blocks), RoutesIn(host, found, blocks[1..]);
            && (r.Ok? ==> rest.Ok? && |r.value| == 1 + |rest.value|)
            && (r == Ok([Route(host, l.path, l.upstream.value.service, tls)] + routes) <==>
                service == Ok(l.upstream.value.service) && found == tls && rest == Ok(routes))
  {
    hide ProxyPass, ServiceName, Join;
    var service := ServiceName(ProxyPass(Join('\n', blocks[0].lines)).value);
    var rest := RoutesIn(host, found, blocks[1..]);
    if service.Ok? && rest.Ok? {
      SameHead(Route(host, l.path, service.value, found), rest.value,
          Route(host, l.path, l.upstream.value.service, tls), routes);
    }
  }

  lemma SameHead(a: Route, x: seq<Route>, b: Route, y: seq<Route>)
    ensures [a] + x == [b] + y <==> a == b && x == y
  {
    if [a] + x == [b] + y {
      assert ([a] + x)[0] == a && ([b] + y)[0] == b;
      assert ([a] + x)[1..] == x && ([b] + y)[1..] == y;
    }
  }

  // ---------- the text of a printed server ----------

  /** The location lines and the closing brace, as text. */
  function Tail(ls: seq<Location>): string
  {
    Join('\n', AllLocationLines(ls) + ["}"])
  }

  lemma JoinFirst(line: string, rest: seq<string>)
    requires rest != []
    ensures Join('\n', [line] + rest) == line + ['\n'] + Join('\n', rest)
  {
    assert ([line] + rest)[1..] == rest;
  }

  lemma ServerText(s: Server)
    ensures Join('\n', ServerLines(s)) ==
              "server {" + ['\n'] + (ListenLine(s.tls) + ['\n'] + (NameLine(s.host) + ['\n'] + Tail(s.locations)))
  {
    hide Join, AllLocationLines, ListenLine, NameLine;
    var listen, name, body := ListenLine(s.tls), NameLine(s.host), AllLocationLines(s.locations) + ["}"];
    assert ServerLines(s) == ["server {"] + ([listen] + ([name] + body));
    JoinFirst("server {", [listen] + ([name] + body));
    JoinFirst(listen, [name] + body);
    JoinFirst(name, body);
  }

  lemma ServerLineIsFree(name: string)
    requires name in {"server_name", "listen"}
    ensures Free(name, "server {")
  {
    hide Free;
    FreeAcross(name, "server", ' ', "{");
    FreeWord(name, "server");
    FreeWord(name, "{");
    assert "server" + [' '] + "{" == "server {";
  }

  lemma ListenLineIsFree(tls: bool)
    ensures Free("server_name", ListenLine(tls))
  {
    hide Free;
    if tls {
      FreeAcross("server_name", "listen", ' ', "443 ssl;");
      FreeAcross("server_name", "443", ' ', "ssl;");
      FreeWord("server_name", "443");
      FreeWord("server_name", "ssl;");
      assert "443" + [' '] + "ssl;" == "443 ssl;" && "listen" + [' '] + "443 ssl;" == "listen 443 ssl;";
    } else {
      FreeAcross("server_name", "listen", ' ', "80;");
      FreeWord("server_name", "80;");
      assert "listen" + [' '] + "80;" == "listen 80;";
    }
    FreeWord("server_name", "listen");
    FreeAfterBlanks("server_name", "    ", if tls then "listen 443 ssl;" else "listen 80;");
  }

  lemma NameReadBack(s: Server)
    requires GoodHost(s.host)
    ensures ServerName(Join('\n', ServerLines(s))) == if s.host == "_" then None else Some(s.host)
  {
    hide Free, Join, ListenLine, AllLocationLines, Words;
    var d, tail := "server_name", Tail(s.locations);
    ServerText(s);
    ServerLineIsFree(d);
    ListenLineIsFree(s.tls);
    SkipPart(d, "server {", '\n', ListenLine(s.tls) + ['\n'] + (NameLine(s.host) + ['\n'] + tail));
    SkipPart(d, ListenLine(s.tls), '\n', NameLine(s.host) + ['\n'] + tail);
    NameText(s.host, tail);
    SkipBlanks(d, "    ", d + " " + s.host + ";" + (['\n'] + tail));
    ReadDirective(d, s.host, ['\n'] + tail);
    StripTrimmed(s.host);
    WordsOfWord(s.host);
  }

  lemma NameText(host: string, tail: string)
    ensures NameLine(host) + ['\n'] + tail == "    " + ("server_name" + " " + host + ";" + (['\n'] + tail))
  {
  }

  // ---------- TLS detection ----------

  lemma {:induction false} NoTls(s: string)
    requires Free("listen", s)
    ensures !DetectTls(s)
  {
    if s != "" {
      NoTls(s[1..]);
    }
  }

  lemma ListensOnly(s: string)
    requires FreeHere("listen", s)
    ensures !ListensHere(s)
  {
  }

  lemma {:induction false} SkipPartTls(part: string, c: char, rest: string)
    requires Free("listen", part) && IsSpace(c)
    ensures DetectTls(part + [c] + rest) == DetectTls(rest)
  {
    var t := part + [c] + rest;
    PrefixBeforeSeparator(part, c, rest, "listen");
    if HasPrefix(t, "listen") {
      assert t[6] == part[6];
    }
    ListensOnly(t);
    if part == "" {
      assert t[1..] == rest;
    } else {
      assert t[1..] == part[1..] + [c] + rest;
      SkipPartTls(part[1..], c, rest);
    }
  }

  lemma {:induction false} SkipBlanksTls(blanks: string, t: string)
    requires AllSpace(blanks)
    ensures DetectTls(blanks + t) == DetectTls(t)
  {
    if blanks == "" {
      assert blanks + t == t;
    } else {
      PrefixStarts(blanks + t, "listen");
      assert (blanks + t)[1..] == blanks[1..] + t;
      SkipBlanksTls(blanks[1..], t);
    }
  }

  lemma {:induction false} SslAfter(prev: char, a: string, b: string)
    requires a != "" && ';' !in a && SslWithin(a[|a| - 1], b)
    ensures SslWithin(prev, a + b)
    decreases a
  {
    assert (a + b)[1..] == a[1..] + b;
    if |a| > 1 {
      SslAfter(a[0], a[1..], b);
    } else {
      assert a[1..] + b == b;
    }
  }

  lemma {:induction false} NoSslBefore(prev: char, a: string, rest: string)
    requires 's' !in a
    ensures !SslWithin(prev, a + ";" + rest)
    decreases a
  {
    var r := a + ";" + rest;
    PrefixStarts(r, "ssl");
    if a != "" {
      assert r[1..] == a[1..] + ";" + rest;
      NoSslBefore(a[0], a[1..], rest);
    }
  }

  lemma TlsListen(rest: string)
    ensures DetectTls("listen 443 ssl;" + rest)
  {
    var t := "listen 443 ssl;" + rest;
    assert t[..6] == "listen" && t[7..] == "443 " + ("ssl;" + rest);
    assert ("ssl;" + rest)[..3] == "ssl";
    assert SslWithin(' ', "ssl;" + rest);
    SslAfter(' ', "443 ", "ssl;" + rest);
  }

  lemma PlainListen(rest: string)
    ensures DetectTls("listen 80;" + ['\n'] + rest) == DetectTls(rest)
  {
    var t := "listen 80;" + ['\n'] + rest;
    assert t[7..] == "80" + ";" + (['\n'] + rest);
    NoSslBefore(' ', "80", ['\n'] + rest);
    assert !ListensHere(t);
    assert t[1..] == "isten 80;" + ['\n'] + rest;
    FreeWithout("listen", "isten 80;");
    SkipPartTls("isten 80;", '\n', rest);
  }

  // ---------- what looks like an ssl listener in the locations ----------

  /** `ssl` stands in `s` at `q`, with no word character next to it. */
  predicate SslWordAt(s: string, q: nat)
  {
    q + 3 <= |s| && s[q..q + 3] == "ssl" && (q == 0 || !IsWord(s[q - 1])) && (q + 3 == |s| || !IsWord(s[q + 3]))
  }

  predicate SslWordFrom(s: string, from: nat)
  {
    exists q :: from <= q < |s| && SslWordAt(s, q)
  }

  /** A word of the path ends in `listen`, which begins at `p`. */
  predicate ListenEndsWordAt(path: string, p: nat)
  {
    p + 6 <= |path| && path[p..p + 6] == "listen" && (p + 6 == |path| || IsSpace(path[p + 6]))
  }

  /** `ssl` stands as a word between the path of `l` and the next semicolon: in the URL of `l`, or, if it
      has none, in the following paths up to the next URL or in that URL. */
  predicate SslAhead(l: Location, rest: seq<Location>)
    decreases rest
  {
    if l.upstream.Some? then SslWordFrom(Url(l.upstream.value), 0)
    else rest != [] && (SslWordFrom(rest[0].path, 0) || SslAhead(rest[0], rest[1..]))
  }

  /** From position `from` of its path on, the location reads like an ssl listener. */
  predicate ListensFrom(path: string, from: nat, ahead: bool)
  {
    exists p :: from <= p < |path| && ListenEndsWordAt(path, p) && (SslWordFrom(path, p + 7) || ahead)
  }

  /** In some location the path has a word ending in `listen`, and `ssl` stands as a word after it. */
  predicate LooksTls(ls: seq<Location>)
  {
    ls != [] && (ListensFrom(ls[0].path, 0, SslAhead(ls[0], ls[1..])) || LooksTls(ls[1..]))
  }

  lemma {:induction false} SslAcross(prev: char, s: string, c: char, rest: string)
    requires !IsWord(c) && ';' !in s
    ensures SslWithin(prev, s + [c] + rest) <==> SslWithin(prev, s) || (c != ';' && SslWithin(c, rest))
    decreases s
  {
    var t := s + [c] + rest;
    PrefixBeforeSeparator(s, c, rest, "ssl");
    if s == "" {
      assert t[1..] == rest;
    } else {
      assert t[1..] == s[1..] + [c] + rest;
      SslAcross(s[0], s[1..], c, rest);
      assert |s| >= 3 ==> t[3] == if |s| == 3 then c else s[3];
    }
  }

  lemma {:induction false} SslBlanks(prev: char, blanks: string, t: string)
    requires blanks != "" && (forall i :: 0 <= i < |blanks| ==> blanks[i] == ' ')
    ensures SslWithin(prev, blanks + t) <==> SslWithin(' ', t)
    decreases blanks
  {
    SslAcross(prev, "", ' ', blanks[1..] + t);
    assert "" + [' '] + (blanks[1..] + t) == blanks + t;
    if |blanks| == 1 {
      assert blanks[1..] + t == t;
    } else {
      SslBlanks(' ', blanks[1..], t);
    }
  }

  lemma {:induction false} NoSslIn(prev: char, s: string, c: char)
    requires c in "ssl" && c !in s
    ensures !SslWithin(prev, s)
    decreases s
  {
    PrefixMember(s, "ssl", c);
    if s != "" {
      NoSslIn(s[0], s[1..], c);
    }
  }

  /** In a text without semicolon the detector looks for the word. */
  lemma {:induction false} SslFrom(prev: char, s: string, i: nat)
    requires i <= |s| && ';' !in s && (if i == 0 then !IsWord(prev) else prev == s[i - 1])
    ensures SslWithin(prev, s[i..]) <==> SslWordFrom(s, i)
    decreases |s| - i
  {
    if i < |s| {
      var t := s[i..];
      SslFrom(s[i], s, i + 1);
      assert t[1..] == s[i + 1..] && t[0] == s[i];
      assert |t| >= 3 ==> t[..3] == s[i..i + 3];
      assert |t| > 3 ==> t[3] == s[i + 3];
      assert HasPrefix(t, "ssl") && !IsWord(prev) && (|t| == 3 || !IsWord(t[3])) <==> SslWordAt(s, i);
      SslWordStep(s, i);
    }
  }

  lemma SslWordStep(s: string, i: nat)
    requires i < |s|
    ensures SslWordFrom(s, i) <==> SslWordAt(s, i) || SslWordFrom(s, i + 1)
  {
    hide SslWordAt;
    if SslWordFrom(s, i) {
      var q :| i <= q < |s| && SslWordAt(s, q);
    }
  }

  /** The printed text from the space after the path on. */
  function AfterPath(l: Location, rest: seq<Location>): string
  {
    "{" + ['\n'] + AfterBrace(l, rest)
  }

  function AfterBrace(l: Location, rest: seq<Location>): string
  {
    if l.upstream.Some? then PassLine(l.upstream.value) + ['\n'] + ("    }" + ['\n'] + Tail(rest))
    else "    }" + ['\n'] + Tail(rest)
  }

  lemma TailText(l: Location, rest: seq<Location>)
    ensures Tail([l] + rest) == "    " + ("location" + [' '] + (l.path + [' '] + AfterPath(l, rest)))
  {
    hide AllLocationLines, Join, PassLine;
    var more := AllLocationLines(rest) + ["}"];
    assert ([l] + rest)[1..] == rest;
    AllLinesCons(l, rest);
    if l.upstream.Some? {
      var pass := PassLine(l.upstream.value);
      assert LocationLines(l) + AllLocationLines(rest) + ["}"] == [OpenLine(l)] + ([pass] + (["    }"] + more));
      JoinFirst(OpenLine(l), [pass] + (["    }"] + more));
      JoinFirst(pass, ["    }"] + more);
    } else {
      assert LocationLines(l) + AllLocationLines(rest) + ["}"] == [OpenLine(l)] + (["    }"] + more);
      JoinFirst(OpenLine(l), ["    }"] + more);
    }
    JoinFirst("    }", more);
    OpenLineParts(l.path, AfterBrace(l, rest));
  }

  lemma AllLinesCons(l: Location, rest: seq<Location>)
    ensures AllLocationLines([l] + rest) == LocationLines(l) + AllLocationLines(rest)
  {
    assert ([l] + rest)[1..] == rest;
  }

  lemma OpenLineParts(path: string, more: string)
    ensures "    " + ("location " + path + " {") + ['\n'] + more ==
              "    " + ("location" + [' '] + (path + [' '] + ("{" + ['\n'] + more)))
  {
  }

  lemma TailOfNone()
    ensures Tail([]) == "}"
  {
    assert AllLocationLines([]) + ["}"] == ["}"];
  }

  /** `ssl` comes before the next semicolon after the path exactly when it does so in the fields. */
  lemma {:induction false} SslAfterPath(l: Location, rest: seq<Location>)
    requires GoodLocation(l) && AllGood(rest)
    ensures SslWithin(' ', AfterPath(l, rest)) <==> SslAhead(l, rest)
    decreases rest
  {
    hide SslWithin, GoodLocation, SslWordFrom, Tail, PassLine;
    NoSslIn(' ', "{", 's');
    SslAcross(' ', "{", '\n', AfterBrace(l, rest));
    if l.upstream.Some? {
      UpstreamOf(l);
      SslInPassLine(l.upstream.value, ['\n'] + ("    }" + ['\n'] + Tail(rest)));
      Associate(PassLine(l.upstream.value), ['\n'], "    }" + ['\n'] + Tail(rest));
    } else {
      SslAfterClose(rest);
      if rest == [] {
        TailOfNone();
        NoSslIn('\n', "}", 's');
      } else {
        var m, ms := rest[0], rest[1..];
        assert rest == [m] + ms;
        TailText(m, ms);
        PathIsPlain(m);
        SslAfterPath(m, ms);
        SslBlanks('\n', "    ", "location" + [' '] + (m.path + [' '] + AfterPath(m, ms)));
        SslAcross(' ', "location", ' ', m.path + [' '] + AfterPath(m, ms));
        NoSslIn(' ', "location", 's');
        SslAcross(' ', m.path, ' ', AfterPath(m, ms));
        SslFrom(' ', m.path, 0);
        assert m.path[0..] == m.path;
      }
    }
  }

  lemma SslAfterClose(rest: seq<Location>)
    ensures SslWithin('\n', "    }" + ['\n'] + Tail(rest)) <==> SslWithin('\n', Tail(rest))
  {
    hide SslWithin, Tail;
    SslBlanks('\n', "    ", "}" + ['\n'] + Tail(rest));
    assert "    " + ("}" + ['\n'] + Tail(rest)) == "    }" + ['\n'] + Tail(rest);
    SslAcross(' ', "}", '\n', Tail(rest));
    NoSslIn(' ', "}", 's');
  }

  lemma SslInPassLine(u: Upstream, more: string)
    requires GoodUpstream(u)
    ensures SslWithin('\n', PassLine(u) + more) <==> SslWordFrom(Url(u), 0)
  {
    hide SslWithin, Url, GoodUpstream, SslWordFrom;
    GoodUrl(u);
    var url := Url(u);
    var text := "proxy_pass" + [' '] + (url + [';'] + more);
    assert PassLine(u) + more == "        " + text;
    SslBlanks('\n', "        ", text);
    SslAcross(' ', "proxy_pass", ' ', url + [';'] + more);
    NoSslIn(' ', "proxy_pass", 'l');
    SslAcross(' ', url, ';', more);
    SslFrom(' ', url, 0);
    assert url[0..] == url;
  }

  lemma ListensStep(path: string, i: nat, ahead: bool)
    requires i < |path|
    ensures ListensFrom(path, i, ahead) <==>
              (ListenEndsWordAt(path, i) && (SslWordFrom(path, i + 7) || ahead)) || ListensFrom(path, i + 1, ahead)
  {
    hide ListenEndsWordAt, SslWordFrom;
    if ListensFrom(path, i, ahead) {
      var p :| i <= p < |path| && ListenEndsWordAt(path, p) && (SslWordFrom(path, p + 7) || ahead);
    }
  }

  /** A listener may begin in the path, at or after `i`, or later. */
  lemma {:induction false} DetectFrom(path: string, i: nat, r: string)
    requires i <= |path| && ';' !in path
    ensures DetectTls(path[i..] + [' '] + r) <==> ListensFrom(path, i, SslWithin(' ', r)) || DetectTls(r)
    decreases |path| - i
  {
    hide SslWithin, SslWordFrom, ListensFrom;
    var t := path[i..] + [' '] + r;
    if i == |path| {
      assert t == " " + r;
      SkipBlanksTls(" ", r);
      NothingListens(path, SslWithin(' ', r));
    } else {
      DetectFrom(path, i + 1, r);
      assert t[1..] == path[i + 1..] + [' '] + r;
      ListensStep(path, i, SslWithin(' ', r));
      ListensHereIff(path, i, r);
    }
  }

  lemma NothingListens(path: string, ahead: bool)
    ensures !ListensFrom(path, |path|, ahead)
  {
  }

  lemma ListensHereIff(path: string, i: nat, r: string)
    requires i < |path| && ';' !in path
    ensures ListensHere(path[i..] + [' '] + r) <==>
              ListenEndsWordAt(path, i) && (SslWordFrom(path, i + 7) || SslWithin(' ', r))
  {
    hide SslWithin, SslWordFrom;
    var s := path[i..];
    var t := s + [' '] + r;
    PrefixBeforeSeparator(s, ' ', r, "listen");
    if i + 6 <= |path| {
      assert s[..6] == path[i..i + 6];
      if i + 6 == |path| {
        assert t[7..] == r && t[6] == ' ';
        NoWordBeyond(path, i + 7);
      } else {
        assert t[6] == path[i + 6] && t[7..] == path[i + 7..] + [' '] + r;
        SslAcross(path[i + 6], path[i + 7..], ' ', r);
        SslFrom(path[i + 6], path, i + 7);
      }
    }
  }

  lemma NoWordBeyond(s: string, from: nat)
    requires from >= |s|
    ensures !SslWordFrom(s, from)
  {
  }

  /** The detector reports TLS in the printed locations exactly when they look like it. */
  lemma {:induction false} DetectInTail(ls: seq<Location>)
    requires AllGood(ls)
    ensures DetectTls(Tail(ls)) <==> LooksTls(ls)
    decreases ls
  {
    hide DetectTls, Free, Tail, GoodLocation, SslAhead, ListensFrom, PassLine, AfterPath, SslWithin;
    if ls == [] {
      TailOfNone();
      FreeWithout("listen", "}");
      NoTls("}");
    } else {
      var l, rest := ls[0], ls[1..];
      assert ls == [l] + rest;
      TailText(l, rest);
      PathIsPlain(l);
      LocationIsFree("listen");
      SkipBlanksTls("    ", "location" + [' '] + (l.path + [' '] + AfterPath(l, rest)));
      SkipPartTls("location", ' ', l.path + [' '] + AfterPath(l, rest));
      assert l.path[0..] == l.path;
      DetectFrom(l.path, 0, AfterPath(l, rest));
      SslAfterPath(l, rest);
      DetectAfterPath(l, rest);
      DetectInTail(rest);
    }
  }

  lemma DetectAfterPath(l: Location, rest: seq<Location>)
    requires GoodLocation(l)
    ensures DetectTls(AfterPath(l, rest)) <==> DetectTls(Tail(rest))
  {
    hide DetectTls, Free, Tail, GoodLocation, PassLine;
    var close := "    }" + ['\n'] + Tail(rest);
    FreeWithout("listen", "{");
    FreeWithout("listen", "    }");
    SkipPartTls("{", '\n', AfterBrace(l, rest));
    SkipPartTls("    }", '\n', Tail(rest));
    if l.upstream.Some? {
      UpstreamOf(l);
      PassLineIsFree(l.upstream.value);
      SkipPartTls(PassLine(l.upstream.value), '\n', close);
    }
  }

  /** Exact condition: TLS is reported for a TLS server and for one whose locations look like it. */
  lemma TlsReadBack(s: Server)
    requires GoodServer(s)
    ensures DetectTls(Join('\n', ServerLines(s))) <==> s.tls || LooksTls(s.locations)
  {
    hide Free, Join, AllLocationLines, DetectTls, LooksTls, GoodLocation;
    var rest := NameLine(s.host) + ['\n'] + Tail(s.locations);
    ServerText(s);
    ServerLineIsFree("listen");
    SkipPartTls("server {", '\n', ListenLine(s.tls) + ['\n'] + rest);
    DetectInTail(s.locations);
    if s.tls {
      Associate("    ", "listen 443 ssl;", ['\n']);
      assert ListenLine(s.tls) + ['\n'] + rest == "    " + ("listen 443 ssl;" + (['\n'] + rest));
      SkipBlanksTls("    ", "listen 443 ssl;" + (['\n'] + rest));
      TlsListen(['\n'] + rest);
    } else {
      assert ListenLine(s.tls) + ['\n'] + rest == "    " + ("listen 80;" + ['\n'] + rest);
      SkipBlanksTls("    ", "listen 80;" + ['\n'] + rest);
      PlainListen(rest);
      NameLineIsFree(s.host);
      SkipPartTls(NameLine(s.host), '\n', Tail(s.locations));
    }
  }

  lemma NameLineIsFree(host: string)
    requires GoodHost(host)
    ensures Free("listen", NameLine(host))
  {
    hide Free;
    FreeAfterBlanks("listen", "    ", "server_name " + host + ";");
    FreeAcross("listen", "server_name", ' ', host + ";");
    FreeWord("listen", "server_name");
    FreeWord("listen", host + ";");
    assert "server_name" + [' '] + (host + ";") == "server_name " + host + ";";
  }

  lemma PassLineIsFree(u: Upstream)
    requires GoodUpstream(u)
    ensures Free("listen", PassLine(u))
  {
    hide Free, GoodUpstream, Url;
    GoodUrl(u);
    FreeAfterBlanks("listen", "        ", "proxy_pass " + Url(u) + ";");
    FreeAcross("listen", "proxy_pass", ' ', Url(u) + ";");
    FreeWord("listen", "proxy_pass");
    FreeWord("listen", Url(u) + ";");
    assert "proxy_pass" + [' '] + (Url(u) + ";") == "proxy_pass " + Url(u) + ";";
  }

  // ---------- the round trip ----------

  lemma {:induction false} LocationLinesSeparated(ls: seq<Location>)
    requires AllGood(ls)
    ensures Separated('\n', AllLocationLines(ls))
  {
    hide GoodLocation, OpenLine, PassLine, StartsServer, Delta, LocationPath;
    if ls != [] {
      LineOfLocation(ls[0]);
      if ls[0].upstream.Some? {
        UpstreamOf(ls[0]);
        PassLineIsOrdinary(ls[0].upstream.value);
      }
      LocationLinesSeparated(ls[1..]);
    }
  }

  lemma ServerLinesSeparated(s: Server)
    requires GoodServer(s)
    ensures Separated('\n', ServerLines(s))
  {
    hide GoodLocation, ListenLine, NameLine, StartsServer, Delta, LocationPath, AllLocationLines;
    ListenLineIsOrdinary(s.tls);
    NameLineIsOrdinary(s.host);
    LocationLinesSeparated(s.locations);
  }

  /** What the reader should find in one server. */
  function RoutesOfServer(s: Server): seq<Route>
  {
    if s.host == "_" then [] else RoutesOf(s.host, s.tls, s.locations)
  }

  /** The server is read back: it has no routes, or the services of its upstreams are kept and it is a TLS
      server or does not look like one. */
  predicate ReadsBack(s: Server)
  {
    || s.host == "_"
    || (AllKept(s.locations) && (s.tls || !LooksTls(s.locations) || !Routed(s.locations)))
  }

  /** Exact condition for one server; in any case as many routes are read as it has, or none and an error. */
  lemma ServerRoundTrip(s: Server)
    requires GoodServer(s)
    ensures var r := ServerRoutes(Join('\n', ServerLines(s)));
            && (r.Ok? ==> |r.value| == |RoutesOfServer(s)|)
            && (r == Ok(RoutesOfServer(s)) <==> ReadsBack(s))
  {
    hide ServerName, DetectTls, Join, Split, ScanLocations, RoutesIn, RoutesOf, ServerLines, GoodLocation, LooksTls,
        AllKept, Routed;
    NameReadBack(s);
    TlsReadBack(s);
    ServerLinesSeparated(s);
    ServerLinesNonempty(s);
    SplitJoin('\n', ServerLines(s));
    FindInServer(s);
    RoutesReadBack(s.host, DetectTls(Join('\n', ServerLines(s))), s.tls, s.locations);
  }

  lemma ServerLinesNonempty(s: Server)
    ensures ServerLines(s) != []
  {
  }

  ghost predicate GoodServers(servers: seq<Server>)
  {
    forall i {:trigger GoodServer(servers[i])} :: 0 <= i < |servers| ==> GoodServer(servers[i])
  }

  ghost predicate AllReadBack(servers: seq<Server>)
  {
    forall i {:trigger ReadsBack(servers[i])} :: 0 <= i < |servers| ==> ReadsBack(servers[i])
  }

  lemma AllReadBackCons(servers: seq<Server>)
    requires servers != []
    ensures AllReadBack(servers) <==> ReadsBack(servers[0]) && AllReadBack(servers[1..])
  {
    hide ReadsBack;
    if AllReadBack(servers) {
      forall i | 0 <= i < |servers[1..]| ensures ReadsBack(servers[1..][i]) {
        assert ReadsBack(servers[i + 1]);
      }
      assert ReadsBack(servers[0]);
    }
    if ReadsBack(servers[0]) && AllReadBack(servers[1..]) {
      forall i | 0 <= i < |servers| ensures ReadsBack(servers[i]) {
        if i > 0 { assert ReadsBack(servers[1..][i - 1]); }
      }
    }
  }

  lemma SameParts(a: seq<Route>, b: seq<Route>, x: seq<Route>, y: seq<Route>)
    requires |a| == |x|
    ensures a + b == x + y <==> a == x && b == y
  {
    if a + b == x + y {
      assert (a + b)[..|a|] == a && (x + y)[..|x|] == x;
      assert (a + b)[|a|..] == b && (x + y)[|x|..] == y;
    }
  }

  lemma {:induction false} BlocksRoundTrip(servers: seq<Server>, k: nat)
    requires GoodServers(servers)
    ensures BlocksRoutes(PrintedBlocks(servers, k)) == Ok(AllRoutes(servers)) <==> AllReadBack(servers)
    decreases servers
  {
    hide GoodServer, ReadsBack, ServerLines, ServerRoutes, RoutesOf, Join, AllReadBack;
    if servers == [] {
      NoneToRead();
    } else {
      var next := k + |ServerLines(servers[0])|;
      ServerRoundTrip(servers[0]);
      BlocksRoundTrip(servers[1..], next);
      AllReadBackCons(servers);
      assert PrintedBlocks(servers, k)[1..] == PrintedBlocks(servers[1..], next);
      var first, rest := ServerRoutes(Join('\n', ServerLines(servers[0]))),
          BlocksRoutes(PrintedBlocks(servers[1..], next));
      if first.Ok? && rest.Ok? {
        SameParts(first.value, rest.value, RoutesOfServer(servers[0]), AllRoutes(servers[1..]));
      }
    }
  }

  lemma NoneToRead()
    ensures AllReadBack([])
  {
  }

  lemma {:induction false} FileLinesSeparated(servers: seq<Server>)
    requires GoodServers(servers)
    ensures Separated('\n', FileLines(servers))
  {
    hide GoodServer, ServerLines;
    if servers != [] {
      ServerLinesSeparated(servers[0]);
      FileLinesSeparated(servers[1..]);
    }
  }

  lemma PrintIsNotBlank(servers: seq<Server>)
    requires servers != []
    ensures Strip(Print(servers)) != "" && FileLines(servers) != []
  {
    var lines := FileLines(servers);
    assert lines[0] == "server {" && |lines| > 1;
    var text := Print(servers);
    assert text[0] == 's';
    StripInk(text);
  }

  /** Printing any list of well-formed servers and reading the text gives their routes in order, if and
      only if every server meets the condition on its fields. */
  lemma RoundTrip(servers: seq<Server>)
    requires GoodServers(servers)
    ensures ConfigRoutes(Print(servers)) == Ok(AllRoutes(servers)) <==> AllReadBack(servers)
  {
    hide GoodServer, ReadsBack, ScanServers, BlocksRoutes, Split, Join, Strip, FileLines, AllRoutes;
    if servers == [] {
      NothingPrinted();
    } else {
      PrintIsNotBlank(servers);
      FileLinesSeparated(servers);
      SplitJoin('\n', FileLines(servers));
      ScanFile(servers, 0);
      BlocksRoundTrip(servers, 0);
    }
  }

  lemma NothingPrinted()
    ensures Strip(Print([])) == "" && AllRoutes([]) == []
  {
  }

  // ---------- where the round trip fails ----------

  /** A location whose path ends in `listen`. */
  function ListenLocation(service: string): Location
  {
    Location("/listen", Some(Upstream(Http, service, "")))
  }

  /** A plain-text server with such a location is read back when the service is `app`, and not when it
      is `ssl`. */
  lemma ListenPathLooksLikeTls(host: string)
    requires GoodHost(host) && host != "_"
    ensures var app, ssl := Server(host, false, [ListenLocation("app")]), Server(host, false, [ListenLocation("ssl")]);
      && GoodServer(app) && ConfigRoutes(Print([app])) == Ok(AllRoutes([app]))
      && GoodServer(ssl) && ConfigRoutes(Print([ssl])) != Ok(AllRoutes([ssl]))
  {
    hide GoodHost, GoodLocation, ConfigRoutes, Print, AllRoutes, LooksTls, AllKept, Routed, ListenLocation;
    var app, ssl := Server(host, false, [ListenLocation("app")]), Server(host, false, [ListenLocation("ssl")]);
    ListenLocationIsGood("app");
    ListenLocationIsGood("ssl");
    ListenLocationLooks("app");
    ListenLocationLooks("ssl");
    RoundTrip([app]);
    RoundTrip([ssl]);
    assert ReadsBack([app][0]);
    assert AllReadBack([ssl]) ==> ReadsBack([ssl][0]);
  }

  lemma ListenLocationIsGood(service: string)
    requires service in {"app", "ssl"}
    ensures GoodLocation(ListenLocation(service))
  {
    hide GoodPath, GoodUpstream;
    ListenPathIsGood();
    ListenUpstreamIsGood(service);
  }

  lemma ListenPathIsGood()
    ensures GoodPath("/listen")
  {
    hide Contains;
    NotContained("/listen", "server", 'v');
  }

  lemma ListenUpstreamIsGood(service: string)
    requires service in {"app", "ssl"}
    ensures GoodUpstream(Upstream(Http, service, ""))
  {
  }

  lemma ListenLocationLooks(service: string)
    requires service in {"app", "ssl"}
    ensures var ls := [ListenLocation(service)]; Routed(ls) && AllKept(ls) && (LooksTls(ls) <==> service == "ssl")
  {
    hide Free, Strip, SslWordAt, ListenEndsWordAt, SslWordFrom;
    var l := ListenLocation(service);
    assert [l][1..] == [];
    FreeWithout("proxy_pass", "/listen");
    ListenEnds();
    SslInUrl(service);
  }

  lemma ListenEnds()
    ensures ListenEndsWordAt("/listen", 1) && forall from :: from >= 7 ==> !SslWordFrom("/listen", from)
  {
  }

  lemma SslInUrl(service: string)
    requires service in {"app", "ssl"}
    ensures SslWordFrom(Url(Upstream(Http, service, "")), 0) <==> service == "ssl"
  {
    var url := Url(Upstream(Http, service, ""));
    assert url == "http://" + service;
    if service == "ssl" {
      assert url == "http://ssl" && SslWordAt(url, 7);
    } else {
      assert 's' !in url;
      forall q | 0 <= q < |url| ensures !SslWordAt(url, q) {
        if q + 3 <= |url| { assert url[q..q + 3][0] == url[q]; }
      }
    }
  }
}
