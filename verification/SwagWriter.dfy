/** The graph writer of SWAG routes: batched MERGE queries into a property graph, each of which may raise. */
module SwagWriter {
  import opened Batching
  import opened Swag
  import opened Text

  datatype Edge = Edge(host: string, path: string, tls: bool)

  /** Proxy names, service names, and the ROUTES_TO edge of a proxy and a service. */
  datatype Graph = Graph(proxies: set<string>, services: set<string>, routesTo: map<(string, string), Edge>)

  // ---------- what the queries do ----------

  /** `MERGE (s:Service {name})` for each row. */
  function MergeServices(g: Graph, names: seq<string>): Graph
  {
    g.(services := g.services + set i | 0 <= i < |names| :: names[i])
  }

  /** One row of the edge query: both ends are matched, the edge is merged, its properties are set. */
  function MergeRoute(g: Graph, proxy: string, r: Route): Graph
  {
    if proxy in g.proxies && r.service in g.services then
      g.(routesTo := g.routesTo[(proxy, r.service) := Edge(r.host, r.path, r.tls)])
    else g
  }

  function MergeRoutes(g: Graph, proxy: string, routes: seq<Route>): Graph
    decreases routes
  {
    if routes == [] then g else MergeRoutes(MergeRoute(g, proxy, routes[0]), proxy, routes[1..])
  }

  lemma {:induction false} MergeRoutesConcat(g: Graph, proxy: string, a: seq<Route>, b: seq<Route>)
    ensures MergeRoutes(g, proxy, a + b) == MergeRoutes(MergeRoutes(g, proxy, a), proxy, b)
    decreases a
  {
    if a == [] {
      assert a + b == b;
    } else {
      assert (a + b)[1..] == a[1..] + b;
      MergeRoutesConcat(MergeRoute(g, proxy, a[0]), proxy, a[1..], b);
    }
  }

  lemma MergeServicesMore(g: Graph, names: seq<string>, i: nat, j: nat)
    requires i <= j <= |names|
    ensures MergeServices(MergeServices(g, names[..i]), names[i..j]) == MergeServices(g, names[..j])
  {
    var a, b, c := names[..i], names[i..j], names[..j];
    forall x | x in MergeServices(g, c).services ensures x in MergeServices(MergeServices(g, a), b).services {
      if x !in g.services {
        var k :| 0 <= k < j && c[k] == x;
        if k < i { assert a[k] == x; } else { assert b[k - i] == x; }
      }
    }
    forall x | x in MergeServices(MergeServices(g, a), b).services ensures x in MergeServices(g, c).services {
      if x !in MergeServices(g, a).services {
        var k :| 0 <= k < |b| && b[k] == x;
        assert c[i + k] == x;
      } else if x !in g.services {
        var k :| 0 <= k < |a| && a[k] == x;
        assert c[k] == x;
      }
    }
  }

  /** The names of the target services, each at its first place. */
  function Unique(routes: seq<Route>): seq<string>
  {
    if routes == [] then []
    else
      var names := Unique(routes[..|routes| - 1]);
      var last := routes[|routes| - 1].service;
      if last in names then names else names + [last]
  }

  /** Names keep the order of their first routes: more routes only add names behind. */
  lemma {:induction false} UniqueGrows(a: seq<Route>, b: seq<Route>)
    ensures Unique(a) <= Unique(a + b)
    decreases |b|
  {
    if b == [] {
      assert a + b == a;
    } else {
      var k := |b| - 1;
      assert (a + b)[..|a + b| - 1] == a + b[..k];
      UniqueGrows(a, b[..k]);
    }
  }

  ghost predicate Targets(routes: seq<Route>, s: string)
  {
    exists i :: 0 <= i < |routes| && routes[i].service == s
  }

  /** Every target is named, nothing else is, and no name is repeated. */
  lemma {:induction false} UniqueNames(routes: seq<Route>)
    ensures forall s :: s in Unique(routes) <==> Targets(routes, s)
    ensures forall i, j :: 0 <= i < j < |Unique(routes)| ==> Unique(routes)[i] != Unique(routes)[j]
  {
    if routes != [] {
      var init, last := routes[..|routes| - 1], routes[|routes| - 1].service;
      UniqueNames(init);
      forall s ensures Targets(routes, s) <==> Targets(init, s) || s == last {
        if Targets(routes, s) && s != last {
          var i :| 0 <= i < |routes| && routes[i].service == s;
          assert init[i].service == s;
        }
        if Targets(init, s) {
          var i :| 0 <= i < |init| && init[i].service == s;
          assert routes[i].service == s;
        }
      }
    }
  }

  /** A whole write: all services, then all edges. */
  function Write(g: Graph, proxy: string, routes: seq<Route>): Graph
  {
    MergeRoutes(MergeServices(g, Unique(routes)), proxy, routes)
  }

  /** A write broken off after the first `i` service names and the first `j` routes. */
  function Partial(g: Graph, proxy: string, routes: seq<Route>, i: nat, j: nat): Graph
    requires i <= |Unique(routes)| && j <= |routes|
  {
    MergeRoutes(MergeServices(g, Unique(routes)[..i]), proxy, routes[..j])
  }

  // ---------- the writer ----------

  datatype Error = EmptyProxyName | ZeroStep | SessionFailed

  datatype Stats = Stats(totalWritten: nat, batchesExecuted: nat)

  class SwagGraphWriter {
    const batchSize: int
    const fails: nat -> bool  // whether query number n raises; each query is a transaction of its own
    var runs: nat
    var graph: Graph

    constructor (batchSize: int, fails: nat -> bool, graph: Graph)
      ensures this.batchSize == batchSize && this.fails == fails && this.graph == graph && runs == 0
    {
      this.batchSize, this.fails, this.graph, runs := batchSize, fails, graph, 0;
    }

    /** `Write` for every positive batch size, or an error and a part of it. */
    method WriteRoutes(proxyName: string, routes: seq<Route>) returns (r: Result<Stats, Error>)
      modifies this
      ensures proxyName == "" ==> r == Err(EmptyProxyName) && graph == old(graph)
      ensures proxyName != "" && (routes == [] || batchSize < 0) ==> r == Ok(Stats(0, 0)) && graph == old(graph)
      ensures proxyName != "" && routes != [] && batchSize == 0 ==> r == Err(ZeroStep) && graph == old(graph)
      ensures proxyName != "" && routes != [] && batchSize > 0 ==>
                match r
                case Ok(stats) =>
                  && graph == Write(old(graph), proxyName, routes)
                  && stats == Stats(|routes|, Batches(|Unique(routes)|, batchSize) + Batches(|routes|, batchSize))
                case Err(e) =>
                  && e == SessionFailed && runs > old(runs) && fails(runs - 1)
                  && exists i: nat, j: nat ::
                    && i <= |Unique(routes)| && j <= |routes| && (j > 0 ==> i == |Unique(routes)|)
                    && graph == Partial(old(graph), proxyName, routes, i, j)
    {
      hide Unique, MergeServices, MergeRoutes;
      if proxyName == "" { return Err(EmptyProxyName); }
      if routes == [] { return Ok(Stats(0, 0)); }
      var unique := Unique(routes);
      if batchSize == 0 { return Err(ZeroStep); }  // a range with step zero
      if batchSize < 0 { return Ok(Stats(0, 0)); }  // ranges with a negative step are empty
      ghost var g := graph;
      var ok, done, executed := WriteServiceBatches(unique);
      assert unique[..|unique|] == unique && routes[..0] == [];
      if !ok {
        NoRoutesMerged(g, unique[..done], proxyName);
        assert graph == Partial(g, proxyName, routes, done, 0);
        return Err(SessionFailed);
      }
      var written, more;
      ok, written, more := WriteRouteBatches(proxyName, routes);
      if !ok {
        assert graph == Partial(g, proxyName, routes, |unique|, written);
        return Err(SessionFailed);
      }
      assert routes[..|routes|] == routes;
      return Ok(Stats(written, executed + more));
    }

    method WriteServiceBatches(unique: seq<string>) returns (ok: bool, done: nat, executed: nat)
      requires batchSize > 0
      modifies this
      ensures done <= |unique| && graph == MergeServices(old(graph), unique[..done])
      ensures ok ==> done == |unique| && executed == Batches(|unique|, batchSize) && runs >= old(runs)
      ensures !ok ==> runs > old(runs) && fails(runs - 1)
    {
      hide MergeServices;
      done, executed := 0, 0;
      NothingMerged(graph);
      assert unique[..0] == [];
      while done < |unique|
        invariant done <= |unique| && graph == MergeServices(old(graph), unique[..done]) && runs >= old(runs)
        invariant executed + Batches(|unique| - done, batchSize) == Batches(|unique|, batchSize)
      {
        var end := if done + batchSize <= |unique| then done + batchSize else |unique|;
        runs := runs + 1;
        if fails(runs - 1) { return false, done, executed; }
        MergeServicesMore(old(graph), unique, done, end);
        graph := MergeServices(graph, unique[done..end]);
        StepCount(|unique|, batchSize, done);
        done, executed := end, executed + 1;
      }
      ok := true;
    }

    method WriteRouteBatches(proxyName: string, routes: seq<Route>) returns (ok: bool, written: nat, executed: nat)
      requires batchSize > 0
      modifies this
      ensures written <= |routes| && graph == MergeRoutes(old(graph), proxyName, routes[..written])
      ensures ok ==> written == |routes| && executed == Batches(|routes|, batchSize) && runs >= old(runs)
      ensures !ok ==> runs > old(runs) && fails(runs - 1)
    {
      written, executed := 0, 0;
      assert routes[..0] == [];
      while written < |routes|
        invariant written <= |routes| && graph == MergeRoutes(old(graph), proxyName, routes[..written])
        invariant runs >= old(runs)
        invariant executed + Batches(|routes| - written, batchSize) == Batches(|routes|, batchSize)
      {
        var end := if written + batchSize <= |routes| then written + batchSize else |routes|;
        runs := runs + 1;
        if fails(runs - 1) { return false, written, executed; }
        MergeRoutesConcat(old(graph), proxyName, routes[..written], routes[written..end]);
        assert routes[..written] + routes[written..end] == routes[..end];
        graph := MergeRoutes(graph, proxyName, routes[written..end]);
        StepCount(|routes|, batchSize, written);
        written, executed := end, executed + 1;
      }
      ok := true;
    }
  }

  lemma NothingMerged(g: Graph)
    ensures MergeServices(g, []) == g
  {
    assert MergeServices(g, []).services == g.services;
  }

  lemma NoRoutesMerged(g: Graph, names: seq<string>, proxy: string)
    ensures MergeRoutes(MergeServices(g, names), proxy, []) == MergeServices(g, names)
  {
  }

  // ---------- the graph after a write ----------

  /** What the last route to `s` says. */
  function LastTo(routes: seq<Route>, s: string): Option<Edge>
  {
    if routes == [] then None
    else
      var later := LastTo(routes[1..], s);
      if later.Some? then later
      else if routes[0].service == s then Some(Edge(routes[0].host, routes[0].path, routes[0].tls))
      else None
  }

  lemma {:induction false} LastToExists(routes: seq<Route>, s: string)
    ensures LastTo(routes, s).Some? <==> Targets(routes, s)
  {
    if routes != [] {
      LastToExists(routes[1..], s);
      if Targets(routes[1..], s) {
        var i :| 0 <= i < |routes[1..]| && routes[1..][i].service == s;
        assert routes[i + 1].service == s;
      }
      if Targets(routes, s) && routes[0].service != s {
        var i :| 0 <= i < |routes| && routes[i].service == s;
        assert routes[1..][i - 1].service == s;
      }
    }
  }

  /** The edge of `key` after the routes: the last route's for a target of this proxy, else the old one. */
  function EdgeAfter(g: Graph, proxy: string, routes: seq<Route>, key: (string, string)): Option<Edge>
  {
    if key.0 == proxy && LastTo(routes, key.1).Some? then LastTo(routes, key.1)
    else if key in g.routesTo then Some(g.routesTo[key])
    else None
  }

  /** `h` differs from `g` in its edges only, and these are as the routes say. */
  ghost predicate EdgesAsRouted(g: Graph, proxy: string, routes: seq<Route>, h: Graph)
  {
    && h.proxies == g.proxies && h.services == g.services
    && (forall key :: key in h.routesTo <==> EdgeAfter(g, proxy, routes, key).Some?)
    && (forall key :: key in h.routesTo ==> Some(h.routesTo[key]) == EdgeAfter(g, proxy, routes, key))
  }

  ghost predicate AllKnown(g: Graph, routes: seq<Route>)
  {
    forall i :: 0 <= i < |routes| ==> routes[i].service in g.services
  }

  lemma {:induction false} RoutesMerged(g: Graph, proxy: string, routes: seq<Route>)
    requires proxy in g.proxies && AllKnown(g, routes)
    ensures EdgesAsRouted(g, proxy, routes, MergeRoutes(g, proxy, routes))
    decreases routes
  {
    if routes != [] {
      RoutesMerged(MergeRoute(g, proxy, routes[0]), proxy, routes[1..]);
    }
  }

  lemma {:induction false} NoProxyNoEdges(g: Graph, proxy: string, routes: seq<Route>)
    requires proxy !in g.proxies
    ensures MergeRoutes(g, proxy, routes) == g
    decreases routes
  {
    if routes != [] {
      NoProxyNoEdges(g, proxy, routes[1..]);
    }
  }

  lemma WriteKnowsTargets(g: Graph, routes: seq<Route>, i: nat)
    requires i <= |Unique(routes)|
    ensures i == |Unique(routes)| ==> AllKnown(MergeServices(g, Unique(routes)[..i]), routes)
    ensures forall s :: s in MergeServices(g, Unique(routes)[..i]).services ==> s in g.services || Targets(routes, s)
  {
    hide Unique;
    UniqueNames(routes);
    var names := Unique(routes)[..i];
    if i == |Unique(routes)| {
      forall k | 0 <= k < |routes| ensures routes[k].service in MergeServices(g, names).services {
        assert Targets(routes, routes[k].service);
        var n :| 0 <= n < |Unique(routes)| && Unique(routes)[n] == routes[k].service;
        assert names[n] == routes[k].service;
      }
    }
    forall s | s in MergeServices(g, names).services && s !in g.services ensures Targets(routes, s) {
      var n :| 0 <= n < |names| && names[n] == s;
      assert s in Unique(routes);
    }
  }

  /** After a write exactly the targets were added as services; an existing proxy has for each of them one
      edge with what the last route to it says, and every other edge is as before. A missing proxy gets no edge. */
  lemma WriteEffect(g: Graph, proxy: string, routes: seq<Route>)
    ensures var h := Write(g, proxy, routes);
      && h.proxies == g.proxies
      && (forall s :: s in h.services <==> s in g.services || Targets(routes, s))
      && (proxy !in g.proxies ==> h.routesTo == g.routesTo)
      && (proxy in g.proxies ==> EdgesAsRouted(g.(services := h.services), proxy, routes, h))
  {
    hide Unique, MergeRoutes, MergeServices, EdgesAsRouted, AllKnown;
    var m := MergeServices(g, Unique(routes));
    assert Unique(routes)[..|Unique(routes)|] == Unique(routes);
    WriteKnowsTargets(g, routes, |Unique(routes)|);
    ServicesMerged(g, Unique(routes));
    TargetsKnown(m, routes);
    if proxy in g.proxies {
      RoutesMerged(m, proxy, routes);
      OnlyEdgesDiffer(m, proxy, routes, MergeRoutes(m, proxy, routes));
    } else {
      NoProxyNoEdges(m, proxy, routes);
    }
  }

  lemma OnlyEdgesDiffer(m: Graph, proxy: string, routes: seq<Route>, h: Graph)
    requires EdgesAsRouted(m, proxy, routes, h)
    ensures h.proxies == m.proxies && h.services == m.services
  {
  }

  lemma TargetsKnown(g: Graph, routes: seq<Route>)
    requires AllKnown(g, routes)
    ensures forall s :: Targets(routes, s) ==> s in g.services
  {
  }

  lemma ServicesMerged(g: Graph, names: seq<string>)
    ensures var m := MergeServices(g, names); m.proxies == g.proxies && m.routesTo == g.routesTo
    ensures forall s :: s in g.services ==> s in MergeServices(g, names).services
    ensures MergeServices(g, names) == g.(services := MergeServices(g, names).services)
  {
  }

  /** Two graphs with the same proxies, services and edges. */
  lemma SameGraph(a: Graph, b: Graph)
    requires a.proxies == b.proxies
    requires forall s :: s in a.services <==> s in b.services
    requires forall key :: key in a.routesTo <==> key in b.routesTo
    requires forall key :: key in a.routesTo ==> a.routesTo[key] == b.routesTo[key]
    ensures a == b
  {
    assert a.services == b.services;
    assert a.routesTo == b.routesTo;
  }

  /** `h` grew out of `g` by targets of the routes only: services among them, and edges of this proxy to them. */
  ghost predicate GrownBy(g: Graph, proxy: string, routes: seq<Route>, h: Graph)
  {
    && h.proxies == g.proxies
    && (forall s :: s in g.services ==> s in h.services)
    && (forall s :: s in h.services ==> s in g.services || Targets(routes, s))
    && (forall key :: Untouched(proxy, routes, key) ==>
          (key in h.routesTo <==> key in g.routesTo) && (key in g.routesTo ==> h.routesTo[key] == g.routesTo[key]))
    && (proxy !in g.proxies ==> h.routesTo == g.routesTo)
  }

  predicate Untouched(proxy: string, routes: seq<Route>, key: (string, string))
  {
    key.0 != proxy || LastTo(routes, key.1).None?
  }

  lemma {:induction false} MergeRoutesGrows(g: Graph, proxy: string, routes: seq<Route>, h: Graph, more: seq<Route>)
    requires GrownBy(g, proxy, routes, h) && forall i :: 0 <= i < |more| ==> LastTo(routes, more[i].service).Some?
    ensures GrownBy(g, proxy, routes, MergeRoutes(h, proxy, more))
    decreases more
  {
    hide LastTo, Targets;
    if more != [] {
      assert GrownBy(g, proxy, routes, MergeRoute(h, proxy, more[0]));
      MergeRoutesGrows(g, proxy, routes, MergeRoute(h, proxy, more[0]), more[1..]);
    }
  }

  lemma PartialGrows(g: Graph, proxy: string, routes: seq<Route>, i: nat, j: nat)
    requires i <= |Unique(routes)| && j <= |routes|
    ensures GrownBy(g, proxy, routes, Partial(g, proxy, routes, i, j))
  {
    hide Unique, LastTo;
    WriteKnowsTargets(g, routes, i);
    forall k | 0 <= k < j ensures LastTo(routes, routes[..j][k].service).Some? {
      assert Targets(routes, routes[k].service);
      LastToExists(routes, routes[k].service);
    }
    MergeRoutesGrows(g, proxy, routes, MergeServices(g, Unique(routes)[..i]), routes[..j]);
  }

  /** A whole write erases all trace of what was written of the same routes before. */
  lemma WriteOverGrown(g: Graph, proxy: string, routes: seq<Route>, h: Graph)
    requires GrownBy(g, proxy, routes, h)
    ensures Write(h, proxy, routes) == Write(g, proxy, routes)
  {
    hide Write, LastTo, Targets;
    WriteEffect(g, proxy, routes);
    WriteEffect(h, proxy, routes);
    var a, b := Write(h, proxy, routes), Write(g, proxy, routes);
    if proxy in g.proxies {
      forall key ensures key in a.routesTo <==> key in b.routesTo
        ensures key in a.routesTo ==> a.routesTo[key] == b.routesTo[key]
      {
        EdgesAgree(g, h, proxy, routes, a, b, key);
      }
    }
    SameGraph(a, b);
  }

  lemma EdgesAgree(g: Graph, h: Graph, proxy: string, routes: seq<Route>, a: Graph, b: Graph, key: (string, string))
    requires GrownBy(g, proxy, routes, h)
    requires EdgesAsRouted(h.(services := a.services), proxy, routes, a) &&
      EdgesAsRouted(g.(services := b.services), proxy, routes, b)
    ensures key in a.routesTo <==> key in b.routesTo
    ensures key in a.routesTo ==> a.routesTo[key] == b.routesTo[key]
  {
    hide LastTo, Targets;
    var x, y := h.(services := a.services), g.(services := b.services);
    if Untouched(proxy, routes, key) {
      assert EdgeAfter(x, proxy, routes, key) == EdgeAfter(y, proxy, routes, key);
    } else {
      assert EdgeAfter(x, proxy, routes, key) == LastTo(routes, key.1) == EdgeAfter(y, proxy, routes, key);
    }
  }

  /** Writing again after a write broken off anywhere gives the graph of one clean write. */
  lemma RetryCompletes(g: Graph, proxy: string, routes: seq<Route>, i: nat, j: nat)
    requires i <= |Unique(routes)| && j <= |routes|
    ensures Write(Partial(g, proxy, routes, i, j), proxy, routes) == Write(g, proxy, routes)
  {
    hide Write, Partial, Unique, GrownBy;
    PartialGrows(g, proxy, routes, i, j);
    WriteOverGrown(g, proxy, routes, Partial(g, proxy, routes, i, j));
  }

  /** A second identical write changes nothing. */
  lemma WriteTwice(g: Graph, proxy: string, routes: seq<Route>)
    ensures Write(Write(g, proxy, routes), proxy, routes) == Write(g, proxy, routes)
  {
    hide Unique, MergeServices, MergeRoutes;
    assert Unique(routes)[..|Unique(routes)|] == Unique(routes) && routes[..|routes|] == routes;
    RetryCompletes(g, proxy, routes, |Unique(routes)|, |routes|);
  }
}
