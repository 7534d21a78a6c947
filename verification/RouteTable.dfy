/** From settled nodes to prefix routes, and from the routes of every computation to one per prefix. */
module RouteTable {
  import opened Types
  import opened Topology
  import opened TentativeSet
  import opened Routes
  import Dijkstra
  import Spf

  /** One advertisement: the node that makes it and its position in that node's list. */
  type Source = (NodeId, nat)

  /** The advertisement yields a route: made by another settled node with a first hop, in reach of the ceiling. */
  predicate Contributes(g: Graph, self: NodeId, done: TentMap, x: Source) {
    && x.0 in done && x.0 != self && x.0 in g && done[x.0].firstHops != {}
    && x.1 < |g[x.0].prefixes|
    && done[x.0].distance + g[x.0].prefixes[x.1].metric < MAX_PATH_METRIC
  }

  function Contribution(g: Graph, done: TentMap, x: Source, level: Level, algo: nat): Route
    requires x.0 in done && x.0 in g && x.1 < |g[x.0].prefixes|
  {
    var a := g[x.0].prefixes[x.1];
    Route(done[x.0].distance + a.metric, level, algo, a.down, a.mt, done[x.0].firstHops)
  }

  /** The routes to `p` that a set of advertisements yields. */
  ghost function Offered(g: Graph, self: NodeId, done: TentMap, level: Level, algo: nat, xs: set<Source>, p: Prefix): set<Route> {
    set x | x in xs && Contributes(g, self, done, x) && g[x.0].prefixes[x.1].prefix == p :: Contribution(g, done, x, level, algo)
  }

  /** The first `n` advertisements of one node. */
  ghost function SourcesOf(id: NodeId, n: nat): set<Source> {
    set k | 0 <= k < n :: (id, k)
  }

  /** Every advertisement of the nodes in `ids`. */
  ghost function AllSources(g: Graph, ids: set<NodeId>): set<Source> {
    set id, i | id in ids && id in g && 0 <= i < |g[id].prefixes| :: (id, i)
  }

  /** `routes` holds, for every prefix, the summary of what the advertisements in `xs` offer for it. */
  ghost predicate Collected(g: Graph, self: NodeId, done: TentMap, level: Level, algo: nat, xs: set<Source>,
                            routes: map<Prefix, Route>)
  {
    && (forall p :: p in routes <==> Offered(g, self, done, level, algo, xs, p) != {})
    && (forall p :: p in routes ==> IsSummary(Offered(g, self, done, level, algo, xs, p), routes[p]))
  }

  // ---------- What the routes mean ----------

  /** A router with a first hop that is attached to another area and carries transit, and no such router is nearer. */
  ghost predicate IsNearestAttached(g: Graph, done: TentMap, v: NodeId) {
    && v in done && v in g && done[v].firstHops != {} && v.pseudonode == 0 && g[v].attached && !g[v].overload
    && forall w :: w in done && w in g && done[w].firstHops != {} && w.pseudonode == 0 && g[w].attached && !g[w].overload ==>
         done[v].distance <= done[w].distance
  }

  /**
   * A settled node with a first hop brings the prefix at this cost: another node, by advertising it at what is left of the
   * cost after its distance, within the ceiling; or, where a default is wanted, a nearest attached router at its distance.
   */
  ghost predicate Brings(g: Graph, self: NodeId, done: TentMap, wantDefault: bool, p: Prefix, v: NodeId, cost: nat, down: bool, mt: bool) {
    && v in done && v in g && done[v].firstHops != {}
    && (|| (v != self && done[v].distance <= cost < MAX_PATH_METRIC
            && Advertised(p, cost - done[v].distance, down, mt) in g[v].prefixes)
        || (wantDefault && (p == DEFAULT_V4 || p == DEFAULT_V6) && cost == done[v].distance && down && !mt
            && IsNearestAttached(g, done, v)))
  }

  /**
   * The route to a prefix: there is one exactly when some node brings it. At Level 1 one that was not leaked down goes
   * first, and then the least cost; at Level 2 the least cost alone. The next hops are the first hops of all that bring
   * it so, and the multi-topology mark stands only if all that bring it carry it.
   */
  ghost predicate Means(g: Graph, self: NodeId, done: TentMap, level: Level, algo: nat, wantDefault: bool, p: Prefix,
                        routes: map<Prefix, Route>)
  {
    && (p in routes <==> exists v, cost, down, mt :: Brings(g, self, done, wantDefault, p, v, cost, down, mt))
    && (p in routes ==>
          var r := routes[p];
          && r.level == level && r.algo == algo
          && (exists v, mt :: Brings(g, self, done, wantDefault, p, v, r.metric, r.down, mt))
          && (forall v, cost, down, mt :: Brings(g, self, done, wantDefault, p, v, cost, down, mt) ==>
                if level == L1 && r.down != down then !r.down else r.metric <= cost)
          && (forall h :: h in r.nextHops <==>
                exists v, down, mt :: Brings(g, self, done, wantDefault, p, v, r.metric, down, mt) && (level == L1 ==> down == r.down)
                                      && h in done[v].firstHops)
          && (r.mt <==> forall v, cost, down, mt :: Brings(g, self, done, wantDefault, p, v, cost, down, mt) ==> mt))
  }

  /** An advertisement that yields nothing changes nothing. */
  lemma SkipSource(g: Graph, self: NodeId, done: TentMap, level: Level, algo: nat, xs: set<Source>,
                   routes: map<Prefix, Route>, x: Source)
    requires Collected(g, self, done, level, algo, xs, routes) && !Contributes(g, self, done, x)
    ensures Collected(g, self, done, level, algo, xs + {x}, routes)
  {
    hide IsSummary;
    forall p
      ensures Offered(g, self, done, level, algo, xs + {x}, p) == Offered(g, self, done, level, algo, xs, p)
    {
    }
  }

  /** One that does is merged for its own prefix and no other. */
  lemma TakeSource(g: Graph, self: NodeId, done: TentMap, level: Level, algo: nat, xs: set<Source>,
                   routes: map<Prefix, Route>, x: Source)
    requires Collected(g, self, done, level, algo, xs, routes) && Contributes(g, self, done, x)
    ensures Collected(g, self, done, level, algo, xs + {x},
                      AddRoute(routes, g[x.0].prefixes[x.1].prefix, Contribution(g, done, x, level, algo)))
  {
    hide IsSummary; hide Merge;
    var q, r := g[x.0].prefixes[x.1].prefix, Contribution(g, done, x, level, algo);
    var before := Offered(g, self, done, level, algo, xs, q);
    forall p
      ensures p != q ==> Offered(g, self, done, level, algo, xs + {x}, p) == Offered(g, self, done, level, algo, xs, p)
    {
    }
    assert Offered(g, self, done, level, algo, xs + {x}, q) == before + {r} by {
      assert r in Offered(g, self, done, level, algo, xs + {x}, q);
    }
    if q in routes {
      MergeSummary(before, routes[q], r);
    } else {
      SummaryOfOne(r);
      assert before + {r} == {r};
    }
  }

  /** Merge the advertisements of one node. */
  method CollectNode(g: Graph, self: NodeId, done: TentMap, level: Level, algo: nat, id: NodeId,
                     routes0: map<Prefix, Route>, ghost seen: set<Source>)
    returns (routes: map<Prefix, Route>)
    requires id in done && id in g
    requires Collected(g, self, done, level, algo, seen, routes0)
    ensures Collected(g, self, done, level, algo, seen + SourcesOf(id, |g[id].prefixes|), routes)
  {
    hide Collected; hide Contribution;
    routes := routes0;
    assert seen + SourcesOf(id, 0) == seen;
    for i := 0 to |g[id].prefixes|
      invariant Collected(g, self, done, level, algo, seen + SourcesOf(id, i), routes)
    {
      var a := g[id].prefixes[i];
      ghost var xs := seen + SourcesOf(id, i);
      assert seen + SourcesOf(id, i + 1) == xs + {(id, i)};
      if id != self && done[id].firstHops != {} && done[id].distance + a.metric < MAX_PATH_METRIC {
        TakeSource(g, self, done, level, algo, xs, routes, (id, i));
        routes := AddRoute(routes, a.prefix, Contribution(g, done, (id, i), level, algo));
      } else {
        SkipSource(g, self, done, level, algo, xs, routes, (id, i));
      }
    }
  }

  /** Whatever the advertisements, there are routes collected from them. */
  lemma {:induction false} Collects(g: Graph, self: NodeId, done: TentMap, level: Level, algo: nat, xs: set<Source>) returns (routes: map<Prefix, Route>)
    ensures Collected(g, self, done, level, algo, xs, routes)
    decreases xs
  {
    routes := map[];
    if xs != {} {
      var x: Source :| x in xs;
      var rest := Collects(g, self, done, level, algo, xs - {x});
      assert xs == (xs - {x}) + {x};
      if Contributes(g, self, done, x) {
        TakeSource(g, self, done, level, algo, xs - {x}, rest, x);
        routes := AddRoute(rest, g[x.0].prefixes[x.1].prefix, Contribution(g, done, x, level, algo));
      } else {
        SkipSource(g, self, done, level, algo, xs - {x}, rest, x);
        routes := rest;
      }
    }
  }

  /** The routes collected from every settled node, in whatever order the nodes are visited. */
  method CollectRoutes(g: Graph, self: NodeId, done: TentMap, level: Level, algo: nat) returns (routes: map<Prefix, Route>)
    ensures Collected(g, self, done, level, algo, AllSources(g, done.Keys), routes)
    ensures forall p :: Means(g, self, done, level, algo, false, p, routes)
  {
    routes := map[];
    var todo := done.Keys;
    ghost var visited: set<NodeId> := {};
    while todo != {}
      invariant todo + visited == done.Keys
      invariant Collected(g, self, done, level, algo, AllSources(g, visited), routes)
    {
      hide Collected;
      var id :| id in todo;
      todo := todo - {id};
      if id in g {
        routes := CollectNode(g, self, done, level, algo, id, routes, AllSources(g, visited));
        assert AllSources(g, visited + {id}) == AllSources(g, visited) + SourcesOf(id, |g[id].prefixes|);
      } else {
        assert AllSources(g, visited + {id}) == AllSources(g, visited);
      }
      visited := visited + {id};
    }
    assert visited == done.Keys;
    forall p
      ensures Means(g, self, done, level, algo, false, p, routes)
    {
      CollectedMeans(g, self, done, level, algo, routes, p);
    }
  }

  /** A settled router that offers a way out of the area: attached, willing to carry transit, with a first hop. */
  predicate IsExit(g: Graph, done: TentMap, id: NodeId) {
    id in done && id in g && id.pseudonode == 0 && g[id].attached && !g[id].overload && done[id].firstHops != {}
  }

  /** An exit among `ids` that no other one there is nearer than. */
  ghost predicate NearestExit(g: Graph, done: TentMap, ids: set<NodeId>, id: NodeId) {
    id in ids && IsExit(g, done, id) &&
    forall other :: other in ids && IsExit(g, done, other) ==> done[id].distance <= done[other].distance
  }

  /** The default route an attached router stands for: its distance, marked as leaked down. */
  function ExitRoute(done: TentMap, id: NodeId): Route
    requires id in done
  {
    Route(done[id].distance, L1, 0, true, false, done[id].firstHops)
  }

  /** `r` is the default towards the nearest exits among `ids`, with the first hops of all of them. */
  ghost predicate IsDefault(g: Graph, done: TentMap, ids: set<NodeId>, r: Option<Route>) {
    match r
    case None => forall id :: id in ids ==> !IsExit(g, done, id)
    case Some(d) =>
      && (exists id :: NearestExit(g, done, ids, id) && d == ExitRoute(done, id).(nextHops := d.nextHops))
      && (forall h :: h in d.nextHops <==> exists id :: NearestExit(g, done, ids, id) && h in done[id].firstHops)
  }

  /** Taking one more settled node into account. */
  lemma DefaultStep(g: Graph, done: TentMap, ids: set<NodeId>, r: Option<Route>, id: NodeId)
    requires IsDefault(g, done, ids, r) && id in done
    ensures !IsExit(g, done, id) ==> IsDefault(g, done, ids + {id}, r)
    ensures IsExit(g, done, id) ==>
              IsDefault(g, done, ids + {id}, Some(if r.None? then ExitRoute(done, id) else Merge(r.value, ExitRoute(done, id))))
  {
    if r.None? {
      if IsExit(g, done, id) { assert NearestExit(g, done, ids + {id}, id); }
    } else {
      var near :| NearestExit(g, done, ids, near) && r.value == ExitRoute(done, near).(nextHops := r.value.nextHops);
      if !IsExit(g, done, id) {
        assert forall x :: NearestExit(g, done, ids + {id}, x) <==> NearestExit(g, done, ids, x);
      } else {
        assert forall x :: NearestExit(g, done, ids + {id}, x) <==>
            (x == id && done[id].distance <= done[near].distance) ||
            (NearestExit(g, done, ids, x) && done[near].distance <= done[id].distance);
      }
    }
  }

  /** Scan the settled nodes for the nearest attached routers. */
  method AttachedDefault(g: Graph, done: TentMap) returns (r: Option<Route>)
    ensures IsDefault(g, done, done.Keys, r)
  {
    r := None;
    var todo := done.Keys;
    ghost var visited: set<NodeId> := {};
    while todo != {}
      invariant todo + visited == done.Keys
      invariant IsDefault(g, done, visited, r)
      invariant r.Some? ==> r.value.level == L1 && r.value.down && !r.value.mt && r.value.algo == 0
    {
      hide IsDefault;
      var id :| id in todo;
      todo := todo - {id};
      DefaultStep(g, done, visited, r, id);
      visited := visited + {id};
      if IsExit(g, done, id) {
        var d := ExitRoute(done, id);
        if r.None? || d.metric < r.value.metric {
          r := Some(d);
        } else if d.metric == r.value.metric {
          r := Some(r.value.(nextHops := r.value.nextHops + d.nextHops));
        }
      }
    }
    assert visited == done.Keys;
  }

  /** `routes` with a default merged in for both address families. */
  function WithDefault(routes: map<Prefix, Route>, r: Option<Route>): map<Prefix, Route> {
    if r.None? then routes
    else AddRoute(AddRoute(routes, DEFAULT_V4, r.value), DEFAULT_V6, r.value)
  }

  /** What one computation returns: routes to every advertised prefix over shortest paths, and the area default. */
  ghost predicate IsRouteSet(g: Graph, self: NodeId, level: Level, algo: nat, wantDefault: bool, done: TentMap,
                             routes: map<Prefix, Route>)
  {
    && Dijkstra.Settles(g, self, done) && Dijkstra.ShortestPaths(g, self, done) && Dijkstra.SoundHops(g, self, done)
    && exists plain, exit ::
         && Collected(g, self, done, level, algo, AllSources(g, done.Keys), plain)
         && (if wantDefault then IsDefault(g, done, done.Keys, exit) else exit == None)
         && routes == WithDefault(plain, exit)
  }

  /** Everything that brings the prefix, as routes. */
  ghost function Brought(g: Graph, self: NodeId, done: TentMap, level: Level, algo: nat, wantDefault: bool, p: Prefix): set<Route> {
    Offered(g, self, done, level, algo, AllSources(g, done.Keys), p) +
    if wantDefault && (p == DEFAULT_V4 || p == DEFAULT_V6) then set id | id in done.Keys && NearestExit(g, done, done.Keys, id) :: ExitRoute(done, id)
    else {}
  }

  lemma NearestIsNearest(g: Graph, done: TentMap, v: NodeId)
    ensures NearestExit(g, done, done.Keys, v) <==> IsNearestAttached(g, done, v)
  {
  }

  /** One who brings it is one of those routes. */
  lemma BringsIsBrought(g: Graph, self: NodeId, done: TentMap, level: Level, algo: nat, wantDefault: bool, p: Prefix,
                        v: NodeId, cost: nat, down: bool, mt: bool)
    requires wantDefault ==> level == L1 && algo == 0
    requires Brings(g, self, done, wantDefault, p, v, cost, down, mt)
    ensures Route(cost, level, algo, down, mt, done[v].firstHops) in Brought(g, self, done, level, algo, wantDefault, p)
  {
    NearestIsNearest(g, done, v);
    if v != self && done[v].distance <= cost < MAX_PATH_METRIC && Advertised(p, cost - done[v].distance, down, mt) in g[v].prefixes {
      var k :| 0 <= k < |g[v].prefixes| && g[v].prefixes[k] == Advertised(p, cost - done[v].distance, down, mt);
      var x: Source := (v, k);
      assert x in AllSources(g, done.Keys) && Contributes(g, self, done, x);
      assert Contribution(g, done, x, level, algo) in Offered(g, self, done, level, algo, AllSources(g, done.Keys), p);
    } else {
      assert ExitRoute(done, v) == Route(cost, level, algo, down, mt, done[v].firstHops);
    }
  }

  /** And each of them comes from one who does. */
  lemma BroughtIsBrings(g: Graph, self: NodeId, done: TentMap, level: Level, algo: nat, wantDefault: bool, p: Prefix, c: Route) returns (v: NodeId)
    requires wantDefault ==> level == L1 && algo == 0
    requires c in Brought(g, self, done, level, algo, wantDefault, p)
    ensures Brings(g, self, done, wantDefault, p, v, c.metric, c.down, c.mt)
    ensures c == Route(c.metric, level, algo, c.down, c.mt, done[v].firstHops)
  {
    var xs := AllSources(g, done.Keys);
    if c in Offered(g, self, done, level, algo, xs, p) {
      var x :| x in xs && Contributes(g, self, done, x) && g[x.0].prefixes[x.1].prefix == p && Contribution(g, done, x, level, algo) == c;
      v := x.0;
      assert g[v].prefixes[x.1] == Advertised(p, c.metric - done[v].distance, c.down, c.mt);
    } else {
      v :| v in done.Keys && NearestExit(g, done, done.Keys, v) && ExitRoute(done, v) == c;
      NearestIsNearest(g, done, v);
    }
  }

  /** The summary of what brings a prefix is the route the prefix should have. */
  lemma SummaryMeans(g: Graph, self: NodeId, done: TentMap, level: Level, algo: nat, wantDefault: bool, p: Prefix, routes: map<Prefix, Route>)
    requires wantDefault ==> level == L1 && algo == 0
    requires p in routes <==> Brought(g, self, done, level, algo, wantDefault, p) != {}
    requires p in routes ==> IsSummary(Brought(g, self, done, level, algo, wantDefault, p), routes[p])
    ensures Means(g, self, done, level, algo, wantDefault, p, routes)
  {
    hide Brings; hide Brought;
    var all := Brought(g, self, done, level, algo, wantDefault, p);
    forall v, cost, down, mt | Brings(g, self, done, wantDefault, p, v, cost, down, mt)
      ensures v in done && Route(cost, level, algo, down, mt, done[v].firstHops) in all
    {
      BringsSettled(g, self, done, wantDefault, p, v, cost, down, mt);
      BringsIsBrought(g, self, done, level, algo, wantDefault, p, v, cost, down, mt);
    }
    if c :| c in all {
      var v := BroughtIsBrings(g, self, done, level, algo, wantDefault, p, c);
    }
    if p in routes {
      SummaryCost(g, self, done, level, algo, wantDefault, p, routes[p]);
      forall h
        ensures h in routes[p].nextHops <==>
                exists v, down, mt :: Brings(g, self, done, wantDefault, p, v, routes[p].metric, down, mt)
                                      && (level == L1 ==> down == routes[p].down) && h in done[v].firstHops
      {
        SummaryHop(g, self, done, level, algo, wantDefault, p, routes[p], h);
      }
      SummaryMark(g, self, done, level, algo, wantDefault, p, routes[p]);
    }
  }

  lemma BringsSettled(g: Graph, self: NodeId, done: TentMap, wantDefault: bool, p: Prefix, v: NodeId, cost: nat, down: bool, mt: bool)
    requires Brings(g, self, done, wantDefault, p, v, cost, down, mt)
    ensures v in done
  {
  }

  lemma SummaryCost(g: Graph, self: NodeId, done: TentMap, level: Level, algo: nat, wantDefault: bool, p: Prefix, r: Route)
    requires (wantDefault ==> level == L1 && algo == 0) && IsSummary(Brought(g, self, done, level, algo, wantDefault, p), r)
    ensures r.level == level && r.algo == algo
    ensures exists v, mt :: Brings(g, self, done, wantDefault, p, v, r.metric, r.down, mt)
    ensures forall v, cost, down, mt :: Brings(g, self, done, wantDefault, p, v, cost, down, mt) ==>
              if level == L1 && r.down != down then !r.down else r.metric <= cost
  {
    hide Brings; hide Brought;
    var all := Brought(g, self, done, level, algo, wantDefault, p);
    var c :| Best(all, c) && r.metric == c.metric && r.level == c.level && r.algo == c.algo && r.down == c.down;
    var w := BroughtIsBrings(g, self, done, level, algo, wantDefault, p, c);
    forall v, cost, down, mt | Brings(g, self, done, wantDefault, p, v, cost, down, mt)
      ensures if level == L1 && r.down != down then !r.down else r.metric <= cost
    {
      BringsSettled(g, self, done, wantDefault, p, v, cost, down, mt);
      BringsIsBrought(g, self, done, level, algo, wantDefault, p, v, cost, down, mt);
      assert NoWorse(c, Route(cost, level, algo, down, mt, done[v].firstHops));
    }
  }

  /** Of one computation's contributions, the best are those of the summary's cost and, at Level 1, its up/down bit. */
  lemma BestAt(all: set<Route>, level: Level, algo: nat, b: Route, c: Route)
    requires OneComputation(all, level, algo) && Best(all, b) && c in all
    ensures Best(all, c) <==> c.metric == b.metric && (level == L1 ==> c.down == b.down)
  {
    if c.metric == b.metric && (level == L1 ==> c.down == b.down) {
      forall other | other in all
        ensures NoWorse(c, other)
      {
        assert NoWorse(b, other);
      }
    }
    if Best(all, c) {
      assert NoWorse(c, b) && NoWorse(b, c);
    }
  }

  lemma BroughtIsOne(g: Graph, self: NodeId, done: TentMap, level: Level, algo: nat, wantDefault: bool, p: Prefix)
    requires wantDefault ==> level == L1 && algo == 0
    ensures OneComputation(Brought(g, self, done, level, algo, wantDefault, p), level, algo)
  {
    forall c | c in Brought(g, self, done, level, algo, wantDefault, p)
      ensures c.level == level && c.algo == algo
    {
      var v := BroughtIsBrings(g, self, done, level, algo, wantDefault, p, c);
    }
  }

  lemma SummaryHop(g: Graph, self: NodeId, done: TentMap, level: Level, algo: nat, wantDefault: bool, p: Prefix, r: Route, h: SystemId)
    requires (wantDefault ==> level == L1 && algo == 0) && IsSummary(Brought(g, self, done, level, algo, wantDefault, p), r)
    requires forall v, cost, down, mt :: Brings(g, self, done, wantDefault, p, v, cost, down, mt) ==> v in done
    ensures h in r.nextHops <==>
            exists v, down, mt :: Brings(g, self, done, wantDefault, p, v, r.metric, down, mt) && (level == L1 ==> down == r.down)
                                  && h in done[v].firstHops
  {
    hide Brings; hide Brought;
    var all := Brought(g, self, done, level, algo, wantDefault, p);
    BroughtIsOne(g, self, done, level, algo, wantDefault, p);
    var b :| Best(all, b) && r.metric == b.metric && r.level == b.level && r.algo == b.algo && r.down == b.down;
    if h in r.nextHops {
      var c :| Best(all, c) && h in c.nextHops;
      BestAt(all, level, algo, b, c);
      var v := BroughtIsBrings(g, self, done, level, algo, wantDefault, p, c);
      assert Brings(g, self, done, wantDefault, p, v, r.metric, c.down, c.mt);
    }
    if v, down, mt :| Brings(g, self, done, wantDefault, p, v, r.metric, down, mt) && (level == L1 ==> down == r.down) && h in done[v].firstHops {
      BringsIsBrought(g, self, done, level, algo, wantDefault, p, v, r.metric, down, mt);
      BestAt(all, level, algo, b, Route(r.metric, level, algo, down, mt, done[v].firstHops));
    }
  }

  lemma SummaryMark(g: Graph, self: NodeId, done: TentMap, level: Level, algo: nat, wantDefault: bool, p: Prefix, r: Route)
    requires (wantDefault ==> level == L1 && algo == 0) && IsSummary(Brought(g, self, done, level, algo, wantDefault, p), r)
    ensures r.mt <==> forall v, cost, down, mt :: Brings(g, self, done, wantDefault, p, v, cost, down, mt) ==> mt
  {
    hide Brings; hide Brought;
    var all := Brought(g, self, done, level, algo, wantDefault, p);
    if r.mt {
      forall v, cost, down, mt | Brings(g, self, done, wantDefault, p, v, cost, down, mt)
        ensures mt
      {
        BringsSettled(g, self, done, wantDefault, p, v, cost, down, mt);
        BringsIsBrought(g, self, done, level, algo, wantDefault, p, v, cost, down, mt);
      }
    }
    if forall v, cost, down, mt :: Brings(g, self, done, wantDefault, p, v, cost, down, mt) ==> mt {
      forall c | c in all
        ensures c.mt
      {
        var v := BroughtIsBrings(g, self, done, level, algo, wantDefault, p, c);
      }
    }
  }

  /** Without a default the collected routes mean what they should. */
  lemma CollectedMeans(g: Graph, self: NodeId, done: TentMap, level: Level, algo: nat, routes: map<Prefix, Route>, p: Prefix)
    requires Collected(g, self, done, level, algo, AllSources(g, done.Keys), routes)
    ensures Means(g, self, done, level, algo, false, p, routes)
  {
    var xs := Offered(g, self, done, level, algo, AllSources(g, done.Keys), p);
    assert Brought(g, self, done, level, algo, false, p) == xs;
    hide Brought; hide Offered; hide Means; hide IsSummary;
    SummaryMeans(g, self, done, level, algo, false, p, routes);
  }

  /** The default towards the nearest attached routers is the summary of them. */
  lemma DefaultIsSummary(g: Graph, done: TentMap, d: Route)
    requires IsDefault(g, done, done.Keys, Some(d))
    ensures IsSummary(set id | id in done.Keys && NearestExit(g, done, done.Keys, id) :: ExitRoute(done, id), d)
  {
    var exits := set id | id in done.Keys && NearestExit(g, done, done.Keys, id) :: ExitRoute(done, id);
    forall c | c in exits
      ensures Best(exits, c) && c.metric == d.metric && !d.mt
    {
      var id :| id in done.Keys && NearestExit(g, done, done.Keys, id) && ExitRoute(done, id) == c;
      forall other | other in exits
        ensures NoWorse(c, other)
      {
        var o :| o in done.Keys && NearestExit(g, done, done.Keys, o) && ExitRoute(done, o) == other;
      }
    }
    var near :| NearestExit(g, done, done.Keys, near) && d == ExitRoute(done, near).(nextHops := d.nextHops);
    assert ExitRoute(done, near) in exits;
    forall h
      ensures h in d.nextHops <==> exists c :: Best(exits, c) && h in c.nextHops
    {
      if h in d.nextHops {
        var id :| NearestExit(g, done, done.Keys, id) && h in done[id].firstHops;
        assert ExitRoute(done, id) in exits;
      }
      if c :| Best(exits, c) && h in c.nextHops {
        var id :| id in done.Keys && NearestExit(g, done, done.Keys, id) && ExitRoute(done, id) == c;
      }
    }
  }

  /** Every route of a computation means what it should, the default included. */
  lemma RouteSetMeans(g: Graph, self: NodeId, level: Level, algo: nat, wantDefault: bool, done: TentMap, routes: map<Prefix, Route>, p: Prefix)
    requires (wantDefault ==> level == L1 && algo == 0) && IsRouteSet(g, self, level, algo, wantDefault, done, routes)
    ensures Means(g, self, done, level, algo, wantDefault, p, routes)
  {
    hide Dijkstra.Settles; hide Dijkstra.ShortestPaths; hide Dijkstra.SoundHops; hide Means; hide IsSummary;
    var plain: map<Prefix, Route>, exit: Option<Route> :|
      && Collected(g, self, done, level, algo, AllSources(g, done.Keys), plain)
      && (if wantDefault then IsDefault(g, done, done.Keys, exit) else exit == None)
      && routes == WithDefault(plain, exit);
    DefaultMeans(g, self, level, algo, wantDefault, done, plain, exit, p);
    SummaryMeans(g, self, done, level, algo, wantDefault, p, routes);
  }

  /** In the terms of the topology: the cost is the length of a shortest path and the advertised metric. */
  lemma BringsOverShortest(g: Graph, self: NodeId, done: TentMap, p: Prefix, v: NodeId, cost: nat, down: bool, mt: bool)
    requires Dijkstra.ShortestPaths(g, self, done)
    ensures Brings(g, self, done, false, p, v, cost, down, mt) <==>
            && v in g && v != self && v in done && done[v].firstHops != {} && cost < MAX_PATH_METRIC
            && exists d: nat :: IsDistance(g, self, v, d) && d <= cost && Advertised(p, cost - d, down, mt) in g[v].prefixes
  {
    if v in done {
      assert IsDistance(g, self, v, done[v].distance);
      forall d: nat | IsDistance(g, self, v, d)
        ensures d == done[v].distance
      {
      }
    }
  }

  ghost function Exits(g: Graph, done: TentMap): set<Route> {
    set id | id in done.Keys && NearestExit(g, done, done.Keys, id) :: ExitRoute(done, id)
  }

  lemma BroughtIs(g: Graph, self: NodeId, level: Level, algo: nat, wantDefault: bool, done: TentMap, p: Prefix)
    ensures var xs := Offered(g, self, done, level, algo, AllSources(g, done.Keys), p);
            Brought(g, self, done, level, algo, wantDefault, p) ==
              if wantDefault && (p == DEFAULT_V4 || p == DEFAULT_V6) then xs + Exits(g, done) else xs
  {
    hide Offered;
  }

  lemma CollectedAt(g: Graph, self: NodeId, level: Level, algo: nat, done: TentMap, plain: map<Prefix, Route>, p: Prefix)
    requires Collected(g, self, done, level, algo, AllSources(g, done.Keys), plain)
    ensures var xs := Offered(g, self, done, level, algo, AllSources(g, done.Keys), p);
            (p in plain <==> xs != {}) && (p in plain ==> IsSummary(xs, plain[p]))
  {
    hide IsSummary; hide Offered;
  }

  lemma ExitIs(g: Graph, done: TentMap, exit: Option<Route>)
    requires IsDefault(g, done, done.Keys, exit)
    ensures exit.None? ==> Exits(g, done) == {}
    ensures exit.Some? ==> IsSummary(Exits(g, done), exit.value)
  {
    if exit.Some? { DefaultIsSummary(g, done, exit.value); }
  }

  /** Merging the default in gives the summary of all that bring the prefix. */
  lemma DefaultMeans(g: Graph, self: NodeId, level: Level, algo: nat, wantDefault: bool, done: TentMap,
                     plain: map<Prefix, Route>, exit: Option<Route>, p: Prefix)
    requires Collected(g, self, done, level, algo, AllSources(g, done.Keys), plain)
    requires if wantDefault then IsDefault(g, done, done.Keys, exit) else exit == None
    ensures var routes, all := WithDefault(plain, exit), Brought(g, self, done, level, algo, wantDefault, p);
      (p in routes <==> all != {}) && (p in routes ==> IsSummary(all, routes[p]))
  {
    hide IsSummary; hide Merge; hide Offered; hide WithDefault; hide Collected; hide Brought; hide IsDefault; hide Exits;
    var xs, exits := Offered(g, self, done, level, algo, AllSources(g, done.Keys), p), Exits(g, done);
    BroughtIs(g, self, level, algo, wantDefault, done, p);
    CollectedAt(g, self, level, algo, done, plain, p);
    DefaultAt(plain, exit, p);
    if wantDefault {
      ExitIs(g, done, exit);
      if exit.Some? {
        SummaryNonempty(exits, exit.value);
        if p in plain { SummariesMerge(xs, exits, plain[p], exit.value); } else { assert xs + exits == exits; }
      } else {
        assert xs + exits == xs;
      }
    }
  }

  /** Where a default is merged in, and where not. */
  lemma DefaultAt(plain: map<Prefix, Route>, exit: Option<Route>, p: Prefix)
    ensures var routes := WithDefault(plain, exit);
      if exit.Some? && (p == DEFAULT_V4 || p == DEFAULT_V6)
      then p in routes && routes[p] == (if p in plain then Merge(plain[p], exit.value) else exit.value)
      else (p in routes <==> p in plain) && (p in plain ==> routes[p] == plain[p])
  {
  }

  lemma CollectedAreMarked(g: Graph, self: NodeId, done: TentMap, level: Level, algo: nat, xs: set<Source>,
                           routes: map<Prefix, Route>, p: Prefix)
    requires Collected(g, self, done, level, algo, xs, routes) && p in routes
    ensures routes[p].level == level && routes[p].algo == algo
  {
    var c :| Best(Offered(g, self, done, level, algo, xs, p), c) && routes[p].level == c.level && routes[p].algo == c.algo;
    assert c in Offered(g, self, done, level, algo, xs, p);
  }

  /** Every route of a computation carries its level and algorithm. */
  lemma RoutesAreMarked(g: Graph, self: NodeId, level: Level, algo: nat, wantDefault: bool, done: TentMap, routes: map<Prefix, Route>)
    requires IsRouteSet(g, self, level, algo, wantDefault, done, routes)
    requires wantDefault ==> level == L1 && algo == 0
    ensures forall p :: p in routes ==> routes[p].level == level && routes[p].algo == algo
  {
    hide Dijkstra.Settles; hide Dijkstra.ShortestPaths; hide Dijkstra.SoundHops; hide Collected; hide NearestExit;
    var plain: map<Prefix, Route>, exit: Option<Route> :|
      && Collected(g, self, done, level, algo, AllSources(g, done.Keys), plain)
      && (if wantDefault then IsDefault(g, done, done.Keys, exit) else exit == None)
      && routes == WithDefault(plain, exit);
    forall p | p in plain
      ensures plain[p].level == level && plain[p].algo == algo
    {
      CollectedAreMarked(g, self, done, level, algo, AllSources(g, done.Keys), plain, p);
    }
  }

  /** Shortest paths, then the routes over them; a node missing from its own topology computes nothing. */
  method ComputeRoutes(g: Graph, self: NodeId, level: Level, algo: nat, wantDefault: bool)
    returns (routes: map<Prefix, Route>, ghost done: TentMap)
    requires WideMetrics(g) && (wantDefault ==> level == L1 && algo == 0)
    ensures self !in g ==> routes == map[]
    ensures self in g ==> IsRouteSet(g, self, level, algo, wantDefault, done, routes)
    ensures self in g ==> forall p :: Means(g, self, done, level, algo, wantDefault, p, routes)
  {
    done := map[];
    if self !in g {
      return map[], map[];
    }
    hide Collected; hide IsDefault; hide Dijkstra.ShortestPaths; hide Dijkstra.SoundHops; hide Dijkstra.IsFinished;
    var settled, trace := Spf.ComputeSpf(g, self);
    done := settled;
    var plain := CollectRoutes(g, self, settled, level, algo);
    var exit := None;
    if wantDefault {
      exit := AttachedDefault(g, settled);
    }
    routes := WithDefault(plain, exit);
    hide WithDefault; hide Means;
    forall p
      ensures Means(g, self, done, level, algo, wantDefault, p, routes)
    {
      RouteSetMeans(g, self, level, algo, wantDefault, done, routes, p);
    }
  }
}
