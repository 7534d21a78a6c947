/** One recompute of the routing table, and why the regeneration it asks for does not feed back into it. */
module Recompute {
  import opened Types
  import opened Topology
  import opened TentativeSet
  import opened Routes
  import opened RouteTable
  import opened Interlevel
  import opened Dijkstra
  import opened Ties
  import Election

  /** What a recompute reads. */
  datatype Input = Input(
    self: NodeId,
    levels: set<Level>,
    algos: set<nat>,                            // the Flexible Algorithms this node is configured for
    databases: map<Level, seq<Election.Lsp>>,   // each level's entries, in the order this pass meets them
    graphs: map<Computation, Graph>,            // the topology of each computation
    own: set<Prefix>,                           // what this node originates itself
    policy: Option<(Prefix, nat) -> bool>)      // the leak policy, if any

  /** Algorithm 0 at every level, and each configured Flexible Algorithm whose definition can be evaluated. */
  predicate Computes(x: Input, k: Computation) {
    k.0 in x.levels && (k.1 == 0 || (k.1 in x.algos && Evaluable(x, k)))
  }

  /** Its elected definition exists and can be evaluated. */
  predicate Evaluable(x: Input, k: Computation) {
    k.0 in x.databases && Election.Evaluable(x.databases[k.0], k.1)
  }

  function Computations(x: Input): set<Computation> {
    set l, a | l in x.levels && a in x.algos + {0} && Computes(x, (l, a)) :: (l, a)
  }

  /** The Flexible Algorithms this node may announce participation in. */
  function Participation(x: Input): set<Computation> {
    set k | k in Computations(x) && k.1 != 0
  }

  predicate BothLevels(x: Input) {
    L1 in x.levels && L2 in x.levels
  }

  ghost predicate Readable(x: Input) {
    forall k :: k in Computations(x) ==> k in x.graphs && WideMetrics(x.graphs[k])
  }

  /** The routes a computation returns from its topology. */
  ghost predicate RoutesOf(x: Input, k: Computation, routes: map<Prefix, Route>)
    requires k in x.graphs
  {
    var wantDefault := k == (L1, 0) && L2 !in x.levels;
    if x.self !in x.graphs[k] then routes == map[]
    else exists done :: IsRouteSet(x.graphs[k], x.self, k.0, k.1, wantDefault, done, routes)
  }

  /** What a recompute leaves behind. */
  datatype Outcome = Outcome(exports: map<Prefix, nat>, leaks: map<Prefix, nat>, participation: set<Computation>)

  ghost predicate IsComputed(x: Input, computed: Computed) {
    && Readable(x) && computed.Keys == Computations(x) && Marked(computed)
    && forall k :: k in computed ==> RoutesOf(x, k, computed[k])
  }

  function LevelTwo(computed: Computed): map<Prefix, Route> {
    if (L2, 0) in computed then computed[(L2, 0)] else map[]
  }

  ghost predicate IsOutcome(x: Input, computed: Computed, merged: map<Prefix, Route>, o: Outcome) {
    && IsComputed(x, computed) && IsMerged(computed, Computations(x), merged)
    && o == Outcome(ExportSet(merged, x.own, BothLevels(x)),
                    LeakSet(merged, LevelTwo(computed), x.own, x.policy, BothLevels(x)),
                    Participation(x))
  }

  /**
   * Between two passes only this node's own advertisements changed: its prefixes, and the algorithms it announces. The
   * definitions it advertises come from its configuration and stay; the second pass may meet the entries in another order.
   */
  ghost predicate OnlyOwnChanged(x: Input, y: Input) {
    && y == x.(graphs := y.graphs, databases := y.databases)
    && x.databases.Keys == y.databases.Keys
    && (forall l :: l in x.databases ==> Election.SameDefinitions(x.databases[l], y.databases[l]))
    && forall l :: l in x.levels && (l, 0) in x.graphs && (l, 0) in y.graphs ==>
         SameButOwnPrefixes(x.graphs[(l, 0)], y.graphs[(l, 0)], x.self)
  }

  ghost predicate SameButOwnPrefixes(g: Graph, h: Graph, self: NodeId) {
    && g.Keys == h.Keys
    && forall u :: u in g ==> if u == self then g[u].(prefixes := []) == h[u].(prefixes := []) else g[u] == h[u]
  }

  /** Another node has a prefix to offer that is within the ceiling. */
  ghost predicate HasOffer(g: Graph, self: NodeId, v: NodeId) {
    v in g && v != self && exists p, k :: IsPath(g, self, p, v) && 0 <= k < |g[v].prefixes| && Cost(p) + g[v].prefixes[k].metric < MAX_PATH_METRIC
  }

  /** Where a pseudonode has a prefix to offer, the order of ties does not decide whether it can be used. */
  ghost predicate Firm(g: Graph, self: NodeId) {
    forall v: NodeId :: v.pseudonode != 0 && HasOffer(g, self, v) ==> Decided(g, self, v)
  }

  /** It is so where every edge into a pseudonode costs something, and where no pseudonode has a prefix. */
  lemma CostlyIsFirm(g: Graph, self: NodeId)
    requires CostlyLans(g) || forall v :: v in g && v.pseudonode != 0 ==> g[v].prefixes == []
    ensures Firm(g, self)
  {
    if CostlyLans(g) {
      hide CostlyLans; hide Decided; hide HasOffer;
      forall v: NodeId | v.pseudonode != 0 && HasOffer(g, self, v)
        ensures Decided(g, self, v)
      {
        CostlyIsDecided(g, self, v);
      }
    }
  }

  /** Prefixes have no part in paths. */
  lemma {:induction false} SamePaths(g: Graph, h: Graph, self: NodeId, p: Path, v: NodeId)
    requires SameButOwnPrefixes(g, h, self)
    ensures IsPath(g, self, p, v) <==> IsPath(h, self, p, v)
  {
    if p.Hop? {
      SamePaths(g, h, self, p.before, p.from);
    }
  }

  /** So both topologies settle the same nodes at the same distances. */
  lemma SameDistances(g: Graph, h: Graph, self: NodeId, a: TentMap, b: TentMap)
    requires SameButOwnPrefixes(g, h, self)
    requires ShortestPaths(g, self, a) && ShortestPaths(h, self, b)
    ensures a.Keys == b.Keys
    ensures forall v :: v in a ==> a[v].distance == b[v].distance
  {
    forall v
      ensures v in a <==> v in b
      ensures v in a ==> a[v].distance == b[v].distance
    {
      forall p
        ensures IsPath(g, self, p, v) <==> IsPath(h, self, p, v)
      {
        SamePaths(g, h, self, p, v);
      }
      assert Reachable(g, self, v) <==> Reachable(h, self, v);
      if v in a {
        var p :| IsShortest(g, self, p, v) && Cost(p) == a[v].distance;
        var q :| IsShortest(h, self, q, v) && Cost(q) == b[v].distance;
      }
    }
  }

  /** Equal in everything but next hops, and in the up/down bit at Level 2, which nothing reads. */
  predicate SameButHops(a: Route, b: Route) {
    SameChoice(a, b.(nextHops := a.nextHops))
  }

  /** Every contribution on the left has its like, but for the next hops, on the right. */
  ghost predicate HasLike(xs: set<Route>, ys: set<Route>) {
    forall c :: c in xs ==> exists d :: d in ys && d == c.(nextHops := d.nextHops)
  }

  /** The best of the right ranks no worse than the best of the left. */
  lemma BestAlike(xs: set<Route>, ys: set<Route>, c: Route, d: Route)
    requires HasLike(xs, ys) && Best(xs, c) && Best(ys, d)
    ensures NoWorse(d, c)
  {
    var d' :| d' in ys && d' == c.(nextHops := d'.nextHops);
    assert NoWorse(d, d') && PreferenceClass(d') == PreferenceClass(c);
  }

  lemma FlagsAlike(xs: set<Route>, ys: set<Route>)
    requires HasLike(xs, ys) && forall d :: d in ys ==> d.mt
    ensures forall c :: c in xs ==> c.mt
  {
  }

  /** Alike contributions have alike summaries. */
  lemma SummariesAlike(xs: set<Route>, ys: set<Route>, level: Level, algo: nat, a: Route, b: Route)
    requires OneComputation(xs, level, algo) && OneComputation(ys, level, algo) && HasLike(xs, ys) && HasLike(ys, xs)
    requires IsSummary(xs, a) && IsSummary(ys, b)
    ensures SameButHops(a, b)
  {
    hide HasLike;
    assert a.mt <==> b.mt by {
      if a.mt { FlagsAlike(ys, xs); }
      if b.mt { FlagsAlike(xs, ys); }
    }
    var c :| Best(xs, c) && a.metric == c.metric && a.level == c.level && a.algo == c.algo && a.down == c.down;
    var d :| Best(ys, d) && b.metric == d.metric && b.level == d.level && b.algo == d.algo && b.down == d.down;
    BestAlike(xs, ys, c, d);
    BestAlike(ys, xs, d, c);
  }

  /** Nor have they in computations. */
  lemma {:induction false} SameAfterEdges(g: Graph, h: Graph, self: NodeId, done: TentMap, tent: TentMap, cur: NodeId, i: nat)
    requires SameButOwnPrefixes(g, h, self) && cur in g && cur in done && i <= |g[cur].edges|
    ensures AfterEdges(g, done, tent, cur, i) == AfterEdges(h, done, tent, cur, i)
  {
    if i > 0 {
      SameAfterEdges(g, h, self, done, tent, cur, i - 1);
      var v := g[cur].edges[i - 1].to;
      assert TwoWay(g, cur, v) <==> TwoWay(h, cur, v);
    }
  }

  lemma SameTurn(g: Graph, h: Graph, self: NodeId, a: Moment, b: Moment)
    requires SameButOwnPrefixes(g, h, self) && Follows(g, self, a, b)
    ensures Follows(h, self, a, b)
  {
    var cur :| IsTurn(g, self, a, b, cur);
    if Transits(g, self, cur) {
      SameAfterEdges(g, h, self, b.done, a.tent - {cur}, cur, |g[cur].edges|);
    }
    assert IsTurn(h, self, a, b, cur);
  }

  lemma SameRuns(g: Graph, h: Graph, self: NodeId, trace: seq<Moment>)
    requires SameButOwnPrefixes(g, h, self) && IsFinished(g, self, trace)
    ensures IsFinished(h, self, trace)
  {
    hide Follows;
    forall i | 0 < i < |trace|
      ensures Follows(h, self, trace[i - 1], trace[i])
    {
      SameTurn(g, h, self, trace[i - 1], trace[i]);
    }
  }

  lemma SameSettles(g: Graph, h: Graph, self: NodeId, done: TentMap)
    requires SameButOwnPrefixes(g, h, self) && Settles(g, self, done)
    ensures Settles(h, self, done)
  {
    hide Follows;
    var trace :| IsFinished(g, self, trace) && Last(trace) == done;
    SameRuns(g, h, self, trace);
  }

  /** On a settled distance, `v` has a prefix to offer. */
  predicate Offers(g: Graph, self: NodeId, done: TentMap, v: NodeId) {
    v in done && v in g && v != self && exists k :: 0 <= k < |g[v].prefixes| && done[v].distance + g[v].prefixes[k].metric < MAX_PATH_METRIC
  }

  /** Both sides settle the same nodes at the same distances, and what has something to offer with or without a first hop alike. */
  ghost predicate SameReach(g: Graph, self: NodeId, a: TentMap, b: TentMap) {
    && a.Keys == b.Keys
    && (forall v :: v in a ==> a[v].distance == b[v].distance)
    && (forall v :: v in a && Offers(g, self, a, v) ==> (a[v].firstHops == {} <==> b[v].firstHops == {}))
  }

  lemma BarenessIsSame(g: Graph, self: NodeId, a: TentMap, b: TentMap, v: NodeId)
    requires Settles(g, self, a) && Settles(g, self, b) && Decided(g, self, v) && v in a && v in b
    ensures a[v].firstHops == {} <==> b[v].firstHops == {}
  {
    var s :| IsFinished(g, self, s) && Last(s) == a;
    var t :| IsFinished(g, self, t) && Last(t) == b;
    FinishedPaths(g, self, s);
    DecidedIsAgreed(g, self, v);
    hide IsFinished; hide Decided;
    assert v in Bare(s) <==> a[v].firstHops == {};
    assert v in Bare(t) <==> b[v].firstHops == {};
  }

  lemma OffersHasOffer(g: Graph, self: NodeId, done: TentMap, v: NodeId)
    requires ShortestPaths(g, self, done) && Offers(g, self, done, v)
    ensures HasOffer(g, self, v)
  {
    var k :| 0 <= k < |g[v].prefixes| && done[v].distance + g[v].prefixes[k].metric < MAX_PATH_METRIC;
    var p := PathTo(g, self, done, v);
  }

  lemma ReachIsSame(g: Graph, h: Graph, self: NodeId, a: TentMap, b: TentMap)
    requires SameButOwnPrefixes(g, h, self) && Firm(g, self) && Settles(g, self, a) && Settles(h, self, b)
    requires ShortestPaths(g, self, a) && ShortestPaths(h, self, b)
    requires SoundHops(g, self, a) && SoundHops(h, self, b)
    ensures SameReach(g, self, a, b)
  {
    SameDistances(g, h, self, a, b);
    assert SameButOwnPrefixes(h, g, self);
    SameSettles(h, g, self, b);
    hide Settles; hide ShortestPaths; hide HasOffer; hide Decided;
    forall v | v in a && Offers(g, self, a, v)
      ensures a[v].firstHops == {} <==> b[v].firstHops == {}
    {
      if v.pseudonode != 0 {
        OffersHasOffer(g, self, a, v);
        BarenessIsSame(g, self, a, b, v);
      }
    }
  }

  /** What one side is offered for a prefix the other is too, but for the next hops. */
  lemma OfferedLike(g: Graph, h: Graph, self: NodeId, a: TentMap, b: TentMap, level: Level, algo: nat, p: Prefix, c: Route)
    requires SameButOwnPrefixes(g, h, self) && SameReach(g, self, a, b)
    requires c in Offered(g, self, a, level, algo, AllSources(g, a.Keys), p)
    ensures exists d :: d in Offered(h, self, b, level, algo, AllSources(h, b.Keys), p) && d == c.(nextHops := d.nextHops)
  {
    var x :| x in AllSources(g, a.Keys) && Contributes(g, self, a, x) && g[x.0].prefixes[x.1].prefix == p
             && c == Contribution(g, a, x, level, algo);
    assert h[x.0] == g[x.0] && Offers(g, self, a, x.0);
    assert Contributes(h, self, b, x) && x in AllSources(h, b.Keys);
    var d := Contribution(h, b, x, level, algo);
    assert d in Offered(h, self, b, level, algo, AllSources(h, b.Keys), p);
  }

  lemma OfferedAlike(g: Graph, h: Graph, self: NodeId, a: TentMap, b: TentMap, level: Level, algo: nat, p: Prefix)
    requires SameButOwnPrefixes(g, h, self) && SameReach(g, self, a, b)
    ensures HasLike(Offered(g, self, a, level, algo, AllSources(g, a.Keys), p),
                    Offered(h, self, b, level, algo, AllSources(h, b.Keys), p))
  {
    var xs, ys := Offered(g, self, a, level, algo, AllSources(g, a.Keys), p), Offered(h, self, b, level, algo, AllSources(h, b.Keys), p);
    hide Offered; hide AllSources;
    forall c | c in xs
      ensures exists d :: d in ys && d == c.(nextHops := d.nextHops)
    {
      OfferedLike(g, h, self, a, b, level, algo, p, c);
    }
  }

  /** The same prefixes are routed, alike. */
  ghost predicate SameTable(a: map<Prefix, Route>, b: map<Prefix, Route>) {
    a.Keys == b.Keys && forall p :: p in a ==> SameButHops(a[p], b[p])
  }

  lemma ReachSymmetric(g: Graph, h: Graph, self: NodeId, a: TentMap, b: TentMap)
    requires SameReach(g, self, a, b) && SameButOwnPrefixes(g, h, self)
    ensures SameReach(h, self, b, a) && SameButOwnPrefixes(h, g, self)
  {
    forall v | v in b && Offers(h, self, b, v)
      ensures Offers(g, self, a, v)
    {
    }
  }

  lemma LikeNonempty(xs: set<Route>, ys: set<Route>)
    requires HasLike(xs, ys)
    ensures xs != {} ==> ys != {}
  {
    if c :| c in xs { var d :| d in ys && d == c.(nextHops := d.nextHops); }
  }

  /** What both sides are offered for one prefix. */
  lemma PrefixAlike(g: Graph, h: Graph, self: NodeId, level: Level, algo: nat, a: TentMap, b: TentMap, p: Prefix)
    requires SameButOwnPrefixes(g, h, self) && SameReach(g, self, a, b)
    ensures var xs, ys := Offered(g, self, a, level, algo, AllSources(g, a.Keys), p), Offered(h, self, b, level, algo, AllSources(h, b.Keys), p);
            HasLike(xs, ys) && HasLike(ys, xs) && (xs == {} <==> ys == {})
            && OneComputation(xs, level, algo) && OneComputation(ys, level, algo)
  {
    var xs, ys := Offered(g, self, a, level, algo, AllSources(g, a.Keys), p), Offered(h, self, b, level, algo, AllSources(h, b.Keys), p);
    assert OneComputation(xs, level, algo) && OneComputation(ys, level, algo);
    ReachSymmetric(g, h, self, a, b);
    hide SameReach; hide SameButOwnPrefixes; hide HasLike; hide Offered; hide AllSources; hide OneComputation;
    OfferedAlike(g, h, self, a, b, level, algo, p);
    OfferedAlike(h, g, self, b, a, level, algo, p);
    LikeNonempty(xs, ys);
    LikeNonempty(ys, xs);
  }

  lemma CollectedAlike(g: Graph, h: Graph, self: NodeId, level: Level, algo: nat, a: TentMap, b: TentMap,
                       ra: map<Prefix, Route>, rb: map<Prefix, Route>)
    requires SameButOwnPrefixes(g, h, self) && SameReach(g, self, a, b)
    requires Collected(g, self, a, level, algo, AllSources(g, a.Keys), ra)
    requires Collected(h, self, b, level, algo, AllSources(h, b.Keys), rb)
    ensures SameTable(ra, rb)
  {
    hide SameReach; hide SameButOwnPrefixes; hide HasLike; hide Offered; hide AllSources; hide OneComputation;
    hide IsSummary; hide SameButHops;
    forall p
      ensures p in ra <==> p in rb
      ensures p in ra ==> SameButHops(ra[p], rb[p])
    {
      PrefixAlike(g, h, self, level, algo, a, b, p);
      if p in ra {
        SummariesAlike(Offered(g, self, a, level, algo, AllSources(g, a.Keys), p),
                       Offered(h, self, b, level, algo, AllSources(h, b.Keys), p), level, algo, ra[p], rb[p]);
      }
    }
  }

  /** A computation that offers no default returns the same table whatever this node itself advertises. */
  lemma TablesAlike(g: Graph, h: Graph, self: NodeId, level: Level, algo: nat, a: TentMap, b: TentMap,
                    ra: map<Prefix, Route>, rb: map<Prefix, Route>)
    requires SameButOwnPrefixes(g, h, self) && Firm(g, self)
    requires IsRouteSet(g, self, level, algo, false, a, ra) && IsRouteSet(h, self, level, algo, false, b, rb)
    ensures SameTable(ra, rb)
  {
    hide Collected; hide Settles; hide ShortestPaths; hide SoundHops; hide SameButOwnPrefixes; hide Firm; hide SameReach;
    ReachIsSame(g, h, self, a, b);
    CollectedAlike(g, h, self, level, algo, a, b, ra, rb);
  }

  /** What a finished computation yields, as a route set. */
  lemma Yields(g: Graph, self: NodeId, level: Level, algo: nat, trace: seq<Moment>) returns (routes: map<Prefix, Route>)
    requires IsFinished(g, self, trace)
    ensures IsRouteSet(g, self, level, algo, false, Last(trace), routes)
    ensures Collected(g, self, Last(trace), level, algo, AllSources(g, Last(trace).Keys), routes)
  {
    hide Follows; hide Collected; hide ShortestPaths; hide SoundHops; hide Invariant;
    FinishedPaths(g, self, trace);
    routes := Collects(g, self, Last(trace), level, algo, AllSources(g, Last(trace).Keys));
    assert routes == WithDefault(routes, None);
  }

  /** No node but `v` and this one advertises the prefix. */
  ghost predicate OnlyFrom(g: Graph, self: NodeId, v: NodeId, q: Prefix) {
    forall u, i :: u in g && 0 <= i < |g[u].prefixes| && g[u].prefixes[i].prefix == q ==> u == v || u == self
  }

  lemma BareOffersNothing(g: Graph, self: NodeId, done: TentMap, level: Level, algo: nat, v: NodeId, q: Prefix, routes: map<Prefix, Route>)
    requires OnlyFrom(g, self, v, q) && v in done && done[v].firstHops == {}
    requires Collected(g, self, done, level, algo, AllSources(g, done.Keys), routes)
    ensures q !in routes
  {
    hide IsSummary;
    assert Offered(g, self, done, level, algo, AllSources(g, done.Keys), q) == {};
  }

  lemma RoutedOffers(g: Graph, self: NodeId, done: TentMap, level: Level, algo: nat, v: NodeId, k: nat, routes: map<Prefix, Route>)
    requires Contributes(g, self, done, (v, k))
    requires Collected(g, self, done, level, algo, AllSources(g, done.Keys), routes)
    ensures g[v].prefixes[k].prefix in routes
  {
    hide IsSummary;
    var x: Source := (v, k);
    assert x in AllSources(g, done.Keys);
    assert Contribution(g, done, x, level, algo) in Offered(g, self, done, level, algo, AllSources(g, done.Keys), g[v].prefixes[k].prefix);
  }

  /**
   * Where the order of ties does decide, the table moves: of two computations over the same topology one routes a
   * prefix that only an undecided node offers and the other does not.
   */
  lemma UndecidedMoves(g: Graph, self: NodeId, level: Level, algo: nat, v: NodeId, k: nat, p: Path)
    returns (a: TentMap, b: TentMap, ra: map<Prefix, Route>, rb: map<Prefix, Route>)
    requires self in g && v in g && v != self && k < |g[v].prefixes| && !Decided(g, self, v)
    requires IsPath(g, self, p, v) && Cost(p) + g[v].prefixes[k].metric < MAX_PATH_METRIC
    requires OnlyFrom(g, self, v, g[v].prefixes[k].prefix)
    ensures IsRouteSet(g, self, level, algo, false, a, ra) && IsRouteSet(g, self, level, algo, false, b, rb)
    ensures g[v].prefixes[k].prefix !in ra && g[v].prefixes[k].prefix in rb
  {
    hide Follows; hide IsRouteSet; hide Decided; hide Collected; hide OnlyFrom; hide AllSources; hide IsPath;
    var s, t := BothRuns(g, self, v);
    a, b := Last(s), Last(t);
    ra := Yields(g, self, level, algo, s);
    rb := Yields(g, self, level, algo, t);
    DistanceWithin(g, self, t, p, v);
    BareOffersNothing(g, self, a, level, algo, v, g[v].prefixes[k].prefix, ra);
    RoutedOffers(g, self, b, level, algo, v, k, rb);
  }

  lemma BothRuns(g: Graph, self: NodeId, v: NodeId) returns (s: seq<Moment>, t: seq<Moment>)
    requires self in g && Reachable(g, self, v) && !Decided(g, self, v)
    ensures IsFinished(g, self, s) && v in Bare(s)
    ensures IsFinished(g, self, t) && v in Last(t) && v !in Bare(t)
  {
    BareSomewhere(g, self, v);
    RoutedSomewhere(g, self, v);
    hide Follows; hide CanBeBare; hide CanBeRouted;
    s :| IsFinished(g, self, s) && v in Bare(s);
    t :| IsFinished(g, self, t) && v in Last(t) && v !in Bare(t);
  }

  lemma DistanceWithin(g: Graph, self: NodeId, trace: seq<Moment>, p: Path, v: NodeId)
    requires IsFinished(g, self, trace) && IsPath(g, self, p, v) && Cost(p) < MAX_PATH_METRIC
    ensures v in Last(trace) && Last(trace)[v].distance <= Cost(p)
  {
    FinishedPaths(g, self, trace);
    NoShorterPath(g, self, Last(trace), p, v);
  }

  /** The algorithm-0 table of one level does not move. */
  lemma PlainTableStays(x: Input, y: Input, l: Level, cx: Computed, cy: Computed)
    requires IsComputed(x, cx) && IsComputed(y, cy) && OnlyOwnChanged(x, y) && BothLevels(x)
    requires (l, 0) in cx && (l, 0) in cy
    requires Firm(x.graphs[(l, 0)], x.self)
    ensures SameTable(cx[(l, 0)], cy[(l, 0)])
  {
    hide IsRouteSet; hide Firm;
    var k: Computation := (l, 0);
    assert RoutesOf(x, k, cx[k]) && RoutesOf(y, k, cy[k]);
    if x.self in x.graphs[k] {
      var a :| IsRouteSet(x.graphs[k], x.self, l, 0, false, a, cx[k]);
      var b :| IsRouteSet(y.graphs[k], x.self, l, 0, false, b, cy[k]);
      TablesAlike(x.graphs[k], y.graphs[k], x.self, l, 0, a, b, cx[k], cy[k]);
    }
  }

  /** On a router at both levels: so it is in both topologies of algorithm 0. */
  ghost predicate AllFirm(x: Input) {
    BothLevels(x) ==> forall l :: l in x.levels && (l, 0) in x.graphs ==> Firm(x.graphs[(l, 0)], x.self)
  }

  /** For every algorithm configured, the order of the entries does not decide whether it can be evaluated. */
  ghost predicate AllSettled(x: Input) {
    forall l, a :: l in x.databases && a in x.algos ==> Election.Settled(x.databases[l], a)
  }

  lemma ComputationsStay(x: Input, y: Input)
    requires OnlyOwnChanged(x, y) && AllSettled(x)
    ensures Computations(x) == Computations(y)
  {
    hide Election.Settled; hide Election.SameDefinitions; hide Election.Evaluable; hide SameButOwnPrefixes;
    forall l, a | l in x.levels && a in x.algos + {0}
      ensures Computes(x, (l, a)) <==> Computes(y, (l, a))
    {
      if a in x.algos && l in x.databases {
        Election.EvaluableStays(x.databases[l], y.databases[l], a);
      }
    }
  }

  /**
   * The cascade stops: after a pass that changed nothing but what this node originates, the next pass exports
   * and leaks the same prefixes at the same metrics and computes the same algorithms.
   */
  lemma CascadeStops(x: Input, y: Input, cx: Computed, cy: Computed, mx: map<Prefix, Route>, my: map<Prefix, Route>,
                     ox: Outcome, oy: Outcome)
    requires IsOutcome(x, cx, mx, ox) && IsOutcome(y, cy, my, oy)
    requires OnlyOwnChanged(x, y) && AllFirm(x) && AllSettled(x)
    ensures ox == oy
  {
    ComputationsStay(x, y);
    hide AllSettled; hide Election.Evaluable;
    if BothLevels(x) {
      assert Computes(x, (L1, 0)) && Computes(x, (L2, 0));
      PlainTableStays(x, y, L1, cx, cy);
      PlainTableStays(x, y, L2, cx, cy);
      ExportsStay(x.own, cx, cy, mx, my);
      LeaksStay(x.own, x.policy, cx, cy, mx, my);
    }
  }

  lemma ExportsStay(own: set<Prefix>, cx: Computed, cy: Computed, mx: map<Prefix, Route>, my: map<Prefix, Route>)
    requires Marked(cx) && Marked(cy) && IsMerged(cx, cx.Keys, mx) && IsMerged(cy, cy.Keys, my)
    requires (L1, 0) in cx && (L1, 0) in cy && SameTable(cx[(L1, 0)], cy[(L1, 0)])
    ensures ExportSet(mx, own, true) == ExportSet(my, own, true)
  {
    hide IsMerged;
    forall p
      ensures Exported(mx, own, p) <==> Exported(my, own, p)
      ensures Exported(mx, own, p) ==> mx[p].metric == my[p].metric
    {
      ExportReadsLevelOne(cx, mx, own, p);
      ExportReadsLevelOne(cy, my, own, p);
    }
  }

  lemma LeaksStay(own: set<Prefix>, policy: Option<(Prefix, nat) -> bool>, cx: Computed, cy: Computed,
                  mx: map<Prefix, Route>, my: map<Prefix, Route>)
    requires Marked(cx) && Marked(cy) && IsMerged(cx, cx.Keys, mx) && IsMerged(cy, cy.Keys, my)
    requires (L1, 0) in cx && (L1, 0) in cy && SameTable(cx[(L1, 0)], cy[(L1, 0)])
    requires (L2, 0) in cx && (L2, 0) in cy && SameTable(cx[(L2, 0)], cy[(L2, 0)])
    ensures LeakSet(mx, cx[(L2, 0)], own, policy, true) == LeakSet(my, cy[(L2, 0)], own, policy, true)
  {
    hide IsMerged;
    if policy.Some? {
      forall p
        ensures Leaked(mx, cx[(L2, 0)], own, policy.value, p) <==> Leaked(my, cy[(L2, 0)], own, policy.value, p)
      {
        LeakReadsPlainTables(cx, mx, own, policy.value, p);
        LeakReadsPlainTables(cy, my, own, policy.value, p);
      }
    }
  }

  // ---------- What a recompute comes to ----------

  /** Lowest preferred: a Level-1 route, a Level-2 route, a Level-1 route leaked down. */
  ghost function Standing(k: Computation, r: Route): nat {
    if k.0 == L2 then 2 else if r.down then 3 else 1
  }

  /** The route of one of the computations, and no other's stands before it or stands the same with a lower algorithm. */
  ghost predicate IsChosen(computed: Computed, p: Prefix, r: Route) {
    exists k :: k in computed && p in computed[k] && computed[k][p] == r &&
      forall j :: j in computed && p in computed[j] && j != k ==>
        Standing(k, r) < Standing(j, computed[j][p]) || (Standing(k, r) == Standing(j, computed[j][p]) && k.1 < j.1)
  }

  lemma MergedIsChosen(computed: Computed, merged: map<Prefix, Route>, p: Prefix)
    requires Marked(computed) && IsMerged(computed, computed.Keys, merged)
    ensures p in merged <==> exists k :: k in computed && p in computed[k]
    ensures p in merged ==> IsChosen(computed, p, merged[p])
  {
    if k :| k in computed && p in computed[k] {
      assert computed[k][p] in Candidates(computed, computed.Keys, p);
    }
    if p in merged {
      var k :| k in computed.Keys && p in computed[k] && computed[k][p] == merged[p];
      forall j | j in computed && p in computed[j] && j != k
        ensures Standing(k, merged[p]) < Standing(j, computed[j][p]) || (Standing(k, merged[p]) == Standing(j, computed[j][p]) && k.1 < j.1)
      {
        assert computed[j][p] in Candidates(computed, computed.Keys, p);
        assert computed[j][p] != merged[p];
        assert BetterRoute(merged[p], computed[j][p]);
      }
    }
  }

  ghost function TableOf(computed: Computed, k: Computation): map<Prefix, Route> {
    if k in computed then computed[k] else map[]
  }

  /** A router at both levels takes up a prefix of this route: no default, and not what the node originates anyway. */
  ghost predicate Passes(x: Input, p: Prefix) {
    L1 in x.levels && L2 in x.levels && !(p.address == 0 && p.bits == 0) && p !in x.own
  }

  /** Level 1 itself reaches `p`. */
  ghost predicate Exports(x: Input, t: map<Prefix, Route>, p: Prefix) {
    Passes(x, p) && p in t && !t[p].down && !t[p].mt
  }

  /** Level 2 reaches `p`, the policy takes it, and Level 1 does not reach it by itself. */
  ghost predicate Leaks(x: Input, t: map<Prefix, Route>, l2: map<Prefix, Route>, p: Prefix) {
    && Passes(x, p) && x.policy.Some? && p in l2 && !l2[p].mt && x.policy.value(p, l2[p].metric)
    && !(p in t && !t[p].down)
  }

  /**
   * What is exported: on a router at both levels, what Level 1 itself reaches in the standard topology, at the Level-1
   * metric.
   */
  lemma ExportsAre(x: Input, computed: Computed, merged: map<Prefix, Route>, o: Outcome, p: Prefix)
    requires IsOutcome(x, computed, merged, o)
    ensures p in o.exports <==> Exports(x, TableOf(computed, (L1, 0)), p)
    ensures p in o.exports ==> o.exports[p] == TableOf(computed, (L1, 0))[p].metric
  {
    hide IsMerged; hide RoutesOf;
    if BothLevels(x) {
      assert Computes(x, (L1, 0));
      ExportReadsLevelOne(computed, merged, x.own, p);
    }
  }

  /**
   * What is leaked: on a router at both levels with a policy, what Level 2 reaches in the standard topology and the policy
   * takes, at the Level-2 metric, unless Level 1 reaches it by itself.
   */
  lemma LeaksAre(x: Input, computed: Computed, merged: map<Prefix, Route>, o: Outcome, p: Prefix)
    requires IsOutcome(x, computed, merged, o)
    ensures p in o.leaks <==> Leaks(x, TableOf(computed, (L1, 0)), TableOf(computed, (L2, 0)), p)
    ensures p in o.leaks ==> o.leaks[p] == TableOf(computed, (L2, 0))[p].metric
  {
    hide IsMerged; hide RoutesOf;
    if BothLevels(x) && x.policy.Some? {
      assert Computes(x, (L1, 0)) && Computes(x, (L2, 0));
      LeakReadsPlainTables(computed, merged, x.own, x.policy.value, p);
    }
  }

  /** What is announced: at each level the configured algorithms but 0 whose elected definition can be evaluated. */
  lemma ParticipationIs(x: Input, computed: Computed, merged: map<Prefix, Route>, o: Outcome, l: Level, a: nat)
    requires IsOutcome(x, computed, merged, o)
    ensures (l, a) in o.participation <==>
            && l in x.levels && a in x.algos && a != 0 && l in x.databases
            && Election.Elected(x.databases[l], a).Some?
            && Election.CanBeEvaluated(Election.Elected(x.databases[l], a).value)
    ensures (l, a) in computed <==> l in x.levels && (a == 0 || (l, a) in o.participation)
  {
    hide IsMerged; hide Election.Elected; hide RoutesOf;
    if l in x.databases && Election.Elected(x.databases[l], a).Some? {
      Election.UsableIs(Election.Elected(x.databases[l], a).value);
    }
    hide Election.CanBeEvaluated; hide Election.Usable;
    var k: Computation := (l, a);
    assert k in Computations(x) <==> l in x.levels && a in x.algos + {0} && Computes(x, k);
  }

  /** A default towards attached routers comes from Level 1 of a router at that level alone. */
  ghost predicate LooksForAttached(x: Input, k: Computation) {
    k.0 == L1 && k.1 == 0 && L2 !in x.levels
  }

  /** What each computation returns. */
  lemma TablesMean(x: Input, computed: Computed, k: Computation) returns (done: TentMap)
    requires IsComputed(x, computed) && k in computed
    ensures x.self !in x.graphs[k] ==> computed[k] == map[]
    ensures x.self in x.graphs[k] ==>
              && ShortestPaths(x.graphs[k], x.self, done) && SoundHops(x.graphs[k], x.self, done)
              && forall p :: Means(x.graphs[k], x.self, done, k.0, k.1, LooksForAttached(x, k), p, computed[k])
  {
    hide Means; hide ShortestPaths; hide SoundHops; hide Collected;
    done := map[];
    var want := LooksForAttached(x, k);
    assert RoutesOf(x, k, computed[k]);
    if x.self in x.graphs[k] {
      done :| IsRouteSet(x.graphs[k], x.self, k.0, k.1, want, done, computed[k]);
      forall p
        ensures Means(x.graphs[k], x.self, done, k.0, k.1, want, p, computed[k])
      {
        RouteSetMeans(x.graphs[k], x.self, k.0, k.1, want, done, computed[k], p);
      }
    }
  }

  /** What holds when the computations `computed` knows have been run and merged. */
  ghost predicate Partial(x: Input, computed: Computed, merged: map<Prefix, Route>) {
    && Readable(x) && computed.Keys <= Computations(x) && Marked(computed)
    && (forall k :: k in computed ==> RoutesOf(x, k, computed[k]))
    && IsMerged(computed, computed.Keys, merged)
  }

  /** One more computation run and merged. */
  lemma PartialStep(x: Input, computed: Computed, merged: map<Prefix, Route>, k: Computation,
                    routes: map<Prefix, Route>, next: map<Prefix, Route>)
    requires Partial(x, computed, merged) && k in Computations(x) && k !in computed
    requires RoutesOf(x, k, routes)
    requires forall p :: p in routes ==> routes[p].level == k.0 && routes[p].algo == k.1
    requires next.Keys == merged.Keys + routes.Keys
    requires forall p :: p in next ==> next[p] == if p in routes then Better(merged, p, routes[p]) else merged[p]
    ensures Partial(x, computed[k := routes], next)
  {
    hide RoutesOf; hide IsMerged; hide Better;
    var after := computed[k := routes];
    SameCandidates(computed, after, computed.Keys, merged);
    MergeComputation(after, computed.Keys, merged, k, next);
    assert after.Keys == computed.Keys + {k};
  }

  function EvaluableAlgos(x: Input, l: Level): set<nat> {
    set a | a in x.algos && a != 0 && Evaluable(x, (l, a))
  }

  lemma ElectedIsListed(lsps: seq<Election.Lsp>, state: map<nat, Election.Info>, a: nat)
    requires Election.Lists(lsps, state)
    ensures Election.Elected(lsps, a) == if a in state then state[a].definition else None
  {
  }

  class Rib {
    var exports: map<Prefix, nat>
    var leaks: map<Prefix, nat>
    var participation: set<Computation>
    var regenPending: bool

    function Held(): Outcome
      reads this
    {
      Outcome(exports, leaks, participation)
    }

    /** Run every computation, in whatever order, and keep the routes of each and the winner per prefix. */
    method RunOne(x: Input, k: Computation) returns (routes: map<Prefix, Route>)
      requires Readable(x) && k in Computations(x)
      ensures RoutesOf(x, k, routes)
      ensures forall p :: p in routes ==> routes[p].level == k.0 && routes[p].algo == k.1
    {
      hide IsRouteSet;
      var wantDefault := k == (L1, 0) && L2 !in x.levels;
      ghost var done;
      routes, done := ComputeRoutes(x.graphs[k], x.self, k.0, k.1, wantDefault);
      if x.self in x.graphs[k] {
        RoutesAreMarked(x.graphs[k], x.self, k.0, k.1, wantDefault, done, routes);
      }
    }

    /** Whether the definition elected for an algorithm can be evaluated. */
    method CanEvaluate(ghost lsps: seq<Election.Lsp>, state: map<nat, Election.Info>, a: nat) returns (r: bool)
      requires Election.Lists(lsps, state)
      ensures r <==> Election.Evaluable(lsps, a)
    {
      ElectedIsListed(lsps, state, a);
      hide Election.Elected; hide Election.Lists; hide Election.SaysAll; hide Election.Supports;
      if a !in state || state[a].definition.None? || state[a].definition.value.metricType != Election.METRIC_IGP {
        return false;
      }
      Election.ElectedRepeatsNone(lsps, a);
      var rules := Election.AffinityOf(state[a].definition.value.constraints);
      return rules.Some?;
    }

    /** The Flexible Algorithms whose definition is elected at this level and can be evaluated. */
    method EvaluableAt(x: Input, l: Level) returns (r: set<nat>)
      ensures r == EvaluableAlgos(x, l)
    {
      r := {};
      if l !in x.databases {
        return;
      }
      hide Election.Evaluable; hide Election.Lists;
      var state := Election.FlexAlgoState(x.databases[l]);
      var todo := x.algos;
      while todo != {}
        invariant todo <= x.algos
        invariant forall a :: a in r <==> a in x.algos && a !in todo && a != 0 && Evaluable(x, (l, a))
      {
        var a :| a in todo;
        todo := todo - {a};
        if a != 0 {
          var usable := CanEvaluate(x.databases[l], state, a);
          if usable {
            r := r + {a};
          }
        }
      }
    }

    /** What this node may announce: at each level it runs, the algorithms it can compute there. */
    method Announceable(x: Input) returns (r: set<Computation>)
      ensures r == Participation(x)
    {
      hide Evaluable;
      r := {};
      if L1 in x.levels {
        var algos := EvaluableAt(x, L1);
        r := r + set a | a in algos :: (L1, a);
      }
      if L2 in x.levels {
        var algos := EvaluableAt(x, L2);
        r := r + set a | a in algos :: (L2, a);
      }
      forall k: Computation
        ensures k in r <==> k in Participation(x)
      {
        assert k == (k.0, k.1) && (k.0 == L1 || k.0 == L2);
        assert k in Participation(x) <==> k.0 in x.levels && k.1 in EvaluableAlgos(x, k.0);
      }
    }

    method RunComputations(x: Input, announced: set<Computation>) returns (computed: Computed, merged: map<Prefix, Route>)
      requires Readable(x) && announced == Participation(x)
      ensures IsComputed(x, computed) && IsMerged(computed, Computations(x), merged)
    {
      computed, merged := map[], map[];
      var todo := announced + set l | l in x.levels :: (l, 0);
      assert todo == Computations(x);
      while todo != {}
        invariant todo <= Computations(x) && computed.Keys == Computations(x) - todo
        invariant Partial(x, computed, merged)
      {
        hide RoutesOf; hide Partial; hide Better; hide IsMerged;
        var k :| k in todo;
        todo := todo - {k};
        var routes := RunOne(x, k);
        var next := MergeInto(merged, routes);
        PartialStep(x, computed, merged, k, routes, next);
        computed, merged := computed[k := routes], next;
      }
    }

    /** Recompute; a regeneration is asked for exactly when what this node would originate has changed. */
    method UpdateRib(x: Input) returns (ghost computed: Computed, merged: map<Prefix, Route>)
      requires Readable(x)
      modifies this
      ensures IsOutcome(x, computed, merged, Held())
      ensures regenPending <==> old(regenPending) || Held() != old(Held())
    {
      var announced := Announceable(x);
      var tables, winners := RunComputations(x, announced);
      computed, merged := tables, winners;
      if announced != participation {
        participation := announced;
        regenPending := true;
      }
      var up := ExportSet(merged, x.own, BothLevels(x));
      if up != exports {
        exports := up;
        regenPending := true;
      }
      var down := LeakSet(merged, LevelTwo(tables), x.own, x.policy, BothLevels(x));
      if down != leaks {
        leaks := down;
        regenPending := true;
      }
    }

    /** A pass, the regeneration it asked for, and the pass that regeneration causes: nothing further is asked for. */
    method Settle(x: Input, y: Input)
      requires Readable(x) && Readable(y) && OnlyOwnChanged(x, y) && AllFirm(x) && AllSettled(x)
      modifies this
      ensures !regenPending
    {
      ghost var cx, cy;
      var mx, my;
      cx, mx := UpdateRib(x);
      regenPending := false;
      ghost var held := Held();
      cy, my := UpdateRib(y);
      CascadeStops(x, y, cx, cy, mx, my, held, Held());
    }
  }

  /** Adding a computation outside `ks` leaves the winners within `ks` alone. */
  lemma SameCandidates(before: Computed, after: Computed, ks: set<Computation>, merged: map<Prefix, Route>)
    requires ks <= before.Keys && (forall k :: k in ks ==> k in after && after[k] == before[k])
    requires IsMerged(before, ks, merged)
    ensures IsMerged(after, ks, merged)
  {
    forall p
      ensures Candidates(after, ks, p) == Candidates(before, ks, p)
    {
    }
  }
}
