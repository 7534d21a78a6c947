/** What the order in which equally near nodes are settled can decide: whether a pseudonode has a first hop at all. */
module Ties {
  import opened Types
  import opened Topology
  import opened TentativeSet
  import opened Dijkstra
  import opened FirstHops

  /** A way to break ties: of the least entries, one of least rank is settled. */
  type Ranking = NodeId -> nat

  ghost predicate Favoured(g: Graph, self: NodeId, a: Moment, b: Moment, rank: Ranking) {
    exists cur :: IsTurn(g, self, a, b, cur) && forall w :: IsLeast(a.tent, w) ==> rank(cur) <= rank(w)
  }

  ghost predicate Favours(g: Graph, self: NodeId, trace: seq<Moment>, rank: Ranking) {
    forall i :: 0 < i < |trace| ==> Favoured(g, self, trace[i - 1], trace[i], rank)
  }

  /** Some least entry has the least rank. */
  lemma {:induction false} LeastOfLeast(tent: TentMap, rank: Ranking, among: set<NodeId>) returns (v: NodeId)
    requires among != {} && among <= tent.Keys
    ensures v in among
    ensures forall w :: w in among ==> tent[v].distance <= tent[w].distance
    ensures forall w :: w in among && tent[w].distance == tent[v].distance ==> rank(v) <= rank(w)
    decreases among
  {
    v :| v in among;
    if among != {v} {
      var rest := among - {v};
      assert among == rest + {v};
      assert rest != {};
      var w := LeastOfLeast(tent, rank, rest);
      if tent[w].distance < tent[v].distance || (tent[w].distance == tent[v].distance && rank(w) <= rank(v)) {
        v := w;
      }
    }
  }

  ghost function After(g: Graph, self: NodeId, a: Moment, cur: NodeId): Moment
    requires cur in a.tent
  {
    var done := a.done[cur := a.tent[cur]];
    Moment(done, if Transits(g, self, cur) then AfterEdges(g, done, a.tent - {cur}, cur, |g[cur].edges|) else a.tent - {cur})
  }

  /** A computation not yet finished goes on, by the ranking. */
  lemma Next(g: Graph, self: NodeId, trace: seq<Moment>, rank: Ranking) returns (b: Moment)
    requires self in g && IsTrace(g, self, trace) && Favours(g, self, trace, rank) && trace[|trace| - 1].tent != map[]
    ensures IsTrace(g, self, trace + [b]) && Favours(g, self, trace + [b], rank)
    ensures Last(trace).Keys < b.done.Keys <= g.Keys
  {
    hide Follows; hide Favours; hide Favoured; hide IsTurn; hide Invariant; hide AfterEdges;
    var a := trace[|trace| - 1];
    TraceIsRegular(g, self, trace, |trace| - 1);
    var cur := LeastOfLeast(a.tent, rank, a.tent.Keys);
    b := After(g, self, a, cur);
    Step(g, self, a, b, cur, rank);
    TurnKeeps(g, self, a, b, cur);
    TraceGrows(g, self, trace, b, cur);
    FavoursOn(g, self, trace, b, rank);
    assert cur in b.done.Keys && cur !in a.done.Keys;
  }

  /** There is a computation that breaks ties that way. */
  lemma Run(g: Graph, self: NodeId, rank: Ranking) returns (trace: seq<Moment>)
    requires self in g
    ensures IsFinished(g, self, trace) && Favours(g, self, trace, rank)
  {
    trace := [Moment(map[], map[self := Tent(0, {})])];
    while trace[|trace| - 1].tent != map[]
      invariant IsTrace(g, self, trace) && Favours(g, self, trace, rank)
      decreases g.Keys - Last(trace).Keys
    {
      hide Follows; hide Favoured;
      var b := Next(g, self, trace, rank);
      trace := trace + [b];
    }
  }

  lemma Step(g: Graph, self: NodeId, a: Moment, b: Moment, cur: NodeId, rank: Ranking)
    requires cur in a.tent && b == After(g, self, a, cur)
    requires forall w :: w in a.tent ==> a.tent[cur].distance <= a.tent[w].distance
    requires forall w :: w in a.tent && a.tent[w].distance == a.tent[cur].distance ==> rank(cur) <= rank(w)
    ensures IsTurn(g, self, a, b, cur) && Favoured(g, self, a, b, rank)
  {
    hide AfterEdges;
    Turned(g, self, a, b, cur);
  }

  lemma FavoursOn(g: Graph, self: NodeId, trace: seq<Moment>, b: Moment, rank: Ranking)
    requires trace != [] && Favours(g, self, trace, rank) && Favoured(g, self, trace[|trace| - 1], b, rank)
    ensures Favours(g, self, trace + [b], rank)
  {
    hide Favoured;
    var longer := trace + [b];
    forall i | 0 < i < |longer|
      ensures Favoured(g, self, longer[i - 1], longer[i], rank)
    {
      if i < |trace| { assert longer[i - 1] == trace[i - 1] && longer[i] == trace[i]; }
    }
  }

  /** Along a path, either its end is settled no farther than the path costs, or a node of it is tentative within that. */
  lemma {:induction false} OpenNode(g: Graph, self: NodeId, done: TentMap, tent: TentMap, p: Path, x: NodeId) returns (z: Option<NodeId>)
    requires Invariant(g, self, done, tent) && IsPath(g, self, p, x) && Cost(p) < MAX_PATH_METRIC
    ensures z.None? ==> x in done && done[x].distance <= Cost(p)
    ensures z.Some? ==> Visits(p, x, z.value) && z.value in tent && tent[z.value].distance <= Cost(p)
  {
    match p
    case Origin => z := if x in done then None else Some(x);
    case Hop(q, u, m) =>
      z := OpenNode(g, self, done, tent, q, u);
      if z.None? {
        assert Covered(done, tent, u, x, m);
        z := if x in done && done[x].distance <= Cost(p) then None else Some(x);
      }
  }

  /** All nodes of the path rank below `n`. */
  ghost predicate RanksBelow(rank: Ranking, p: Path, x: NodeId, n: nat) {
    rank(x) < n && (p.Hop? ==> RanksBelow(rank, p.before, p.from, n))
  }

  lemma {:induction false} VisitsBelow(rank: Ranking, p: Path, x: NodeId, n: nat, z: NodeId)
    requires RanksBelow(rank, p, x, n) && Visits(p, x, z)
    ensures rank(z) < n
  {
    if x != z { VisitsBelow(rank, p.before, p.from, n, z); }
  }

  /** Ranked below `y` all along, and no farther: a path's end has been settled when `y` is. */
  lemma BeforeTurn(g: Graph, self: NodeId, a: Moment, rank: Ranking, p: Path, x: NodeId, y: NodeId)
    requires Invariant(g, self, a.done, a.tent) && IsLeast(a.tent, y) && forall w :: IsLeast(a.tent, w) ==> rank(y) <= rank(w)
    requires IsPath(g, self, p, x) && Cost(p) <= a.tent[y].distance < MAX_PATH_METRIC && RanksBelow(rank, p, x, rank(y))
    ensures x in a.done
  {
    hide Invariant; hide IsPath;
    var z := OpenNode(g, self, a.done, a.tent, p, x);
    if z.Some? {
      VisitsBelow(rank, p, x, rank(y), z.value);
    }
  }

  /** So it is settled before. */
  lemma FavouredOrder(g: Graph, self: NodeId, trace: seq<Moment>, rank: Ranking, p: Path, x: NodeId, y: NodeId)
    requires IsFinished(g, self, trace) && Favours(g, self, trace, rank) && y in Last(trace)
    requires IsPath(g, self, p, x) && Cost(p) <= Last(trace)[y].distance && RanksBelow(rank, p, x, rank(y))
    ensures Precedes(trace, x, y)
  {
    hide AfterEdges; hide IsPath; hide AllBacked; hide AllCovered; hide RanksBelow; hide Follows; hide Transits;
    var i := SettledAt(g, self, trace, |trace| - 1, y);
    SettledStays(g, self, trace, i, |trace| - 1, y);
    var cur := FavouredTurn(g, self, trace, rank, i);
    TraceIsRegular(g, self, trace, i - 1);
    TraceIsRegular(g, self, trace, |trace| - 1);
    BelowCeiling(g, self, Last(trace), y);
    BeforeTurn(g, self, trace[i - 1], rank, p, x, y);
  }

  lemma FavouredTurn(g: Graph, self: NodeId, trace: seq<Moment>, rank: Ranking, i: nat) returns (cur: NodeId)
    requires Favours(g, self, trace, rank) && 0 < i < |trace|
    ensures IsLeast(trace[i - 1].tent, cur) && trace[i].done == trace[i - 1].done[cur := trace[i - 1].tent[cur]]
    ensures forall w :: IsLeast(trace[i - 1].tent, w) ==> rank(cur) <= rank(w)
  {
    hide AfterEdges;
    assert Favoured(g, self, trace[i - 1], trace[i], rank);
    cur :| IsTurn(g, self, trace[i - 1], trace[i], cur) && forall w :: IsLeast(trace[i - 1].tent, w) ==> rank(cur) <= rank(w);
  }

  // ---------- When some order leaves a node without a first hop ----------

  ghost predicate Within(p: Path, v: NodeId, nodes: set<NodeId>) {
    v in nodes && (p.Hop? ==> Within(p.before, p.from, nodes))
  }

  /**
   * Nodes that can be settled before any router at their distance: each is this node or a pseudonode, has a shortest
   * path among them, and every shortest path that comes to it from nearer by comes from one of them.
   */
  ghost predicate IsBareSet(g: Graph, self: NodeId, bare: set<NodeId>) {
    forall v :: v in bare ==>
      && (v == self || v.pseudonode != 0)
      && (exists p :: IsShortest(g, self, p, v) && Within(p, v, bare))
      && (forall p: Path :: p.Hop? && IsShortest(g, self, p, v) && p.metric > 0 ==> p.from in bare)
  }

  ghost predicate CanBeBare(g: Graph, self: NodeId, v: NodeId) {
    exists bare :: IsBareSet(g, self, bare) && v in bare
  }

  function InsideFirst(bare: set<NodeId>): Ranking {
    v => if v in bare then 0 else 1
  }

  lemma {:induction false} InsideRanksBelow(bare: set<NodeId>, p: Path, v: NodeId)
    requires Within(p, v, bare)
    ensures RanksBelow(InsideFirst(bare), p, v, 1)
  {
    if p.Hop? { InsideRanksBelow(bare, p.before, p.from); }
  }

  lemma NotBoth(g: Graph, self: NodeId, trace: seq<Moment>, u: NodeId, v: NodeId)
    requires self in g && IsTrace(g, self, trace)
    ensures !(Precedes(trace, u, v) && Precedes(trace, v, u))
  {
    if Precedes(trace, u, v) && Precedes(trace, v, u) {
      PrecedesOn(g, self, trace, u, v, u);
    }
  }

  lemma PathTo(g: Graph, self: NodeId, done: TentMap, u: NodeId) returns (p: Path)
    requires ShortestPaths(g, self, done) && u in done
    ensures IsPath(g, self, p, u) && Cost(p) == done[u].distance
  {
    p :| IsShortest(g, self, p, u) && Cost(p) == done[u].distance;
  }

  /** An edge that gives a settled distance ends a shortest path. */
  lemma GivesPath(g: Graph, self: NodeId, trace: seq<Moment>, u: NodeId, m: nat, v: NodeId) returns (p: Path)
    requires IsFinished(g, self, trace) && v in Last(trace) && Gives(g, self, Last(trace), u, m, v, Last(trace)[v].distance)
    ensures p.Hop? && p.from == u && p.metric == m && IsShortest(g, self, p, v)
  {
    hide Follows; hide Invariant; hide Link; hide ShortestPaths; hide SoundHops; hide IsShortest;
    FinishedPaths(g, self, trace);
    var q := PathTo(g, self, Last(trace), u);
    p := Hop(q, u, m);
    SettledPath(g, self, Last(trace), p, v);
  }

  /** A node outside the set that gives to one inside is no nearer, and so is settled later. */
  lemma OutsideLater(g: Graph, self: NodeId, trace: seq<Moment>, bare: set<NodeId>, u: NodeId, m: nat, v: NodeId)
    requires IsFinished(g, self, trace) && Favours(g, self, trace, InsideFirst(bare)) && IsBareSet(g, self, bare)
    requires v in bare && u !in bare && v in Last(trace) && Gives(g, self, Last(trace), u, m, v, Last(trace)[v].distance)
    ensures Precedes(trace, v, u)
  {
    var p := GivesPath(g, self, trace, u, m, v);
    var q :| IsShortest(g, self, q, v) && Within(q, v, bare);
    InsideRanksBelow(bare, q, v);
    FinishedPaths(g, self, trace);
    ShortestGives(g, self, Last(trace), q, v);
    FavouredOrder(g, self, trace, InsideFirst(bare), q, v, u);
  }

  /** Favour such a set, and all of it is settled without a first hop. */
  lemma {:induction false} FavouredStayBare(g: Graph, self: NodeId, trace: seq<Moment>, bare: set<NodeId>, v: NodeId, i: nat)
    requires IsFinished(g, self, trace) && Favours(g, self, trace, InsideFirst(bare)) && IsBareSet(g, self, bare)
    requires v in bare && i < |trace| && v in trace[i].done
    ensures v in Last(trace) && Last(trace)[v].firstHops == {}
    decreases i
  {
    hide Follows; hide Favours; hide Gives;
    SettledStays(g, self, trace, i, |trace| - 1, v);
    SelfIsFirst(g, self, trace, |trace| - 1);
    SelfIsFirst(g, self, trace, i);
    forall h
      ensures h !in Last(trace)[v].firstHops
    {
      if h in Last(trace)[v].firstHops {
        var u, m := HopSource(g, self, trace, v, h);
        NotBoth(g, self, trace, u, v);
        if u in bare {
          var j := EarlierMoment(g, self, trace, u, v, i);
          FavouredStayBare(g, self, trace, bare, u, j);
        } else {
          OutsideLater(g, self, trace, bare, u, m, v);
        }
      }
    }
  }

  /** Settled before a node settled by `i` is settled before `i`. */
  lemma EarlierMoment(g: Graph, self: NodeId, trace: seq<Moment>, u: NodeId, v: NodeId, i: nat) returns (j: nat)
    requires self in g && IsTrace(g, self, trace) && i < |trace| && v in trace[i].done && Precedes(trace, u, v)
    ensures j < i && u in trace[j].done
  {
    j :| 0 <= j < |trace| && u in trace[j].done && v !in trace[j].done;
    if j >= i { SettledStays(g, self, trace, i, j, v); }
  }

  /** What a computation leaves without a first hop. */
  ghost function Bare(trace: seq<Moment>): set<NodeId>
    requires trace != []
  {
    set v | v in Last(trace) && Last(trace)[v].firstHops == {}
  }

  lemma {:induction false} BarePath(g: Graph, self: NodeId, trace: seq<Moment>, v: NodeId, i: nat) returns (p: Path)
    requires IsFinished(g, self, trace) && v in Bare(trace) && i < |trace| && v in trace[i].done
    ensures IsPath(g, self, p, v) && Cost(p) == Last(trace)[v].distance && Within(p, v, Bare(trace))
    decreases i
  {
    hide Follows;
    SelfIsFirst(g, self, trace, |trace| - 1);
    SelfIsFirst(g, self, trace, i);
    if v == self {
      p := Origin;
    } else {
      var u, m := NoHopSource(g, self, trace, v);
      var j := EarlierMoment(g, self, trace, u, v, i);
      SettledStays(g, self, trace, j, |trace| - 1, u);
      var q := BarePath(g, self, trace, u, j);
      p := Hop(q, u, m);
    }
  }

  /** It is such a set. */
  lemma BareIsBareSet(g: Graph, self: NodeId, trace: seq<Moment>)
    requires IsFinished(g, self, trace)
    ensures IsBareSet(g, self, Bare(trace))
  {
    FinishedPaths(g, self, trace);
    hide Follows; hide Invariant; hide IsShortest; hide ShortestPaths; hide Gives;
    forall v | v in Bare(trace)
      ensures exists p :: IsShortest(g, self, p, v) && Within(p, v, Bare(trace))
      ensures forall p: Path :: p.Hop? && IsShortest(g, self, p, v) && p.metric > 0 ==> p.from in Bare(trace)
    {
      var p := BarePath(g, self, trace, v, |trace| - 1);
      SettledPath(g, self, Last(trace), p, v);
      forall r: Path | r.Hop? && IsShortest(g, self, r, v) && r.metric > 0
        ensures r.from in Bare(trace)
      {
        ForcedPrecedes(g, self, trace, r, v);
        ShortestGives(g, self, Last(trace), r, v);
        NotBeforeSelf(g, self, trace, r.from, v);
        HopsTaken(g, self, trace, r.from, r.metric, v);
      }
    }
  }

  /** Some computation settles `v` without a first hop exactly when such a set holds it. */
  lemma BareSomewhere(g: Graph, self: NodeId, v: NodeId)
    requires self in g && Reachable(g, self, v)
    ensures CanBeBare(g, self, v) <==> exists trace :: IsFinished(g, self, trace) && v in Bare(trace)
  {
    hide Follows; hide IsBareSet;
    if CanBeBare(g, self, v) {
      var bare :| IsBareSet(g, self, bare) && v in bare;
      var trace := Run(g, self, InsideFirst(bare));
      FinishedPaths(g, self, trace);
      FavouredStayBare(g, self, trace, bare, v, |trace| - 1);
      assert IsFinished(g, self, trace) && v in Bare(trace);
    }
    if trace :| IsFinished(g, self, trace) && v in Bare(trace) {
      BareIsBareSet(g, self, trace);
    }
  }

  // ---------- When some order gives it one ----------

  /** The path passes through no node twice. */
  ghost predicate Simple(p: Path, v: NodeId) {
    p.Hop? ==> Simple(p.before, p.from) && !Visits(p.before, p.from, v)
  }

  ghost predicate CanBeRouted(g: Graph, self: NodeId, v: NodeId) {
    exists p :: IsShortest(g, self, p, v) && Simple(p, v) && FirstRouter(p, v).Some?
  }

  /** Ranks grow along the path. */
  ghost predicate Ascending(rank: Ranking, p: Path, v: NodeId) {
    p.Hop? ==> Ascending(rank, p.before, p.from) && rank(p.from) < rank(v)
  }

  lemma {:induction false} AscendingBelow(rank: Ranking, p: Path, v: NodeId, n: nat)
    requires Ascending(rank, p, v) && rank(v) < n
    ensures RanksBelow(rank, p, v, n)
  {
    if p.Hop? { AscendingBelow(rank, p.before, p.from, n); }
  }

  ghost function Length(p: Path): nat {
    if p.Origin? then 0 else Length(p.before) + 1
  }

  /** How far along the path a node is, and beyond its end for nodes off it. */
  ghost function Place(p: Path, v: NodeId, z: NodeId, beyond: nat): nat {
    if v == z then Length(p) else if p.Origin? then beyond else Place(p.before, p.from, z, beyond)
  }

  lemma {:induction false} SimpleAscends(rank: Ranking, p: Path, v: NodeId, beyond: nat)
    requires Simple(p, v) && forall z :: Visits(p, v, z) ==> rank(z) == Place(p, v, z, beyond)
    ensures Ascending(rank, p, v)
  {
    if p.Hop? {
      assert Visits(p, v, v) && Visits(p, v, p.from);
      SimpleAscends(rank, p.before, p.from, beyond);
    }
  }

  /** Settled in the order of a path, every node past its first router has a first hop. */
  lemma {:induction false} RoutedAlong(g: Graph, self: NodeId, trace: seq<Moment>, rank: Ranking, p: Path, v: NodeId)
    requires IsFinished(g, self, trace) && Favours(g, self, trace, rank) && v in Last(trace)
    requires IsShortest(g, self, p, v) && Ascending(rank, p, v) && FirstRouter(p, v).Some?
    ensures Last(trace)[v].firstHops != {}
  {
    hide Follows; hide Favours; hide Gives; hide Invariant;
    var Hop(q, u, m) := p;
    FinishedPaths(g, self, trace);
    ShortestGives(g, self, Last(trace), p, v);
    AscendingBelow(rank, q, u, rank(v));
    FavouredOrder(g, self, trace, rank, q, u, v);
    NotBeforeSelf(g, self, trace, u, v);
    if FirstRouter(q, u).Some? {
      RoutedAlong(g, self, trace, rank, q, u);
      HopsTaken(g, self, trace, u, m, v);
    }
  }

  lemma {:induction false} KeptIsSimple(g: Graph, self: NodeId, trace: seq<Moment>, p: Path, v: NodeId)
    requires self in g && IsTrace(g, self, trace) && Kept(trace, p, v)
    ensures Simple(p, v)
  {
    if p.Hop? {
      KeptIsSimple(g, self, trace, p.before, p.from);
      NotBoth(g, self, trace, p.from, v);
      if Visits(p.before, p.from, v) {
        if v != p.from { KeptVisits(g, self, trace, p.before, p.from, v); }
      }
    }
  }

  /** Some computation settles `v` with a first hop exactly when some shortest path meets a router and no node twice. */
  lemma RoutedSomewhere(g: Graph, self: NodeId, v: NodeId)
    requires self in g && Reachable(g, self, v)
    ensures CanBeRouted(g, self, v) <==> exists trace :: IsFinished(g, self, trace) && v in Last(trace) && v !in Bare(trace)
  {
    hide Follows; hide IsShortest;
    if CanBeRouted(g, self, v) {
      var p :| IsShortest(g, self, p, v) && Simple(p, v) && FirstRouter(p, v).Some?;
      var rank: Ranking := z => Place(p, v, z, Length(p) + 1);
      SimpleAscends(rank, p, v, Length(p) + 1);
      var trace := Run(g, self, rank);
      FinishedPaths(g, self, trace);
      RoutedAlong(g, self, trace, rank, p, v);
      assert IsFinished(g, self, trace) && v in Last(trace) && v !in Bare(trace);
    }
    if trace :| IsFinished(g, self, trace) && v in Last(trace) && v !in Bare(trace) {
      var h :| h in Last(trace)[v].firstHops;
      HopIsExact(g, self, trace, v, h);
      var p :| IsShortest(g, self, p, v) && Kept(trace, p, v) && FirstRouter(p, v) == Some(h);
      KeptIsSimple(g, self, trace, p, v);
    }
  }

  // ---------- When the order decides nothing ----------

  /** The topology alone decides whether `v` has a first hop. */
  ghost predicate Decided(g: Graph, self: NodeId, v: NodeId) {
    !(CanBeBare(g, self, v) && CanBeRouted(g, self, v))
  }

  /** Every two computations agree on whether `v` has a first hop. */
  ghost predicate Agreed(g: Graph, self: NodeId, v: NodeId) {
    forall a, b :: IsFinished(g, self, a) && IsFinished(g, self, b) && v in Bare(a) && v in Last(b) ==> v in Bare(b)
  }

  lemma DecidedIsAgreed(g: Graph, self: NodeId, v: NodeId)
    requires self in g && Reachable(g, self, v)
    ensures Decided(g, self, v) <==> Agreed(g, self, v)
  {
    BareSomewhere(g, self, v);
    RoutedSomewhere(g, self, v);
    hide IsFinished; hide CanBeBare; hide CanBeRouted; hide Bare;
  }

  /** Every edge into a pseudonode costs something. */
  predicate CostlyLans(g: Graph) {
    forall u, i :: u in g && 0 <= i < |g[u].edges| && g[u].edges[i].to.pseudonode != 0 ==> g[u].edges[i].metric > 0
  }

  lemma {:induction false} EveryPathVisitsSelf(g: Graph, self: NodeId, p: Path, v: NodeId)
    requires IsPath(g, self, p, v)
    ensures Visits(p, v, self)
  {
    if p.Hop? { EveryPathVisitsSelf(g, self, p.before, p.from); }
  }

  /** Then a set settled before the routers cannot be entered over one. */
  lemma {:induction false} CostlyStaysBare(g: Graph, self: NodeId, bare: set<NodeId>, p: Path, v: NodeId)
    requires CostlyLans(g) && IsBareSet(g, self, bare) && v in bare && IsShortest(g, self, p, v) && Simple(p, v)
    ensures FirstRouter(p, v) == None
  {
    if p.Hop? {
      EveryPathVisitsSelf(g, self, p.before, p.from);
      assert Edge(v, p.metric) in g[p.from].edges;
      ShortestPrefix(g, self, p, v);
      CostlyStaysBare(g, self, bare, p.before, p.from);
    }
  }

  lemma CostlyIsDecided(g: Graph, self: NodeId, v: NodeId)
    requires CostlyLans(g)
    ensures Decided(g, self, v)
  {
    if CanBeBare(g, self, v) && CanBeRouted(g, self, v) {
      var bare :| IsBareSet(g, self, bare) && v in bare;
      var p :| IsShortest(g, self, p, v) && Simple(p, v) && FirstRouter(p, v).Some?;
      CostlyStaysBare(g, self, bare, p, v);
    }
  }
}
