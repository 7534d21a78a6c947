/** Which first hops a run records: exactly those of the shortest paths its visiting order keeps. */
module FirstHops {
  import opened Types
  import opened Topology
  import opened TentativeSet
  import opened Dijkstra

  // ---------- Where first hops come from ----------

  /** The edge from a settled `u` accounts for an entry of distance `d` at `v`. */
  ghost predicate Gives(g: Graph, self: NodeId, done: TentMap, u: NodeId, m: nat, v: NodeId, d: nat) {
    u in done && Link(g, self, u, v, m) && done[u].distance + m == d
  }

  /** Whatever edges account for the entry have had their first hops merged into it. */
  ghost predicate TakesAll(g: Graph, self: NodeId, done: TentMap, v: NodeId, t: Tent) {
    forall u, m :: Gives(g, self, done, u, m, v, t.distance) ==> FirstHopsFor(done[u].firstHops, v) <= t.firstHops
  }

  /** Every first hop of the entry was merged from such an edge; an entry without any has one that gave none. */
  ghost predicate TakesOnly(g: Graph, self: NodeId, done: TentMap, v: NodeId, t: Tent) {
    && (forall h :: h in t.firstHops ==>
          exists u, m :: Gives(g, self, done, u, m, v, t.distance) && h in FirstHopsFor(done[u].firstHops, v))
    && (t.firstHops == {} ==>
          exists u, m :: Gives(g, self, done, u, m, v, t.distance) && FirstHopsFor(done[u].firstHops, v) == {})
  }

  /** As `TakesAll`, but of `cur` only the edges numbered below `i`. */
  ghost predicate TakesUpTo(g: Graph, self: NodeId, done: TentMap, cur: NodeId, i: nat, v: NodeId, t: Tent)
    requires cur in g && i <= |g[cur].edges|
  {
    forall u, m :: Gives(g, self, done, u, m, v, t.distance) && (u == cur ==> Edge(v, m) in g[cur].edges[..i]) ==>
      FirstHopsFor(done[u].firstHops, v) <= t.firstHops
  }

  ghost predicate Accounted(g: Graph, self: NodeId, m: Moment) {
    forall v :: v in m.tent && v != self ==> TakesAll(g, self, m.done, v, m.tent[v]) && TakesOnly(g, self, m.done, v, m.tent[v])
  }

  /** Settling `cur` gives the other entries no edge they have not taken, but for those of `cur`. */
  lemma PopTakes(g: Graph, self: NodeId, a: Moment, cur: NodeId, v: NodeId)
    requires cur in a.tent && cur !in a.done && v in a.tent && v != cur && cur in g
    requires TakesAll(g, self, a.done, v, a.tent[v]) && TakesOnly(g, self, a.done, v, a.tent[v])
    ensures TakesUpTo(g, self, a.done[cur := a.tent[cur]], cur, 0, v, a.tent[v])
    ensures TakesOnly(g, self, a.done[cur := a.tent[cur]], v, a.tent[v])
  {
    var done, t := a.done[cur := a.tent[cur]], a.tent[v];
    hide Link;
    forall u, m | Gives(g, self, a.done, u, m, v, t.distance)
      ensures Gives(g, self, done, u, m, v, t.distance) && done[u] == a.done[u]
    {
    }
    forall u, m | Gives(g, self, done, u, m, v, t.distance) && (u == cur ==> Edge(v, m) in g[cur].edges[..0])
      ensures FirstHopsFor(done[u].firstHops, v) <= t.firstHops
    {
      assert Gives(g, self, a.done, u, m, v, t.distance);
    }
  }

  /** No settled edge but those of `cur` still to come beats or equals an entry that is not there yet or is farther. */
  lemma NothingNearer(g: Graph, self: NodeId, done: TentMap, tent: TentMap, cur: NodeId, i: nat, u: NodeId, m: nat, v: NodeId, d: nat)
    requires Progress(g, self, done, tent, cur, i) && Gives(g, self, done, u, m, v, d) && d < MAX_PATH_METRIC && v !in done
    requires u == cur ==> Edge(v, m) in g[cur].edges[..i]
    ensures v in tent && tent[v].distance <= d
  {
    if u == cur {
      var k :| 0 <= k < i && g[cur].edges[k] == Edge(v, m);
      assert TwoWay(g, cur, g[cur].edges[k].to);
      assert Covered(done, tent, cur, g[cur].edges[k].to, g[cur].edges[k].metric);
    } else {
      assert Covered(done, tent, u, v, m);
    }
  }

  /** One more edge of `cur`, at the node it leads to. */
  lemma EdgeTakes(g: Graph, self: NodeId, done: TentMap, tent: TentMap, cur: NodeId, i: nat)
    requires Progress(g, self, done, tent, cur, i) && i < |g[cur].edges|
    requires var v := g[cur].edges[i].to; v in tent ==> TakesUpTo(g, self, done, cur, i, v, tent[v]) && TakesOnly(g, self, done, v, tent[v])
    ensures var tent', v := AfterEdge(g, done, tent, cur, g[cur].edges[i]), g[cur].edges[i].to;
      v in tent' ==> TakesUpTo(g, self, done, cur, i + 1, v, tent'[v]) && TakesOnly(g, self, done, v, tent'[v])
  {
    var e := g[cur].edges[i];
    var v, tent', nd := e.to, AfterEdge(g, done, tent, cur, e), done[cur].distance + e.metric;
    if v in tent' {
      var t := tent'[v];
      assert t.distance < MAX_PATH_METRIC by { EdgeStep(g, self, done, tent, cur, i); BelowCeiling(g, self, tent', v); }
      assert v !in done by { EdgeStep(g, self, done, tent, cur, i); assert Ranked(self, done, tent'); }
      assert g[cur].edges[..i + 1] == g[cur].edges[..i] + [e];
      hide Progress; hide Link;
      forall u, m | Gives(g, self, done, u, m, v, t.distance) && (u == cur ==> Edge(v, m) in g[cur].edges[..i + 1])
        ensures FirstHopsFor(done[u].firstHops, v) <= t.firstHops
      {
        TakesOne(g, self, done, tent, cur, i, u, m);
      }
      TakesOnlyAfter(g, self, done, tent, cur, i);
    }
  }

  lemma TakesOne(g: Graph, self: NodeId, done: TentMap, tent: TentMap, cur: NodeId, i: nat, u: NodeId, m: nat)
    requires Progress(g, self, done, tent, cur, i) && i < |g[cur].edges|
    requires var v := g[cur].edges[i].to; v !in done && (v in tent ==> TakesUpTo(g, self, done, cur, i, v, tent[v]))
    requires var tent', v := AfterEdge(g, done, tent, cur, g[cur].edges[i]), g[cur].edges[i].to;
      && v in tent' && tent'[v].distance < MAX_PATH_METRIC && Gives(g, self, done, u, m, v, tent'[v].distance)
      && (u == cur ==> Edge(v, m) in g[cur].edges[..i + 1])
    ensures var tent', v := AfterEdge(g, done, tent, cur, g[cur].edges[i]), g[cur].edges[i].to;
      FirstHopsFor(done[u].firstHops, v) <= tent'[v].firstHops
  {
    hide Progress; hide TwoWay; hide Link; hide FirstHopsFor;
    InProgress(g, self, done, tent, cur, i);
    var e := g[cur].edges[i];
    var v, tent' := e.to, AfterEdge(g, done, tent, cur, e);
    assert g[cur].edges[..i + 1] == g[cur].edges[..i] + [e];
    if u != cur || Edge(v, m) in g[cur].edges[..i] {
      NothingNearer(g, self, done, tent, cur, i, u, m, v, tent'[v].distance);
      assert Gives(g, self, done, u, m, v, tent[v].distance);
      assert tent[v].firstHops <= tent'[v].firstHops;
    } else {
      assert m == e.metric;
      assert TwoWay(g, cur, v) by { LinkIsTwoWay(g, self, cur, v, m); }
    }
  }

  lemma InProgress(g: Graph, self: NodeId, done: TentMap, tent: TentMap, cur: NodeId, i: nat)
    requires Progress(g, self, done, tent, cur, i)
    ensures cur in g && cur in done && i <= |g[cur].edges| && Transits(g, self, cur)
  {
  }

  lemma LinkIsTwoWay(g: Graph, self: NodeId, u: NodeId, v: NodeId, m: nat)
    requires Link(g, self, u, v, m)
    ensures TwoWay(g, u, v) && Transits(g, self, u)
  {
  }

  lemma TakesOnlyAfter(g: Graph, self: NodeId, done: TentMap, tent: TentMap, cur: NodeId, i: nat)
    requires cur in g && cur in done && i < |g[cur].edges| && Transits(g, self, cur)
    requires var v := g[cur].edges[i].to; v in tent ==> TakesOnly(g, self, done, v, tent[v])
    ensures var tent', v := AfterEdge(g, done, tent, cur, g[cur].edges[i]), g[cur].edges[i].to;
      v in tent' ==> TakesOnly(g, self, done, v, tent'[v])
  {
    var e := g[cur].edges[i];
    var v, tent', nd := e.to, AfterEdge(g, done, tent, cur, e), done[cur].distance + e.metric;
    if e.to !in done && TwoWay(g, cur, e.to) && nd < MAX_PATH_METRIC {
      assert Link(g, self, cur, v, e.metric);
      assert Gives(g, self, done, cur, e.metric, v, nd);
    }
  }

  /** Between two edges of the node settled last: the others' entries have taken all but its edges still to come. */
  ghost predicate TakingUpTo(g: Graph, self: NodeId, done: TentMap, tent: TentMap, cur: NodeId, i: nat)
    requires cur in g && i <= |g[cur].edges|
  {
    forall v :: v in tent ==> TakesUpTo(g, self, done, cur, i, v, tent[v]) && TakesOnly(g, self, done, v, tent[v])
  }

  lemma EdgeTaken(g: Graph, self: NodeId, done: TentMap, tent: TentMap, cur: NodeId, i: nat)
    requires Progress(g, self, done, tent, cur, i) && i < |g[cur].edges| && TakingUpTo(g, self, done, tent, cur, i)
    ensures TakingUpTo(g, self, done, AfterEdge(g, done, tent, cur, g[cur].edges[i]), cur, i + 1)
  {
    assert cur in done;
    hide Progress; hide TakesUpTo; hide TakesOnly;
    var e := g[cur].edges[i];
    var tent' := AfterEdge(g, done, tent, cur, e);
    EdgeTakes(g, self, done, tent, cur, i);
    forall v | v in tent' && v != e.to
      ensures TakesUpTo(g, self, done, cur, i + 1, v, tent'[v]) && TakesOnly(g, self, done, v, tent'[v])
    {
      assert v in tent && tent'[v] == tent[v];
      ElsewhereTakes(g, self, done, cur, i, v, tent[v]);
    }
  }

  /** An edge that leads elsewhere is nothing to take. */
  lemma ElsewhereTakes(g: Graph, self: NodeId, done: TentMap, cur: NodeId, i: nat, v: NodeId, t: Tent)
    requires cur in g && i < |g[cur].edges| && v != g[cur].edges[i].to && TakesUpTo(g, self, done, cur, i, v, t)
    ensures TakesUpTo(g, self, done, cur, i + 1, v, t)
  {
    assert g[cur].edges[..i + 1] == g[cur].edges[..i] + [g[cur].edges[i]];
  }

  lemma {:induction false} EdgesTaken(g: Graph, self: NodeId, done: TentMap, tent: TentMap, cur: NodeId, i: nat)
    requires Progress(g, self, done, tent, cur, 0) && i <= |g[cur].edges| && TakingUpTo(g, self, done, tent, cur, 0)
    ensures TakingUpTo(g, self, done, AfterEdges(g, done, tent, cur, i), cur, i)
  {
    hide TakingUpTo; hide Backed; hide AllCovered; hide EdgesCovered; hide Ranked;
    if i > 0 {
      EdgesTaken(g, self, done, tent, cur, i - 1);
      EdgesProgress(g, self, done, tent, cur, i - 1);
      EdgeTaken(g, self, done, AfterEdges(g, done, tent, cur, i - 1), cur, i - 1);
    }
  }

  /** When all its edges have been seen, or none may be taken, nothing is outstanding. */
  lemma AllTaken(g: Graph, self: NodeId, done: TentMap, tent: TentMap, cur: NodeId, v: NodeId)
    requires cur in g && v in tent
    requires TakesUpTo(g, self, done, cur, if Transits(g, self, cur) then |g[cur].edges| else 0, v, tent[v])
    ensures TakesAll(g, self, done, v, tent[v])
  {
    assert g[cur].edges[..|g[cur].edges|] == g[cur].edges;
  }

  lemma TurnAccounts(g: Graph, self: NodeId, a: Moment, b: Moment, cur: NodeId)
    requires Regular(g, self, a) && Accounted(g, self, a) && IsTurn(g, self, a, b, cur) && (self in a.tent ==> cur == self)
    ensures Accounted(g, self, b)
  {
    hide Invariant; hide Ranked; hide AllBacked; hide AllCovered; hide Farthest;
    hide TakesUpTo; hide TakesOnly; hide TakesAll; hide AfterEdges;
    var tent := a.tent - {cur};
    PopStep(g, self, a.done, a.tent, cur);
    forall v | v in tent
      ensures TakesUpTo(g, self, b.done, cur, 0, v, tent[v]) && TakesOnly(g, self, b.done, v, tent[v])
    {
      PopTakes(g, self, a, cur, v);
    }
    if Transits(g, self, cur) {
      PopProgress(g, self, a, cur);
      EdgesTaken(g, self, b.done, tent, cur, |g[cur].edges|);
    }
    forall v | v in b.tent
      ensures TakesAll(g, self, b.done, v, b.tent[v])
    {
      AllTaken(g, self, b.done, b.tent, cur, v);
    }
  }

  lemma PopProgress(g: Graph, self: NodeId, a: Moment, cur: NodeId)
    requires Regular(g, self, a) && IsLeast(a.tent, cur) && Transits(g, self, cur)
    ensures Progress(g, self, a.done[cur := a.tent[cur]], a.tent - {cur}, cur, 0)
  {
    hide Backed; hide AllCovered; hide Ranked;
    PopStep(g, self, a.done, a.tent, cur);
  }

  lemma {:induction false} TraceAccounts(g: Graph, self: NodeId, trace: seq<Moment>, i: nat)
    requires self in g && IsTrace(g, self, trace) && i < |trace|
    ensures Accounted(g, self, trace[i])
  {
    if i > 0 {
      TraceAccounts(g, self, trace, i - 1);
      var cur := TurnOf(g, self, trace, i);
      TraceIsRegular(g, self, trace, i - 1);
      SelfIsFirst(g, self, trace, i - 1);
      hide Accounted; hide IsTurn; hide AllBacked; hide AllCovered;
      TurnAccounts(g, self, trace[i - 1], trace[i], cur);
    }
  }

  /** The entry a node was settled with had taken all, and only, what the nodes settled before it give. */
  lemma SettledAccounted(g: Graph, self: NodeId, trace: seq<Moment>, v: NodeId) returns (i: nat)
    requires self in g && IsTrace(g, self, trace) && v in Last(trace) && v != self
    ensures 0 < i < |trace| && v in trace[i].done && v !in trace[i - 1].done
    ensures TakesAll(g, self, trace[i - 1].done, v, Last(trace)[v]) && TakesOnly(g, self, trace[i - 1].done, v, Last(trace)[v])
  {
    hide TakesAll; hide TakesOnly;
    var n := |trace| - 1;
    i := SettledAt(g, self, trace, n, v);
    var cur := TurnOf(g, self, trace, i);
    TraceAccounts(g, self, trace, i - 1);
    SettledStays(g, self, trace, i, n, v);
  }

  /** What a node settled before `v` gives it is the same at the end as it was then. */
  lemma GivesThen(g: Graph, self: NodeId, trace: seq<Moment>, i: nat, u: NodeId, m: nat, v: NodeId, d: nat)
    requires self in g && IsTrace(g, self, trace) && 0 < i < |trace| && v in trace[i].done && v !in trace[i - 1].done
    ensures u in trace[i - 1].done ==> Precedes(trace, u, v) && u in Last(trace) && Last(trace)[u] == trace[i - 1].done[u]
    ensures Precedes(trace, u, v) ==> u in trace[i - 1].done
  {
    if u in trace[i - 1].done {
      SettledStays(g, self, trace, i - 1, |trace| - 1, u);
    }
    if Precedes(trace, u, v) {
      var j :| 0 <= j < |trace| && u in trace[j].done && v !in trace[j].done;
      if j >= i { SettledStays(g, self, trace, i, j, v); }
      SettledStays(g, self, trace, j, i - 1, u);
    }
  }

  /** An edge taken while its end was still open has had its first hops merged. */
  lemma HopsTaken(g: Graph, self: NodeId, trace: seq<Moment>, u: NodeId, m: nat, v: NodeId)
    requires self in g && IsTrace(g, self, trace) && v in Last(trace) && v != self
    requires Gives(g, self, Last(trace), u, m, v, Last(trace)[v].distance) && Precedes(trace, u, v)
    ensures FirstHopsFor(Last(trace)[u].firstHops, v) <= Last(trace)[v].firstHops
  {
    var i := SettledAccounted(g, self, trace, v);
    GivesThen(g, self, trace, i, u, m, v, Last(trace)[v].distance);
    hide Link; hide TakesOnly; hide IsTrace;
    assert Gives(g, self, trace[i - 1].done, u, m, v, Last(trace)[v].distance);
  }

  /** And every first hop came over such an edge. */
  lemma HopSource(g: Graph, self: NodeId, trace: seq<Moment>, v: NodeId, h: SystemId) returns (u: NodeId, m: nat)
    requires self in g && IsTrace(g, self, trace) && v in Last(trace) && h in Last(trace)[v].firstHops
    ensures Gives(g, self, Last(trace), u, m, v, Last(trace)[v].distance) && Precedes(trace, u, v)
    ensures h in FirstHopsFor(Last(trace)[u].firstHops, v)
  {
    SelfIsFirst(g, self, trace, |trace| - 1);
    var i := SettledAccounted(g, self, trace, v);
    var d := Last(trace)[v].distance;
    u, m :| Gives(g, self, trace[i - 1].done, u, m, v, d) && h in FirstHopsFor(trace[i - 1].done[u].firstHops, v);
    GivesThen(g, self, trace, i, u, m, v, d);
  }

  lemma NoHopSource(g: Graph, self: NodeId, trace: seq<Moment>, v: NodeId) returns (u: NodeId, m: nat)
    requires self in g && IsTrace(g, self, trace) && v in Last(trace) && v != self && Last(trace)[v].firstHops == {}
    ensures Gives(g, self, Last(trace), u, m, v, Last(trace)[v].distance) && Precedes(trace, u, v)
    ensures FirstHopsFor(Last(trace)[u].firstHops, v) == {}
  {
    var i := SettledAccounted(g, self, trace, v);
    var d := Last(trace)[v].distance;
    u, m :| Gives(g, self, trace[i - 1].done, u, m, v, d) && FirstHopsFor(trace[i - 1].done[u].firstHops, v) == {};
    GivesThen(g, self, trace, i, u, m, v, d);
  }

  // ---------- Exactly the first hops of the paths that are kept ----------

  /**
   * No edge of the path leads to a node settled before the one it leaves, and where the path meets its first router
   * it leaves a node that has no first hop.
   */
  ghost predicate Kept(trace: seq<Moment>, p: Path, v: NodeId)
    requires trace != []
  {
    match p
    case Origin => true
    case Hop(q, u, _) =>
      && Kept(trace, q, u) && Precedes(trace, u, v)
      && (FirstRouter(q, u) == None && v.pseudonode == 0 ==> u in Last(trace) && Last(trace)[u].firstHops == {})
  }

  /** The cost of a shortest path is the distance recorded, and its last edge accounts for it. */
  lemma ShortestGives(g: Graph, self: NodeId, done: TentMap, p: Path, v: NodeId)
    requires ShortestPaths(g, self, done) && IsShortest(g, self, p, v) && v in done
    ensures Cost(p) == done[v].distance
    ensures p.Hop? ==> IsShortest(g, self, p.before, p.from) && p.from in done && Gives(g, self, done, p.from, p.metric, v, done[v].distance)
  {
    var best :| IsShortest(g, self, best, v) && Cost(best) == done[v].distance;
    if p.Hop? {
      ShortestPrefix(g, self, p, v);
      var r :| IsPath(g, self, r, v) && Cost(r) < MAX_PATH_METRIC;
      assert Reachable(g, self, p.from);
      var bestU :| IsShortest(g, self, bestU, p.from) && Cost(bestU) == done[p.from].distance;
    }
  }

  /** The first router of a shortest path that is kept is recorded. */
  lemma {:induction false} FirstRouterRecorded(g: Graph, self: NodeId, trace: seq<Moment>, p: Path, v: NodeId)
    requires IsFinished(g, self, trace) && v in Last(trace) && IsShortest(g, self, p, v) && Kept(trace, p, v)
    requires FirstRouter(p, v).Some?
    ensures FirstRouter(p, v).value in Last(trace)[v].firstHops
  {
    var Hop(q, u, m) := p;
    FinishedPaths(g, self, trace);
    ShortestGives(g, self, Last(trace), p, v);
    NotBeforeSelf(g, self, trace, u, v);
    HopsTaken(g, self, trace, u, m, v);
    if FirstRouter(q, u).Some? {
      FirstRouterRecorded(g, self, trace, q, u);
    }
  }

  /** Every first hop recorded is the first router of a shortest path that is kept; an entry without any has a router-free one. */
  lemma {:induction false} RecordedIsKept(g: Graph, self: NodeId, trace: seq<Moment>, v: NodeId, h: Option<SystemId>, i: nat)
    returns (p: Path)
    requires IsFinished(g, self, trace) && i < |trace| && v in trace[i].done && v in Last(trace)
    requires if h.Some? then h.value in Last(trace)[v].firstHops else Last(trace)[v].firstHops == {}
    ensures IsPath(g, self, p, v) && Cost(p) == Last(trace)[v].distance && Kept(trace, p, v) && FirstRouter(p, v) == h
    decreases i
  {
    SelfIsFirst(g, self, trace, |trace| - 1);
    SelfIsFirst(g, self, trace, i);
    if v == self {
      p := Origin;
    } else {
      var u, m;
      if h.Some? { u, m := HopSource(g, self, trace, v, h.value); } else { u, m := NoHopSource(g, self, trace, v); }
      var j :| 0 <= j < |trace| && u in trace[j].done && v !in trace[j].done;
      if j >= i { SettledStays(g, self, trace, i, j, v); }
      SettledStays(g, self, trace, j, |trace| - 1, u);
      hide IsTrace; hide Link;
      var from := if h.Some? && h.value in Last(trace)[u].firstHops then h else None;
      var q := RecordedIsKept(g, self, trace, u, from, j);
      p := Hop(q, u, m);
    }
  }

  /** `h` is the first router of a shortest path to `v` that is kept. */
  ghost predicate HasKeptPath(g: Graph, self: NodeId, trace: seq<Moment>, v: NodeId, h: SystemId)
    requires trace != []
  {
    exists p :: IsShortest(g, self, p, v) && Kept(trace, p, v) && FirstRouter(p, v) == Some(h)
  }

  /** Exactly the first routers of the shortest paths that are kept. */
  ghost predicate ExactHops(g: Graph, self: NodeId, trace: seq<Moment>)
    requires trace != []
  {
    forall v, h :: v in Last(trace) ==> (h in Last(trace)[v].firstHops <==> HasKeptPath(g, self, trace, v, h))
  }

  lemma HopIsExact(g: Graph, self: NodeId, trace: seq<Moment>, v: NodeId, h: SystemId)
    requires IsFinished(g, self, trace) && v in Last(trace)
    ensures h in Last(trace)[v].firstHops <==> HasKeptPath(g, self, trace, v, h)
  {
    FinishedPaths(g, self, trace);
    if h in Last(trace)[v].firstHops {
      var p := RecordedIsKept(g, self, trace, v, Some(h), |trace| - 1);
      SettledPath(g, self, Last(trace), p, v);
    }
    if p :| IsShortest(g, self, p, v) && Kept(trace, p, v) && FirstRouter(p, v) == Some(h) {
      FirstRouterRecorded(g, self, trace, p, v);
    }
  }

  /** On every topology, whatever the order of ties: the first hops recorded are exactly those. */
  lemma HopsAreExact(g: Graph, self: NodeId, trace: seq<Moment>)
    requires IsFinished(g, self, trace)
    ensures ExactHops(g, self, trace)
  {
    hide HasKeptPath; hide Follows;
    forall v, h | v in Last(trace)
      ensures h in Last(trace)[v].firstHops <==> HasKeptPath(g, self, trace, v, h)
    {
      HopIsExact(g, self, trace, v, h);
    }
  }

  // ---------- What the topology alone decides ----------

  /** The path, which ends at `v`, passes through `u`. */
  ghost predicate Visits(p: Path, v: NodeId, u: NodeId) {
    v == u || (p.Hop? && Visits(p.before, p.from, u))
  }

  /** The edge costs something, or every shortest path to its end passes through where it starts. */
  ghost predicate Forced(g: Graph, self: NodeId, u: NodeId, m: nat, v: NodeId) {
    m > 0 || (u != v && forall p :: IsShortest(g, self, p, v) ==> Visits(p, v, u))
  }

  /** No shortest path to `u` meets a router. */
  ghost predicate Unrouted(g: Graph, self: NodeId, u: NodeId) {
    forall p :: IsShortest(g, self, p, u) ==> FirstRouter(p, u) == None
  }

  /** A path no visiting order loses: its edges are forced, and it meets its first router from an unrouted node. */
  ghost predicate Clear(g: Graph, self: NodeId, p: Path, v: NodeId) {
    match p
    case Origin => true
    case Hop(q, u, m) =>
      && Clear(g, self, q, u) && Forced(g, self, u, m, v)
      && (FirstRouter(q, u) == None && v.pseudonode == 0 ==> Unrouted(g, self, u))
  }

  lemma PrecedesOn(g: Graph, self: NodeId, trace: seq<Moment>, u: NodeId, w: NodeId, v: NodeId)
    requires self in g && IsTrace(g, self, trace) && Precedes(trace, u, w) && Precedes(trace, w, v)
    ensures Precedes(trace, u, v)
  {
    var i :| 0 <= i < |trace| && u in trace[i].done && w !in trace[i].done;
    var j :| 0 <= j < |trace| && w in trace[j].done && v !in trace[j].done;
    if j < i { SettledStays(g, self, trace, j, i, w); } else { SettledStays(g, self, trace, i, j, u); }
  }

  /** Every node a kept path passes through is settled before the one it ends at. */
  lemma {:induction false} KeptVisits(g: Graph, self: NodeId, trace: seq<Moment>, p: Path, v: NodeId, u: NodeId)
    requires self in g && IsTrace(g, self, trace) && Kept(trace, p, v) && Visits(p, v, u) && u != v
    ensures Precedes(trace, u, v)
  {
    hide IsTrace; hide Precedes;
    if p.from != u {
      KeptVisits(g, self, trace, p.before, p.from, u);
      PrecedesOn(g, self, trace, u, p.from, v);
    }
  }

  /** A kept path to every settled node. */
  lemma KeptPath(g: Graph, self: NodeId, trace: seq<Moment>, v: NodeId) returns (p: Path)
    requires IsFinished(g, self, trace) && v in Last(trace)
    ensures IsShortest(g, self, p, v) && Kept(trace, p, v)
  {
    FinishedPaths(g, self, trace);
    var hops := Last(trace)[v].firstHops;
    var h := if hops == {} then None else var s :| s in hops; Some(s);
    hide IsTrace; hide Invariant; hide ShortestPaths; hide SoundHops;
    p := RecordedIsKept(g, self, trace, v, h, |trace| - 1);
    SettledPath(g, self, Last(trace), p, v);
  }

  /** The last edge of a shortest path, when forced, leads to a node settled later. */
  lemma ForcedPrecedes(g: Graph, self: NodeId, trace: seq<Moment>, p: Path, v: NodeId)
    requires IsFinished(g, self, trace) && v in Last(trace)
    requires p.Hop? && IsShortest(g, self, p, v) && Forced(g, self, p.from, p.metric, v)
    ensures p.from in Last(trace) && IsShortest(g, self, p.before, p.from) && Precedes(trace, p.from, v)
  {
    FinishedPaths(g, self, trace);
    ShortestGives(g, self, Last(trace), p, v);
    if p.metric > 0 {
      NearerFirst(g, self, trace, p.from, v);
    } else {
      var q := KeptPath(g, self, trace, v);
      KeptVisits(g, self, trace, q, v, p.from);
    }
  }

  /** An unrouted node has no first hop, whatever the order. */
  lemma UnroutedIsBare(g: Graph, self: NodeId, trace: seq<Moment>, u: NodeId)
    requires IsFinished(g, self, trace) && u in Last(trace) && Unrouted(g, self, u)
    ensures Last(trace)[u].firstHops == {}
  {
    FinishedPaths(g, self, trace);
    forall h
      ensures h !in Last(trace)[u].firstHops
    {
      assert forall p :: IsShortest(g, self, p, u) ==> FirstRouter(p, u) != Some(h);
    }
  }

  /** No visiting order loses a clear path. */
  lemma {:induction false} ClearIsKept(g: Graph, self: NodeId, trace: seq<Moment>, p: Path, v: NodeId)
    requires IsFinished(g, self, trace) && v in Last(trace) && IsShortest(g, self, p, v) && Clear(g, self, p, v)
    ensures Kept(trace, p, v)
  {
    hide IsFinished; hide IsShortest; hide Precedes; hide Forced; hide Unrouted;
    if p.Hop? {
      ForcedPrecedes(g, self, trace, p, v);
      ClearIsKept(g, self, trace, p.before, p.from);
      if Unrouted(g, self, p.from) {
        UnroutedIsBare(g, self, trace, p.from);
      }
    }
  }

  /** Every edge a shortest path ends with is forced. */
  ghost predicate Orderly(g: Graph, self: NodeId) {
    forall p: Path, v: NodeId :: p.Hop? && IsShortest(g, self, p, v) ==> Forced(g, self, p.from, p.metric, v)
  }

  /** On an orderly topology a node some shortest path reaches over a router has a first hop. */
  lemma {:induction false} RoutedHasHops(g: Graph, self: NodeId, trace: seq<Moment>, p: Path, v: NodeId)
    requires IsFinished(g, self, trace) && Orderly(g, self) && v in Last(trace)
    requires IsShortest(g, self, p, v) && FirstRouter(p, v).Some?
    ensures Last(trace)[v].firstHops != {}
  {
    hide IsFinished; hide IsShortest; hide Forced; hide Gives;
    FinishedPaths(g, self, trace);
    hide ShortestPaths; hide Invariant;
    var Hop(q, u, m) := p;
    ForcedPrecedes(g, self, trace, p, v);
    FinishedIsTrace(g, self, trace);
    NotBeforeSelf(g, self, trace, u, v);
    if FirstRouter(q, u).Some? {
      RoutedHasHops(g, self, trace, q, u);
      ShortestGives(g, self, Last(trace), p, v);
      HopsTaken(g, self, trace, u, m, v);
    }
  }

  /** There nothing but clear paths is kept. */
  lemma {:induction false} KeptIsClear(g: Graph, self: NodeId, trace: seq<Moment>, p: Path, v: NodeId)
    requires IsFinished(g, self, trace) && Orderly(g, self) && v in Last(trace)
    requires IsShortest(g, self, p, v) && Kept(trace, p, v)
    ensures Clear(g, self, p, v)
  {
    hide IsFinished; hide Precedes; hide Forced; hide IsPath;
    if p.Hop? {
      var u := p.from;
      ForcedPrecedes(g, self, trace, p, v);
      KeptIsClear(g, self, trace, p.before, u);
      if Last(trace)[u].firstHops == {} {
        forall q | IsShortest(g, self, q, u)
          ensures FirstRouter(q, u) == None
        {
          if FirstRouter(q, u).Some? { RoutedHasHops(g, self, trace, q, u); }
        }
        assert Unrouted(g, self, u);
      }
      assert Forced(g, self, u, p.metric, v);
      assert p == Hop(p.before, u, p.metric) && Clear(g, self, p.before, u);
      assert FirstRouter(p.before, u) == None && v.pseudonode == 0 ==> Unrouted(g, self, u);
    }
  }

  /** The first routers of the clear shortest paths: what an orderly topology decides by itself. */
  ghost predicate ClearHops(g: Graph, self: NodeId, done: TentMap) {
    forall v, h :: v in done ==> (h in done[v].firstHops <==> HasClearPath(g, self, v, h))
  }

  /** `h` is the first router of a clear shortest path to `v`. */
  ghost predicate HasClearPath(g: Graph, self: NodeId, v: NodeId, h: SystemId) {
    exists p :: IsShortest(g, self, p, v) && Clear(g, self, p, v) && FirstRouter(p, v) == Some(h)
  }

  lemma OrderlyHop(g: Graph, self: NodeId, trace: seq<Moment>, v: NodeId, h: SystemId)
    requires IsFinished(g, self, trace) && Orderly(g, self) && v in Last(trace)
    ensures h in Last(trace)[v].firstHops <==> HasClearPath(g, self, v, h)
  {
    HopIsExact(g, self, trace, v, h);
    hide IsFinished; hide IsShortest; hide Orderly;
    if h in Last(trace)[v].firstHops {
      var p :| IsShortest(g, self, p, v) && Kept(trace, p, v) && FirstRouter(p, v) == Some(h);
      KeptIsClear(g, self, trace, p, v);
    }
    if p :| IsShortest(g, self, p, v) && Clear(g, self, p, v) && FirstRouter(p, v) == Some(h) {
      ClearIsKept(g, self, trace, p, v);
    }
  }

  lemma OrderlyHops(g: Graph, self: NodeId, trace: seq<Moment>)
    requires IsFinished(g, self, trace) && Orderly(g, self)
    ensures ClearHops(g, self, Last(trace))
  {
    hide Follows; hide IsShortest; hide Orderly;
    forall v, h | v in Last(trace)
      ensures h in Last(trace)[v].firstHops <==> HasClearPath(g, self, v, h)
    {
      OrderlyHop(g, self, trace, v, h);
    }
  }

  /** Two computations over an orderly topology settle the same map, whichever least entries they take. */
  lemma OrderDoesNotMatter(g: Graph, self: NodeId, a: seq<Moment>, b: seq<Moment>)
    requires IsFinished(g, self, a) && IsFinished(g, self, b) && Orderly(g, self)
    ensures Last(a) == Last(b)
  {
    FinishedPaths(g, self, a);
    FinishedPaths(g, self, b);
    hide IsFinished; hide Orderly; hide Clear; hide FirstRouter; hide Invariant; hide SoundHops; hide IsPath;
    forall v
      ensures v in Last(a) <==> v in Last(b)
      ensures v in Last(a) ==> Last(a)[v] == Last(b)[v]
    {
      if v in Last(a) {
        assert IsDistance(g, self, v, Last(a)[v].distance) && IsDistance(g, self, v, Last(b)[v].distance);
        forall h
          ensures h in Last(a)[v].firstHops <==> h in Last(b)[v].firstHops
        {
          OrderlyHop(g, self, a, v, h);
          OrderlyHop(g, self, b, v, h);
        }
      }
    }
  }

  /** No pseudonode and no zero metric anywhere: every hop is a real router, every edge costs something. */
  predicate Plain(g: Graph) {
    && (forall u :: u in g ==> u.pseudonode == 0)
    && (forall u, i :: u in g && 0 <= i < |g[u].edges| ==> g[u].edges[i].metric > 0)
  }

  /** Without pseudonodes or free edges every shortest path is clear. */
  lemma {:induction false} PlainIsClear(g: Graph, self: NodeId, p: Path, v: NodeId)
    requires Plain(g) && self in g && IsShortest(g, self, p, v)
    ensures Clear(g, self, p, v)
  {
    if p.Hop? {
      ShortestPrefix(g, self, p, v);
      PlainIsClear(g, self, p.before, p.from);
      if FirstRouter(p.before, p.from) == None {
        forall q | IsShortest(g, self, q, p.from)
          ensures FirstRouter(q, p.from) == None
        {
          assert p.before.Origin?;
          assert Cost(q) == 0;
        }
      }
    }
  }

  /** Every first router of a shortest path is recorded. */
  ghost predicate CompleteHops(g: Graph, self: NodeId, done: TentMap) {
    forall v, p :: v in done && IsShortest(g, self, p, v) && FirstRouter(p, v).Some? ==>
                     FirstRouter(p, v).value in done[v].firstHops
  }

  lemma PlainIsComplete(g: Graph, self: NodeId, trace: seq<Moment>)
    requires IsFinished(g, self, trace) && Plain(g)
    ensures CompleteHops(g, self, Last(trace))
  {
    forall p, v | v in Last(trace) && IsShortest(g, self, p, v) && FirstRouter(p, v).Some?
      ensures FirstRouter(p, v).value in Last(trace)[v].firstHops
    {
      PlainIsClear(g, self, p, v);
      ClearIsKept(g, self, trace, p, v);
      FirstRouterRecorded(g, self, trace, p, v);
    }
  }
}
