/** The shortest-path computation of one level. */
module Spf {
  import opened Types
  import opened Topology
  import opened TentativeSet
  import opened Dijkstra
  import opened FirstHops

  const TWO_32: nat := 0x1_0000_0000

  /** Addition as `uint32` performs it. */
  function AddU32(a: nat, b: nat): nat {
    (a + b) % TWO_32
  }

  /** Relax every edge out of the node settled last. */
  method Expand(g: Graph, done: TentMap, tent: TentSet, cur: NodeId)
    requires WideMetrics(g) && cur in g && cur in done && done[cur].distance < MAX_PATH_METRIC && tent.Valid()
    modifies tent
    ensures tent.Valid() && tent.View() == AfterEdges(g, done, old(tent.View()), cur, |g[cur].edges|)
  {
    var edges := g[cur].edges;
    for i := 0 to |edges|
      invariant tent.Valid() && tent.View() == AfterEdges(g, done, old(tent.View()), cur, i)
    {
      var e := edges[i];
      if e.to !in done && TwoWay(g, cur, e.to) {
        var nd := AddU32(done[cur].distance, e.metric);
        if nd < MAX_PATH_METRIC {
          tent.Relax(e.to, nd, FirstHopsFor(done[cur].firstHops, e.to));
        }
      }
    }
  }

  /**
   * Settle nodes in order of distance until none is tentative. Exactly the reachable nodes are settled, at their
   * least costs, with exactly the first routers of the shortest paths the visiting order keeps; where there is no
   * pseudonode and no free edge, those are the first routers of all of them.
   */
  method ComputeSpf(g: Graph, self: NodeId) returns (done: TentMap, ghost trace: seq<Moment>)
    requires self in g && WideMetrics(g)
    ensures IsFinished(g, self, trace) && done == Last(trace)
    ensures ShortestPaths(g, self, done) && SoundHops(g, self, done)
    ensures ExactHops(g, self, trace)
    ensures Orderly(g, self) ==> ClearHops(g, self, done)
    ensures Plain(g) ==> CompleteHops(g, self, done)
  {
    var tent := new TentSet(self);
    done := map[];
    trace := [Moment(done, tent.View())];
    while tent.Len() > 0
      invariant tent.Valid() && fresh(tent)
      invariant IsTrace(g, self, trace) && trace[|trace| - 1] == Moment(done, tent.View())
      invariant done.Keys <= g.Keys
      decreases g.Keys - done.Keys
    {
      hide ShortestPaths; hide SoundHops; hide ExactHops; hide ClearHops; hide CompleteHops; hide Orderly; hide Plain;
      hide IsTrace; hide AllBacked; hide AllCovered; hide AfterEdges; hide WideMetrics;
      ghost var was := Moment(done, tent.View());
      TraceIsRegular(g, self, trace, |trace| - 1);
      var id, t := tent.Pop();
      done := done[id := t];
      PopStep(g, self, was.done, was.tent, id);
      BelowCeiling(g, self, done, id);
      if id in g && (!g[id].overload || id == self) {
        Expand(g, done, tent, id);
      }
      Turned(g, self, was, Moment(done, tent.View()), id);
      TraceGrows(g, self, trace, Moment(done, tent.View()), id);
      trace := trace + [Moment(done, tent.View())];
    }
    assert tent.View() == map[];
    FinishedPaths(g, self, trace);
    HopsAreExact(g, self, trace);
    if Orderly(g, self) { OrderlyHops(g, self, trace); }
    if Plain(g) { PlainIsComplete(g, self, trace); }
  }
}
