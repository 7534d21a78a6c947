/** Dijkstra's algorithm over the level's topology: what holds between two pops, and at every moment of a run. */
module Dijkstra {
  import opened Types
  import opened Topology
  import opened TentativeSet

  /** The first hops of a node reached from one whose own first hops are `hops`. */
  function FirstHopsFor(hops: set<SystemId>, to: NodeId): set<SystemId> {
    if hops != {} then hops
    else if to.pseudonode == 0 then {to.system}
    else {}
  }

  /** `t` is backed by paths of its distance: one per first hop, and a router-free one when there are none. */
  ghost predicate Backed(g: Graph, self: NodeId, v: NodeId, t: Tent) {
    && t.distance < MAX_PATH_METRIC
    && (exists p :: IsPath(g, self, p, v) && Cost(p) == t.distance)
    && (forall h :: h in t.firstHops ==> exists p :: IsPath(g, self, p, v) && Cost(p) == t.distance && FirstRouter(p, v) == Some(h))
    && (t.firstHops == {} ==> v == self || v.pseudonode != 0)
    && (t.firstHops == {} ==> exists p :: IsPath(g, self, p, v) && Cost(p) == t.distance && FirstRouter(p, v) == None)
  }

  ghost predicate AllBacked(g: Graph, self: NodeId, m: TentMap) {
    forall v :: v in m ==> Backed(g, self, v, m[v])
  }

  /** The edge from a settled `u` has been taken into account at `v`. */
  ghost predicate Covered(done: TentMap, tent: TentMap, u: NodeId, v: NodeId, metric: nat)
    requires u in done
  {
    var nd := done[u].distance + metric;
    nd < MAX_PATH_METRIC ==>
      (v in done && done[v].distance <= nd) || (v in tent && tent[v].distance <= nd)
  }

  /** Every edge out of a settled node other than `cur` has been taken into account. */
  ghost predicate AllCovered(g: Graph, self: NodeId, done: TentMap, tent: TentMap, skip: set<NodeId>) {
    forall u, v, m :: u in done && u !in skip && Link(g, self, u, v, m) ==> Covered(done, tent, u, v, m)
  }

  /** Settled nodes are apart from tentative ones and no farther; `self` is on one side or the other at zero. */
  ghost predicate Ranked(self: NodeId, done: TentMap, tent: TentMap) {
    && done.Keys !! tent.Keys
    && (self in done ==> done[self].distance == 0)
    && (self !in done ==> self in tent && tent[self].distance == 0)
    && (forall u, v :: u in done && v in tent ==> done[u].distance <= tent[v].distance)
  }

  /** `cur`, the node settled last, is as far as any settled node. */
  ghost predicate Farthest(done: TentMap, cur: NodeId) {
    cur in done && forall u :: u in done ==> done[u].distance <= done[cur].distance
  }

  /** The state between two pops. */
  ghost predicate Invariant(g: Graph, self: NodeId, done: TentMap, tent: TentMap) {
    Ranked(self, done, tent) && AllBacked(g, self, done) && AllBacked(g, self, tent) && AllCovered(g, self, done, tent, {})
  }

  /** A path with one more edge backs the tentative entry that edge produces. */
  lemma Extends(g: Graph, self: NodeId, u: NodeId, t: Tent, v: NodeId, m: nat)
    requires Backed(g, self, u, t) && Link(g, self, u, v, m)
    requires t.distance + m < MAX_PATH_METRIC
    ensures Backed(g, self, v, Tent(t.distance + m, FirstHopsFor(t.firstHops, v)))
  {
    var hops := FirstHopsFor(t.firstHops, v);
    var p :| IsPath(g, self, p, u) && Cost(p) == t.distance;
    assert IsPath(g, self, Hop(p, u, m), v);
    forall h | h in hops
      ensures exists q :: IsPath(g, self, q, v) && Cost(q) == t.distance + m && FirstRouter(q, v) == Some(h)
    {
      if t.firstHops != {} {
        var q :| IsPath(g, self, q, u) && Cost(q) == t.distance && FirstRouter(q, u) == Some(h);
        assert IsPath(g, self, Hop(q, u, m), v) && FirstRouter(Hop(q, u, m), v) == Some(h);
      } else {
        var q :| IsPath(g, self, q, u) && Cost(q) == t.distance && FirstRouter(q, u) == None;
        assert IsPath(g, self, Hop(q, u, m), v) && FirstRouter(Hop(q, u, m), v) == Some(h);
      }
    }
    if hops == {} {
      var q :| IsPath(g, self, q, u) && Cost(q) == t.distance && FirstRouter(q, u) == None;
      assert IsPath(g, self, Hop(q, u, m), v) && FirstRouter(Hop(q, u, m), v) == None;
    }
  }

  /** Relaxing with a backed entry keeps the tentative set backed. */
  lemma RelaxBacked(g: Graph, self: NodeId, tent: TentMap, v: NodeId, d: nat, hops: set<SystemId>)
    requires AllBacked(g, self, tent) && Backed(g, self, v, Tent(d, hops))
    ensures AllBacked(g, self, Relaxed(tent, v, d, hops))
  {
  }

  /** Relaxing never forgets an edge already taken into account. */
  lemma RelaxKeeps(done: TentMap, tent: TentMap, v: NodeId, d: nat, hops: set<SystemId>, u: NodeId, w: NodeId, m: nat)
    requires u in done
    ensures Covered(done, tent, u, w, m) ==> Covered(done, Relaxed(tent, v, d, hops), u, w, m)
  {
  }

  /** Once nothing is tentative, every path below the ceiling ends at a settled node no farther than it. */
  lemma {:induction false} NoShorterPath(g: Graph, self: NodeId, done: TentMap, p: Path, v: NodeId)
    requires Invariant(g, self, done, map[])
    requires IsPath(g, self, p, v) && Cost(p) < MAX_PATH_METRIC
    ensures v in done && done[v].distance <= Cost(p)
  {
    match p
    case Origin =>
    case Hop(q, u, m) =>
      NoShorterPath(g, self, done, q, u);
      assert Covered(done, map[], u, v, m);
  }

  /** What the computation settles: exactly the reachable nodes, each at its least cost. */
  lemma SettledIsShortest(g: Graph, self: NodeId, done: TentMap)
    requires Invariant(g, self, done, map[])
    ensures forall v :: v in done <==> Reachable(g, self, v)
    ensures forall v :: v in done ==> IsDistance(g, self, v, done[v].distance)
  {
    forall v
      ensures v in done <==> Reachable(g, self, v)
      ensures v in done ==> IsDistance(g, self, v, done[v].distance)
    {
      if Reachable(g, self, v) {
        var p :| IsPath(g, self, p, v) && Cost(p) < MAX_PATH_METRIC;
        NoShorterPath(g, self, done, p, v);
      }
      if v in done {
        var p :| IsPath(g, self, p, v) && Cost(p) == done[v].distance;
        forall q | IsPath(g, self, q, v)
          ensures Cost(p) <= Cost(q)
        {
          if Cost(q) < MAX_PATH_METRIC {
            NoShorterPath(g, self, done, q, v);
          }
        }
        assert IsShortest(g, self, p, v);
      }
    }
  }

  /** Popping moves an entry to the settled side; what was taken into account of others' edges stays so. */
  lemma PopCovered(g: Graph, self: NodeId, done: TentMap, tent: TentMap, cur: NodeId)
    requires AllCovered(g, self, done, tent, {}) && cur in tent && cur !in done
    ensures AllCovered(g, self, done[cur := tent[cur]], tent - {cur}, {cur})
  {
    var done', tent' := done[cur := tent[cur]], tent - {cur};
    forall u, v, m | u in done' && u !in {cur} && Link(g, self, u, v, m)
      ensures Covered(done', tent', u, v, m)
    {
      assert Covered(done, tent, u, v, m);
    }
  }

  /** A least entry leaves the tentative side in order. */
  lemma PopRanked(self: NodeId, done: TentMap, tent: TentMap, cur: NodeId)
    requires Ranked(self, done, tent) && IsLeast(tent, cur)
    ensures Ranked(self, done[cur := tent[cur]], tent - {cur})
    ensures Farthest(done[cur := tent[cur]], cur)
  {
  }

  /** The edges of `cur` numbered below `i` have been taken into account. */
  ghost predicate EdgesCovered(g: Graph, done: TentMap, tent: TentMap, cur: NodeId, i: nat)
    requires cur in g && cur in done && i <= |g[cur].edges|
  {
    forall k :: 0 <= k < i && TwoWay(g, cur, g[cur].edges[k].to) ==>
                  Covered(done, tent, cur, g[cur].edges[k].to, g[cur].edges[k].metric)
  }

  /** Relaxing keeps what was taken into account of every settled node's edges. */
  lemma RelaxCovered(g: Graph, self: NodeId, done: TentMap, tent: TentMap, cur: NodeId, i: nat,
                     v: NodeId, d: nat, hops: set<SystemId>)
    requires AllCovered(g, self, done, tent, {cur})
    requires cur in g && cur in done && i <= |g[cur].edges| && EdgesCovered(g, done, tent, cur, i)
    ensures AllCovered(g, self, done, Relaxed(tent, v, d, hops), {cur})
    ensures EdgesCovered(g, done, Relaxed(tent, v, d, hops), cur, i)
  {
    var tent' := Relaxed(tent, v, d, hops);
    forall u, w, m | u in done && u !in {cur} && Link(g, self, u, w, m)
      ensures Covered(done, tent', u, w, m)
    {
      RelaxKeeps(done, tent, v, d, hops, u, w, m);
    }
    forall k | 0 <= k < i && TwoWay(g, cur, g[cur].edges[k].to)
      ensures Covered(done, tent', cur, g[cur].edges[k].to, g[cur].edges[k].metric)
    {
      RelaxKeeps(done, tent, v, d, hops, cur, g[cur].edges[k].to, g[cur].edges[k].metric);
    }
  }

  /** When every edge of `cur` has been seen, no settled node has an edge outstanding. */
  lemma Expanded(g: Graph, self: NodeId, done: TentMap, tent: TentMap, cur: NodeId)
    requires cur in done && AllCovered(g, self, done, tent, {cur})
    requires Transits(g, self, cur) ==> EdgesCovered(g, done, tent, cur, |g[cur].edges|)
    ensures AllCovered(g, self, done, tent, {})
  {
    forall u, v, m | u in done && Link(g, self, u, v, m)
      ensures Covered(done, tent, u, v, m)
    {
    }
  }

  /** What relaxing one edge of `cur` makes of the tentative set. */
  function AfterEdge(g: Graph, done: TentMap, tent: TentMap, cur: NodeId, e: Edge): TentMap
    requires cur in done
  {
    var nd := done[cur].distance + e.metric;
    if e.to !in done && TwoWay(g, cur, e.to) && nd < MAX_PATH_METRIC
    then Relaxed(tent, e.to, nd, FirstHopsFor(done[cur].firstHops, e.to))
    else tent
  }

  /** What relaxing the edges of `cur` numbered below `i` makes of it. */
  function AfterEdges(g: Graph, done: TentMap, tent: TentMap, cur: NodeId, i: nat): TentMap
    requires cur in g && cur in done && i <= |g[cur].edges|
  {
    if i == 0 then tent else AfterEdge(g, done, AfterEdges(g, done, tent, cur, i - 1), cur, g[cur].edges[i - 1])
  }

  /** The state between two edges of the node settled last. */
  ghost predicate Progress(g: Graph, self: NodeId, done: TentMap, tent: TentMap, cur: NodeId, i: nat) {
    && Transits(g, self, cur) && i <= |g[cur].edges| && Farthest(done, cur)
    && tent.Keys <= g.Keys
    && Ranked(self, done, tent) && AllBacked(g, self, done) && AllBacked(g, self, tent)
    && AllCovered(g, self, done, tent, {cur}) && EdgesCovered(g, done, tent, cur, i)
  }

  /** An edge of a settled node relaxes with a backed entry. */
  lemma RelaxAllBacked(g: Graph, self: NodeId, done: TentMap, tent: TentMap, cur: NodeId, e: Edge)
    requires AllBacked(g, self, done) && AllBacked(g, self, tent)
    requires cur in done && Link(g, self, cur, e.to, e.metric) && done[cur].distance + e.metric < MAX_PATH_METRIC
    ensures AllBacked(g, self, AfterEdge(g, done, tent, cur, e))
  {
    hide IsPath;
    Extends(g, self, cur, done[cur], e.to, e.metric);
    RelaxBacked(g, self, tent, e.to, done[cur].distance + e.metric, FirstHopsFor(done[cur].firstHops, e.to));
  }

  lemma EdgeStep(g: Graph, self: NodeId, done: TentMap, tent: TentMap, cur: NodeId, i: nat)
    requires Progress(g, self, done, tent, cur, i) && i < |g[cur].edges|
    ensures Progress(g, self, done, AfterEdge(g, done, tent, cur, g[cur].edges[i]), cur, i + 1)
  {
    hide AllBacked; hide AllCovered;
    var e := g[cur].edges[i];
    var nd, hops := done[cur].distance + e.metric, FirstHopsFor(done[cur].firstHops, e.to);
    if e.to !in done && TwoWay(g, cur, e.to) && nd < MAX_PATH_METRIC {
      RelaxAllBacked(g, self, done, tent, cur, e);
      RelaxCovered(g, self, done, tent, cur, i, e.to, nd, hops);
      assert Covered(done, Relaxed(tent, e.to, nd, hops), cur, e.to, e.metric);
    }
  }

  lemma BelowCeiling(g: Graph, self: NodeId, done: TentMap, u: NodeId)
    requires AllBacked(g, self, done) && u in done
    ensures done[u].distance < MAX_PATH_METRIC
  {
  }

  /** Popping keeps what holds between two pops, up to the edges of the node popped. */
  lemma PopStep(g: Graph, self: NodeId, done: TentMap, tent: TentMap, cur: NodeId)
    requires Invariant(g, self, done, tent) && IsLeast(tent, cur)
    ensures cur !in done
    ensures Ranked(self, done[cur := tent[cur]], tent - {cur}) && Farthest(done[cur := tent[cur]], cur)
    ensures AllBacked(g, self, done[cur := tent[cur]]) && AllBacked(g, self, tent - {cur})
    ensures AllCovered(g, self, done[cur := tent[cur]], tent - {cur}, {cur})
  {
    hide Backed; hide AllCovered;
    PopRanked(self, done, tent, cur);
    PopCovered(g, self, done, tent, cur);
  }

  /** The shortest paths and first hops a settled map records. */
  ghost predicate ShortestPaths(g: Graph, self: NodeId, done: TentMap) {
    && (forall v :: v in done <==> Reachable(g, self, v))
    && (forall v :: v in done ==> IsDistance(g, self, v, done[v].distance))
  }

  /** Every first hop recorded is the first router of a shortest path; only `self` and pseudonodes may have none. */
  ghost predicate SoundHops(g: Graph, self: NodeId, done: TentMap) {
    && (forall v, h :: v in done && h in done[v].firstHops ==>
                         exists p :: IsShortest(g, self, p, v) && FirstRouter(p, v) == Some(h))
    && (forall v :: v in done && v != self && v.pseudonode == 0 ==> done[v].firstHops != {})
  }

  /** What holds before the first pop. */
  lemma Initially(g: Graph, self: NodeId)
    ensures Invariant(g, self, map[], map[self := Tent(0, {})])
  {
    assert IsPath(g, self, Origin, self) && Cost(Origin) == 0 && FirstRouter(Origin, self) == None;
  }

  /** A path of the settled distance is a shortest one. */
  lemma SettledPath(g: Graph, self: NodeId, done: TentMap, p: Path, v: NodeId)
    requires Invariant(g, self, done, map[])
    requires IsPath(g, self, p, v) && v in done && Cost(p) == done[v].distance
    ensures IsShortest(g, self, p, v)
  {
    hide AllCovered;
    forall q | IsPath(g, self, q, v)
      ensures Cost(p) <= Cost(q)
    {
      if Cost(q) < MAX_PATH_METRIC {
        NoShorterPath(g, self, done, q, v);
      }
    }
  }

  /** What holds once nothing is tentative. */
  lemma Finally(g: Graph, self: NodeId, done: TentMap)
    requires Invariant(g, self, done, map[])
    ensures ShortestPaths(g, self, done) && SoundHops(g, self, done)
  {
    hide AllCovered; hide Ranked;
    SettledIsShortest(g, self, done);
    forall v, h | v in done && h in done[v].firstHops
      ensures exists p :: IsShortest(g, self, p, v) && FirstRouter(p, v) == Some(h)
    {
      var p :| IsPath(g, self, p, v) && Cost(p) == done[v].distance && FirstRouter(p, v) == Some(h);
      SettledPath(g, self, done, p, v);
    }
  }

  /** Dropping the last edge of a shortest path leaves a shortest path. */
  lemma ShortestPrefix(g: Graph, self: NodeId, p: Path, v: NodeId)
    requires IsShortest(g, self, p, v) && p.Hop?
    ensures IsShortest(g, self, p.before, p.from)
  {
    forall q | IsPath(g, self, q, p.from)
      ensures Cost(p.before) <= Cost(q)
    {
      assert IsPath(g, self, Hop(q, p.from, p.metric), v);
    }
  }

  /** Settled and tentative entries between two pops. */
  datatype Moment = Moment(done: TentMap, tent: TentMap)

  /** One turn of the loop: a least entry is settled and, where a path may leave it, its edges are relaxed in order. */
  ghost predicate IsTurn(g: Graph, self: NodeId, a: Moment, b: Moment, cur: NodeId) {
    && IsLeast(a.tent, cur) && b.done == a.done[cur := a.tent[cur]]
    && b.tent == if Transits(g, self, cur) then AfterEdges(g, b.done, a.tent - {cur}, cur, |g[cur].edges|) else a.tent - {cur}
  }

  /** A computation from its first moment on, whichever least entries are taken. */
  ghost predicate IsTrace(g: Graph, self: NodeId, trace: seq<Moment>) {
    && trace != [] && trace[0] == Moment(map[], map[self := Tent(0, {})])
    && forall i :: 0 < i < |trace| ==> Follows(g, self, trace[i - 1], trace[i])
  }

  ghost predicate Follows(g: Graph, self: NodeId, a: Moment, b: Moment) {
    exists cur :: IsTurn(g, self, a, b, cur)
  }

  lemma Turned(g: Graph, self: NodeId, a: Moment, b: Moment, cur: NodeId)
    requires IsLeast(a.tent, cur) && b.done == a.done[cur := a.tent[cur]]
    requires Transits(g, self, cur) ==> b.tent == AfterEdges(g, b.done, a.tent - {cur}, cur, |g[cur].edges|)
    requires !Transits(g, self, cur) ==> b.tent == a.tent - {cur}
    ensures IsTurn(g, self, a, b, cur)
  {
  }

  lemma TraceGrows(g: Graph, self: NodeId, trace: seq<Moment>, b: Moment, cur: NodeId)
    requires IsTrace(g, self, trace) && IsTurn(g, self, trace[|trace| - 1], b, cur)
    ensures IsTrace(g, self, trace + [b])
  {
    hide IsTurn;
    var longer := trace + [b];
    forall i | 0 < i < |longer|
      ensures Follows(g, self, longer[i - 1], longer[i])
    {
      if i < |trace| { assert longer[i - 1] == trace[i - 1] && longer[i] == trace[i]; }
    }
  }

  // ---------- What holds at every moment of a trace ----------

  lemma {:induction false} EdgesProgress(g: Graph, self: NodeId, done: TentMap, tent: TentMap, cur: NodeId, i: nat)
    requires Progress(g, self, done, tent, cur, 0) && i <= |g[cur].edges|
    ensures Progress(g, self, done, AfterEdges(g, done, tent, cur, i), cur, i)
  {
    hide Backed; hide AllCovered; hide EdgesCovered; hide Ranked;
    if i > 0 {
      EdgesProgress(g, self, done, tent, cur, i - 1);
      EdgeStep(g, self, done, AfterEdges(g, done, tent, cur, i - 1), cur, i - 1);
    }
  }

  /** One turn keeps what holds between two pops, and brings in only nodes of the topology. */
  lemma TurnKeeps(g: Graph, self: NodeId, a: Moment, b: Moment, cur: NodeId)
    requires Invariant(g, self, a.done, a.tent) && a.tent.Keys <= g.Keys && IsTurn(g, self, a, b, cur)
    ensures Invariant(g, self, b.done, b.tent) && b.tent.Keys <= g.Keys && cur !in a.done
  {
    hide Backed; hide AllCovered; hide AfterEdges; hide Ranked;
    PopStep(g, self, a.done, a.tent, cur);
    if Transits(g, self, cur) {
      EdgesProgress(g, self, b.done, a.tent - {cur}, cur, |g[cur].edges|);
    }
    Expanded(g, self, b.done, b.tent, cur);
  }

  ghost predicate Regular(g: Graph, self: NodeId, m: Moment) {
    Invariant(g, self, m.done, m.tent) && m.tent.Keys <= g.Keys && m.done.Keys <= g.Keys
  }

  lemma {:induction false} TraceIsRegular(g: Graph, self: NodeId, trace: seq<Moment>, i: nat)
    requires self in g && IsTrace(g, self, trace) && i < |trace|
    ensures Regular(g, self, trace[i])
  {
    hide Invariant; hide IsTurn;
    if i == 0 {
      Initially(g, self);
    } else {
      TraceIsRegular(g, self, trace, i - 1);
      assert Follows(g, self, trace[i - 1], trace[i]);
      var cur :| IsTurn(g, self, trace[i - 1], trace[i], cur);
      TurnKeeps(g, self, trace[i - 1], trace[i], cur);
      TurnSettles(g, self, trace[i - 1], trace[i], cur);
    }
  }

  lemma TurnSettles(g: Graph, self: NodeId, a: Moment, b: Moment, cur: NodeId)
    requires IsTurn(g, self, a, b, cur)
    ensures cur in a.tent && b.done == a.done[cur := a.tent[cur]]
  {
  }

  /** The node settled between two moments. */
  lemma TurnOf(g: Graph, self: NodeId, trace: seq<Moment>, i: nat) returns (cur: NodeId)
    requires self in g && IsTrace(g, self, trace) && 0 < i < |trace|
    ensures IsTurn(g, self, trace[i - 1], trace[i], cur) && cur in trace[i - 1].tent && cur !in trace[i - 1].done
    ensures trace[i].done == trace[i - 1].done[cur := trace[i - 1].tent[cur]]
  {
    hide IsTurn; hide Invariant;
    assert Follows(g, self, trace[i - 1], trace[i]);
    cur :| IsTurn(g, self, trace[i - 1], trace[i], cur);
    TraceIsRegular(g, self, trace, i - 1);
    TurnKeeps(g, self, trace[i - 1], trace[i], cur);
    TurnSettles(g, self, trace[i - 1], trace[i], cur);
  }

  /** What is settled stays settled as it was. */
  lemma {:induction false} SettledStays(g: Graph, self: NodeId, trace: seq<Moment>, i: nat, j: nat, v: NodeId)
    requires self in g && IsTrace(g, self, trace) && i <= j < |trace| && v in trace[i].done
    ensures v in trace[j].done && trace[j].done[v] == trace[i].done[v]
    decreases j
  {
    if i < j {
      SettledStays(g, self, trace, i, j - 1, v);
      var cur := TurnOf(g, self, trace, j);
    }
  }

  /** `u` was settled while `v` was still open. */
  ghost predicate Precedes(trace: seq<Moment>, u: NodeId, v: NodeId) {
    exists i :: 0 <= i < |trace| && u in trace[i].done && v !in trace[i].done
  }

  /** The moment a node is settled. */
  lemma {:induction false} SettledAt(g: Graph, self: NodeId, trace: seq<Moment>, j: nat, v: NodeId) returns (i: nat)
    requires self in g && IsTrace(g, self, trace) && j < |trace| && v in trace[j].done
    ensures 0 < i <= j && v in trace[i].done && v !in trace[i - 1].done
  {
    if v in trace[j - 1].done {
      i := SettledAt(g, self, trace, j - 1, v);
    } else {
      i := j;
    }
  }

  /** A nearer node is settled first. */
  lemma NearerFirst(g: Graph, self: NodeId, trace: seq<Moment>, u: NodeId, v: NodeId)
    requires self in g && IsTrace(g, self, trace)
    requires var done := trace[|trace| - 1].done; u in done && v in done && done[u].distance < done[v].distance
    ensures Precedes(trace, u, v)
  {
    var n := |trace| - 1;
    var i := SettledAt(g, self, trace, n, u);
    var cur := TurnOf(g, self, trace, i);
    SettledStays(g, self, trace, i, n, u);
    if v in trace[i].done {
      SettledStays(g, self, trace, i, n, v);
      TraceIsRegular(g, self, trace, i - 1);
    }
  }

  /** This node is settled first, at no cost and with no first hop. */
  lemma {:induction false} SelfIsFirst(g: Graph, self: NodeId, trace: seq<Moment>, i: nat)
    requires self in g && IsTrace(g, self, trace) && i < |trace|
    ensures i == 0 ==> trace[i].done == map[]
    ensures i > 0 ==> self in trace[i].done && trace[i].done[self] == Tent(0, {})
  {
    if i > 0 {
      var cur := TurnOf(g, self, trace, i);
      SelfIsFirst(g, self, trace, i - 1);
    }
  }

  ghost function Last(trace: seq<Moment>): TentMap
    requires trace != []
  {
    trace[|trace| - 1].done
  }

  /** A finished computation. */
  ghost predicate IsFinished(g: Graph, self: NodeId, trace: seq<Moment>) {
    self in g && IsTrace(g, self, trace) && trace[|trace| - 1].tent == map[]
  }

  lemma FinishedPaths(g: Graph, self: NodeId, trace: seq<Moment>)
    requires IsFinished(g, self, trace)
    ensures ShortestPaths(g, self, Last(trace)) && SoundHops(g, self, Last(trace)) && Invariant(g, self, Last(trace), map[])
  {
    hide ShortestPaths; hide SoundHops; hide Invariant;
    TraceIsRegular(g, self, trace, |trace| - 1);
    Finally(g, self, Last(trace));
  }

  /** Nothing is settled before this node. */
  lemma NotBeforeSelf(g: Graph, self: NodeId, trace: seq<Moment>, u: NodeId, v: NodeId)
    requires self in g && IsTrace(g, self, trace) && Precedes(trace, u, v)
    ensures v != self
  {
    var i :| 0 <= i < |trace| && u in trace[i].done && v !in trace[i].done;
    SelfIsFirst(g, self, trace, i);
  }

  lemma FinishedIsTrace(g: Graph, self: NodeId, trace: seq<Moment>)
    requires IsFinished(g, self, trace)
    ensures self in g && IsTrace(g, self, trace)
  {
  }

  /** Some computation settles exactly this. */
  ghost predicate Settles(g: Graph, self: NodeId, done: TentMap) {
    exists trace :: IsFinished(g, self, trace) && Last(trace) == done
  }
}
