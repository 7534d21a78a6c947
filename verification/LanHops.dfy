/** On a LAN a first hop at equal cost can go unrecorded: a small topology on which every computation misses one. */
module LanHops {
  import opened Types
  import opened Topology
  import opened TentativeSet
  import opened Dijkstra
  import opened FirstHops

  const SELF: NodeId := NodeId(1, 0)
  const ROUTER: NodeId := NodeId(2, 0)
  const LAN: NodeId := NodeId(2, 1)
  const MEMBER: NodeId := NodeId(3, 0)

  /** `SELF` is on the LAN at cost 10, and reaches it over `ROUTER` at cost 5 + 5 as well. */
  const G: Graph := map[
    SELF := Vertex([Edge(ROUTER, 5), Edge(LAN, 10)], [], false, false),
    ROUTER := Vertex([Edge(SELF, 5), Edge(LAN, 5)], [], false, false),
    LAN := Vertex([Edge(SELF, 0), Edge(ROUTER, 0), Edge(MEMBER, 0)], [], false, false),
    MEMBER := Vertex([Edge(LAN, 10)], [], false, false)]

  const VIA: set<SystemId> := {2}

  /** The moments of the computation; there is never a choice. */
  const M0: Moment := Moment(map[], map[SELF := Tent(0, {})])
  const M1: Moment := Moment(M0.done[SELF := Tent(0, {})], map[ROUTER := Tent(5, VIA), LAN := Tent(10, {})])
  const M2: Moment := Moment(M1.done[ROUTER := Tent(5, VIA)], map[LAN := Tent(10, VIA)])
  const M3: Moment := Moment(M2.done[LAN := Tent(10, VIA)], map[MEMBER := Tent(10, VIA)])
  const M4: Moment := Moment(M3.done[MEMBER := Tent(10, VIA)], map[])

  lemma Links()
    ensures TwoWay(G, SELF, ROUTER) && TwoWay(G, SELF, LAN) && TwoWay(G, ROUTER, LAN) && TwoWay(G, LAN, MEMBER)
  {
    assert G[ROUTER].edges[0].to == SELF && G[LAN].edges[0].to == SELF;
    assert G[LAN].edges[1].to == ROUTER && G[MEMBER].edges[0].to == LAN;
  }

  lemma FromSelf(b: Moment)
    requires Follows(G, SELF, M0, b)
    ensures b == M1
  {
    Links();
    var cur :| IsTurn(G, SELF, M0, b, cur);
    assert cur == SELF;
    var t := M0.tent - {SELF};
    assert t == map[];
    var t1 := AfterEdge(G, b.done, t, SELF, G[SELF].edges[0]);
    assert t1 == map[ROUTER := Tent(5, VIA)];
    assert AfterEdges(G, b.done, t, SELF, 1) == t1;
    assert AfterEdges(G, b.done, t, SELF, 2) == AfterEdge(G, b.done, t1, SELF, G[SELF].edges[1]);
  }

  lemma FromRouter(b: Moment)
    requires Follows(G, SELF, M1, b)
    ensures b == M2
  {
    Links();
    var cur :| IsTurn(G, SELF, M1, b, cur);
    assert ROUTER in M1.tent && M1.tent[ROUTER].distance == 5 && M1.tent[LAN].distance == 10;
    assert cur == ROUTER;
    var t := M1.tent - {ROUTER};
    assert t == map[LAN := Tent(10, {})];
    assert AfterEdge(G, b.done, t, ROUTER, G[ROUTER].edges[0]) == t;
    assert AfterEdges(G, b.done, t, ROUTER, 1) == t;
    assert AfterEdges(G, b.done, t, ROUTER, 2) == AfterEdge(G, b.done, t, ROUTER, G[ROUTER].edges[1]);
    assert {} + VIA == VIA;
  }

  lemma FromLan(b: Moment)
    requires Follows(G, SELF, M2, b)
    ensures b == M3
  {
    Links();
    var cur :| IsTurn(G, SELF, M2, b, cur);
    assert cur == LAN;
    var t := M2.tent - {LAN};
    assert t == map[];
    assert AfterEdges(G, b.done, t, LAN, 1) == t;
    assert AfterEdges(G, b.done, t, LAN, 2) == t;
    assert AfterEdges(G, b.done, t, LAN, 3) == AfterEdge(G, b.done, t, LAN, G[LAN].edges[2]);
  }

  lemma FromMember(b: Moment)
    requires Follows(G, SELF, M3, b)
    ensures b == M4
  {
    var cur :| IsTurn(G, SELF, M3, b, cur);
    assert cur == MEMBER;
    var t := M3.tent - {MEMBER};
    assert t == map[];
    assert AfterEdges(G, b.done, t, MEMBER, 1) == t;
  }

  /** Every computation on this topology ends the same way. */
  lemma OneOutcome(trace: seq<Moment>)
    requires IsTrace(G, SELF, trace) && trace[|trace| - 1].tent == map[]
    ensures trace[|trace| - 1] == M4
  {
    hide Follows;
    assert SELF in M0.tent && ROUTER in M1.tent && LAN in M2.tent && MEMBER in M3.tent;
    assert |trace| > 1 && Follows(G, SELF, trace[1 - 1], trace[1]);
    FromSelf(trace[1]);
    assert |trace| > 2 && Follows(G, SELF, trace[2 - 1], trace[2]);
    FromRouter(trace[2]);
    assert |trace| > 3 && Follows(G, SELF, trace[3 - 1], trace[3]);
    FromLan(trace[3]);
    assert |trace| > 4 && Follows(G, SELF, trace[4 - 1], trace[4]);
    FromMember(trace[4]);
    if |trace| > 5 {
      assert Follows(G, SELF, trace[5 - 1], trace[5]);
      NothingAfter(trace[5]);
    }
  }

  lemma NothingAfter(b: Moment)
    ensures !Follows(G, SELF, M4, b)
  {
  }

  /** A lower bound on the cost of any path. */
  function Least(v: NodeId): nat {
    if v == ROUTER then 5 else if v == LAN || v == MEMBER then 10 else 0
  }

  lemma {:induction false} NoCheaper(p: Path, v: NodeId)
    requires IsPath(G, SELF, p, v)
    ensures Cost(p) >= Least(v)
  {
    match p
    case Origin =>
    case Hop(q, u, m) => NoCheaper(q, u);
  }

  /** The direct path over the LAN is a shortest one, and no computation records the hop it starts with. */
  lemma DirectHopIsMissed(trace: seq<Moment>)
    requires IsTrace(G, SELF, trace) && trace[|trace| - 1].tent == map[]
    ensures var done := trace[|trace| - 1].done;
      && MEMBER in done && !CompleteHops(G, SELF, done)
      && exists p :: IsShortest(G, SELF, p, MEMBER) && FirstRouter(p, MEMBER) == Some(3) && 3 !in done[MEMBER].firstHops
  {
    OneOutcome(trace);
    DirectIsShortest();
    hide IsShortest; hide FirstRouter;
    assert M4.done[MEMBER] == Tent(10, VIA);
    assert 3 !in VIA;
  }

  const DIRECT: Path := Hop(Hop(Origin, SELF, 10), LAN, 0)

  lemma DirectIsShortest()
    ensures IsShortest(G, SELF, DIRECT, MEMBER) && FirstRouter(DIRECT, MEMBER) == Some(3)
  {
    Links();
    assert Edge(LAN, 10) == G[SELF].edges[1] && Edge(MEMBER, 0) == G[LAN].edges[2];
    assert IsPath(G, SELF, Origin, SELF) && IsPath(G, SELF, Hop(Origin, SELF, 10), LAN) && IsPath(G, SELF, DIRECT, MEMBER);
    assert FirstRouter(Hop(Origin, SELF, 10), LAN) == None;
    forall r | IsPath(G, SELF, r, MEMBER)
      ensures Cost(DIRECT) <= Cost(r)
    {
      NoCheaper(r, MEMBER);
    }
  }
}
