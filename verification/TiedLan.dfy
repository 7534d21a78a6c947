/** A topology on which the order of a tie decides whether a prefix is routed. */
module TiedLan {
  import opened Types
  import opened Topology
  import opened TentativeSet
  import opened Routes
  import opened RouteTable
  import opened FirstHops
  import opened Ties
  import Recompute

  const SELF: NodeId := NodeId(1, 0)
  const ROUTER: NodeId := NodeId(2, 0)
  const LAN: NodeId := NodeId(2, 1)

  /** `ROUTER` and the LAN are both 10 away, and the LAN costs nothing from `ROUTER`. */
  const G: Graph := map[
    SELF := Vertex([Edge(ROUTER, 10), Edge(LAN, 10)], [], false, false),
    ROUTER := Vertex([Edge(SELF, 10), Edge(LAN, 0)], [], false, false),
    LAN := Vertex([Edge(SELF, 0), Edge(ROUTER, 0)], [Advertised(NET, 0, false, false)], false, false)]

  const NET: Prefix := Prefix(false, 0x0a00_0000, 8)

  const DIRECT: Path := Hop(Origin, SELF, 10)
  const AROUND: Path := Hop(Hop(Origin, SELF, 10), ROUTER, 0)

  lemma {:induction false} NoCheaper(p: Path, v: NodeId)
    requires IsPath(G, SELF, p, v)
    ensures v != SELF ==> Cost(p) >= 10
  {
    if p.Hop? { NoCheaper(p.before, p.from); }
  }

  lemma PathsToLan()
    ensures IsShortest(G, SELF, DIRECT, LAN) && IsShortest(G, SELF, AROUND, LAN) && IsShortest(G, SELF, Origin, SELF)
  {
    assert G[ROUTER].edges[0].to == SELF && G[LAN].edges[0].to == SELF && G[LAN].edges[1].to == ROUTER;
    assert TwoWay(G, SELF, ROUTER) && TwoWay(G, SELF, LAN) && TwoWay(G, ROUTER, LAN);
    assert Edge(ROUTER, 10) == G[SELF].edges[0] && Edge(LAN, 10) == G[SELF].edges[1] && Edge(LAN, 0) == G[ROUTER].edges[1];
    assert IsPath(G, SELF, Origin, SELF) && IsPath(G, SELF, DIRECT, LAN) && IsPath(G, SELF, DIRECT, ROUTER) && IsPath(G, SELF, AROUND, LAN);
    forall q | IsPath(G, SELF, q, LAN)
      ensures Cost(q) >= 10
    {
      NoCheaper(q, LAN);
    }
  }

  lemma LanCanBeBare()
    ensures CanBeBare(G, SELF, LAN)
  {
    PathsToLan();
    var bare := {SELF, LAN};
    assert Within(Origin, SELF, bare) && Within(DIRECT, LAN, bare);
    forall p: Path | p.Hop? && IsShortest(G, SELF, p, LAN) && p.metric > 0
      ensures p.from in bare
    {
      assert Edge(LAN, p.metric) in G[p.from].edges;
    }
    forall p: Path | p.Hop? && IsShortest(G, SELF, p, SELF)
      ensures p.metric == 0
    {
      assert Cost(p) <= Cost(Origin);
    }
    assert IsBareSet(G, SELF, bare);
  }

  lemma LanCanBeRouted()
    ensures CanBeRouted(G, SELF, LAN)
  {
    PathsToLan();
    assert FirstRouter(DIRECT, ROUTER) == Some(2) && FirstRouter(AROUND, LAN) == Some(2);
    assert !Visits(Origin, SELF, ROUTER) && Simple(DIRECT, ROUTER);
    assert !Visits(Origin, SELF, LAN) && !Visits(DIRECT, ROUTER, LAN) && Simple(AROUND, LAN);
  }

  lemma LanIsUndecided()
    ensures !Decided(G, SELF, LAN)
  {
    LanCanBeBare();
    LanCanBeRouted();
    hide CanBeBare; hide CanBeRouted;
  }

  lemma OnlyTheLan()
    ensures SELF in G && LAN in G && SELF != LAN && |G[LAN].prefixes| == 1 && G[LAN].prefixes[0] == Advertised(NET, 0, false, false)
    ensures Recompute.OnlyFrom(G, SELF, LAN, NET)
    ensures IsPath(G, SELF, DIRECT, LAN) && Cost(DIRECT) == 10
  {
    PathsToLan();
  }

  /** Two computations over this topology, one of which routes the LAN's prefix. */
  lemma TableMoves(level: Level, algo: nat) returns (a: TentMap, b: TentMap, ra: map<Prefix, Route>, rb: map<Prefix, Route>)
    ensures IsRouteSet(G, SELF, level, algo, false, a, ra) && IsRouteSet(G, SELF, level, algo, false, b, rb)
    ensures NET !in ra && NET in rb
  {
    hide IsRouteSet; hide Decided; hide Recompute.OnlyFrom; hide IsPath; hide Cost;
    LanIsUndecided();
    OnlyTheLan();
    a, b, ra, rb := Recompute.UndecidedMoves(G, SELF, level, algo, LAN, 0, DIRECT);
  }
}
