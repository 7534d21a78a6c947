/** The graph shortest paths are computed over, and what a path through it is. */
module Topology {
  import opened Types

  /** A path or prefix at or above this cost is not used (RFC 5305). */
  const MAX_PATH_METRIC: nat := 0xfe00_0000

  /** The largest metric an Extended IS Reachability entry can carry: three octets. */
  const MAX_WIDE_METRIC: nat := 0xff_ffff

  datatype Edge = Edge(to: NodeId, metric: nat)

  /** One prefix advertised by a vertex; `down` and `mt` as on the advertisement. */
  datatype Advertised = Advertised(prefix: Prefix, metric: nat, down: bool, mt: bool)

  datatype Vertex = Vertex(edges: seq<Edge>, prefixes: seq<Advertised>, overload: bool, attached: bool)

  type Graph = map<NodeId, Vertex>

  /** Every edge metric fits the three octets it is decoded from. */
  predicate WideMetrics(g: Graph) {
    forall u, i :: u in g && 0 <= i < |g[u].edges| ==> g[u].edges[i].metric <= MAX_WIDE_METRIC
  }

  /** `b` is in the graph and has an edge back to `a`. */
  predicate TwoWay(g: Graph, a: NodeId, b: NodeId) {
    b in g && exists i :: 0 <= i < |g[b].edges| && g[b].edges[i].to == a
  }

  /** A path may leave `u`: it is in the graph and is either `self` or not overloaded. */
  predicate Transits(g: Graph, self: NodeId, u: NodeId) {
    u in g && (u == self || !g[u].overload)
  }

  /** One step of a path. */
  ghost predicate Link(g: Graph, self: NodeId, u: NodeId, v: NodeId, metric: nat) {
    Transits(g, self, u) && Edge(v, metric) in g[u].edges && TwoWay(g, u, v)
  }

  /**
   * A step leads along an advertised edge, between vertices that both exist, to one that advertises some edge back; and
   * it leaves this node or a router that is not overloaded.
   */
  lemma LinkIs(g: Graph, self: NodeId, u: NodeId, v: NodeId, metric: nat)
    ensures Link(g, self, u, v, metric) <==>
            && u in g && v in g && (g[u].overload ==> u == self)
            && Edge(v, metric) in g[u].edges && exists back :: Edge(u, back) in g[v].edges
  {
    if v in g {
      if back :| Edge(u, back) in g[v].edges {
        var i :| 0 <= i < |g[v].edges| && g[v].edges[i] == Edge(u, back);
      }
      if i :| 0 <= i < |g[v].edges| && g[v].edges[i].to == u {
        assert Edge(u, g[v].edges[i].metric) in g[v].edges;
      }
    }
  }

  /** A path from `self`, recorded as the nodes it leaves and the metrics of the edges it takes. */
  datatype Path = Origin | Hop(before: Path, from: NodeId, metric: nat)

  ghost predicate IsPath(g: Graph, self: NodeId, p: Path, v: NodeId) {
    match p
    case Origin => v == self
    case Hop(q, u, m) => IsPath(g, self, q, u) && Link(g, self, u, v, m)
  }

  ghost function Cost(p: Path): nat {
    match p
    case Origin => 0
    case Hop(q, _, m) => Cost(q) + m
  }

  /** The first real router after `self` on a path that ends at `v`. */
  ghost function FirstRouter(p: Path, v: NodeId): Option<SystemId> {
    match p
    case Origin => None
    case Hop(q, u, _) =>
      if FirstRouter(q, u).Some? then FirstRouter(q, u)
      else if v.pseudonode == 0 then Some(v.system)
      else None
  }

  /** Some path reaches `v` below the ceiling. */
  ghost predicate Reachable(g: Graph, self: NodeId, v: NodeId) {
    exists p :: IsPath(g, self, p, v) && Cost(p) < MAX_PATH_METRIC
  }

  /** `p` reaches `v` and no path reaches it for less. */
  ghost predicate IsShortest(g: Graph, self: NodeId, p: Path, v: NodeId) {
    IsPath(g, self, p, v) && forall q :: IsPath(g, self, q, v) ==> Cost(p) <= Cost(q)
  }

  /** `d` is the least cost of a path to `v`. */
  ghost predicate IsDistance(g: Graph, self: NodeId, v: NodeId, d: nat) {
    exists p :: IsShortest(g, self, p, v) && Cost(p) == d
  }
}
