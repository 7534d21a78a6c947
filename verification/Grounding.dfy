/**
 * Reachability carried between levels by any number of routers, each recomputing from databases that may
 * be out of date: every advertisement goes back to an owner of the prefix, and once the owners are gone
 * the copies cannot keep one another alive.
 */
module Grounding {
  import opened Types
  import opened Topology
  import opened TentativeSet
  import opened Routes
  import opened RouteTable
  import opened Interlevel
  import opened Recompute

  /** One prefix in one router's LSP at one level; a Level-1 LSP stays within its area. */
  datatype Advert = Advert(origin: SystemId, area: nat, level: Level, prefix: Prefix, down: bool)

  /** What a router's LSP at a level carries: its own prefixes, the exports upward, the leaks downward. */
  predicate InLsp(x: Input, o: Outcome, level: Level, p: Prefix, down: bool) {
    || (p in x.own && !down)
    || (level == L2 && L1 in x.levels && p in o.exports && !down)
    || (level == L1 && L2 in x.levels && p in o.leaks && down)
  }

  /** The topology at a level was built from advertisements in `seen`. */
  ghost predicate BuiltFrom(g: Graph, level: Level, area: nat, seen: set<Advert>) {
    forall u, i :: u in g && 0 <= i < |g[u].prefixes| ==>
      exists a :: a in seen && a.level == level && (level == L1 ==> a.area == area)
                  && a.prefix == g[u].prefixes[i].prefix && a.down == g[u].prefixes[i].down
  }

  /** Every algorithm-0 topology of a pass was built from advertisements in `seen`. */
  ghost predicate Reads(x: Input, area: nat, seen: set<Advert>) {
    forall l :: l in x.levels && (l, 0) in x.graphs ==> BuiltFrom(x.graphs[(l, 0)], l, area, seen)
  }

  /** The advertisements of router `n` that outcome `o` of a pass over `x` stands behind. */
  ghost predicate Emits(x: Input, o: Outcome, n: SystemId, area: nat, mine: set<Advert>) {
    forall a :: a in mine ==> a.origin == n && a.area == area && InLsp(x, o, a.level, a.prefix, a.down)
  }

  /** Router `n`, owning `own`, recomputes from `seen` and puts `mine` in its LSPs. */
  ghost predicate Recomputes(n: SystemId, area: nat, own: set<Prefix>, seen: set<Advert>, mine: set<Advert>) {
    exists x, computed, merged, o ::
      IsOutcome(x, computed, merged, o) && x.own == own && Reads(x, area, seen) && Emits(x, o, n, area, mine)
  }

  /** A route collected at a level was advertised there, with the up/down bit it carries. */
  lemma RouteWasAdvertised(g: Graph, self: NodeId, done: TentMap, level: Level, algo: nat, xs: set<Source>,
                           routes: map<Prefix, Route>, p: Prefix)
    requires Collected(g, self, done, level, algo, xs, routes) && p in routes
    ensures exists u, i :: u in g && 0 <= i < |g[u].prefixes| && g[u].prefixes[i].prefix == p && g[u].prefixes[i].down == routes[p].down
  {
    var c :| Best(Offered(g, self, done, level, algo, xs, p), c) && routes[p].down == c.down;
    assert c in Offered(g, self, done, level, algo, xs, p);
    var x :| x in xs && Contributes(g, self, done, x) && g[x.0].prefixes[x.1].prefix == p && c == Contribution(g, done, x, level, algo);
    assert g[x.0].prefixes[x.1].down == routes[p].down;
  }

  /** The same for the table a router in both levels computes. */
  lemma TableWasAdvertised(x: Input, computed: Computed, l: Level, area: nat, seen: set<Advert>, p: Prefix)
    requires IsComputed(x, computed) && BothLevels(x) && (l, 0) in computed && p in computed[(l, 0)]
    requires BuiltFrom(x.graphs[(l, 0)], l, area, seen)
    ensures exists a :: a in seen && a.level == l && (l == L1 ==> a.area == area) && a.prefix == p
                        && a.down == computed[(l, 0)][p].down
  {
    hide Collected;
    var k: Computation := (l, 0);
    var g := x.graphs[k];
    assert RoutesOf(x, k, computed[k]);
    var done :| IsRouteSet(g, x.self, l, 0, false, done, computed[k]);
    RouteWasAdvertised(g, x.self, done, l, 0, AllSources(g, done.Keys), computed[k], p);
    var u, i :| u in g && 0 <= i < |g[u].prefixes| && g[u].prefixes[i].prefix == p && g[u].prefixes[i].down == computed[k][p].down;
  }

  /** Nothing is exported that an area member did not advertise as its own side's reachability. */
  lemma ExportIsSeen(x: Input, computed: Computed, merged: map<Prefix, Route>, o: Outcome, area: nat, seen: set<Advert>, p: Prefix)
    requires IsOutcome(x, computed, merged, o) && p in o.exports
    requires Reads(x, area, seen)
    ensures exists a :: a in seen && a.level == L1 && a.area == area && a.prefix == p && !a.down
  {
    assert BothLevels(x) && Computes(x, (L1, 0));
    ExportReadsLevelOne(computed, merged, x.own, p);
    TableWasAdvertised(x, computed, L1, area, seen, p);
  }

  /** Nothing is leaked that was not advertised at Level 2. */
  lemma LeakIsSeen(x: Input, computed: Computed, merged: map<Prefix, Route>, o: Outcome, area: nat, seen: set<Advert>, p: Prefix)
    requires IsOutcome(x, computed, merged, o) && p in o.leaks
    requires Reads(x, area, seen)
    ensures exists a :: a in seen && a.level == L2 && a.prefix == p
  {
    assert BothLevels(x) && Computes(x, (L2, 0));
    TableWasAdvertised(x, computed, L2, area, seen, p);
  }

  /** What stands behind one advertisement made after reading `seen`. */
  ghost predicate Justified(a: Advert, own: set<Prefix>, seen: set<Advert>) {
    && (a.level == L1 && !a.down ==> a.prefix in own)
    && (a.level == L2 && a.prefix !in own ==>
          exists b :: b in seen && b.level == L1 && b.area == a.area && b.prefix == a.prefix && !b.down)
    && (a.down ==> a.level == L1 && exists b :: b in seen && b.level == L2 && b.prefix == a.prefix)
  }

  /** A recompute advertises nothing it cannot justify from what it owns and what it read. */
  lemma RecomputeIsJustified(n: SystemId, area: nat, own: set<Prefix>, seen: set<Advert>, mine: set<Advert>, a: Advert)
    requires Recomputes(n, area, own, seen, mine) && a in mine
    ensures a.origin == n && a.area == area && Justified(a, own, seen)
  {
    hide IsOutcome; hide Reads;
    var x, computed, merged, o :|
      IsOutcome(x, computed, merged, o) && x.own == own && Reads(x, area, seen) && Emits(x, o, n, area, mine);
    if a.level == L2 && a.prefix !in own {
      ExportIsSeen(x, computed, merged, o, area, seen, a.prefix);
    }
    if a.down {
      LeakIsSeen(x, computed, merged, o, area, seen, a.prefix);
    }
  }

  /** One step of the network: some router recomputes from a selection of what was ever advertised. */
  datatype Event = Event(router: SystemId, area: nat, own: set<Prefix>, seen: set<Advert>, mine: set<Advert>)

  /** Everything ever advertised in the first `k` events. */
  ghost function History(run: seq<Event>, k: nat): set<Advert>
    requires k <= |run|
  {
    if k == 0 then {} else History(run, k - 1) + run[k - 1].mine
  }

  /** Each router reads what was advertised before, however long ago, and recomputes as the code does. */
  ghost predicate IsRun(run: seq<Event>) {
    forall k :: 0 <= k < |run| ==>
      run[k].seen <= History(run, k) && Recomputes(run[k].router, run[k].area, run[k].own, run[k].seen, run[k].mine)
  }

  /** Some router of `area` owned `p` when it recomputed in one of the first `k` events. */
  ghost predicate OwnedIn(run: seq<Event>, k: nat, area: nat, p: Prefix)
    requires k <= |run|
  {
    exists j :: 0 <= j < k && run[j].area == area && p in run[j].own
  }

  /** An advertisement made in one of the first `k` events belongs to one of them. */
  lemma {:induction false} MadeIn(run: seq<Event>, k: nat, a: Advert)
    requires k <= |run| && a in History(run, k)
    ensures exists j :: 0 <= j < k && a in run[j].mine
  {
    if a in run[k - 1].mine {
      assert 0 <= k - 1 < k;
    } else {
      MadeIn(run, k - 1, a);
    }
  }

  /**
   * Inter-level reachability is grounded: a Level-1 advertisement without the up/down bit was made by an owner
   * of the prefix, and a Level-2 advertisement by an owner or by a border router of an area that had one before.
   */
  lemma EveryAdvertIsGrounded(run: seq<Event>, a: Advert)
    requires IsRun(run) && a in History(run, |run|)
    ensures exists j :: 0 <= j < |run| && a in run[j].mine && run[j].router == a.origin && run[j].area == a.area
              && (a.level == L1 && !a.down ==> a.prefix in run[j].own)
              && (a.level == L2 ==> a.prefix in run[j].own || OwnedIn(run, j, a.area, a.prefix))
  {
    MadeIn(run, |run|, a);
    var j :| 0 <= j < |run| && a in run[j].mine;
    var e := run[j];
    RecomputeIsJustified(e.router, e.area, e.own, e.seen, e.mine, a);
    if a.level == L2 && a.prefix !in e.own {
      var b :| b in e.seen && b.level == L1 && b.area == a.area && b.prefix == a.prefix && !b.down;
      MadeIn(run, j, b);
      var i :| 0 <= i < j && b in run[i].mine;
      RecomputeIsJustified(run[i].router, run[i].area, run[i].own, run[i].seen, run[i].mine, b);
      assert run[i].area == a.area && a.prefix in run[i].own;
    }
  }

  // ---------- Withdrawal ----------

  /** What is advertised after `run`, which starts with `initial` advertised: a recompute replaces the router's LSPs. */
  ghost function Current(initial: set<Advert>, run: seq<Event>): set<Advert> {
    if run == [] then initial
    else
      var e := run[|run| - 1];
      (set a | a in Current(initial, run[..|run| - 1]) && a.origin != e.router) + e.mine
  }

  /** A stretch of the network's life in which a database may lag, but not to before the stretch began. */
  ghost predicate IsPhase(initial: set<Advert>, run: seq<Event>) {
    forall k :: 0 <= k < |run| ==>
      run[k].seen <= initial + History(run, k) && Recomputes(run[k].router, run[k].area, run[k].own, run[k].seen, run[k].mine)
  }

  /** `p` is nobody's throughout. */
  ghost predicate Unowned(run: seq<Event>, p: Prefix) {
    forall k :: 0 <= k < |run| ==> p !in run[k].own
  }

  /** Every router with something advertised recomputes at least once. */
  ghost predicate AllRecompute(initial: set<Advert>, run: seq<Event>) {
    forall a :: a in initial ==> exists k :: 0 <= k < |run| && run[k].router == a.origin
  }

  /** No advertisement of `p` in the set is of the kind an export starts from. */
  ghost predicate NoneFromOwners(s: set<Advert>, p: Prefix) {
    forall a :: a in s ==> !(a.prefix == p && a.level == L1 && !a.down)
  }

  ghost predicate NoneAtLevelTwo(s: set<Advert>, p: Prefix) {
    forall a :: a in s ==> !(a.prefix == p && a.level == L2)
  }

  /** A recompute by a router that does not own `p` can at most leak it, and only from a Level-2 copy. */
  lemma UnownedStep(e: Event, past: set<Advert>, p: Prefix)
    requires Recomputes(e.router, e.area, e.own, e.seen, e.mine) && e.seen <= past && p !in e.own
    requires NoneFromOwners(past, p)
    ensures NoneFromOwners(e.mine, p) && NoneAtLevelTwo(e.mine, p)
    ensures NoneAtLevelTwo(past, p) ==> forall a :: a in e.mine ==> a.prefix != p
  {
    hide Recomputes;
    forall a | a in e.mine && a.prefix == p
      ensures a.level == L1 && a.down && !NoneAtLevelTwo(past, p)
    {
      RecomputeIsJustified(e.router, e.area, e.own, e.seen, e.mine, a);
    }
  }

  /** Without an owner no recompute revives `p`: nothing is exported, and without Level-2 copies nothing is leaked. */
  lemma {:induction false} NothingRevives(initial: set<Advert>, run: seq<Event>, k: nat, p: Prefix)
    requires IsPhase(initial, run) && Unowned(run, p) && k <= |run| && NoneFromOwners(initial, p)
    ensures NoneFromOwners(History(run, k), p) && NoneAtLevelTwo(History(run, k), p)
    ensures NoneAtLevelTwo(initial, p) ==> forall a :: a in History(run, k) ==> a.prefix != p
  {
    hide Recomputes;
    if k > 0 {
      NothingRevives(initial, run, k - 1, p);
      UnownedStep(run[k - 1], initial + History(run, k - 1), p);
    }
  }

  /** What is current was advertised initially by a router that has not recomputed since, or in the run. */
  lemma {:induction false} CurrentComesFrom(initial: set<Advert>, run: seq<Event>, a: Advert)
    requires a in Current(initial, run)
    ensures a in History(run, |run|) || (a in initial && forall k :: 0 <= k < |run| ==> run[k].router != a.origin)
  {
    if run != [] {
      var init, e := run[..|run| - 1], run[|run| - 1];
      HistoryAgrees(init, run, |run| - 1);
      if a !in e.mine {
        CurrentComesFrom(initial, init, a);
        assert forall k :: 0 <= k < |run| ==> run[k] == e || run[k] == init[k];
      }
    }
  }

  lemma {:induction false} HistoryAgrees(run: seq<Event>, other: seq<Event>, k: nat)
    requires k <= |run| && k <= |other| && run[..k] == other[..k]
    ensures History(run, k) == History(other, k)
  {
    if k > 0 {
      assert run[..k - 1] == run[..k][..k - 1] == other[..k - 1];
      assert run[k - 1] == run[..k][k - 1] == other[k - 1];
      HistoryAgrees(run, other, k - 1);
    }
  }

  /**
   * Leaked copies cannot sustain each other: once no owner advertises `p`, two rounds in which every router
   * recomputes remove it everywhere, in both levels and in any number of areas.
   */
  lemma CopiesDieOut(initial: set<Advert>, first: seq<Event>, second: seq<Event>, p: Prefix)
    requires NoneFromOwners(initial, p) && Unowned(first, p) && Unowned(second, p)
    requires IsPhase(initial, first) && AllRecompute(initial, first)
    requires IsPhase(Current(initial, first), second) && AllRecompute(Current(initial, first), second)
    ensures forall a :: a in Current(Current(initial, first), second) ==> a.prefix != p
  {
    var between := Current(initial, first);
    NothingRevives(initial, first, |first|, p);
    forall a | a in between
      ensures a in History(first, |first|)
    {
      CurrentComesFrom(initial, first, a);
    }
    NothingRevives(between, second, |second|, p);
    forall a | a in Current(between, second)
      ensures a.prefix != p
    {
      CurrentComesFrom(between, second, a);
    }
  }
}
