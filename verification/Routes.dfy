/** Route selection: merging the contributions of one computation, then the winners of several. */
module Routes {
  import opened Types

  /** A computed route; next hops are the system IDs of directly adjacent routers. */
  datatype Route = Route(metric: nat, level: Level, algo: nat, down: bool, mt: bool, nextHops: set<SystemId>)

  /** Section 3.2 of RFC 5302, lowest preferred. */
  function PreferenceClass(r: Route): nat {
    match r.level
    case L2 => 2
    case L1 => if r.down then 3 else 1
  }

  /** Merge one more contribution into the route held for a prefix. */
  function Merge(cur: Route, r: Route): Route {
    var mt := cur.mt && r.mt;
    var rc, cc := PreferenceClass(r), PreferenceClass(cur);
    var winner :=
      if rc != cc then (if rc < cc then r else cur)
      else if r.metric < cur.metric then r
      else if r.metric == cur.metric then cur.(nextHops := cur.nextHops + r.nextHops)
      else cur;
    winner.(mt := mt)
  }

  function AddRoute(routes: map<Prefix, Route>, p: Prefix, r: Route): map<Prefix, Route> {
    routes[p := if p in routes then Merge(routes[p], r) else r]
  }

  /** `a` ranks no worse than `b`: class first, metric second. */
  predicate NoWorse(a: Route, b: Route) {
    PreferenceClass(a) < PreferenceClass(b) || (PreferenceClass(a) == PreferenceClass(b) && a.metric <= b.metric)
  }

  ghost predicate Best(all: set<Route>, c: Route) {
    c in all && forall other :: other in all ==> NoWorse(c, other)
  }

  /**
   * What merging a set of contributions means, whatever the order: the rank of the best, the next hops of
   * every contribution at that rank, and the multi-topology flag only if all of them carry it.
   */
  ghost predicate IsSummary(all: set<Route>, r: Route) {
    && (exists c :: Best(all, c) && r.metric == c.metric && r.level == c.level && r.algo == c.algo && r.down == c.down)
    && (forall h :: h in r.nextHops <==> exists c :: Best(all, c) && h in c.nextHops)
    && (r.mt <==> forall c :: c in all ==> c.mt)
  }

  lemma SummaryOfOne(r: Route)
    ensures IsSummary({r}, r)
  {
    assert Best({r}, r);
  }

  /** The best of a set and one more contribution. */
  lemma BestOfMore(all: set<Route>, r: Route, b: Route)
    requires Best(all, b)
    ensures forall c :: Best(all + {r}, c) <==>
                          (c == r && NoWorse(r, b)) || (Best(all, c) && NoWorse(b, r))
  {
  }

  /** One merge step takes a summary to a summary. */
  lemma MergeSummary(all: set<Route>, cur: Route, r: Route)
    requires IsSummary(all, cur)
    ensures IsSummary(all + {r}, Merge(cur, r))
  {
    var b :| Best(all, b) && cur.metric == b.metric && cur.level == b.level && cur.algo == b.algo && cur.down == b.down;
    BestOfMore(all, r, b);
    var m := Merge(cur, r);
    assert Best(all + {r}, if NoWorse(b, r) then b else r);
    forall h
      ensures h in m.nextHops <==> exists c :: Best(all + {r}, c) && h in c.nextHops
    {
      if h in m.nextHops {
        if NoWorse(b, r) && h in cur.nextHops {
          var c :| Best(all, c) && h in c.nextHops;
          assert Best(all + {r}, c);
        } else {
          assert Best(all + {r}, r);
        }
      }
    }
  }

  lemma SummaryNonempty(all: set<Route>, r: Route)
    requires IsSummary(all, r)
    ensures all != {}
  {
  }

  lemma BestOfBoth(xs: set<Route>, ys: set<Route>, a: Route, b: Route)
    requires Best(xs, a) && Best(ys, b)
    ensures forall c :: Best(xs + ys, c) <==> (Best(xs, c) && NoWorse(a, b)) || (Best(ys, c) && NoWorse(b, a))
  {
    forall c
      ensures Best(xs + ys, c) <==> (Best(xs, c) && NoWorse(a, b)) || (Best(ys, c) && NoWorse(b, a))
    {
      if Best(xs + ys, c) {
        assert NoWorse(c, a) && NoWorse(c, b);
      }
      if Best(xs, c) && NoWorse(a, b) {
        assert forall y :: y in ys ==> NoWorse(b, y);
      }
      if Best(ys, c) && NoWorse(b, a) {
        assert forall x :: x in xs ==> NoWorse(a, x);
      }
    }
  }

  /** What a merge keeps of two routes, by their ranks. */
  lemma MergeByRank(a: Route, b: Route)
    ensures var m := Merge(a, b);
      && (NoWorse(a, b) || NoWorse(b, a))
      && (NoWorse(a, b) ==> m.metric == a.metric && m.level == a.level && m.algo == a.algo && m.down == a.down)
      && (!NoWorse(a, b) ==> m.metric == b.metric && m.level == b.level && m.algo == b.algo && m.down == b.down)
      && m.nextHops == (if NoWorse(a, b) then a.nextHops else {}) + (if NoWorse(b, a) then b.nextHops else {})
      && (m.mt <==> a.mt && b.mt)
  {
  }

  lemma RankReads(a: Route, b: Route, c: Route, d: Route)
    requires a.metric == c.metric && a.level == c.level && a.down == c.down && b.metric == d.metric && b.level == d.level && b.down == d.down
    ensures NoWorse(a, b) == NoWorse(c, d)
  {
  }

  /** Merging two summaries gives the summary of both sets. */
  lemma SummariesMerge(xs: set<Route>, ys: set<Route>, a: Route, b: Route)
    requires IsSummary(xs, a) && IsSummary(ys, b)
    ensures IsSummary(xs + ys, Merge(a, b))
  {
    hide Merge; hide NoWorse; hide Best;
    var c :| Best(xs, c) && a.metric == c.metric && a.level == c.level && a.algo == c.algo && a.down == c.down;
    var d :| Best(ys, d) && b.metric == d.metric && b.level == d.level && b.algo == d.algo && b.down == d.down;
    BestOfBoth(xs, ys, c, d);
    MergeByRank(a, b);
    RankReads(a, b, c, d);
    RankReads(b, a, d, c);
    var m := Merge(a, b);
    assert Best(xs + ys, if NoWorse(c, d) then c else d);
    forall h
      ensures h in m.nextHops <==> exists x :: Best(xs + ys, x) && h in x.nextHops
    {
      if h in m.nextHops {
        if NoWorse(c, d) && h in a.nextHops {
          var x :| Best(xs, x) && h in x.nextHops;
          assert Best(xs + ys, x);
        } else {
          var x :| Best(ys, x) && h in x.nextHops;
          assert Best(xs + ys, x);
        }
      }
    }
  }

  /** Contributions of one computation share level and algorithm. */
  predicate OneComputation(all: set<Route>, level: Level, algo: nat) {
    forall c :: c in all ==> c.level == level && c.algo == algo
  }

  /** Equal up to the up/down bit of a Level-2 route, which nothing reads. */
  predicate SameChoice(a: Route, b: Route) {
    a == b.(down := a.down) && (a.level == L1 ==> a.down == b.down)
  }

  /** A set of contributions has one summary, so the order they were merged in cannot show. */
  lemma SummaryIsUnique(all: set<Route>, level: Level, algo: nat, a: Route, b: Route)
    requires OneComputation(all, level, algo)
    requires IsSummary(all, a) && IsSummary(all, b)
    ensures SameChoice(a, b)
  {
    assert a.nextHops == b.nextHops;
  }

  function Elements(rs: seq<Route>): set<Route> {
    set r | r in rs
  }

  /** The route held for a prefix after merging a sequence of contributions. */
  function Fold(rs: seq<Route>): Route
    requires |rs| > 0
  {
    if |rs| == 1 then rs[0] else Merge(Fold(rs[..|rs| - 1]), rs[|rs| - 1])
  }

  lemma {:induction false} FoldIsSummary(rs: seq<Route>)
    requires |rs| > 0
    ensures IsSummary(Elements(rs), Fold(rs))
  {
    if |rs| == 1 {
      assert Elements(rs) == {rs[0]};
      SummaryOfOne(rs[0]);
    } else {
      var init, last := rs[..|rs| - 1], rs[|rs| - 1];
      FoldIsSummary(init);
      MergeSummary(Elements(init), Fold(init), last);
      assert rs == init + [last];
      assert Elements(rs) == Elements(init) + {last};
    }
  }

  /** Folding in any order, with any repetition, makes the same choice. */
  lemma FoldOrderIsImmaterial(rs: seq<Route>, other: seq<Route>, level: Level, algo: nat)
    requires |rs| > 0 && |other| > 0
    requires Elements(rs) == Elements(other)
    requires OneComputation(Elements(rs), level, algo)
    ensures SameChoice(Fold(rs), Fold(other))
  {
    FoldIsSummary(rs);
    FoldIsSummary(other);
    SummaryIsUnique(Elements(rs), level, algo, Fold(rs), Fold(other));
  }

  /** Whether a candidate replaces the incumbent of another level or algorithm. */
  predicate BetterRoute(candidate: Route, incumbent: Route) {
    if PreferenceClass(candidate) != PreferenceClass(incumbent)
    then PreferenceClass(candidate) < PreferenceClass(incumbent)
    else candidate.algo < incumbent.algo
  }

  /** `w` beats every other route of the set. */
  ghost predicate Wins(all: set<Route>, w: Route) {
    w in all && forall r :: r in all && r != w ==> BetterRoute(w, r)
  }

  /** At most one route per level and algorithm. */
  predicate OnePerComputation(all: set<Route>) {
    forall a, b :: a in all && b in all && a.level == b.level && a.algo == b.algo ==> a == b
  }

  /** Two routes of different computations never tie. */
  lemma NoTies(a: Route, b: Route)
    requires a.level != b.level || a.algo != b.algo
    ensures BetterRoute(a, b) != BetterRoute(b, a)
  {
  }

  /** So a set with one route per computation has exactly one winner, whichever comes first. */
  lemma WinnerIsUnique(all: set<Route>, a: Route, b: Route)
    requires OnePerComputation(all) && Wins(all, a) && Wins(all, b)
    ensures a == b
  {
    if a != b { NoTies(a, b); }
  }

  /** Taking one more route into account. */
  lemma WinsStep(all: set<Route>, w: Route, r: Route)
    requires OnePerComputation(all + {r}) && Wins(all, w)
    ensures Wins(all + {r}, if BetterRoute(r, w) then r else w)
  {
    forall other | other in all + {r}
      ensures other != (if BetterRoute(r, w) then r else w) ==> BetterRoute(if BetterRoute(r, w) then r else w, other)
    {
      if other != w && w != r { NoTies(w, r); }
    }
  }
}
