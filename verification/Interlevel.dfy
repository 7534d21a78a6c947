/** The recompute of a router in both levels: one route per prefix, what it exports upward and leaks downward. */
module Interlevel {
  import opened Types
  import opened Topology
  import opened TentativeSet
  import opened Routes
  import opened RouteTable

  /** One SPF computation: a level and an algorithm. */
  type Computation = (Level, nat)

  /** The routes each computation returned, each marked with its own level and algorithm. */
  type Computed = map<Computation, map<Prefix, Route>>

  predicate Marked(computed: Computed) {
    forall k, p :: k in computed && p in computed[k] ==> computed[k][p].level == k.0 && computed[k][p].algo == k.1
  }

  /** The routes to `p` among the computations in `ks`. */
  ghost function Candidates(computed: Computed, ks: set<Computation>, p: Prefix): set<Route> {
    set k | k in ks && k in computed && p in computed[k] :: computed[k][p]
  }

  /** `merged` holds for every prefix the winner among the computations in `ks`. */
  ghost predicate IsMerged(computed: Computed, ks: set<Computation>, merged: map<Prefix, Route>) {
    && (forall p :: p in merged <==> Candidates(computed, ks, p) != {})
    && (forall p :: p in merged ==> Wins(Candidates(computed, ks, p), merged[p]))
  }

  lemma CandidatesDistinct(computed: Computed, ks: set<Computation>, p: Prefix)
    requires Marked(computed)
    ensures OnePerComputation(Candidates(computed, ks, p))
  {
  }

  /** Which order the computations come in is immaterial: there is one merged table. */
  lemma MergedIsUnique(computed: Computed, ks: set<Computation>, a: map<Prefix, Route>, b: map<Prefix, Route>)
    requires Marked(computed) && IsMerged(computed, ks, a) && IsMerged(computed, ks, b)
    ensures a == b
  {
    forall p | p in a
      ensures a[p] == b[p]
    {
      CandidatesDistinct(computed, ks, p);
      WinnerIsUnique(Candidates(computed, ks, p), a[p], b[p]);
    }
  }

  /** The winner for a prefix once computation `k` has been considered as well. */
  function Better(merged: map<Prefix, Route>, p: Prefix, r: Route): Route {
    if p in merged && !BetterRoute(r, merged[p]) then merged[p] else r
  }

  /** Taking one more computation into account decides each of its prefixes. */
  lemma MergeOne(computed: Computed, ks: set<Computation>, merged: map<Prefix, Route>, k: Computation, p: Prefix)
    requires Marked(computed) && IsMerged(computed, ks, merged) && k in computed && p in computed[k]
    ensures Wins(Candidates(computed, ks + {k}, p), Better(merged, p, computed[k][p]))
  {
    hide BetterRoute;
    var before, r := Candidates(computed, ks, p), computed[k][p];
    assert Candidates(computed, ks + {k}, p) == before + {r};
    CandidatesDistinct(computed, ks + {k}, p);
    if p in merged {
      WinsStep(before, merged[p], r);
    } else {
      assert before + {r} == {r};
    }
  }

  /** The merged table covers one more computation. */
  lemma MergeComputation(computed: Computed, ks: set<Computation>, merged: map<Prefix, Route>, k: Computation,
                         next: map<Prefix, Route>)
    requires Marked(computed) && IsMerged(computed, ks, merged) && k in computed
    requires next.Keys == merged.Keys + computed[k].Keys
    requires forall p :: p in next ==> next[p] == if p in computed[k] then Better(merged, p, computed[k][p]) else merged[p]
    ensures IsMerged(computed, ks + {k}, next)
  {
    hide Better; hide Wins;
    forall p
      ensures p in next <==> Candidates(computed, ks + {k}, p) != {}
      ensures p in next ==> Wins(Candidates(computed, ks + {k}, p), next[p])
    {
      if p in computed[k] {
        MergeOne(computed, ks, merged, k, p);
        assert computed[k][p] in Candidates(computed, ks + {k}, p);
      } else {
        assert Candidates(computed, ks + {k}, p) == Candidates(computed, ks, p);
      }
    }
  }

  /** Merge the routes of one computation, prefix by prefix in any order. */
  method MergeInto(merged0: map<Prefix, Route>, routes: map<Prefix, Route>) returns (merged: map<Prefix, Route>)
    ensures merged.Keys == merged0.Keys + routes.Keys
    ensures forall p :: p in merged ==> merged[p] == if p in routes then Better(merged0, p, routes[p]) else merged0[p]
  {
    merged := merged0;
    var todo := routes.Keys;
    while todo != {}
      invariant todo <= routes.Keys
      invariant merged.Keys == merged0.Keys + (routes.Keys - todo)
      invariant forall p :: p in merged ==>
                  merged[p] == if p in routes && p !in todo then Better(merged0, p, routes[p]) else merged0[p]
    {
      var p :| p in todo;
      todo := todo - {p};
      if !(p in merged && !BetterRoute(routes[p], merged[p])) {
        merged := merged[p := routes[p]];
      }
    }
  }

  /** What this node itself originates is neither exported nor leaked. */
  predicate Exported(merged: map<Prefix, Route>, own: set<Prefix>, p: Prefix) {
    && p in merged && merged[p].level == L1 && merged[p].algo == 0
    && !merged[p].down && !merged[p].mt
    && p != DEFAULT_V4 && p != DEFAULT_V6 && p !in own
  }

  /** The Level-1 prefixes propagated into the Level-2 LSP, with their Level-1 metric. */
  function ExportSet(merged: map<Prefix, Route>, own: set<Prefix>, both: bool): map<Prefix, nat> {
    if !both then map[] else map p | p in merged && Exported(merged, own, p) :: merged[p].metric
  }

  predicate Leaked(merged: map<Prefix, Route>, l2: map<Prefix, Route>, own: set<Prefix>, policy: (Prefix, nat) -> bool, p: Prefix) {
    && p in l2 && !l2[p].mt
    && p != DEFAULT_V4 && p != DEFAULT_V6 && p !in own
    && !(p in merged && merged[p].level == L1 && merged[p].algo == 0)
    && policy(p, l2[p].metric)
  }

  /** The Level-2 prefixes leaked into the Level-1 LSP, where an operator has installed a policy. */
  function LeakSet(merged: map<Prefix, Route>, l2: map<Prefix, Route>, own: set<Prefix>,
                   policy: Option<(Prefix, nat) -> bool>, both: bool): map<Prefix, nat>
  {
    if policy.None? || !both then map[]
    else map p | p in l2 && Leaked(merged, l2, own, policy.value, p) :: l2[p].metric
  }

  /** The winner for `p` is the Level-1 algorithm-0 route exactly when that route was not leaked down or nothing else competes. */
  lemma PlainLevelOneWins(computed: Computed, merged: map<Prefix, Route>, p: Prefix)
    requires Marked(computed) && IsMerged(computed, computed.Keys, merged) && (L1, 0) in computed
    ensures p in computed[(L1, 0)] && !computed[(L1, 0)][p].down ==> p in merged && merged[p] == computed[(L1, 0)][p]
    ensures p in merged && merged[p].level == L1 && merged[p].algo == 0 ==>
              p in computed[(L1, 0)] && merged[p] == computed[(L1, 0)][p]
  {
    var t := computed[(L1, 0)];
    if p in t && !t[p].down {
      assert t[p] in Candidates(computed, computed.Keys, p);
      assert merged[p] in Candidates(computed, computed.Keys, p);
    }
    if p in merged && merged[p].level == L1 && merged[p].algo == 0 {
      var k :| k in computed && p in computed[k] && computed[k][p] == merged[p];
      assert k == (L1, 0);
    }
  }

  /** A copy leaked down never wins against the Level-2 route it came from. */
  lemma LeakedCopyLoses(computed: Computed, merged: map<Prefix, Route>, p: Prefix)
    requires Marked(computed) && IsMerged(computed, computed.Keys, merged) && (L2, 0) in computed && p in computed[(L2, 0)]
    ensures p in merged && PreferenceClass(merged[p]) <= 2
  {
    assert computed[(L2, 0)][p] in Candidates(computed, computed.Keys, p);
  }

  /** Exporting reads the Level-1 algorithm-0 table alone. */
  lemma ExportReadsLevelOne(computed: Computed, merged: map<Prefix, Route>, own: set<Prefix>, p: Prefix)
    requires Marked(computed) && IsMerged(computed, computed.Keys, merged) && (L1, 0) in computed
    ensures Exported(merged, own, p) <==> Exported(computed[(L1, 0)], own, p)
    ensures Exported(merged, own, p) ==> merged[p] == computed[(L1, 0)][p]
  {
    PlainLevelOneWins(computed, merged, p);
  }

  /** Leaking reads the two algorithm-0 tables alone: what Level 2 reaches and the area itself does not. */
  lemma LeakReadsPlainTables(computed: Computed, merged: map<Prefix, Route>, own: set<Prefix>,
                             policy: (Prefix, nat) -> bool, p: Prefix)
    requires Marked(computed) && IsMerged(computed, computed.Keys, merged) && (L1, 0) in computed && (L2, 0) in computed
    ensures var t, l2 := computed[(L1, 0)], computed[(L2, 0)];
            Leaked(merged, l2, own, policy, p) <==>
              && p in l2 && !l2[p].mt && p != DEFAULT_V4 && p != DEFAULT_V6 && p !in own
              && !(p in t && !t[p].down)
              && policy(p, l2[p].metric)
  {
    PlainLevelOneWins(computed, merged, p);
    if p in computed[(L2, 0)] {
      LeakedCopyLoses(computed, merged, p);
    }
  }
}
