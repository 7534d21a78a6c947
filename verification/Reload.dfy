/** Adopting a changed configuration: the difference between two files, and the calls that apply it to a running node. */
module Reload {
  import opened Types
  import Topology

  const FIRST_FLEX_ALGO: Octet := 128

  /** A Flexible Algorithm's definition, but for its number. */
  datatype Definition = Definition(metricType: Octet, priority: Octet, advertise: bool)

  /** What a file configures, and what a node runs. */
  datatype State = State(
    algos: map<Octet, Definition>,
    locators: map<Prefix, Octet>,          // the algorithm a locator is advertised for
    prefixes: map<Prefix, nat>)            // the metric a prefix is advertised at

  /** How a mutator answers: it acted, the node was already there, or it refused. */
  datatype Answer = Done | Already | Refused

  datatype Call =
    | DeleteLocator(prefix: Prefix)
    | DeleteAlgo(algo: Octet)
    | AddAlgo(number: Octet, definition: Definition)
    | AddLocator(locator: Prefix, boundTo: Octet)
    | DeletePrefix(withdrawn: Prefix)
    | AddPrefix(advertised: Prefix, metric: nat)

  /** The node's surroundings: subnets its circuits have connected, and the prefixes that may be originated. */
  datatype Site = Site(connected: set<Prefix>, routable: set<Prefix>)

  predicate IsLocator(p: Prefix) {
    p.v6 && p.address / 0x1_0000_0000 != 0xffff
  }

  predicate IsBound(s: State, algo: Octet) {
    exists p :: p in s.locators && s.locators[p] == algo
  }

  function AnswerTo(s: State, c: Call, site: Site): Answer {
    match c
    case DeleteLocator(p) => if p in s.locators then Done else Already
    case DeleteAlgo(a) => if a !in s.algos then Already else if IsBound(s, a) then Refused else Done
    case AddAlgo(a, d) =>
      if a < FIRST_FLEX_ALGO then Refused
      else if a !in s.algos then Done else if s.algos[a] == d then Already else Refused
    case AddLocator(p, a) =>
      if !IsLocator(p) || (a != 0 && a !in s.algos) then Refused
      else if p !in s.locators then Done else if s.locators[p] == a then Already else Refused
    case DeletePrefix(p) => if p in s.prefixes then Done else if p in site.connected then Refused else Already
    case AddPrefix(p, m) =>
      if p !in site.routable || m >= Topology.MAX_PATH_METRIC then Refused
      else if p !in s.prefixes then Done else if s.prefixes[p] == m then Already else Refused
  }

  /** The state a call leaves: changed only by one that acts. */
  function After(s: State, c: Call, site: Site): State {
    if AnswerTo(s, c, site) != Done then s
    else
      match c
      case DeleteLocator(p) => s.(locators := s.locators - {p})
      case DeleteAlgo(a) => s.(algos := s.algos - {a})
      case AddAlgo(a, d) => s.(algos := s.algos[a := d])
      case AddLocator(p, a) => s.(locators := s.locators[p := a])
      case DeletePrefix(p) => s.(prefixes := s.prefixes - {p})
      case AddPrefix(p, m) => s.(prefixes := s.prefixes[p := m])
  }

  /** What a call asks for holds. */
  ghost predicate Meets(s: State, c: Call) {
    match c
    case DeleteLocator(p) => p !in s.locators
    case DeleteAlgo(a) => a !in s.algos
    case AddAlgo(a, d) => a in s.algos && s.algos[a] == d
    case AddLocator(p, a) => p in s.locators && s.locators[p] == a
    case DeletePrefix(p) => p !in s.prefixes
    case AddPrefix(p, m) => p in s.prefixes && s.prefixes[p] == m
  }

  /**
   * What a call is refused for: an algorithm still bound, a number below 128, a locator that is not IPv6 proper or whose
   * algorithm is not there, a prefix that is connected or cannot be routed, a metric at the ceiling, or an entry there
   * already that says something else.
   */
  ghost predicate Forbidden(s: State, c: Call, site: Site) {
    match c
    case DeleteLocator(_) => false
    case DeleteAlgo(a) => a in s.algos && exists p :: p in s.locators && s.locators[p] == a
    case AddAlgo(a, d) => a < 128 || (a in s.algos && s.algos[a] != d)
    case AddLocator(p, a) =>
      || !p.v6 || 0xffff_0000_0000 <= p.address <= 0xffff_ffff_ffff || (a != 0 && a !in s.algos)
      || (p in s.locators && s.locators[p] != a)
    case DeletePrefix(p) => p !in s.prefixes && p in site.connected
    case AddPrefix(p, m) => p !in site.routable || m >= 0xfe00_0000 || (p in s.prefixes && s.prefixes[p] != m)
  }

  /** A call is refused if it is forbidden, else answered as done before if it is met, and else acts so that it is. */
  lemma CallMeans(s: State, c: Call, site: Site)
    ensures AnswerTo(s, c, site) == if Forbidden(s, c, site) then Refused else if Meets(s, c) then Already else Done
    ensures var t := After(s, c, site);
            if AnswerTo(s, c, site) == Done then Meets(t, c) else t == s
    ensures var t := After(s, c, site);
            match c
            case DeleteLocator(p) => t == s.(locators := t.locators) && SameBut(s.locators, t.locators, p)
            case AddLocator(p, _) => t == s.(locators := t.locators) && SameBut(s.locators, t.locators, p)
            case DeleteAlgo(a) => t == s.(algos := t.algos) && SameBut(s.algos, t.algos, a)
            case AddAlgo(a, _) => t == s.(algos := t.algos) && SameBut(s.algos, t.algos, a)
            case DeletePrefix(p) => t == s.(prefixes := t.prefixes) && SameBut(s.prefixes, t.prefixes, p)
            case AddPrefix(p, _) => t == s.(prefixes := t.prefixes) && SameBut(s.prefixes, t.prefixes, p)
  {
    if c.AddLocator? && c.locator.v6 {
      var a := c.locator.address;
      assert a / 0x1_0000_0000 == 0xffff <==> 0xffff_0000_0000 <= a <= 0xffff_ffff_ffff;
    }
  }

  ghost predicate SameBut<K(!new), V>(a: map<K, V>, b: map<K, V>, k: K) {
    forall j :: j != k ==> (j in a <==> j in b) && (j in a && j in b ==> a[j] == b[j])
  }

  function Applied(s: State, calls: seq<Call>, site: Site): State {
    if calls == [] then s else After(Applied(s, calls[..|calls| - 1], site), calls[|calls| - 1], site)
  }

  /** The calls that are reported: refused, and not because the node was already there. */
  predicate IsReported(s: State, calls: seq<Call>, site: Site, i: nat)
    requires i < |calls|
  {
    AnswerTo(Applied(s, calls[..i], site), calls[i], site) == Refused
  }

  ghost predicate Clean(s: State, calls: seq<Call>, site: Site) {
    forall i :: 0 <= i < |calls| ==> !IsReported(s, calls, site, i)
  }

  /** Every call acts: no mutator refuses it on any ground. */
  ghost predicate AllAct(s: State, calls: seq<Call>, site: Site) {
    forall i :: 0 <= i < |calls| ==> Acts(s, calls, site, i)
  }

  predicate Acts(s: State, calls: seq<Call>, site: Site, i: nat)
    requires i < |calls|
  {
    AnswerTo(Applied(s, calls[..i], site), calls[i], site) == Done
  }

  lemma {:induction false} AppliedConcat(s: State, a: seq<Call>, b: seq<Call>, site: Site)
    ensures Applied(s, a + b, site) == Applied(Applied(s, a, site), b, site)
  {
    if b == [] {
      assert a + b == a;
    } else {
      assert (a + b)[..|a + b| - 1] == a + b[..|b| - 1];
      AppliedConcat(s, a, b[..|b| - 1], site);
    }
  }

  lemma CleanConcat(s: State, a: seq<Call>, b: seq<Call>, site: Site)
    ensures Clean(s, a + b, site) <==> Clean(s, a, site) && Clean(Applied(s, a, site), b, site)
  {
    forall i | 0 <= i < |a|
      ensures IsReported(s, a + b, site, i) == IsReported(s, a, site, i)
    {
      assert (a + b)[..i] == a[..i];
    }
    forall i | 0 <= i < |b|
      ensures IsReported(s, a + b, site, |a| + i) == IsReported(Applied(s, a, site), b, site, i)
    {
      assert (a + b)[..|a| + i] == a + b[..i] && (a + b)[|a| + i] == b[i];
      AppliedConcat(s, a, b[..i], site);
    }
    if Clean(s, a + b, site) {
      forall i | 0 <= i < |b| ensures !IsReported(Applied(s, a, site), b, site, i) {
        assert !IsReported(s, a + b, site, |a| + i);
      }
    }
    if Clean(s, a, site) && Clean(Applied(s, a, site), b, site) {
      forall i | 0 <= i < |a + b| ensures !IsReported(s, a + b, site, i) {
        if i >= |a| { assert !IsReported(Applied(s, a, site), b, site, i - |a|); }
      }
    }
  }

  lemma ActsConcat(s: State, a: seq<Call>, b: seq<Call>, site: Site)
    requires AllAct(s, a, site) && AllAct(Applied(s, a, site), b, site)
    ensures AllAct(s, a + b, site)
  {
    forall i | 0 <= i < |a + b|
      ensures Acts(s, a + b, site, i)
    {
      if i < |a| {
        assert (a + b)[..i] == a[..i];
        assert Acts(s, a, site, i);
      } else {
        assert (a + b)[..i] == a + b[..i - |a|] && (a + b)[i] == b[i - |a|];
        AppliedConcat(s, a, b[..i - |a|], site);
        assert Acts(Applied(s, a, site), b, site, i - |a|);
      }
    }
  }

  // ---------- The difference ----------

  /** A batch, one list per kind of call, in the order the kinds are issued. */
  datatype Changes = Changes(
    deleteLocators: seq<Prefix>,
    deleteAlgos: seq<Octet>,
    addAlgos: seq<Octet>,
    addLocators: seq<Prefix>,
    deletePrefixes: seq<Prefix>,
    addPrefixes: seq<Prefix>)

  /** An algorithm the new file drops or defines otherwise. */
  predicate DropsAlgo(prior: State, next: State, a: Octet) {
    a in prior.algos && (a !in next.algos || next.algos[a] != prior.algos[a])
  }

  predicate BringsAlgo(prior: State, next: State, a: Octet) {
    a in next.algos && (a !in prior.algos || next.algos[a] != prior.algos[a])
  }

  /** A locator that leaves: dropped, bound elsewhere, or bound to an algorithm that leaves. */
  predicate DropsLocator(prior: State, next: State, p: Prefix) {
    p in prior.locators &&
    (p !in next.locators || next.locators[p] != prior.locators[p] || DropsAlgo(prior, next, prior.locators[p]))
  }

  predicate BringsLocator(prior: State, next: State, p: Prefix) {
    p in next.locators &&
    (p !in prior.locators || next.locators[p] != prior.locators[p] || BringsAlgo(prior, next, next.locators[p]))
  }

  predicate DropsPrefix(prior: State, next: State, p: Prefix) {
    p in prior.prefixes && (p !in next.prefixes || next.prefixes[p] != prior.prefixes[p])
  }

  predicate BringsPrefix(prior: State, next: State, p: Prefix) {
    p in next.prefixes && (p !in prior.prefixes || next.prefixes[p] != prior.prefixes[p])
  }

  /** The batch lists exactly what the files differ in, each key once, in any order. */
  ghost predicate IsDiff(prior: State, next: State, ch: Changes) {
    && (forall p :: p in ch.deleteLocators <==> DropsLocator(prior, next, p))
    && (forall a :: a in ch.deleteAlgos <==> DropsAlgo(prior, next, a))
    && (forall a :: a in ch.addAlgos <==> BringsAlgo(prior, next, a))
    && (forall p :: p in ch.addLocators <==> BringsLocator(prior, next, p))
    && (forall p :: p in ch.deletePrefixes <==> DropsPrefix(prior, next, p))
    && (forall p :: p in ch.addPrefixes <==> BringsPrefix(prior, next, p))
  }

  function Locates(ps: seq<Prefix>): seq<Call> { seq(|ps|, i requires 0 <= i < |ps| => DeleteLocator(ps[i])) }

  function Ends(algos: seq<Octet>): seq<Call> { seq(|algos|, i requires 0 <= i < |algos| => DeleteAlgo(algos[i])) }

  function Begins(next: State, algos: seq<Octet>): seq<Call>
    requires forall i :: 0 <= i < |algos| ==> algos[i] in next.algos
  {
    seq(|algos|, i requires 0 <= i < |algos| => AddAlgo(algos[i], next.algos[algos[i]]))
  }

  function Binds(next: State, ps: seq<Prefix>): seq<Call>
    requires forall i :: 0 <= i < |ps| ==> ps[i] in next.locators
  {
    seq(|ps|, i requires 0 <= i < |ps| => AddLocator(ps[i], next.locators[ps[i]]))
  }

  function Withdraws(ps: seq<Prefix>): seq<Call> { seq(|ps|, i requires 0 <= i < |ps| => DeletePrefix(ps[i])) }

  function Advertises(next: State, ps: seq<Prefix>): seq<Call>
    requires forall i :: 0 <= i < |ps| ==> ps[i] in next.prefixes
  {
    seq(|ps|, i requires 0 <= i < |ps| => AddPrefix(ps[i], next.prefixes[ps[i]]))
  }

  // ---------- Phase by phase ----------

  /** A batch is clean when it is up to its last call and that is not refused. */
  lemma CleanSnoc(s: State, calls: seq<Call>, site: Site)
    requires calls != []
    ensures Clean(s, calls, site) <==> Clean(s, calls[..|calls| - 1], site) && !IsReported(s, calls, site, |calls| - 1)
  {
    var before := calls[..|calls| - 1];
    forall i | 0 <= i < |before|
      ensures IsReported(s, before, site, i) == IsReported(s, calls, site, i)
    {
      assert before[..i] == calls[..i];
    }
  }

  predicate Distinct<K(==)>(keys: seq<K>) {
    forall i, j :: 0 <= i < j < |keys| ==> keys[i] != keys[j]
  }

  /** Each key of the list is there to be removed, or is missing and can be added, once. */
  predicate Removes<K(==), V>(m: map<K, V>, keys: seq<K>) {
    Distinct(keys) && forall i :: 0 <= i < |keys| ==> keys[i] in m
  }

  predicate Introduces<K(==), V>(m: map<K, V>, keys: seq<K>) {
    Distinct(keys) && forall i :: 0 <= i < |keys| ==> keys[i] !in m
  }

  /** A map without the keys of a list. */
  function Without<K, V>(m: map<K, V>, keys: seq<K>): map<K, V> {
    map k | k in m && k !in keys :: m[k]
  }

  /** A map completed from another at the keys of a list. */
  function Completed<K, V>(m: map<K, V>, from: map<K, V>, keys: seq<K>): map<K, V>
    requires forall i :: 0 <= i < |keys| ==> keys[i] in from
  {
    map k | k in m.Keys + (set k | k in keys) :: if k in m then m[k] else from[k]
  }

  lemma WithoutSnoc<K, V>(m: map<K, V>, keys: seq<K>, k: K)
    ensures Without(m, keys + [k]) == Without(m, keys) - {k} && Without(m, []) == m
  {
    assert forall x :: x in keys + [k] <==> x in keys || x == k;
  }

  lemma CompletedSnoc<K, V>(m: map<K, V>, from: map<K, V>, keys: seq<K>, k: K)
    requires k in from && forall i :: 0 <= i < |keys| ==> keys[i] in from
    ensures forall i :: 0 <= i < |keys + [k]| ==> (keys + [k])[i] in from
    ensures var c := Completed(m, from, keys); Completed(m, from, keys + [k]) == if k in c then c else c[k := from[k]]
    ensures Completed(m, from, []) == m
  {
    assert forall x :: x in keys + [k] <==> x in keys || x == k;
  }

  lemma {:induction false} LocatorsLeave(s: State, ps: seq<Prefix>, site: Site)
    ensures Clean(s, Locates(ps), site) && Applied(s, Locates(ps), site) == s.(locators := Without(s.locators, ps))
  {
    if ps == [] {
      WithoutSnoc(s.locators, [], Prefix(false, 0, 0));
    } else {
      var before, last := ps[..|ps| - 1], ps[|ps| - 1];
      LocatorsLeave(s, before, site);
      assert Locates(ps)[..|ps| - 1] == Locates(before) && ps == before + [last];
      CleanSnoc(s, Locates(ps), site);
      WithoutSnoc(s.locators, before, last);
      hide Without;
      var m := Without(s.locators, before);
      assert last !in m ==> m - {last} == m;
    }
  }

  /** Algorithms leave, when no locator is bound to any of them. */
  lemma {:induction false} AlgosLeave(s: State, algos: seq<Octet>, site: Site)
    requires forall a :: a in algos && a in s.algos ==> !IsBound(s, a)
    ensures Clean(s, Ends(algos), site) && Applied(s, Ends(algos), site) == s.(algos := Without(s.algos, algos))
  {
    if algos == [] {
      WithoutSnoc(s.algos, [], 0);
    } else {
      var before, last := algos[..|algos| - 1], algos[|algos| - 1];
      AlgosLeave(s, before, site);
      assert Ends(algos)[..|algos| - 1] == Ends(before) && algos == before + [last];
      CleanSnoc(s, Ends(algos), site);
      WithoutSnoc(s.algos, before, last);
      var m := Without(s.algos, before);
      BoundReadsLocators(s, s.(algos := m), last);
      hide IsBound;
      assert last !in m ==> m - {last} == m;
    }
  }

  lemma BoundReadsLocators(s: State, t: State, a: Octet)
    requires s.locators == t.locators
    ensures IsBound(s, a) == IsBound(t, a)
  {
  }

  /** Whatever is bound, only algorithms of the list leave; and one that is bound is reported. */
  lemma {:induction false} BoundAlgosStay(s: State, algos: seq<Octet>, site: Site)
    ensures var t := Applied(s, Ends(algos), site);
      && t == s.(algos := t.algos) && (forall a :: a in t.algos ==> a in s.algos && t.algos[a] == s.algos[a])
      && (forall a :: a in s.algos && (a !in algos || IsBound(s, a)) ==> a in t.algos)
    ensures (exists a :: a in algos && a in s.algos && IsBound(s, a)) ==> !Clean(s, Ends(algos), site)
  {
    if algos != [] {
      var before, last := algos[..|algos| - 1], algos[|algos| - 1];
      BoundAlgosStay(s, before, site);
      assert Ends(algos)[..|algos| - 1] == Ends(before) && algos == before + [last];
      CleanSnoc(s, Ends(algos), site);
      BoundReadsLocators(s, Applied(s, Ends(before), site), last);
      hide IsBound;
    }
  }

  /** An algorithm the node can take on, or already has as the file says. */
  predicate CanBegin(s: State, next: State, a: Octet) {
    a in next.algos && a >= FIRST_FLEX_ALGO && (a in s.algos ==> s.algos[a] == next.algos[a])
  }

  predicate CanBind(s: State, next: State, p: Prefix) {
    && p in next.locators && IsLocator(p) && (next.locators[p] != 0 ==> next.locators[p] in s.algos)
    && (p in s.locators ==> s.locators[p] == next.locators[p])
  }

  predicate CanAdvertise(s: State, next: State, p: Prefix, site: Site) {
    && p in next.prefixes && p in site.routable && next.prefixes[p] < Topology.MAX_PATH_METRIC
    && (p in s.prefixes ==> s.prefixes[p] == next.prefixes[p])
  }

  lemma NoneCompleted<K, V>(m: map<K, V>, from: map<K, V>)
    ensures Completed(m, from, []) == m
  {
  }

  /** Completing agrees with the map it starts from and the one it draws on. */
  lemma CompletedAt<K, V>(m: map<K, V>, from: map<K, V>, keys: seq<K>, k: K)
    requires k in from && forall i :: 0 <= i < |keys| ==> keys[i] in from
    ensures k in Completed(m, from, keys) ==> Completed(m, from, keys)[k] == if k in m then m[k] else from[k]
  {
  }

  lemma {:induction false} AlgosCome(s: State, next: State, keys: seq<Octet>, site: Site)
    requires forall i :: 0 <= i < |keys| ==> keys[i] in next.algos && CanBegin(s, next, keys[i])
    ensures Applied(s, Begins(next, keys), site) == s.(algos := Completed(s.algos, next.algos, keys))
  {
    hide Completed; hide IsLocator;
    if keys == [] {
      NoneCompleted(s.algos, next.algos);
    } else {
      var before, last := keys[..|keys| - 1], keys[|keys| - 1];
      AlgosCome(s, next, before, site);
      assert Begins(next, keys)[..|keys| - 1] == Begins(next, before) && keys == before + [last];
      CompletedSnoc(s.algos, next.algos, before, last);
    }
  }

  lemma AlgosComeCleanly(s: State, next: State, keys: seq<Octet>, site: Site)
    requires forall i :: 0 <= i < |keys| ==> keys[i] in next.algos && CanBegin(s, next, keys[i])
    ensures Clean(s, Begins(next, keys), site)
  {
    forall i | 0 <= i < |keys|
      ensures !IsReported(s, Begins(next, keys), site, i)
    {
      AlgosCome(s, next, keys[..i], site);
      assert Begins(next, keys)[..i] == Begins(next, keys[..i]);
      CompletedAt(s.algos, next.algos, keys[..i], keys[i]);
      hide Completed;
    }
  }

  lemma {:induction false} LocatorsCome(s: State, next: State, keys: seq<Prefix>, site: Site)
    requires forall i :: 0 <= i < |keys| ==> keys[i] in next.locators && CanBind(s, next, keys[i])
    ensures Applied(s, Binds(next, keys), site) == s.(locators := Completed(s.locators, next.locators, keys))
  {
    hide Completed; hide IsLocator;
    if keys == [] {
      NoneCompleted(s.locators, next.locators);
    } else {
      var before, last := keys[..|keys| - 1], keys[|keys| - 1];
      LocatorsCome(s, next, before, site);
      assert Binds(next, keys)[..|keys| - 1] == Binds(next, before) && keys == before + [last];
      CompletedSnoc(s.locators, next.locators, before, last);
    }
  }

  lemma LocatorsComeCleanly(s: State, next: State, keys: seq<Prefix>, site: Site)
    requires forall i :: 0 <= i < |keys| ==> keys[i] in next.locators && CanBind(s, next, keys[i])
    ensures Clean(s, Binds(next, keys), site)
  {
    forall i | 0 <= i < |keys|
      ensures !IsReported(s, Binds(next, keys), site, i)
    {
      LocatorsCome(s, next, keys[..i], site);
      assert Binds(next, keys)[..i] == Binds(next, keys[..i]);
      CompletedAt(s.locators, next.locators, keys[..i], keys[i]);
      hide Completed;
    }
  }

  lemma {:induction false} PrefixesLeave(s: State, ps: seq<Prefix>, site: Site)
    ensures Applied(s, Withdraws(ps), site) == s.(prefixes := Without(s.prefixes, ps))
  {
    if ps == [] {
      WithoutSnoc(s.prefixes, [], Prefix(false, 0, 0));
    } else {
      var before, last := ps[..|ps| - 1], ps[|ps| - 1];
      PrefixesLeave(s, before, site);
      assert Withdraws(ps)[..|ps| - 1] == Withdraws(before) && ps == before + [last];
      WithoutSnoc(s.prefixes, before, last);
      hide Without;
      var m := Without(s.prefixes, before);
      assert last !in m ==> m - {last} == m;
    }
  }

  /** A withdrawal is reported exactly when the prefix is not there and a circuit has it connected. */
  lemma PrefixReported(s: State, ps: seq<Prefix>, site: Site, i: nat)
    requires Distinct(ps) && i < |ps|
    ensures IsReported(s, Withdraws(ps), site, i) <==> ps[i] !in s.prefixes && ps[i] in site.connected
  {
    PrefixesLeave(s, ps[..i], site);
    assert Withdraws(ps)[..i] == Withdraws(ps[..i]);
    assert ps[i] in Without(s.prefixes, ps[..i]) <==> ps[i] in s.prefixes;
  }

  lemma {:induction false} PrefixesCome(s: State, next: State, keys: seq<Prefix>, site: Site)
    requires forall i :: 0 <= i < |keys| ==> keys[i] in next.prefixes && CanAdvertise(s, next, keys[i], site)
    ensures Applied(s, Advertises(next, keys), site) == s.(prefixes := Completed(s.prefixes, next.prefixes, keys))
  {
    hide Completed; hide IsLocator;
    if keys == [] {
      NoneCompleted(s.prefixes, next.prefixes);
    } else {
      var before, last := keys[..|keys| - 1], keys[|keys| - 1];
      PrefixesCome(s, next, before, site);
      assert Advertises(next, keys)[..|keys| - 1] == Advertises(next, before) && keys == before + [last];
      CompletedSnoc(s.prefixes, next.prefixes, before, last);
    }
  }

  lemma PrefixesComeCleanly(s: State, next: State, keys: seq<Prefix>, site: Site)
    requires forall i :: 0 <= i < |keys| ==> keys[i] in next.prefixes && CanAdvertise(s, next, keys[i], site)
    ensures Clean(s, Advertises(next, keys), site)
  {
    forall i | 0 <= i < |keys|
      ensures !IsReported(s, Advertises(next, keys), site, i)
    {
      PrefixesCome(s, next, keys[..i], site);
      assert Advertises(next, keys)[..i] == Advertises(next, keys[..i]);
      CompletedAt(s.prefixes, next.prefixes, keys[..i], keys[i]);
      hide Completed;
    }
  }

  // ---------- Every call acts ----------

  lemma WithoutAt<K, V>(m: map<K, V>, keys: seq<K>, i: nat)
    requires Removes(m, keys) && i < |keys|
    ensures keys[i] in Without(m, keys[..i])
  {
  }

  lemma CompletedMisses<K, V>(m: map<K, V>, from: map<K, V>, keys: seq<K>, i: nat)
    requires Introduces(m, keys) && i < |keys| && forall j :: 0 <= j < |keys| ==> keys[j] in from
    ensures keys[i] !in Completed(m, from, keys[..i])
  {
  }

  lemma LocatorsActLeaving(s: State, keys: seq<Prefix>, site: Site)
    requires Removes(s.locators, keys)
    ensures AllAct(s, Locates(keys), site)
  {
    forall i | 0 <= i < |keys|
      ensures Acts(s, Locates(keys), site, i)
    {
      LocatorsLeave(s, keys[..i], site);
      assert Locates(keys)[..i] == Locates(keys[..i]);
      WithoutAt(s.locators, keys, i);
      hide Without; hide Completed;
    }
  }

  lemma AlgosActLeaving(s: State, keys: seq<Octet>, site: Site)
    requires Removes(s.algos, keys)
    requires forall i :: 0 <= i < |keys| ==> !IsBound(s, keys[i])
    ensures AllAct(s, Ends(keys), site)
  {
    forall i | 0 <= i < |keys|
      ensures Acts(s, Ends(keys), site, i)
    {
      AlgosLeave(s, keys[..i], site);
      BoundReadsLocators(s, Applied(s, Ends(keys[..i]), site), keys[i]);
      assert Ends(keys)[..i] == Ends(keys[..i]);
      WithoutAt(s.algos, keys, i);
      hide Without; hide Completed;
    }
  }

  lemma PrefixesActLeaving(s: State, keys: seq<Prefix>, site: Site)
    requires Removes(s.prefixes, keys)
    ensures AllAct(s, Withdraws(keys), site)
  {
    forall i | 0 <= i < |keys|
      ensures Acts(s, Withdraws(keys), site, i)
    {
      PrefixesLeave(s, keys[..i], site);
      assert Withdraws(keys)[..i] == Withdraws(keys[..i]);
      WithoutAt(s.prefixes, keys, i);
      hide Without; hide Completed;
    }
  }

  lemma AlgosActComing(s: State, next: State, keys: seq<Octet>, site: Site)
    requires Introduces(s.algos, keys)
    requires forall i :: 0 <= i < |keys| ==> keys[i] in next.algos && CanBegin(s, next, keys[i])
    ensures AllAct(s, Begins(next, keys), site)
  {
    forall i | 0 <= i < |keys|
      ensures Acts(s, Begins(next, keys), site, i)
    {
      AlgosCome(s, next, keys[..i], site);
      assert Begins(next, keys)[..i] == Begins(next, keys[..i]);
      CompletedMisses(s.algos, next.algos, keys, i);
      hide Without; hide Completed;
    }
  }

  lemma LocatorsActComing(s: State, next: State, keys: seq<Prefix>, site: Site)
    requires Introduces(s.locators, keys)
    requires forall i :: 0 <= i < |keys| ==> keys[i] in next.locators && CanBind(s, next, keys[i])
    ensures AllAct(s, Binds(next, keys), site)
  {
    forall i | 0 <= i < |keys|
      ensures Acts(s, Binds(next, keys), site, i)
    {
      LocatorsCome(s, next, keys[..i], site);
      assert Binds(next, keys)[..i] == Binds(next, keys[..i]);
      CompletedMisses(s.locators, next.locators, keys, i);
      hide Without; hide Completed;
    }
  }

  lemma PrefixesActComing(s: State, next: State, keys: seq<Prefix>, site: Site)
    requires Introduces(s.prefixes, keys)
    requires forall i :: 0 <= i < |keys| ==> keys[i] in next.prefixes && CanAdvertise(s, next, keys[i], site)
    ensures AllAct(s, Advertises(next, keys), site)
  {
    forall i | 0 <= i < |keys|
      ensures Acts(s, Advertises(next, keys), site, i)
    {
      PrefixesCome(s, next, keys[..i], site);
      assert Advertises(next, keys)[..i] == Advertises(next, keys[..i]);
      CompletedMisses(s.prefixes, next.prefixes, keys, i);
      hide Without; hide Completed;
    }
  }

  // ---------- The whole batch ----------

  /** A file a restart would accept. */
  ghost predicate IsValid(c: State, site: Site) {
    && (forall a :: a in c.algos ==> a >= FIRST_FLEX_ALGO)
    && (forall p :: p in c.locators ==> IsLocator(p) && (c.locators[p] != 0 ==> c.locators[p] in c.algos))
    && (forall p :: p in c.prefixes ==> p in site.routable && c.prefixes[p] < Topology.MAX_PATH_METRIC)
  }

  ghost predicate IsBatch(prior: State, next: State, ch: Changes) {
    && IsDiff(prior, next, ch)
    && Distinct(ch.deleteLocators) && Distinct(ch.deleteAlgos) && Distinct(ch.addAlgos)
    && Distinct(ch.addLocators) && Distinct(ch.deletePrefixes) && Distinct(ch.addPrefixes)
  }

  predicate Named(next: State, ch: Changes) {
    && (forall i :: 0 <= i < |ch.addAlgos| ==> ch.addAlgos[i] in next.algos)
    && (forall i :: 0 <= i < |ch.addLocators| ==> ch.addLocators[i] in next.locators)
    && (forall i :: 0 <= i < |ch.addPrefixes| ==> ch.addPrefixes[i] in next.prefixes)
  }

  function Batch(next: State, ch: Changes): seq<Call>
    requires Named(next, ch)
  {
    (Locates(ch.deleteLocators) + Ends(ch.deleteAlgos) + Begins(next, ch.addAlgos)) +
    (Binds(next, ch.addLocators) + Withdraws(ch.deletePrefixes) + Advertises(next, ch.addPrefixes))
  }

  lemma DiffIsNamed(prior: State, next: State, ch: Changes)
    requires IsDiff(prior, next, ch)
    ensures Named(next, ch)
  {
    forall i | 0 <= i < |ch.addAlgos| ensures ch.addAlgos[i] in next.algos { assert ch.addAlgos[i] in ch.addAlgos; }
    forall i | 0 <= i < |ch.addLocators| ensures ch.addLocators[i] in next.locators { assert ch.addLocators[i] in ch.addLocators; }
    forall i | 0 <= i < |ch.addPrefixes| ensures ch.addPrefixes[i] in next.prefixes { assert ch.addPrefixes[i] in ch.addPrefixes; }
  }

  /** Phases one after another. */
  lemma ThreePhases(s: State, a: seq<Call>, b: seq<Call>, c: seq<Call>, site: Site)
    ensures var s1 := Applied(s, a, site); var s2 := Applied(s1, b, site);
      && Applied(s, a + b + c, site) == Applied(s2, c, site)
      && (Clean(s, a + b + c, site) <==> Clean(s, a, site) && Clean(s1, b, site) && Clean(s2, c, site))
      && (AllAct(s, a, site) && AllAct(s1, b, site) && AllAct(s2, c, site) ==> AllAct(s, a + b + c, site))
  {
    hide Applied; hide Clean; hide AllAct;
    Joined(s, a, b, site);
    var ab := a + b;
    Joined(s, ab, c, site);
  }

  lemma Joined(s: State, a: seq<Call>, b: seq<Call>, site: Site)
    ensures Applied(s, a + b, site) == Applied(Applied(s, a, site), b, site)
    ensures Clean(s, a + b, site) <==> Clean(s, a, site) && Clean(Applied(s, a, site), b, site)
    ensures AllAct(s, a, site) && AllAct(Applied(s, a, site), b, site) ==> AllAct(s, a + b, site)
  {
    AppliedConcat(s, a, b, site);
    CleanConcat(s, a, b, site);
    if AllAct(s, a, site) && AllAct(Applied(s, a, site), b, site) { ActsConcat(s, a, b, site); }
  }

  // ---------- Applied to the node the old file describes ----------

  /** At the old file, every algorithm that leaves is free once the locators have gone. */
  lemma FreedAlgos(prior: State, next: State, ch: Changes, i: nat)
    requires IsDiff(prior, next, ch) && i < |ch.deleteAlgos|
    ensures !IsBound(prior.(locators := Without(prior.locators, ch.deleteLocators)), ch.deleteAlgos[i])
  {
    var a := ch.deleteAlgos[i];
    assert a in ch.deleteAlgos && DropsAlgo(prior, next, a);
    forall p | p in prior.locators && prior.locators[p] == a
      ensures p in ch.deleteLocators
    {
      assert DropsLocator(prior, next, p);
    }
  }

  /** The first half of the batch, at the old file: locators and algorithms end as the new file has them. */
  lemma AlgosFromPrior(prior: State, next: State, ch: Changes, site: Site) returns (s3: State)
    requires IsValid(prior, site) && IsValid(next, site) && IsBatch(prior, next, ch) && Named(next, ch)
    ensures var s1 := Applied(prior, Locates(ch.deleteLocators), site); var s2 := Applied(s1, Ends(ch.deleteAlgos), site);
      && s3 == Applied(s2, Begins(next, ch.addAlgos), site)
      && s3 == State(next.algos, Without(prior.locators, ch.deleteLocators), prior.prefixes)
      && AllAct(prior, Locates(ch.deleteLocators), site) && AllAct(s1, Ends(ch.deleteAlgos), site)
      && AllAct(s2, Begins(next, ch.addAlgos), site)
  {
    forall i | 0 <= i < |ch.deleteLocators| ensures ch.deleteLocators[i] in prior.locators {
      assert ch.deleteLocators[i] in ch.deleteLocators;
    }
    forall i | 0 <= i < |ch.deleteAlgos| ensures ch.deleteAlgos[i] in prior.algos { assert ch.deleteAlgos[i] in ch.deleteAlgos; }
    LocatorsLeave(prior, ch.deleteLocators, site);
    LocatorsActLeaving(prior, ch.deleteLocators, site);
    var s1 := Applied(prior, Locates(ch.deleteLocators), site);
    forall i | 0 <= i < |ch.deleteAlgos| ensures !IsBound(s1, ch.deleteAlgos[i]) { FreedAlgos(prior, next, ch, i); }
    AlgosLeave(s1, ch.deleteAlgos, site);
    AlgosActLeaving(s1, ch.deleteAlgos, site);
    var s2 := Applied(s1, Ends(ch.deleteAlgos), site);
    forall i | 0 <= i < |ch.addAlgos| ensures ch.addAlgos[i] !in s2.algos && CanBegin(s2, next, ch.addAlgos[i]) {
      assert ch.addAlgos[i] in ch.addAlgos;
      AlgoHasLeft(prior, next, ch, ch.addAlgos[i]);
    }
    AlgosCome(s2, next, ch.addAlgos, site);
    AlgosActComing(s2, next, ch.addAlgos, site);
    s3 := Applied(s2, Begins(next, ch.addAlgos), site);
    AlgosAreNext(prior, next, ch);
  }

  lemma AlgoHasLeft(prior: State, next: State, ch: Changes, a: Octet)
    requires IsDiff(prior, next, ch) && BringsAlgo(prior, next, a)
    ensures a !in Without(prior.algos, ch.deleteAlgos)
  {
    if a in prior.algos { assert DropsAlgo(prior, next, a); }
  }

  lemma AlgosAreNext(prior: State, next: State, ch: Changes)
    requires IsDiff(prior, next, ch) && Named(next, ch)
    ensures Completed(Without(prior.algos, ch.deleteAlgos), next.algos, ch.addAlgos) == next.algos
  {
    var m := Completed(Without(prior.algos, ch.deleteAlgos), next.algos, ch.addAlgos);
    forall a
      ensures a in m <==> a in next.algos
      ensures a in m ==> m[a] == next.algos[a]
    {
      assert a in ch.addAlgos <==> BringsAlgo(prior, next, a);
      assert a in ch.deleteAlgos <==> DropsAlgo(prior, next, a);
    }
  }

  lemma LocatorHasLeft(prior: State, next: State, ch: Changes, p: Prefix, site: Site)
    requires IsDiff(prior, next, ch) && IsValid(prior, site) && IsValid(next, site) && BringsLocator(prior, next, p)
    ensures p !in Without(prior.locators, ch.deleteLocators)
  {
    if p in prior.locators { assert DropsLocator(prior, next, p); }
  }

  lemma LocatorsAreNext(prior: State, next: State, ch: Changes, site: Site)
    requires IsDiff(prior, next, ch) && IsValid(prior, site) && IsValid(next, site) && Named(next, ch)
    ensures Completed(Without(prior.locators, ch.deleteLocators), next.locators, ch.addLocators) == next.locators
    ensures Completed(Without(next.locators, ch.deleteLocators), next.locators, ch.addLocators) == next.locators
  {
    var m := Completed(Without(prior.locators, ch.deleteLocators), next.locators, ch.addLocators);
    var n := Completed(Without(next.locators, ch.deleteLocators), next.locators, ch.addLocators);
    forall p
      ensures p in m <==> p in next.locators
      ensures p in m ==> m[p] == next.locators[p]
      ensures p in n <==> p in next.locators
    {
      assert p in ch.addLocators <==> BringsLocator(prior, next, p);
      assert p in ch.deleteLocators <==> DropsLocator(prior, next, p);
    }
  }

  lemma PrefixesAreNext(prior: State, next: State, ch: Changes)
    requires IsDiff(prior, next, ch) && Named(next, ch)
    ensures Completed(Without(prior.prefixes, ch.deletePrefixes), next.prefixes, ch.addPrefixes) == next.prefixes
    ensures Completed(Without(next.prefixes, ch.deletePrefixes), next.prefixes, ch.addPrefixes) == next.prefixes
  {
    var m := Completed(Without(prior.prefixes, ch.deletePrefixes), next.prefixes, ch.addPrefixes);
    var n := Completed(Without(next.prefixes, ch.deletePrefixes), next.prefixes, ch.addPrefixes);
    forall p
      ensures p in m <==> p in next.prefixes
      ensures p in m ==> m[p] == next.prefixes[p]
      ensures p in n <==> p in next.prefixes
    {
      assert p in ch.addPrefixes <==> BringsPrefix(prior, next, p);
      assert p in ch.deletePrefixes <==> DropsPrefix(prior, next, p);
    }
  }

  /** The second half, from there: locators bound again, prefixes withdrawn and advertised. */
  lemma RestFromPrior(prior: State, next: State, ch: Changes, s3: State, site: Site)
    requires IsValid(prior, site) && IsValid(next, site) && IsBatch(prior, next, ch) && Named(next, ch)
    requires s3 == State(next.algos, Without(prior.locators, ch.deleteLocators), prior.prefixes)
    ensures var s4 := Applied(s3, Binds(next, ch.addLocators), site); var s5 := Applied(s4, Withdraws(ch.deletePrefixes), site);
      && Applied(s5, Advertises(next, ch.addPrefixes), site) == next
      && AllAct(s3, Binds(next, ch.addLocators), site) && AllAct(s4, Withdraws(ch.deletePrefixes), site)
      && AllAct(s5, Advertises(next, ch.addPrefixes), site)
  {
    forall i | 0 <= i < |ch.addLocators| ensures ch.addLocators[i] !in s3.locators && CanBind(s3, next, ch.addLocators[i]) {
      assert ch.addLocators[i] in ch.addLocators;
      LocatorHasLeft(prior, next, ch, ch.addLocators[i], site);
    }
    LocatorsCome(s3, next, ch.addLocators, site);
    LocatorsActComing(s3, next, ch.addLocators, site);
    LocatorsAreNext(prior, next, ch, site);
    var s4 := Applied(s3, Binds(next, ch.addLocators), site);
    forall i | 0 <= i < |ch.deletePrefixes| ensures ch.deletePrefixes[i] in prior.prefixes { assert ch.deletePrefixes[i] in ch.deletePrefixes; }
    PrefixesLeave(s4, ch.deletePrefixes, site);
    PrefixesActLeaving(s4, ch.deletePrefixes, site);
    var s5 := Applied(s4, Withdraws(ch.deletePrefixes), site);
    forall i | 0 <= i < |ch.addPrefixes| ensures ch.addPrefixes[i] !in s5.prefixes && CanAdvertise(s5, next, ch.addPrefixes[i], site) {
      PrefixHasLeft(prior, next, ch, i);
    }
    PrefixesCome(s5, next, ch.addPrefixes, site);
    PrefixesActComing(s5, next, ch.addPrefixes, site);
    PrefixesAreNext(prior, next, ch);
  }

  lemma PrefixHasLeft(prior: State, next: State, ch: Changes, i: nat)
    requires IsDiff(prior, next, ch) && i < |ch.addPrefixes|
    ensures ch.addPrefixes[i] in next.prefixes && ch.addPrefixes[i] !in Without(prior.prefixes, ch.deletePrefixes)
  {
    var p := ch.addPrefixes[i];
    assert p in ch.addPrefixes && BringsPrefix(prior, next, p);
    if p in prior.prefixes { assert DropsPrefix(prior, next, p); }
  }

  /** A node exactly at the old file ends exactly at the new one, and no mutator refuses a call. */
  lemma ReloadAdopts(prior: State, next: State, ch: Changes, site: Site)
    requires IsValid(prior, site) && IsValid(next, site) && IsBatch(prior, next, ch)
    ensures Named(next, ch) && Applied(prior, Batch(next, ch), site) == next && AllAct(prior, Batch(next, ch), site)
  {
    DiffIsNamed(prior, next, ch);
    var a, b, c := Locates(ch.deleteLocators), Ends(ch.deleteAlgos), Begins(next, ch.addAlgos);
    var d, e, f := Binds(next, ch.addLocators), Withdraws(ch.deletePrefixes), Advertises(next, ch.addPrefixes);
    var s3 := AlgosFromPrior(prior, next, ch, site);
    RestFromPrior(prior, next, ch, s3, site);
    hide Applied; hide AllAct; hide Clean;
    ThreePhases(prior, a, b, c, site);
    ThreePhases(s3, d, e, f, site);
    Joined(prior, a + b + c, d + e + f, site);
  }

  // ---------- Issued again at the node the new file describes ----------

  /** A locator the old file did not have, bound to an algorithm the new file defines otherwise. */
  predicate Traps(prior: State, next: State, p: Prefix) {
    p in next.locators && p !in prior.locators && DropsAlgo(prior, next, next.locators[p])
  }

  /** A prefix the new file drops while a circuit still has it connected. */
  predicate Lingers(prior: State, next: State, p: Prefix, site: Site) {
    p in prior.prefixes && p !in next.prefixes && p in site.connected
  }

  /** After the locators have gone, an algorithm to be re-added is still bound exactly by a locator that is new. */
  lemma BoundByNew(prior: State, next: State, ch: Changes, a: Octet, site: Site)
    requires IsDiff(prior, next, ch) && IsValid(next, site) && DropsAlgo(prior, next, a) && a in next.algos
    ensures IsBound(next.(locators := Without(next.locators, ch.deleteLocators)), a) <==>
      exists p :: Traps(prior, next, p) && next.locators[p] == a
  {
    var left := Without(next.locators, ch.deleteLocators);
    forall p | p in next.locators && next.locators[p] == a
      ensures p in left <==> p !in prior.locators
    {
      assert p in ch.deleteLocators <==> DropsLocator(prior, next, p);
    }
    if IsBound(next.(locators := left), a) {
      var p :| p in left && left[p] == a;
      assert Traps(prior, next, p);
    }
    if exists p :: Traps(prior, next, p) && next.locators[p] == a {
      var p :| Traps(prior, next, p) && next.locators[p] == a;
      assert p in left && left[p] == a;
    }
  }

  /** The first half at the new file: algorithms end as they are, and the deletions are clean exactly when nothing traps one. */
  lemma AlgosAtNext(prior: State, next: State, ch: Changes, site: Site) returns (s3: State)
    requires IsValid(prior, site) && IsValid(next, site) && IsBatch(prior, next, ch) && Named(next, ch)
    ensures var s1 := Applied(next, Locates(ch.deleteLocators), site); var s2 := Applied(s1, Ends(ch.deleteAlgos), site);
      && s3 == Applied(s2, Begins(next, ch.addAlgos), site)
      && s3 == next.(locators := Without(next.locators, ch.deleteLocators))
      && Clean(next, Locates(ch.deleteLocators), site) && Clean(s2, Begins(next, ch.addAlgos), site)
      && (Clean(s1, Ends(ch.deleteAlgos), site) <==> !exists p :: Traps(prior, next, p))
  {
    LocatorsLeave(next, ch.deleteLocators, site);
    var s1 := Applied(next, Locates(ch.deleteLocators), site);
    BoundAlgosStay(s1, ch.deleteAlgos, site);
    var s2 := Applied(s1, Ends(ch.deleteAlgos), site);
    EndsCleanIff(prior, next, ch, s1, site);
    hide Completed; hide Clean; hide IsBound; hide Traps;
    forall i | 0 <= i < |ch.addAlgos| ensures CanBegin(s2, next, ch.addAlgos[i]) {}
    AlgosCome(s2, next, ch.addAlgos, site);
    AlgosComeCleanly(s2, next, ch.addAlgos, site);
    s3 := Applied(s2, Begins(next, ch.addAlgos), site);
    AlgosAreStillNext(prior, next, ch, s2.algos);
  }

  lemma AlgosAreStillNext(prior: State, next: State, ch: Changes, m: map<Octet, Definition>)
    requires IsDiff(prior, next, ch) && Named(next, ch)
    requires forall a :: a in m ==> a in next.algos && m[a] == next.algos[a]
    requires forall a :: a in next.algos && a !in ch.deleteAlgos ==> a in m
    ensures Completed(m, next.algos, ch.addAlgos) == next.algos
  {
    forall a | a in next.algos
      ensures a in Completed(m, next.algos, ch.addAlgos)
    {
      assert a in ch.addAlgos <==> BringsAlgo(prior, next, a);
      assert a in ch.deleteAlgos <==> DropsAlgo(prior, next, a);
    }
  }

  lemma EndsCleanIff(prior: State, next: State, ch: Changes, s1: State, site: Site)
    requires IsValid(prior, site) && IsValid(next, site) && IsDiff(prior, next, ch)
    requires s1 == next.(locators := Without(next.locators, ch.deleteLocators))
    ensures Clean(s1, Ends(ch.deleteAlgos), site) <==> !exists p :: Traps(prior, next, p)
  {
    if p :| Traps(prior, next, p) {
      var a := next.locators[p];
      BoundByNew(prior, next, ch, a, site);
      BoundAlgosStay(s1, ch.deleteAlgos, site);
      assert a in ch.deleteAlgos && a in s1.algos && IsBound(s1, a);
    } else {
      forall a | a in ch.deleteAlgos && a in s1.algos
        ensures !IsBound(s1, a)
      {
        assert DropsAlgo(prior, next, a);
        BoundByNew(prior, next, ch, a, site);
      }
      AlgosLeave(s1, ch.deleteAlgos, site);
    }
  }

  lemma RestAtNext(prior: State, next: State, ch: Changes, s3: State, site: Site)
    requires IsValid(prior, site) && IsValid(next, site) && IsBatch(prior, next, ch) && Named(next, ch)
    requires s3 == next.(locators := Without(next.locators, ch.deleteLocators))
    ensures var s4 := Applied(s3, Binds(next, ch.addLocators), site); var s5 := Applied(s4, Withdraws(ch.deletePrefixes), site);
      && Applied(s5, Advertises(next, ch.addPrefixes), site) == next
      && Clean(s3, Binds(next, ch.addLocators), site) && Clean(s5, Advertises(next, ch.addPrefixes), site)
      && (Clean(s4, Withdraws(ch.deletePrefixes), site) <==> !exists p :: Lingers(prior, next, p, site))
  {
    forall i | 0 <= i < |ch.addLocators| ensures CanBind(s3, next, ch.addLocators[i]) {}
    LocatorsCome(s3, next, ch.addLocators, site);
    LocatorsComeCleanly(s3, next, ch.addLocators, site);
    LocatorsAreNext(prior, next, ch, site);
    var s4 := Applied(s3, Binds(next, ch.addLocators), site);
    PrefixesLeave(s4, ch.deletePrefixes, site);
    WithdrawsCleanIff(prior, next, ch, s4, site);
    var s5 := Applied(s4, Withdraws(ch.deletePrefixes), site);
    forall i | 0 <= i < |ch.addPrefixes| ensures CanAdvertise(s5, next, ch.addPrefixes[i], site) {}
    PrefixesCome(s5, next, ch.addPrefixes, site);
    PrefixesComeCleanly(s5, next, ch.addPrefixes, site);
    PrefixesAreNext(prior, next, ch);
  }

  lemma WithdrawsCleanIff(prior: State, next: State, ch: Changes, s: State, site: Site)
    requires IsBatch(prior, next, ch) && s.prefixes == next.prefixes
    ensures Clean(s, Withdraws(ch.deletePrefixes), site) <==> !exists p :: Lingers(prior, next, p, site)
  {
    forall i | 0 <= i < |ch.deletePrefixes|
      ensures IsReported(s, Withdraws(ch.deletePrefixes), site, i) <==> Lingers(prior, next, ch.deletePrefixes[i], site)
    {
      PrefixReported(s, ch.deletePrefixes, site, i);
      assert ch.deletePrefixes[i] in ch.deletePrefixes;
    }
    if p :| Lingers(prior, next, p, site) {
      assert DropsPrefix(prior, next, p);
      var i :| 0 <= i < |ch.deletePrefixes| && ch.deletePrefixes[i] == p;
      assert IsReported(s, Withdraws(ch.deletePrefixes), site, i);
    }
  }

  /**
   * Issued again at the new file, the batch ends at the new file. It reports nothing exactly when no algorithm defined
   * otherwise has a locator that is new, and no dropped prefix is still connected.
   */
  lemma ReissueSettles(prior: State, next: State, ch: Changes, site: Site)
    requires IsValid(prior, site) && IsValid(next, site) && IsBatch(prior, next, ch)
    ensures Named(next, ch) && Applied(next, Batch(next, ch), site) == next
    ensures Clean(next, Batch(next, ch), site) <==>
      !(exists p :: Traps(prior, next, p)) && !(exists p :: Lingers(prior, next, p, site))
  {
    DiffIsNamed(prior, next, ch);
    var a, b, c := Locates(ch.deleteLocators), Ends(ch.deleteAlgos), Begins(next, ch.addAlgos);
    var d, e, f := Binds(next, ch.addLocators), Withdraws(ch.deletePrefixes), Advertises(next, ch.addPrefixes);
    var s3 := AlgosAtNext(prior, next, ch, site);
    RestAtNext(prior, next, ch, s3, site);
    hide Applied; hide AllAct; hide Clean; hide Traps; hide Lingers;
    ThreePhases(next, a, b, c, site);
    ThreePhases(s3, d, e, f, site);
    Joined(next, a + b + c, d + e + f, site);
  }

  /** A definition changed and a locator bound to it in one edit: the second signal reports a refusal. */
  lemma SecondSignalCanReport() returns (prior: State, next: State, ch: Changes, site: Site)
    ensures IsValid(prior, site) && IsValid(next, site) && IsBatch(prior, next, ch) && Named(next, ch)
    ensures Clean(prior, Batch(next, ch), site) && !Clean(next, Batch(next, ch), site)
  {
    var p := Prefix(true, 1, 48);
    site := Site({}, {});
    prior := State(map[128 := Definition(0, 100, false)], map[], map[]);
    next := State(map[128 := Definition(0, 200, false)], map[p := 128], map[]);
    ch := Changes([], [128], [128], [p], [], []);
    assert Traps(prior, next, p);
    ReissueSettles(prior, next, ch, site);
    ReloadAdopts(prior, next, ch, site);
    ActingIsClean(prior, Batch(next, ch), site);
  }

  /** A prefix dropped while a circuit still has it connected: the second signal reports that too. */
  lemma SecondSignalReportsConnected() returns (prior: State, next: State, ch: Changes, site: Site)
    ensures IsValid(prior, site) && IsValid(next, site) && IsBatch(prior, next, ch) && Named(next, ch)
    ensures Clean(prior, Batch(next, ch), site) && !Clean(next, Batch(next, ch), site)
  {
    var p := Prefix(false, 0x0a00_0000, 8);
    site := Site({p}, {p});
    prior := State(map[], map[], map[p := 10]);
    next := State(map[], map[], map[]);
    ch := Changes([], [], [], [], [p], []);
    assert Lingers(prior, next, p, site);
    ReissueSettles(prior, next, ch, site);
    ReloadAdopts(prior, next, ch, site);
    ActingIsClean(prior, Batch(next, ch), site);
  }

  lemma ActingIsClean(s: State, calls: seq<Call>, site: Site)
    requires AllAct(s, calls, site)
    ensures Clean(s, calls, site)
  {
    forall i | 0 <= i < |calls|
      ensures !IsReported(s, calls, site, i)
    {
      assert Acts(s, calls, site, i);
    }
  }
}
