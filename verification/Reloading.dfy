/** The reload as the daemon runs it: lists walked and rewritten in place, calls issued one by one, refusals collected. */
module Reloading {
  import opened Types
  import opened Reload
  import Topology

  // ---------- Lists read as maps ----------

  /** The mapping a list of keyed entries stands for. */
  function ToMap<K, V>(xs: seq<(K, V)>): map<K, V> {
    if xs == [] then map[] else ToMap(xs[..|xs| - 1])[xs[|xs| - 1].0 := xs[|xs| - 1].1]
  }

  predicate Keyed<K(==), V>(xs: seq<(K, V)>) {
    forall i, j :: 0 <= i < j < |xs| ==> xs[i].0 != xs[j].0
  }

  lemma {:induction false} ToMapAt<K, V>(xs: seq<(K, V)>, i: nat)
    requires Keyed(xs) && i < |xs|
    ensures xs[i].0 in ToMap(xs) && ToMap(xs)[xs[i].0] == xs[i].1
  {
    if i < |xs| - 1 { ToMapAt(xs[..|xs| - 1], i); }
  }

  lemma {:induction false} ToMapKey<K, V>(xs: seq<(K, V)>, k: K)
    ensures k in ToMap(xs) <==> exists i :: 0 <= i < |xs| && xs[i].0 == k
  {
    if xs != [] {
      var before := xs[..|xs| - 1];
      ToMapKey(before, k);
      if k in ToMap(before) {
        var i :| 0 <= i < |before| && before[i].0 == k;
        assert xs[i].0 == k;
      }
      if i :| 0 <= i < |xs| && xs[i].0 == k && i < |before| {
        assert before[i].0 == k;
      }
    }
  }

  lemma ToMapAppend<K, V>(xs: seq<(K, V)>, x: (K, V))
    ensures ToMap(xs + [x]) == ToMap(xs)[x.0 := x.1]
  {
    assert (xs + [x])[..|xs|] == xs;
  }

  lemma {:induction false} ToMapRemove<K, V>(xs: seq<(K, V)>, i: nat)
    requires Keyed(xs) && i < |xs|
    ensures Keyed(xs[..i] + xs[i + 1..]) && ToMap(xs[..i] + xs[i + 1..]) == ToMap(xs) - {xs[i].0}
  {
    var last := |xs| - 1;
    if i == last {
      assert xs[..i] + xs[i + 1..] == xs[..last];
      ToMapKey(xs[..last], xs[i].0);
    } else {
      ToMapRemove(xs[..last], i);
      assert xs[..i] + xs[i + 1..] == (xs[..last][..i] + xs[..last][i + 1..]) + [xs[last]];
      ToMapAppend(xs[..last][..i] + xs[..last][i + 1..], xs[last]);
    }
  }

  method Find<K(==), V>(xs: seq<(K, V)>, k: K) returns (at: Option<nat>)
    requires Keyed(xs)
    ensures at.Some? <==> k in ToMap(xs)
    ensures at.Some? ==> at.value < |xs| && xs[at.value].0 == k && ToMap(xs)[k] == xs[at.value].1
  {
    for i := 0 to |xs|
      invariant forall j :: 0 <= j < i ==> xs[j].0 != k
    {
      if xs[i].0 == k {
        ToMapAt(xs, i);
        return Some(i);
      }
    }
    ToMapKey(xs, k);
    return None;
  }

  // ---------- The node ----------

  class RunningNode {
    const site: Site
    var flexAlgos: seq<(Octet, Definition)>
    var locators: seq<(Prefix, Octet)>
    var prefixes: map<Prefix, nat>

    ghost predicate Valid()
      reads this
    {
      Keyed(flexAlgos) && Keyed(locators)
    }

    ghost function Now(): State
      reads this
    {
      State(ToMap(flexAlgos), ToMap(locators), prefixes)
    }

    constructor (site: Site)
      ensures Valid() && Now() == State(map[], map[], map[])
    {
      this.site := site;
      flexAlgos, locators, prefixes := [], [], map[];
    }

    method Participates(algo: Octet) returns (yes: bool)
      requires Valid()
      ensures yes == (algo == 0 || algo in Now().algos)
    {
      if algo == 0 { return true; }
      var at := Find(flexAlgos, algo);
      return at.Some?;
    }

    method BindLocator(p: Prefix, algo: Octet) returns (answer: Answer)
      requires Valid()
      modifies this
      ensures Valid() && answer == AnswerTo(old(Now()), AddLocator(p, algo), site)
      ensures Now() == After(old(Now()), AddLocator(p, algo), site)
    {
      if !IsLocator(p) { return Refused; }
      var joined := Participates(algo);
      if !joined { return Refused; }
      var at := Find(locators, p);
      if at.Some? {
        return if locators[at.value].1 == algo then Already else Refused;
      }
      ToMapKey(locators, p);
      ToMapAppend(locators, (p, algo));
      locators := locators + [(p, algo)];
      return Done;
    }

    method UnbindLocator(p: Prefix) returns (answer: Answer)
      requires Valid()
      modifies this
      ensures Valid() && answer == AnswerTo(old(Now()), DeleteLocator(p), site)
      ensures Now() == After(old(Now()), DeleteLocator(p), site)
    {
      var at := Find(locators, p);
      if at.None? { return Already; }
      ToMapRemove(locators, at.value);
      locators := locators[..at.value] + locators[at.value + 1..];
      return Done;
    }

    method BeginAlgo(algo: Octet, definition: Definition) returns (answer: Answer)
      requires Valid()
      modifies this
      ensures Valid() && answer == AnswerTo(old(Now()), AddAlgo(algo, definition), site)
      ensures Now() == After(old(Now()), AddAlgo(algo, definition), site)
    {
      if algo < FIRST_FLEX_ALGO { return Refused; }
      var at := Find(flexAlgos, algo);
      if at.Some? {
        return if flexAlgos[at.value].1 == definition then Already else Refused;
      }
      ToMapKey(flexAlgos, algo);
      ToMapAppend(flexAlgos, (algo, definition));
      flexAlgos := flexAlgos + [(algo, definition)];
      return Done;
    }

    /** Some locator is still bound to the algorithm. */
    method Bound(algo: Octet) returns (bound: bool)
      requires Valid()
      ensures bound == IsBound(Now(), algo)
    {
      for i := 0 to |locators|
        invariant forall j :: 0 <= j < i ==> locators[j].1 != algo
      {
        if locators[i].1 == algo {
          ToMapAt(locators, i);
          return true;
        }
      }
      forall p | p in ToMap(locators)
        ensures ToMap(locators)[p] != algo
      {
        ToMapKey(locators, p);
        var i :| 0 <= i < |locators| && locators[i].0 == p;
        ToMapAt(locators, i);
      }
      return false;
    }

    method EndAlgo(algo: Octet) returns (answer: Answer)
      requires Valid()
      modifies this
      ensures Valid() && answer == AnswerTo(old(Now()), DeleteAlgo(algo), site)
      ensures Now() == After(old(Now()), DeleteAlgo(algo), site)
    {
      hide IsBound;
      var at := Find(flexAlgos, algo);
      if at.None? { return Already; }
      var bound := Bound(algo);
      if bound { return Refused; }
      ToMapRemove(flexAlgos, at.value);
      flexAlgos := flexAlgos[..at.value] + flexAlgos[at.value + 1..];
      return Done;
    }

    method Advertise(p: Prefix, metric: nat) returns (answer: Answer)
      requires Valid()
      modifies this
      ensures Valid() && answer == AnswerTo(old(Now()), AddPrefix(p, metric), site)
      ensures Now() == After(old(Now()), AddPrefix(p, metric), site)
    {
      if p !in site.routable || metric >= Topology.MAX_PATH_METRIC { return Refused; }
      if p in prefixes {
        return if prefixes[p] == metric then Already else Refused;
      }
      prefixes := prefixes[p := metric];
      return Done;
    }

    method Withdraw(p: Prefix) returns (answer: Answer)
      requires Valid()
      modifies this
      ensures Valid() && answer == AnswerTo(old(Now()), DeletePrefix(p), site)
      ensures Now() == After(old(Now()), DeletePrefix(p), site)
    {
      if p !in prefixes {
        return if p in site.connected then Refused else Already;
      }
      prefixes := prefixes - {p};
      return Done;
    }

    method Perform(call: Call) returns (answer: Answer)
      requires Valid()
      modifies this
      ensures Valid() && answer == AnswerTo(old(Now()), call, site) && Now() == After(old(Now()), call, site)
    {
      hide AnswerTo; hide After; hide ToMap;
      match call
      case DeleteLocator(p) => answer := UnbindLocator(p);
      case DeleteAlgo(a) => answer := EndAlgo(a);
      case AddAlgo(a, d) => answer := BeginAlgo(a, d);
      case AddLocator(p, a) => answer := BindLocator(p, a);
      case DeletePrefix(p) => answer := Withdraw(p);
      case AddPrefix(p, m) => answer := Advertise(p, m);
    }

    /** Every call of a list, none skipped for another's refusal; what comes back are the refusals worth reporting. */
    method Issue(calls: seq<Call>) returns (errs: seq<Call>)
      requires Valid()
      modifies this
      ensures Valid() && Now() == Applied(old(Now()), calls, site) && errs == Reported(old(Now()), calls, site)
    {
      hide AnswerTo; hide After; hide ToMap;
      errs := [];
      for i := 0 to |calls|
        invariant Valid() && Now() == Applied(old(Now()), calls[..i], site) && errs == Reported(old(Now()), calls[..i], site)
      {
        assert calls[..i + 1][..i] == calls[..i];
        var answer := Perform(calls[i]);
        if answer == Refused { errs := errs + [calls[i]]; }
      }
      assert calls[..|calls|] == calls;
    }

    /** The whole batch. */
    method Apply(next: State, ch: Changes) returns (errs: seq<Call>)
      requires Valid() && Named(next, ch)
      modifies this
      ensures Valid() && Now() == Applied(old(Now()), Batch(next, ch), site)
      ensures errs == Reported(old(Now()), Batch(next, ch), site)
    {
      errs := Issue(Batch(next, ch));
    }
  }

  /** The calls of a list that are reported, in order. */
  function Reported(s: State, calls: seq<Call>, site: Site): seq<Call> {
    if calls == [] then []
    else
      var k := |calls| - 1;
      Reported(s, calls[..k], site) + if AnswerTo(Applied(s, calls[..k], site), calls[k], site) == Refused then [calls[k]] else []
  }

  /** Nothing is reported exactly when no call is refused on its merits. */
  lemma {:induction false} ReportedNothing(s: State, calls: seq<Call>, site: Site)
    ensures Reported(s, calls, site) == [] <==> Clean(s, calls, site)
  {
    hide AnswerTo;
    if calls != [] {
      ReportedNothing(s, calls[..|calls| - 1], site);
      CleanSnoc(s, calls, site);
    }
  }

  /** A node at the old file that applies the difference is at the new file, with nothing to report. */
  method AdoptFile(n: RunningNode, prior: State, next: State) returns (errs: seq<Call>)
    requires n.Valid() && n.Now() == prior && IsValid(prior, n.site) && IsValid(next, n.site)
    modifies n
    ensures n.Valid() && n.Now() == next && errs == []
  {
    var ch := Diff(prior, next);
    DiffIsNamed(prior, next, ch);
    ReloadAdopts(prior, next, ch, n.site);
    ActingIsClean(prior, Batch(next, ch), n.site);
    ReportedNothing(prior, Batch(next, ch), n.site);
    errs := n.Apply(next, ch);
  }

  // ---------- The difference, by loops over the two files ----------

  /** The keys whose entry is missing from the other side or differs there. */
  method Differing<K(==), V(==)>(here: map<K, V>, there: map<K, V>) returns (out: seq<K>)
    ensures Distinct(out)
    ensures forall k :: k in out <==> k in here && (k !in there || there[k] != here[k])
  {
    out := [];
    var left := here.Keys;
    while left != {}
      invariant left <= here.Keys && Distinct(out)
      invariant forall k :: k in out ==> k !in left
      invariant forall k :: k in out <==> k in here && k !in left && (k !in there || there[k] != here[k])
      decreases |left|
    {
      var k :| k in left;
      left := left - {k};
      if k !in there || there[k] != here[k] {
        out := out + [k];
      }
    }
  }

  /** Locators likewise, and those bound to an algorithm that moves. */
  method DifferingLocators(here: map<Prefix, Octet>, there: map<Prefix, Octet>, moving: seq<Octet>) returns (out: seq<Prefix>)
    ensures Distinct(out)
    ensures forall p :: p in out <==> p in here && (p !in there || there[p] != here[p] || here[p] in moving)
  {
    out := [];
    var left := here.Keys;
    while left != {}
      invariant left <= here.Keys && Distinct(out)
      invariant forall p :: p in out ==> p !in left
      invariant forall p :: p in out <==> p in here && p !in left && (p !in there || there[p] != here[p] || here[p] in moving)
      decreases |left|
    {
      var p :| p in left;
      left := left - {p};
      if p !in there || there[p] != here[p] || here[p] in moving {
        out := out + [p];
      }
    }
  }

  /** The difference of two files. */
  method Diff(prior: State, next: State) returns (ch: Changes)
    ensures IsBatch(prior, next, ch)
  {
    var deleteAlgos := Differing(prior.algos, next.algos);
    var addAlgos := Differing(next.algos, prior.algos);
    var deleteLocators := DifferingLocators(prior.locators, next.locators, deleteAlgos);
    var addLocators := DifferingLocators(next.locators, prior.locators, addAlgos);
    var deletePrefixes := Differing(prior.prefixes, next.prefixes);
    var addPrefixes := Differing(next.prefixes, prior.prefixes);
    ch := Changes(deleteLocators, deleteAlgos, addAlgos, addLocators, deletePrefixes, addPrefixes);
  }
}
