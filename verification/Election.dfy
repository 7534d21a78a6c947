/** The election of a Flexible Algorithm's definition among those the area advertises, and whether it can be evaluated. */
module Election {
  import opened Types

  datatype Constraint = Constraint(kind: Octet, value: seq<Octet>)

  datatype Definition = Definition(metricType: Octet, calcType: Octet, priority: Octet, advertiser: SystemId,
                                   constraints: seq<Constraint>)

  /** The Router Capability sub-TLVs the election reads. */
  datatype Capability =
    | Participates(algos: seq<Octet>)
    | Defines(algo: Octet, metricType: Octet, calcType: Octet, priority: Octet, constraints: seq<Constraint>)

  /** One database entry: its identifier, whether it is live, and its capabilities in order. */
  datatype Lsp = Lsp(id: LspId, live: bool, caps: seq<Capability>)

  // ---------- Candidates ----------

  /** A kind of constraint appears twice. */
  predicate Repeats(cs: seq<Constraint>) {
    exists i, j :: 0 <= i < j < |cs| && cs[i].kind == cs[j].kind
  }

  method RepeatedConstraint(cs: seq<Constraint>) returns (r: bool)
    ensures r <==> Repeats(cs)
  {
    var seen: set<Octet> := {};
    for i := 0 to |cs|
      invariant forall k :: k in seen <==> exists j :: 0 <= j < i && cs[j].kind == k
      invariant !Repeats(cs[..i])
    {
      if cs[i].kind in seen {
        return true;
      }
      seen := seen + {cs[i].kind};
      assert forall j :: 0 <= j < i ==> cs[j].kind != cs[i].kind;
    }
    assert cs[..|cs|] == cs;
    return false;
  }

  predicate Eligible(l: Lsp) {
    l.live && l.id.fragment == 0
  }

  /** The first definition of the algorithm, unless it repeats a constraint: then there is none, later ones or not. */
  function FirstOf(caps: seq<Capability>, algo: nat, sys: SystemId): Option<Definition> {
    if caps == [] then None
    else if caps[0].Defines? && caps[0].algo == algo then
      var d := caps[0];
      if Repeats(d.constraints) then None
      else Some(Definition(d.metricType, d.calcType, d.priority, sys, d.constraints))
    else FirstOf(caps[1..], algo, sys)
  }

  function Candidate(l: Lsp, algo: nat): Option<Definition> {
    if Eligible(l) then FirstOf(l.caps, algo, l.id.node.system) else None
  }

  /** The higher priority wins, then the higher system identifier. */
  predicate Beats(a: Definition, b: Definition) {
    if a.priority != b.priority then a.priority > b.priority else a.advertiser > b.advertiser
  }

  /** What scanning the entries in this order elects. */
  function Elected(lsps: seq<Lsp>, algo: nat): Option<Definition> {
    if lsps == [] then None
    else
      var best, c := Elected(lsps[..|lsps| - 1], algo), Candidate(lsps[|lsps| - 1], algo);
      if c.Some? && (best.None? || Beats(c.value, best.value)) then c else best
  }

  predicate Announces(caps: seq<Capability>, algo: nat) {
    exists i :: 0 <= i < |caps| && caps[i].Participates? && algo in caps[i].algos
  }

  predicate Defined(caps: seq<Capability>, algo: nat) {
    exists i :: 0 <= i < |caps| && caps[i].Defines? && caps[i].algo == algo
  }

  /** The systems that announce the algorithm, one for each entry that does. */
  function Announcers(lsps: seq<Lsp>, algo: nat): seq<SystemId> {
    if lsps == [] then []
    else
      var l := lsps[|lsps| - 1];
      Announcers(lsps[..|lsps| - 1], algo) + if Eligible(l) && algo != 0 && Announces(l.caps, algo) then [l.id.node.system] else []
  }

  datatype Info = Info(definition: Option<Definition>, participants: seq<SystemId>)

  /** `out` holds, for each algorithm elected or announced, its definition and participants so far. */
  ghost predicate Reports(lsps: seq<Lsp>, out: map<nat, Info>) {
    && (forall a :: a in out <==> Elected(lsps, a).Some? || Announcers(lsps, a) != [])
    && (forall a :: a in out ==> out[a] == Info(Elected(lsps, a), Announcers(lsps, a)))
  }

  // ---------- One more capability, one more entry ----------

  lemma {:induction false} FirstOfMore(caps: seq<Capability>, c: Capability, algo: nat, sys: SystemId)
    ensures FirstOf(caps + [c], algo, sys) == if Defined(caps, algo) then FirstOf(caps, algo, sys) else FirstOf([c], algo, sys)
  {
    if caps == [] {
      assert caps + [c] == [c];
    } else {
      assert (caps + [c])[1..] == caps[1..] + [c];
      FirstOfMore(caps[1..], c, algo, sys);
      assert Defined(caps, algo) <==> (caps[0].Defines? && caps[0].algo == algo) || Defined(caps[1..], algo) by {
        if i :| 0 < i < |caps| && caps[i].Defines? && caps[i].algo == algo { assert caps[1..][i - 1] == caps[i]; }
        if i :| 0 <= i < |caps[1..]| && caps[1..][i].Defines? && caps[1..][i].algo == algo { assert caps[i + 1] == caps[1..][i]; }
      }
    }
  }

  lemma {:induction false} UndefinedHasNone(caps: seq<Capability>, algo: nat, sys: SystemId)
    requires !Defined(caps, algo)
    ensures FirstOf(caps, algo, sys) == None
  {
    if caps != [] {
      assert caps[0] == caps[0] && forall i :: 0 <= i < |caps[1..]| ==> caps[1..][i] == caps[i + 1];
      UndefinedHasNone(caps[1..], algo, sys);
    }
  }

  /** An entry read as far as its first capabilities. */
  function Reading(l: Lsp, caps: seq<Capability>): Lsp {
    l.(caps := caps)
  }

  lemma LastEntry(before: seq<Lsp>, l: Lsp, algo: nat)
    ensures Elected(before + [l], algo) ==
            (var best, c := Elected(before, algo), Candidate(l, algo);
             if c.Some? && (best.None? || Beats(c.value, best.value)) then c else best)
    ensures Announcers(before + [l], algo) ==
            Announcers(before, algo) + if Eligible(l) && algo != 0 && Announces(l.caps, algo) then [l.id.node.system] else []
  {
    assert (before + [l])[..|before|] == before;
  }

  lemma AnnouncesMore(caps: seq<Capability>, c: Capability, algo: nat)
    ensures Announces(caps + [c], algo) <==> Announces(caps, algo) || (c.Participates? && algo in c.algos)
    ensures Defined(caps + [c], algo) <==> Defined(caps, algo) || (c.Defines? && c.algo == algo)
  {
    var more := caps + [c];
    assert more[|caps|] == c && forall i :: 0 <= i < |caps| ==> more[i] == caps[i];
  }

  /** Reading a definition: it counts when it is the entry's first for its algorithm. */
  lemma DefinitionRead(before: seq<Lsp>, l: Lsp, caps: seq<Capability>, c: Capability, algo: nat)
    requires Eligible(l) && c.Defines?
    ensures Announcers(before + [Reading(l, caps + [c])], algo) == Announcers(before + [Reading(l, caps)], algo)
    ensures c.algo != algo || Defined(caps, algo) || Repeats(c.constraints) ==>
              Elected(before + [Reading(l, caps + [c])], algo) == Elected(before + [Reading(l, caps)], algo)
    ensures c.algo == algo && !Defined(caps, algo) && !Repeats(c.constraints) ==>
              var cand := Definition(c.metricType, c.calcType, c.priority, l.id.node.system, c.constraints);
              var best := Elected(before + [Reading(l, caps)], algo);
              Elected(before + [Reading(l, caps + [c])], algo) == if best.None? || Beats(cand, best.value) then Some(cand) else best
  {
    var sys := l.id.node.system;
    LastEntry(before, Reading(l, caps), algo);
    LastEntry(before, Reading(l, caps + [c]), algo);
    AnnouncesMore(caps, c, algo);
    FirstOfMore(caps, c, algo, sys);
    assert FirstOf([], algo, sys) == None && [c][1..] == [];
    if !Defined(caps, algo) { UndefinedHasNone(caps, algo, sys); }
  }

  /** Reading one algorithm of an announcement: it counts when the entry has not announced it yet. */
  lemma AnnouncementRead(before: seq<Lsp>, l: Lsp, caps: seq<Capability>, some: seq<Octet>, a: Octet, algo: nat)
    requires Eligible(l)
    ensures var was, now := before + [Reading(l, caps + [Participates(some)])], before + [Reading(l, caps + [Participates(some + [a])])];
            && Elected(now, algo) == Elected(was, algo)
            && Announcers(now, algo) ==
               Announcers(was, algo) + if algo == a && a != 0 && !Announces(caps + [Participates(some)], a) then [l.id.node.system] else []
  {
    var sys := l.id.node.system;
    LastEntry(before, Reading(l, caps + [Participates(some)]), algo);
    LastEntry(before, Reading(l, caps + [Participates(some + [a])]), algo);
    AnnouncesMore(caps, Participates(some), algo);
    AnnouncesMore(caps, Participates(some + [a]), algo);
    FirstOfMore(caps, Participates(some), algo, sys);
    FirstOfMore(caps, Participates(some + [a]), algo, sys);
    assert FirstOf([], algo, sys) == None && [Participates(some)][1..] == [] && [Participates(some + [a])][1..] == [];
  }

  lemma NothingRead(before: seq<Lsp>, l: Lsp, caps: seq<Capability>, algo: nat)
    ensures caps == [] || !Eligible(l) ==>
              Elected(before + [Reading(l, caps)], algo) == Elected(before, algo) &&
              Announcers(before + [Reading(l, caps)], algo) == Announcers(before, algo)
    ensures Elected(before + [Reading(l, caps + [Participates([])])], algo) == Elected(before + [Reading(l, caps)], algo)
    ensures Announcers(before + [Reading(l, caps + [Participates([])])], algo) == Announcers(before + [Reading(l, caps)], algo)
  {
    var sys, none := l.id.node.system, Participates([]);
    LastEntry(before, Reading(l, caps), algo);
    LastEntry(before, Reading(l, caps + [none]), algo);
    AnnouncesMore(caps, none, algo);
    FirstOfMore(caps, none, algo, sys);
    assert FirstOf([], algo, sys) == None && [none][1..] == [];
    if !Defined(caps, algo) { UndefinedHasNone(caps, algo, sys); }
  }

  // ---------- The scan ----------

  function InfoOf(out: map<nat, Info>, algo: nat): Info {
    if algo in out then out[algo] else Info(None, [])
  }

  /** What the entries and the read part of `l` announce has been reported, and counted once. */
  ghost predicate Counted(before: seq<Lsp>, l: Lsp, caps: seq<Capability>, out: map<nat, Info>, counted: set<nat>) {
    Reports(before + [Reading(l, caps)], out) && forall a :: a in counted <==> a != 0 && Announces(caps, a)
  }

  lemma NoneCounted(before: seq<Lsp>, l: Lsp, caps: seq<Capability>, out: map<nat, Info>, counted: set<nat>)
    requires Counted(before, l, caps, out, counted)
    ensures Counted(before, l, caps + [Participates([])], out, counted)
  {
    hide Elected; hide Announcers; hide Announces;
    forall a {
      NothingRead(before, l, caps, a);
    }
    forall a {
      AnnouncesMore(caps, Participates([]), a);
    }
  }

  lemma OneCounted(before: seq<Lsp>, l: Lsp, caps: seq<Capability>, some: seq<Octet>, a: Octet, out: map<nat, Info>, counted: set<nat>)
    requires Eligible(l) && Counted(before, l, caps + [Participates(some)], out, counted)
    ensures a == 0 || a in counted ==> Counted(before, l, caps + [Participates(some + [a])], out, counted)
    ensures a != 0 && a !in counted ==>
              var info := InfoOf(out, a);
              Counted(before, l, caps + [Participates(some + [a])],
                      out[a := info.(participants := info.participants + [l.id.node.system])], counted + {a})
  {
    hide Elected; hide Announcers; hide Announces;
    forall b: nat {
      AnnouncementRead(before, l, caps, some, a, b);
    }
    forall b: nat {
      AnnouncesMore(caps, Participates(some), b);
    }
    forall b: nat {
      AnnouncesMore(caps, Participates(some + [a]), b);
    }
  }

  /** Read one announcement. */
  method ReadAnnouncement(out0: map<nat, Info>, counted0: set<nat>, algos: seq<Octet>, sys: SystemId,
                          ghost before: seq<Lsp>, ghost l: Lsp, ghost caps: seq<Capability>)
    returns (out: map<nat, Info>, counted: set<nat>)
    requires Eligible(l) && l.id.node.system == sys && Counted(before, l, caps, out0, counted0)
    ensures Counted(before, l, caps + [Participates(algos)], out, counted)
  {
    hide Counted;
    out, counted := out0, counted0;
    NoneCounted(before, l, caps, out, counted);
    assert algos[..0] == [];
    for k := 0 to |algos|
      invariant Counted(before, l, caps + [Participates(algos[..k])], out, counted)
    {
      var a := algos[k];
      assert algos[..k + 1] == algos[..k] + [a];
      OneCounted(before, l, caps, algos[..k], a, out, counted);
      if a != 0 && a !in counted {
        counted := counted + {a};
        var info := InfoOf(out, a);
        out := out[a := info.(participants := info.participants + [sys])];
      }
    }
    assert algos[..|algos|] == algos;
  }

  /** Read one definition. */
  method ReadDefinition(out0: map<nat, Info>, contributed: set<nat>, c: Capability, sys: SystemId,
                        ghost before: seq<Lsp>, ghost l: Lsp, ghost caps: seq<Capability>)
    returns (out: map<nat, Info>)
    requires c.Defines? && Eligible(l) && l.id.node.system == sys && Reports(before + [Reading(l, caps)], out0)
    requires forall a :: a in contributed <==> Defined(caps, a)
    ensures Reports(before + [Reading(l, caps + [c])], out)
  {
    hide Elected; hide Announcers; hide Defined; hide Repeats;
    out := out0;
    forall b: nat {
      DefinitionRead(before, l, caps, c, b);
    }
    if c.algo in contributed {
      return;
    }
    var repeated := RepeatedConstraint(c.constraints);
    if repeated {
      return;
    }
    var info := InfoOf(out, c.algo);
    var cand := Definition(c.metricType, c.calcType, c.priority, sys, c.constraints);
    var best := info.definition;
    out := out[c.algo := if best.None? || Beats(cand, best.value) then info.(definition := Some(cand)) else info];
  }

  /** Read one entry. */
  method ReadEntry(out0: map<nat, Info>, l: Lsp, ghost before: seq<Lsp>) returns (out: map<nat, Info>)
    requires Eligible(l) && Reports(before, out0)
    ensures Reports(before + [l], out)
  {
    out := out0;
    var counted: set<nat>, contributed: set<nat> := {}, {};
    forall a {
      NothingRead(before, l, [], a);
    }
    assert l.caps[..0] == [];
    for j := 0 to |l.caps|
      invariant Counted(before, l, l.caps[..j], out, counted)
      invariant forall a :: a in contributed <==> Defined(l.caps[..j], a)
    {
      hide Reports; hide Announces; hide Defined;
      var c := l.caps[j];
      assert l.caps[..j + 1] == l.caps[..j] + [c];
      forall a {
        AnnouncesMore(l.caps[..j], c, a);
      }
      match c
      case Participates(algos) =>
        out, counted := ReadAnnouncement(out, counted, algos, l.id.node.system, before, l, l.caps[..j]);
      case Defines(algo, _, _, _, _) =>
        out := ReadDefinition(out, contributed, c, l.id.node.system, before, l, l.caps[..j]);
        contributed := contributed + {algo};
    }
    assert l.caps[..|l.caps|] == l.caps;
  }

  predicate Ascending(ids: seq<SystemId>) {
    forall i, j :: 0 <= i < j < |ids| ==> ids[i] <= ids[j]
  }

  lemma InPlace(ids: seq<SystemId>, n: nat, id: SystemId)
    requires Ascending(ids) && n <= |ids| && (n > 0 ==> ids[n - 1] <= id) && (n < |ids| ==> id < ids[n])
    ensures Ascending(ids[..n] + [id] + ids[n..])
  {
    var r := ids[..n] + [id] + ids[n..];
    forall i, j | 0 <= i < j < |r|
      ensures r[i] <= r[j]
    {
      assert r[i] == (if i < n then ids[i] else if i == n then id else ids[i - 1]);
      assert r[j] == (if j < n then ids[j] else if j == n then id else ids[j - 1]);
    }
  }

  /** Put one identifier in its place. */
  method Insert(ids: seq<SystemId>, id: SystemId) returns (r: seq<SystemId>)
    requires Ascending(ids)
    ensures Ascending(r) && multiset(r) == multiset(ids) + multiset{id}
  {
    hide Ascending;
    var n := |ids|;
    while n > 0 && ids[n - 1] > id
      invariant 0 <= n <= |ids| && (n < |ids| ==> id < ids[n])
    {
      n := n - 1;
    }
    InPlace(ids, n, id);
    r := ids[..n] + [id] + ids[n..];
    assert ids == ids[..n] + ids[n..];
  }

  method SortIds(ids: seq<SystemId>) returns (r: seq<SystemId>)
    ensures Ascending(r) && multiset(r) == multiset(ids)
  {
    r := [];
    for i := 0 to |ids|
      invariant Ascending(r) && multiset(r) == multiset(ids[..i])
    {
      assert ids[..i + 1] == ids[..i] + [ids[i]];
      r := Insert(r, ids[i]);
    }
    assert ids[..|ids|] == ids;
  }

  /** For each algorithm elected or announced: what was elected, and the announcing systems in ascending order. */
  ghost predicate Lists(lsps: seq<Lsp>, out: map<nat, Info>) {
    && (forall a :: a in out <==> Elected(lsps, a).Some? || Announcers(lsps, a) != [])
    && (forall a :: a in out ==> Listed(lsps, a, out[a]))
  }

  ghost predicate Listed(lsps: seq<Lsp>, algo: nat, info: Info) {
    info.definition == Elected(lsps, algo) && Ascending(info.participants) && multiset(info.participants) == multiset(Announcers(lsps, algo))
  }

  /**
   * The definition elected and the systems participating, for every algorithm the live first fragments mention, by
   * one scan of them in whatever order they come.
   */
  method FlexAlgoState(lsps: seq<Lsp>) returns (out: map<nat, Info>)
    ensures Lists(lsps, out)
    ensures forall a: Octet :: IsElected(lsps, a, if a in out then out[a].definition else None)
  {
    hide Reports;
    out := Scan(lsps);
    out := SortAll(lsps, out);
    hide IsElected; hide Elected; hide Announcers; hide Ascending;
    forall a: Octet
      ensures IsElected(lsps, a, if a in out then out[a].definition else None)
    {
      ElectedIsHighest(lsps, a);
    }
  }

  method Scan(lsps: seq<Lsp>) returns (out: map<nat, Info>)
    ensures Reports(lsps, out)
  {
    out := map[];
    for i := 0 to |lsps|
      invariant Reports(lsps[..i], out)
    {
      hide Reports;
      assert lsps[..i + 1] == lsps[..i] + [lsps[i]];
      if Eligible(lsps[i]) {
        out := ReadEntry(out, lsps[i], lsps[..i]);
      } else {
        IneligibleRead(lsps[..i], lsps[i], out);
      }
    }
    assert lsps[..|lsps|] == lsps;
  }

  method SortAll(ghost lsps: seq<Lsp>, out0: map<nat, Info>) returns (out: map<nat, Info>)
    requires Reports(lsps, out0)
    ensures Lists(lsps, out)
  {
    hide Elected; hide Announcers; hide Ascending;
    out := out0;
    var todo := out.Keys;
    while todo != {}
      invariant todo <= out.Keys && forall a :: a in out <==> Elected(lsps, a).Some? || Announcers(lsps, a) != []
      invariant forall a :: a in todo ==> out[a] == Info(Elected(lsps, a), Announcers(lsps, a))
      invariant forall a :: a in out && a !in todo ==> Listed(lsps, a, out[a])
    {
      var a :| a in todo;
      todo := todo - {a};
      var sorted := SortIds(out[a].participants);
      out := out[a := out[a].(participants := sorted)];
    }
  }

  lemma IneligibleRead(before: seq<Lsp>, l: Lsp, out: map<nat, Info>)
    requires !Eligible(l) && Reports(before, out)
    ensures Reports(before + [l], out)
  {
    hide Elected; hide Announcers;
    assert Reading(l, l.caps) == l;
    forall a {
      NothingRead(before, l, l.caps, a);
    }
  }

  // ---------- Who wins ----------

  /**
   * `d` stands for election from entry `l`: the entry is live and a first fragment, `d` is its first definition of the
   * algorithm, advertised by its system, and names no kind of constraint twice.
   */
  ghost predicate Stands(l: Lsp, algo: Octet, d: Definition) {
    && l.live && l.id.fragment == 0 && d.advertiser == l.id.node.system
    && (exists i :: 0 <= i < |l.caps| && l.caps[i] == Defines(algo, d.metricType, d.calcType, d.priority, d.constraints)
                    && forall j :: 0 <= j < i && l.caps[j].Defines? ==> l.caps[j].algo != algo)
    && (forall x, y :: 0 <= x < y < |d.constraints| ==> d.constraints[x].kind != d.constraints[y].kind)
  }

  /** No entry's definition has a higher priority, nor the same priority and a higher system identifier. */
  ghost predicate IsHighest(lsps: seq<Lsp>, algo: Octet, d: Definition) {
    && (exists i :: 0 <= i < |lsps| && Stands(lsps[i], algo, d))
    && (forall i, other :: 0 <= i < |lsps| && Stands(lsps[i], algo, other) ==>
          other.priority < d.priority || (other.priority == d.priority && other.advertiser <= d.advertiser))
  }

  /** What is elected: a highest definition, or nothing when none stands. */
  ghost predicate IsElected(lsps: seq<Lsp>, algo: Octet, elected: Option<Definition>) {
    match elected
    case Some(d) => IsHighest(lsps, algo, d)
    case None => forall i, d :: 0 <= i < |lsps| ==> !Stands(lsps[i], algo, d)
  }

  lemma {:induction false} FirstStands(caps: seq<Capability>, algo: Octet, sys: SystemId, d: Definition)
    ensures FirstOf(caps, algo, sys) == Some(d) <==>
            && d.advertiser == sys && !Repeats(d.constraints)
            && exists i :: 0 <= i < |caps| && caps[i] == Defines(algo, d.metricType, d.calcType, d.priority, d.constraints)
                           && forall j :: 0 <= j < i && caps[j].Defines? ==> caps[j].algo != algo
  {
    if caps != [] {
      FirstStands(caps[1..], algo, sys, d);
      if caps[0].Defines? && caps[0].algo == algo {
      } else {
        if i :| 0 <= i < |caps| && caps[i] == Defines(algo, d.metricType, d.calcType, d.priority, d.constraints)
                && forall j :: 0 <= j < i && caps[j].Defines? ==> caps[j].algo != algo {
          assert caps[1..][i - 1] == caps[i];
        }
        if i :| 0 <= i < |caps[1..]| && caps[1..][i] == Defines(algo, d.metricType, d.calcType, d.priority, d.constraints)
                && forall j :: 0 <= j < i && caps[1..][j].Defines? ==> caps[1..][j].algo != algo {
          assert caps[i + 1] == caps[1..][i];
          assert forall j :: 0 < j < i + 1 ==> caps[j] == caps[1..][j - 1];
        }
      }
    }
  }

  lemma CandidateStands(l: Lsp, algo: Octet, d: Definition)
    ensures Candidate(l, algo) == Some(d) <==> Stands(l, algo, d)
  {
    FirstStands(l.caps, algo, l.id.node.system, d);
    hide FirstOf;
  }

  /** Whatever the order of the entries, a definition of the highest priority wins, and of the highest system among those. */
  lemma ElectedIsHighest(lsps: seq<Lsp>, algo: Octet)
    requires algo < 256
    ensures IsElected(lsps, algo, Elected(lsps, algo))
  {
    ElectedIsUnbeaten(lsps, algo);
    hide Stands; hide Candidate; hide Elected;
    forall i, d | 0 <= i < |lsps|
      ensures Candidate(lsps[i], algo) == Some(d) <==> Stands(lsps[i], algo, d)
    {
      CandidateStands(lsps[i], algo, d);
    }
    if Elected(lsps, algo).Some? {
      var d := Elected(lsps, algo).value;
      assert Unbeaten(lsps, algo, d);
      var i :| 0 <= i < |lsps| && Candidate(lsps[i], algo) == Some(d);
      forall j, other | 0 <= j < |lsps| && Stands(lsps[j], algo, other)
        ensures other.priority < d.priority || (other.priority == d.priority && other.advertiser <= d.advertiser)
      {
        assert Candidate(lsps[j], algo) == Some(other);
        assert !Beats(Candidate(lsps[j], algo).value, d);
      }
    } else {
      forall j, d | 0 <= j < |lsps|
        ensures !Stands(lsps[j], algo, d)
      {
        CandidateStands(lsps[j], algo, d);
        assert Candidate(lsps[j], algo) == None;
      }
    }
  }

  /** The entry announces the algorithm: live, a first fragment, with the algorithm in some list; 0 is never announced. */
  ghost predicate TakesPart(l: Lsp, algo: nat) {
    l.live && l.id.fragment == 0 && algo != 0 && exists i :: 0 <= i < |l.caps| && l.caps[i].Participates? && algo in l.caps[i].algos
  }

  ghost function Announcing(lsps: seq<Lsp>, algo: nat): set<nat> {
    set i | 0 <= i < |lsps| && TakesPart(lsps[i], algo)
  }

  lemma AnnouncingMore(init: seq<Lsp>, l: Lsp, algo: nat)
    ensures |Announcing(init + [l], algo)| == |Announcing(init, algo)| + if TakesPart(l, algo) then 1 else 0
  {
    hide TakesPart;
    var k, lsps := |init|, init + [l];
    assert lsps[k] == l && forall i :: 0 <= i < k ==> lsps[i] == init[i];
    assert Announcing(lsps, algo) == Announcing(init, algo) + (if TakesPart(l, algo) then {k} else {});
  }

  /** Each entry that announces the algorithm adds its system once. */
  lemma {:induction false} AnnouncersAre(lsps: seq<Lsp>, algo: nat)
    ensures |Announcers(lsps, algo)| == |Announcing(lsps, algo)|
    ensures forall s :: s in Announcers(lsps, algo) <==> Has(lsps, algo, s)
  {
    if lsps == [] {
      assert Announcing(lsps, algo) == {};
    } else {
      var k := |lsps| - 1;
      var init, l := lsps[..k], lsps[k];
      assert lsps == init + [l];
      AnnouncersAre(init, algo);
      AnnouncingMore(init, l, algo);
      LastEntry(init, l, algo);
      assert TakesPart(l, algo) <==> Eligible(l) && algo != 0 && Announces(l.caps, algo);
      hide TakesPart; hide Announces; hide Announcing; hide Announcers; hide Has;
      forall s
        ensures Has(lsps, algo, s) <==> Has(init, algo, s) || (TakesPart(l, algo) && l.id.node.system == s)
      {
        HasMore(init, l, algo, s);
      }
    }
  }

  /** Some entry of the system announces the algorithm. */
  ghost predicate Has(lsps: seq<Lsp>, algo: nat, s: SystemId) {
    exists i :: 0 <= i < |lsps| && TakesPart(lsps[i], algo) && lsps[i].id.node.system == s
  }

  lemma HasMore(init: seq<Lsp>, l: Lsp, algo: nat, s: SystemId)
    ensures Has(init + [l], algo, s) <==> Has(init, algo, s) || (TakesPart(l, algo) && l.id.node.system == s)
  {
    hide TakesPart;
    var lsps := init + [l];
    assert lsps[|init|] == l && forall i :: 0 <= i < |init| ==> lsps[i] == init[i];
  }

  // ---------- Which definitions can be evaluated ----------

  const EXCLUDE: Octet := 1
  const INCLUDE_ANY: Octet := 2
  const INCLUDE_ALL: Octet := 3
  const FLAGS: Octet := 4
  const METRIC_IGP: Octet := 0

  /** A whole number of admin-group words, at least one. */
  predicate WholeWords(v: seq<Octet>) {
    |v| > 0 && |v| % 4 == 0
  }

  function Word(a: nat, b: nat, c: nat, d: nat): nat {
    a * 0x100_0000 + b * 0x1_0000 + c * 0x100 + d
  }

  /** The words of a whole number of them, most significant octet first. */
  function Words(v: seq<Octet>): (ws: seq<nat>)
    requires |v| % 4 == 0
    ensures |ws| == |v| / 4
  {
    if v == [] then [] else [Word(v[0], v[1], v[2], v[3])] + Words(v[4..])
  }

  /** Each word is four octets of the value, the first the most significant. */
  lemma {:induction false} WordsAre(v: seq<Octet>, i: nat)
    requires |v| % 4 == 0 && i < |v| / 4
    ensures Words(v)[i] == ((v[4 * i] as int * 256 + v[4 * i + 1]) * 256 + v[4 * i + 2]) * 256 + v[4 * i + 3]
  {
    if i > 0 { WordsAre(v[4..], i - 1); }
  }

  /** No bit is set but the most significant of the first octet. */
  predicate FlagsSupported(v: seq<Octet>) {
    forall i :: 0 <= i < |v| ==> if i == 0 then v[i] % 0x80 == 0 else v[i] == 0
  }

  predicate Supports(c: Constraint) {
    if c.kind == FLAGS then FlagsSupported(c.value)
    else (c.kind == EXCLUDE || c.kind == INCLUDE_ANY || c.kind == INCLUDE_ALL) && WholeWords(c.value)
  }

  datatype Affinity = Affinity(exclude: seq<nat>, includeAny: seq<nat>, includeAll: seq<nat>)

  /** `words` is what the constraint of that kind says, or nothing where there is none. */
  ghost predicate Says(cs: seq<Constraint>, kind: Octet, words: seq<nat>) {
    && (forall i :: 0 <= i < |cs| && cs[i].kind == kind ==> WholeWords(cs[i].value) && words == Words(cs[i].value))
    && ((forall i :: 0 <= i < |cs| ==> cs[i].kind != kind) ==> words == [])
  }

  ghost predicate SaysAll(cs: seq<Constraint>, a: Affinity) {
    Says(cs, EXCLUDE, a.exclude) && Says(cs, INCLUDE_ANY, a.includeAny) && Says(cs, INCLUDE_ALL, a.includeAll)
  }

  lemma SaysMore(cs: seq<Constraint>, c: Constraint, kind: Octet, words: seq<nat>)
    requires Says(cs, kind, words) && !Repeats(cs + [c])
    ensures c.kind != kind ==> Says(cs + [c], kind, words)
    ensures c.kind == kind && WholeWords(c.value) ==> Says(cs + [c], kind, Words(c.value))
  {
    var more := cs + [c];
    assert more[|cs|] == c && forall i :: 0 <= i < |cs| ==> more[i] == cs[i];
    if c.kind == kind {
      forall i | 0 <= i < |cs|
        ensures cs[i].kind != kind
      {
        assert more[i].kind != more[|cs|].kind;
      }
    }
  }

  function Ruled(a: Affinity, c: Constraint): Affinity
    requires WholeWords(c.value)
  {
    if c.kind == EXCLUDE then a.(exclude := Words(c.value))
    else if c.kind == INCLUDE_ANY then a.(includeAny := Words(c.value))
    else a.(includeAll := Words(c.value))
  }

  lemma SaysAllMore(cs: seq<Constraint>, c: Constraint, a: Affinity)
    requires SaysAll(cs, a) && !Repeats(cs + [c]) && Supports(c)
    ensures SaysAll(cs + [c], if c.kind == FLAGS then a else Ruled(a, c))
  {
    hide Words; hide FlagsSupported; hide Says; hide Repeats;
    SaysMore(cs, c, EXCLUDE, a.exclude);
    SaysMore(cs, c, INCLUDE_ANY, a.includeAny);
    SaysMore(cs, c, INCLUDE_ALL, a.includeAll);
  }

  lemma PrefixRepeats(cs: seq<Constraint>, i: nat)
    requires !Repeats(cs) && i <= |cs|
    ensures !Repeats(cs[..i])
  {
  }

  /** The link rules of a definition, or none when some constraint cannot be evaluated. */
  method AffinityOf(cs: seq<Constraint>) returns (r: Option<Affinity>)
    requires !Repeats(cs)
    ensures r.Some? <==> forall i :: 0 <= i < |cs| ==> Supports(cs[i])
    ensures r.Some? ==> SaysAll(cs, r.value)
  {
    var a := Affinity([], [], []);
    for i := 0 to |cs|
      invariant (forall j :: 0 <= j < i ==> Supports(cs[j])) && SaysAll(cs[..i], a)
    {
      hide Words; hide FlagsSupported; hide SaysAll; hide Repeats;
      var c := cs[i];
      assert cs[..i + 1] == cs[..i] + [c];
      PrefixRepeats(cs, i + 1);
      if c.kind == FLAGS {
        if !FlagsSupported(c.value) { return None; }
        SaysAllMore(cs[..i], c, a);
      } else {
        if c.kind != EXCLUDE && c.kind != INCLUDE_ANY && c.kind != INCLUDE_ALL { return None; }
        if !WholeWords(c.value) { return None; }
        SaysAllMore(cs[..i], c, a);
        a := Ruled(a, c);
      }
    }
    assert cs[..|cs|] == cs;
    return Some(a);
  }

  predicate Usable(d: Definition) {
    d.metricType == METRIC_IGP && forall i :: 0 <= i < |d.constraints| ==> Supports(d.constraints[i])
  }

  /**
   * The metric is the default one, and each constraint is a rule on link colours, a whole number of 4-octet words and at
   * least one, or definition flags of which none but the first bit is set.
   */
  ghost predicate CanBeEvaluated(d: Definition) {
    && d.metricType == 0
    && forall i :: 0 <= i < |d.constraints| ==>
         var c := d.constraints[i];
         if c.kind in {1, 2, 3} then c.value != [] && exists n :: |c.value| == 4 * n
         else c.kind == 4 && forall j :: 0 <= j < |c.value| ==> c.value[j] == 0 || (j == 0 && c.value[j] == 0x80)
  }

  lemma UsableIs(d: Definition)
    ensures Usable(d) <==> CanBeEvaluated(d)
  {
    forall i | 0 <= i < |d.constraints|
      ensures Supports(d.constraints[i]) <==>
              var c := d.constraints[i];
              if c.kind in {1, 2, 3} then c.value != [] && exists n :: |c.value| == 4 * n
              else c.kind == 4 && forall j :: 0 <= j < |c.value| ==> c.value[j] == 0 || (j == 0 && c.value[j] == 0x80)
    {
      var n := |d.constraints[i].value|;
      assert n % 4 == 0 <==> n == 4 * (n / 4);
    }
  }

  /** What is elected in this order can be evaluated. */
  predicate Evaluable(lsps: seq<Lsp>, algo: nat) {
    Elected(lsps, algo).Some? && Usable(Elected(lsps, algo).value)
  }

  // ---------- What the order of the scan can decide ----------

  /** A candidate no other beats. */
  ghost predicate Unbeaten(lsps: seq<Lsp>, algo: nat, d: Definition) {
    && (exists i :: 0 <= i < |lsps| && Candidate(lsps[i], algo) == Some(d))
    && (forall j :: 0 <= j < |lsps| && Candidate(lsps[j], algo).Some? ==> !Beats(Candidate(lsps[j], algo).value, d))
  }

  ghost predicate NoCandidates(lsps: seq<Lsp>, algo: nat) {
    forall i :: 0 <= i < |lsps| ==> Candidate(lsps[i], algo) == None
  }

  /** Whatever the order, an unbeaten candidate is elected if there is any candidate at all. */
  lemma {:induction false} ElectedIsUnbeaten(lsps: seq<Lsp>, algo: nat)
    ensures Elected(lsps, algo).Some? ==> Unbeaten(lsps, algo, Elected(lsps, algo).value)
    ensures Elected(lsps, algo).None? <==> NoCandidates(lsps, algo)
  {
    if lsps != [] {
      var rest, l := lsps[..|lsps| - 1], lsps[|lsps| - 1];
      ElectedIsUnbeaten(rest, algo);
      hide FirstOf;
      assert forall i :: 0 <= i < |rest| ==> rest[i] == lsps[i];
      if Elected(rest, algo).Some? {
        assert Unbeaten(rest, algo, Elected(rest, algo).value);
        var i :| 0 <= i < |rest| && Candidate(rest[i], algo) == Elected(rest, algo);
        assert Candidate(lsps[i], algo) == Elected(rest, algo);
      }
    }
  }

  lemma {:induction false} FirstStays(l: Lsp, rest: seq<Lsp>, algo: nat, d: Definition)
    requires Candidate(l, algo) == Some(d)
    requires forall j :: 0 <= j < |rest| && Candidate(rest[j], algo).Some? ==> !Beats(Candidate(rest[j], algo).value, d)
    ensures Elected([l] + rest, algo) == Some(d)
  {
    if rest == [] {
      assert [l] + rest == [l] && Elected([], algo) == None && [l][..0] == [];
    } else {
      var shorter := rest[..|rest| - 1];
      assert ([l] + rest)[..|rest|] == [l] + shorter;
      FirstStays(l, shorter, algo, d);
    }
  }

  /** Every unbeaten candidate is elected in some order. */
  lemma UnbeatenCanWin(lsps: seq<Lsp>, algo: nat, d: Definition) returns (order: seq<Lsp>)
    requires Unbeaten(lsps, algo, d)
    ensures multiset(order) == multiset(lsps) && Elected(order, algo) == Some(d)
  {
    var i :| 0 <= i < |lsps| && Candidate(lsps[i], algo) == Some(d);
    var rest := lsps[..i] + lsps[i + 1..];
    assert lsps == lsps[..i] + [lsps[i]] + lsps[i + 1..];
    order := [lsps[i]] + rest;
    forall j | 0 <= j < |rest| && Candidate(rest[j], algo).Some?
      ensures !Beats(Candidate(rest[j], algo).value, d)
    {
      assert rest[j] == lsps[if j < i then j else j + 1];
    }
    FirstStays(lsps[i], rest, algo, d);
  }

  /** The unbeaten candidates can all be evaluated, or none can. */
  ghost predicate Settled(lsps: seq<Lsp>, algo: nat) {
    forall c, d :: Unbeaten(lsps, algo, c) && Unbeaten(lsps, algo, d) ==> (Usable(c) <==> Usable(d))
  }

  /** What the election reads of an entry. */
  ghost function Definitions(caps: seq<Capability>): seq<Capability> {
    if caps == [] then []
    else if caps[0].Defines? then [caps[0]] + Definitions(caps[1..])
    else Definitions(caps[1..])
  }

  ghost function Shape(l: Lsp): Lsp {
    Reading(l, Definitions(l.caps))
  }

  lemma {:induction false} DefinitionsDecide(caps: seq<Capability>, algo: nat, sys: SystemId)
    ensures FirstOf(Definitions(caps), algo, sys) == FirstOf(caps, algo, sys)
  {
    if caps != [] {
      DefinitionsDecide(caps[1..], algo, sys);
      if caps[0].Defines? { assert ([caps[0]] + Definitions(caps[1..]))[1..] == Definitions(caps[1..]); }
    }
  }

  /** Every entry of `a` has one in `b` alike in all the election reads. */
  ghost predicate Echoes(a: seq<Lsp>, b: seq<Lsp>) {
    forall i :: 0 <= i < |a| ==> HasAlike(b, a[i])
  }

  ghost predicate HasAlike(b: seq<Lsp>, l: Lsp) {
    exists j :: 0 <= j < |b| && Shape(b[j]) == Shape(l)
  }

  /** The same definitions from the same entries, in any order, whatever participation is announced. */
  ghost predicate SameDefinitions(a: seq<Lsp>, b: seq<Lsp>) {
    Echoes(a, b) && Echoes(b, a)
  }

  lemma CandidateEchoed(a: seq<Lsp>, b: seq<Lsp>, algo: nat, i: nat) returns (j: nat)
    requires Echoes(a, b) && i < |a|
    ensures j < |b| && Candidate(b[j], algo) == Candidate(a[i], algo)
  {
    assert HasAlike(b, a[i]);
    j :| 0 <= j < |b| && Shape(b[j]) == Shape(a[i]);
    DefinitionsDecide(a[i].caps, algo, a[i].id.node.system);
    DefinitionsDecide(b[j].caps, algo, b[j].id.node.system);
  }

  lemma UnbeatenEchoed(a: seq<Lsp>, b: seq<Lsp>, algo: nat, d: Definition)
    requires SameDefinitions(a, b) && Unbeaten(a, algo, d)
    ensures Unbeaten(b, algo, d)
  {
    hide Echoes; hide Candidate;
    var i :| 0 <= i < |a| && Candidate(a[i], algo) == Some(d);
    var j := CandidateEchoed(a, b, algo, i);
    forall k | 0 <= k < |b| && Candidate(b[k], algo).Some?
      ensures !Beats(Candidate(b[k], algo).value, d)
    {
      var k' := CandidateEchoed(b, a, algo, k);
    }
  }

  /** With the unbeaten candidates of one mind, neither order nor participation decides what can be evaluated. */
  lemma EvaluableStays(a: seq<Lsp>, b: seq<Lsp>, algo: nat)
    requires SameDefinitions(a, b) && Settled(a, algo)
    ensures Evaluable(a, algo) <==> Evaluable(b, algo)
  {
    ElectedIsUnbeaten(a, algo);
    ElectedIsUnbeaten(b, algo);
    hide Elected; hide Unbeaten; hide Candidate; hide Usable; hide Echoes;
    if Elected(b, algo).Some? {
      UnbeatenEchoed(b, a, algo, Elected(b, algo).value);
      SomeCandidate(a, algo, Elected(b, algo).value);
    } else if Elected(a, algo).Some? {
      UnbeatenEchoed(a, b, algo, Elected(a, algo).value);
      SomeCandidate(b, algo, Elected(a, algo).value);
    }
  }

  lemma SomeCandidate(lsps: seq<Lsp>, algo: nat, d: Definition)
    requires Unbeaten(lsps, algo, d)
    ensures !NoCandidates(lsps, algo)
  {
  }

  /** And only then: an order can be found for either answer otherwise. */
  lemma OrderDecides(lsps: seq<Lsp>, algo: nat)
    ensures Settled(lsps, algo) <==> forall order :: multiset(order) == multiset(lsps) ==> (Evaluable(order, algo) <==> Evaluable(lsps, algo))
  {
    hide Elected; hide Unbeaten; hide Candidate; hide Usable; hide Shape;
    if Settled(lsps, algo) {
      forall order | multiset(order) == multiset(lsps)
        ensures Evaluable(order, algo) <==> Evaluable(lsps, algo)
      {
        PermutedEchoes(lsps, order);
        PermutedEchoes(order, lsps);
        EvaluableStays(lsps, order, algo);
      }
    } else {
      var c, d :| Unbeaten(lsps, algo, c) && Unbeaten(lsps, algo, d) && !(Usable(c) <==> Usable(d));
      var first := UnbeatenCanWin(lsps, algo, c);
      var second := UnbeatenCanWin(lsps, algo, d);
      assert Evaluable(first, algo) != Evaluable(second, algo);
    }
  }

  lemma PermutedEchoes(a: seq<Lsp>, b: seq<Lsp>)
    requires multiset(a) == multiset(b)
    ensures Echoes(a, b)
  {
    forall i | 0 <= i < |a|
      ensures HasAlike(b, a[i])
    {
      assert a[i] in multiset(a);
      assert a[i] in multiset(b);
      var j :| 0 <= j < |b| && b[j] == a[i];
    }
  }

  // ---------- When it decides nothing, and when it does ----------

  /** Identifiers are not repeated, and no pseudonode's entry carries a definition. */
  predicate OnlyRoutersDefine(lsps: seq<Lsp>, algo: nat) {
    && (forall i, j :: 0 <= i < j < |lsps| ==> lsps[i].id != lsps[j].id)
    && (forall i :: 0 <= i < |lsps| && lsps[i].id.node.pseudonode != 0 ==> !Defined(lsps[i].caps, algo))
  }

  /** Then one definition is unbeaten, and every order elects it. */
  lemma RoutersAreSettled(lsps: seq<Lsp>, algo: nat, c: Definition, d: Definition)
    requires OnlyRoutersDefine(lsps, algo) && Unbeaten(lsps, algo, c) && Unbeaten(lsps, algo, d)
    ensures c == d
  {
    var i :| 0 <= i < |lsps| && Candidate(lsps[i], algo) == Some(c);
    var j :| 0 <= j < |lsps| && Candidate(lsps[j], algo) == Some(d);
    CandidateFrom(lsps, algo, i);
    CandidateFrom(lsps, algo, j);
    assert !Beats(d, c) && !Beats(c, d);
    assert lsps[i].id == lsps[j].id;
    assert i == j;
  }

  lemma {:induction false} FirstOfAdvertiser(caps: seq<Capability>, algo: nat, sys: SystemId)
    ensures FirstOf(caps, algo, sys).Some? ==>
              FirstOf(caps, algo, sys).value.advertiser == sys && !Repeats(FirstOf(caps, algo, sys).value.constraints) && Defined(caps, algo)
  {
    if caps != [] && !(caps[0].Defines? && caps[0].algo == algo) {
      FirstOfAdvertiser(caps[1..], algo, sys);
      assert forall i :: 0 <= i < |caps[1..]| ==> caps[1..][i] == caps[i + 1];
    }
  }

  lemma CandidateFrom(lsps: seq<Lsp>, algo: nat, i: nat)
    requires OnlyRoutersDefine(lsps, algo) && i < |lsps| && Candidate(lsps[i], algo).Some?
    ensures lsps[i].id == LspId(NodeId(Candidate(lsps[i], algo).value.advertiser, 0), 0)
  {
    FirstOfAdvertiser(lsps[i].caps, algo, lsps[i].id.node.system);
  }

  /** What is elected repeats no constraint. */
  lemma ElectedRepeatsNone(lsps: seq<Lsp>, algo: nat)
    requires Elected(lsps, algo).Some?
    ensures !Repeats(Elected(lsps, algo).value.constraints)
  {
    ElectedIsUnbeaten(lsps, algo);
    var i :| 0 <= i < |lsps| && Candidate(lsps[i], algo) == Elected(lsps, algo);
    FirstOfAdvertiser(lsps[i].caps, algo, lsps[i].id.node.system);
  }

  /** A router and the pseudonode of one of its LANs that define the algorithm at the same priority, differently. */
  const ROUTER: Lsp := Lsp(LspId(NodeId(7, 0), 0), true, [Defines(128, 0, 0, 100, [])])
  const LAN: Lsp := Lsp(LspId(NodeId(7, 1), 0), true, [Defines(128, 1, 0, 100, [])])

  lemma RouterAndLan()
    ensures Candidate(ROUTER, 128) == Some(Definition(0, 0, 100, 7, [])) && Candidate(LAN, 128) == Some(Definition(1, 0, 100, 7, []))
  {
  }

  lemma TieIsDecidedByOrder()
    ensures Evaluable([ROUTER, LAN], 128) && !Evaluable([LAN, ROUTER], 128) && !Settled([ROUTER, LAN], 128)
  {
    hide Candidate; hide Elected; hide Settled;
    RouterAndLan();
    FirstStays(ROUTER, [LAN], 128, Definition(0, 0, 100, 7, []));
    FirstStays(LAN, [ROUTER], 128, Definition(1, 0, 100, 7, []));
    assert [ROUTER] + [LAN] == [ROUTER, LAN] && [LAN] + [ROUTER] == [LAN, ROUTER];
    assert multiset([LAN, ROUTER]) == multiset([ROUTER, LAN]);
    OrderDecides([ROUTER, LAN], 128);
  }
}
