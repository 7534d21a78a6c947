/** Circuits added and deleted, own LSPs regenerated: nothing is left that a refresh would not reach. */
module Refresh {
  import opened Types
  import opened Lsdb
  import opened Flooding
  import opened Sequencing
  import opened UpdateProcess
  import opened Origination
  import opened Coverage

  /** What to originate: fragments for the node (octet 0) and for each pseudonode this node is the DIS of. */
  type Plan = map<Octet, seq<Fragment>>

  function Planned(plan: Plan, octet: Octet): seq<Fragment> {
    if octet in plan then plan[octet] else []
  }

  ghost predicate HasDis(n: Node, octet: Octet) {
    exists c :: c in n.circuits && !n.circuits[c].p2p && n.circuits[c].octet == octet && n.circuits[c].dis
  }

  /** The node LSP first, then every broadcast circuit; contents only for the node and where it is the DIS. */
  ghost predicate IsRegeneration(n: Node, order: seq<Octet>, plan: Plan) {
    && n.circuits != map[] && 0 in order
    && (forall octet :: HasLan(n, octet) ==> octet in order)
    && (forall octet :: octet in plan && octet != 0 ==> HasDis(n, octet))
  }

  /** Each node and pseudonode in turn; one with nothing planned loses what it had. */
  function Regenerate(n: Node, order: seq<Octet>, plan: Plan, buffer: nat, force: bool, now: nat): Node {
    if order == [] then n
    else
      var k := |order| - 1;
      OriginateFragmented(Regenerate(n, order[..k], plan, buffer, force, now), order[k], Planned(plan, order[k]), buffer, force, now)
  }

  // ---------- Regeneration keeps the coverage ----------

  lemma {:induction false} KindsIssueAll(n: Node, pn: Octet, frags: seq<Fragment>, buffer: nat, force: bool, now: nat)
    requires |frags| <= 256
    ensures SameKinds(n, IssueAll(n, pn, frags, buffer, force, now))
  {
    hide Originate; hide SameKinds;
    KindsTrivial(n);
    if frags != [] {
      var k := |frags| - 1;
      var before := IssueAll(n, pn, frags[..k], buffer, force, now);
      KindsIssueAll(n, pn, frags[..k], buffer, force, now);
      KindsOriginate(before, FragId(n, pn, k), frags[k], buffer, force, now);
      KindsTrans(n, before, IssueAll(n, pn, frags, buffer, force, now));
    }
  }

  lemma KindsOriginate(n: Node, id: LspId, f: Fragment, buffer: nat, force: bool, now: nat)
    ensures SameKinds(n, Originate(n, id, f.body, f.size, buffer, force, now, f.deadline))
  {
    KindsTrivial(n);
    KindsPurges(n, id, 0, now, 0);
    if Numbered(n, id) {
      var seqno: Seqno := if id in n.db then n.db[id].seqno + 1 else 1;
      KindsFlood(n, id, Entry(seqno, n.cfg.sum(id, seqno, f.body), f.body, f.size, now, MAX_AGE, true, None, f.deadline), None, now);
    }
    hide SameKinds; hide StoreAndFlood; hide ExhaustSeq;
  }

  lemma KindsWithdraw(n: Node, ids: set<LspId>, now: nat)
    ensures SameKinds(n, WithdrawSet(n, ids, now))
  {
  }

  lemma KindsFragmented(n: Node, pn: Octet, frags: seq<Fragment>, buffer: nat, force: bool, now: nat)
    ensures SameKinds(n, OriginateFragmented(n, pn, frags, buffer, force, now))
  {
    hide SameKinds; hide WithdrawSet; hide IssueAll;
    var issued := IssueAll(n, pn, frags[..Count(frags)], buffer, force, now);
    KindsIssueAll(n, pn, frags[..Count(frags)], buffer, force, now);
    KindsWithdraw(issued, Stale(issued, pn, Count(frags)), now);
    KindsTrans(n, issued, OriginateFragmented(n, pn, frags, buffer, force, now));
  }

  /** A regeneration is sound, leaves circuits what they are, and owns only what it was asked to or what there was. */
  lemma {:induction false} RegenerateKeeps(n: Node, order: seq<Octet>, plan: Plan, buffer: nat, force: bool, now: nat)
    requires NoLoss(n) && Sound(n, now)
    ensures var n' := Regenerate(n, order, plan, buffer, force, now);
      NoLoss(n') && Sound(n', now) && SameKinds(n, n') && n'.cfg == n.cfg
  {
    hide NoLoss; hide Sound; hide SameKinds; hide OriginateFragmented;
    KindsTrivial(n);
    if order != [] {
      var k := |order| - 1;
      var before := Regenerate(n, order[..k], plan, buffer, force, now);
      RegenerateKeeps(n, order[..k], plan, buffer, force, now);
      FragmentedKeeps(before, order[k], Planned(plan, order[k]), buffer, force, now);
      KindsFragmented(before, order[k], Planned(plan, order[k]), buffer, force, now);
      KeepsConfig(before, order[k], Planned(plan, order[k]), buffer, force, now);
      KindsTrans(n, before, Regenerate(n, order, plan, buffer, force, now));
    }
  }

  lemma {:induction false} RegenerateOwns(n: Node, order: seq<Octet>, plan: Plan, buffer: nat, force: bool, now: nat, id: LspId)
    requires NoLoss(n) && Sound(n, now)
    requires LiveOwn(Regenerate(n, order, plan, buffer, force, now), id) && !LiveOwn(n, id)
    ensures id.node.system == n.cfg.self && id.node.pseudonode in plan
  {
    hide NoLoss; hide Sound; hide OriginateFragmented;
    if order != [] {
      var k := |order| - 1;
      var before := Regenerate(n, order[..k], plan, buffer, force, now);
      RegenerateKeeps(n, order[..k], plan, buffer, force, now);
      if !LiveOwn(before, id) {
        if id.node != NodeId(before.cfg.self, order[k]) {
          OthersUntouched(before, order[k], Planned(plan, order[k]), buffer, force, now, id);
        } else if order[k] !in plan {
          NoneAbove(before, order[k], [], buffer, force, now, id);
        }
      } else {
        RegenerateOwns(n, order[..k], plan, buffer, force, now, id);
      }
    }
  }

  lemma RegenerateCovers(n: Node, order: seq<Octet>, plan: Plan, buffer: nat, force: bool, now: nat)
    requires NoLoss(n) && Sound(n, now) && IsCovered(n) && IsRegeneration(n, order, plan)
    ensures IsCovered(Regenerate(n, order, plan, buffer, force, now))
  {
    hide NoLoss; hide Sound; hide Regenerate; hide SameKinds; hide LiveOwn;
    var n' := Regenerate(n, order, plan, buffer, force, now);
    RegenerateKeeps(n, order, plan, buffer, force, now);
    forall id | LiveOwn(n', id)
      ensures IsRefreshed(n', id)
    {
      if !LiveOwn(n, id) {
        RegenerateOwns(n, order, plan, buffer, force, now, id);
        if id.node.pseudonode != 0 { assert HasDis(n, id.node.pseudonode); }
      }
      StillRefreshed(n, n', id);
    }
  }

  // ---------- What a regeneration issues ----------

  lemma {:induction false} RegenerateLeaves(n: Node, order: seq<Octet>, plan: Plan, buffer: nat, force: bool, now: nat, id: LspId)
    requires id.node.system != n.cfg.self || id.node.pseudonode !in order
    ensures var n' := Regenerate(n, order, plan, buffer, force, now); n'.cfg == n.cfg && AgreeAt(n', n, id)
  {
    hide OriginateFragmented;
    if order != [] {
      var k := |order| - 1;
      RegenerateLeaves(n, order[..k], plan, buffer, force, now, id);
      OthersUntouched(Regenerate(n, order[..k], plan, buffer, force, now), order[k], Planned(plan, order[k]), buffer, force, now, id);
    }
  }

  /** What to issue for an octet: the fragments planned for it, and none where nothing is. */
  ghost predicate IsPlanned(plan: Plan, octet: Octet, frags: seq<Fragment>) {
    (octet in plan ==> frags == plan[octet]) && (octet !in plan ==> frags == [])
  }

  /** The live own LSPs of the node or pseudonode are exactly these fragments, numbered from 0. */
  ghost predicate Carries(n: Node, octet: Octet, frags: seq<Fragment>) {
    forall id: LspId :: id.node == NodeId(n.cfg.self, octet) ==>
      (LiveOwn(n, id) <==> id.fragment < |frags|) && (LiveOwn(n, id) && id.fragment < |frags| ==> n.db[id].body == frags[id.fragment].body)
  }

  lemma StillCarries(n: Node, n': Node, octet: Octet, frags: seq<Fragment>)
    requires Carries(n, octet, frags) && n'.cfg == n.cfg
    requires forall id: LspId :: id.node == NodeId(n.cfg.self, octet) ==> AgreeAt(n', n, id)
    ensures Carries(n', octet, frags)
  {
    forall id: LspId | id.node == NodeId(n.cfg.self, octet)
      ensures (LiveOwn(n', id) <==> LiveOwn(n, id)) && (LiveOwn(n, id) ==> n'.db[id].body == n.db[id].body)
    {
      assert AgreeAt(n', n, id);
    }
  }

  lemma StillIssuable(n: Node, n': Node, octet: Octet, frags: seq<Fragment>, buffer: nat, force: bool, now: nat)
    requires AllIssuable(n, octet, frags, buffer, force, now) && n'.cfg == n.cfg
    requires forall id: LspId :: id.node == NodeId(n.cfg.self, octet) ==> AgreeAt(n', n, id)
    ensures AllIssuable(n', octet, frags, buffer, force, now)
  {
    forall k | 0 <= k < |frags|
      ensures Issuable(n', FragId(n', octet, k), frags[k], buffer, force, now)
    {
      assert AgreeAt(n', n, FragId(n, octet, k)) && Issuable(n, FragId(n, octet, k), frags[k], buffer, force, now);
    }
  }

  /** Each octet visited once ends with exactly what was planned for it, when that could be issued. */
  lemma {:induction false} RegenerateIssues(n: Node, order: seq<Octet>, plan: Plan, buffer: nat, force: bool, now: nat,
                                            octet: Octet, frags: seq<Fragment>)
    requires NoLoss(n) && Sound(n, now) && octet in order && forall i, j :: 0 <= i < j < |order| ==> order[i] != order[j]
    requires IsPlanned(plan, octet, frags) && AllIssuable(n, octet, frags, buffer, force, now)
    ensures Carries(Regenerate(n, order, plan, buffer, force, now), octet, frags)
  {
    hide NoLoss; hide Sound; hide OriginateFragmented; hide AllIssuable; hide SameKinds; hide LiveOwn; hide AgreeAt;
    var k := |order| - 1;
    var before, after := Regenerate(n, order[..k], plan, buffer, force, now), Regenerate(n, order, plan, buffer, force, now);
    RegenerateKeeps(n, order[..k], plan, buffer, force, now);
    KeepsConfig(before, order[k], Planned(plan, order[k]), buffer, force, now);
    if order[k] == octet {
      forall id: LspId | id.node == NodeId(n.cfg.self, octet)
        ensures AgreeAt(before, n, id)
      {
        RegenerateLeaves(n, order[..k], plan, buffer, force, now, id);
      }
      StillIssuable(n, before, octet, frags, buffer, force, now);
      forall id: LspId | id.node == NodeId(n.cfg.self, octet)
        ensures LiveOwn(after, id) <==> id.fragment < |frags|
        ensures id.fragment < |frags| ==> id in after.db && after.db[id].body == frags[id.fragment].body
      {
        ExactlyTheFragments(before, octet, frags, buffer, force, now, id);
        LiveIsHeld(after, id);
      }
    } else {
      RegenerateIssues(n, order[..k], plan, buffer, force, now, octet, frags);
      forall id: LspId | id.node == NodeId(n.cfg.self, octet)
        ensures AgreeAt(after, before, id)
      {
        OthersUntouched(before, order[k], Planned(plan, order[k]), buffer, force, now, id);
      }
      StillCarries(before, after, octet, frags);
    }
  }

  lemma LiveIsHeld(n: Node, id: LspId)
    ensures LiveOwn(n, id) ==> id in n.db
  {
  }

  // ---------- A forced regeneration leaves nothing overdue ----------

  ghost predicate FitsAndWaits(frags: seq<Fragment>, buffer: nat, now: nat) {
    forall k :: 0 <= k < |frags| ==> frags[k].size <= buffer && frags[k].deadline > now
  }

  /** After a forced origination every live fragment has a deadline still to come. */
  lemma ForcedIsFresh(n: Node, pn: Octet, frags: seq<Fragment>, buffer: nat, now: nat, id: LspId)
    requires Sound(n, now) && FitsAndWaits(frags, buffer, now) && id.node == NodeId(n.cfg.self, pn)
    requires LiveOwn(OriginateFragmented(n, pn, frags, buffer, true, now), id)
    ensures OriginateFragmented(n, pn, frags, buffer, true, now).db[id].refreshAt > now
  {
    hide FloodSet; hide FloodOn;
    var count := Count(frags);
    var issued := IssueAll(n, pn, frags[..count], buffer, true, now);
    IssueAllAt(n, pn, frags[..count], buffer, true, now, id);
    assert id in issued.db ==> (id in Stale(issued, pn, count) <==> IsStale(issued, pn, count, id));
    if id.fragment < count {
      var f := frags[id.fragment];
      if id in n.db { assert HoldsDown(n, id, now); }
      assert AgreeAt(issued, Originate(n, id, f.body, f.size, buffer, true, now, f.deadline), id);
    }
  }

  lemma {:induction false} VisitedIsFresh(n: Node, order: seq<Octet>, plan: Plan, buffer: nat, now: nat, id: LspId)
    requires NoLoss(n) && Sound(n, now) && id.node.system == n.cfg.self && id.node.pseudonode in order
    requires forall octet :: octet in plan ==> FitsAndWaits(plan[octet], buffer, now)
    requires LiveOwn(Regenerate(n, order, plan, buffer, true, now), id)
    ensures Regenerate(n, order, plan, buffer, true, now).db[id].refreshAt > now
  {
    hide NoLoss; hide Sound; hide OriginateFragmented;
    var k := |order| - 1;
    var before := Regenerate(n, order[..k], plan, buffer, true, now);
    RegenerateKeeps(n, order[..k], plan, buffer, true, now);
    if order[k] == id.node.pseudonode {
      ForcedIsFresh(before, order[k], Planned(plan, order[k]), buffer, now, id);
    } else {
      OthersUntouched(before, order[k], Planned(plan, order[k]), buffer, true, now, id);
      VisitedIsFresh(n, order[..k], plan, buffer, now, id);
    }
  }

  predicate Overdue(n: Node, id: LspId, now: nat) {
    LiveOwn(n, id) && n.db[id].refreshAt <= now
  }

  /** Because every own LSP is covered, a forced regeneration reaches them all. */
  lemma ForcedLeavesNoneOverdue(n: Node, order: seq<Octet>, plan: Plan, buffer: nat, now: nat, id: LspId)
    requires NoLoss(n) && Sound(n, now) && IsCovered(n) && IsRegeneration(n, order, plan)
    requires forall octet :: octet in plan ==> FitsAndWaits(plan[octet], buffer, now)
    ensures !Overdue(Regenerate(n, order, plan, buffer, true, now), id, now)
  {
    hide NoLoss; hide Sound; hide Regenerate; hide SameKinds;
    var n' := Regenerate(n, order, plan, buffer, true, now);
    if LiveOwn(n', id) {
      RegenerateCovers(n, order, plan, buffer, true, now);
      RegenerateKeeps(n, order, plan, buffer, true, now);
      assert IsRefreshed(n', id);
      KindsSym(n, n');
      StillRefreshed(n', n, id);
      VisitedIsFresh(n, order, plan, buffer, now, id);
    }
  }

  lemma KindsSym(a: Node, b: Node)
    requires SameKinds(a, b)
    ensures SameKinds(b, a)
  {
    forall c | c in b.circuits
      ensures SameKind(b.circuits[c], a.circuits[c])
    {
      assert SameKind(a.circuits[c], b.circuits[c]);
    }
  }
}
