/** Fragmented origination of a node's own LSPs, and the purge of fragments it no longer needs. */
module Origination {
  import opened Types
  import opened Lsdb
  import opened Flooding
  import opened Sequencing
  import opened UpdateProcess

  /** One fragment to be issued; the refresh deadline carries the jitter drawn for it. */
  datatype Fragment = Fragment(body: Body, size: nat, deadline: nat)

  function FragId(n: Node, pn: Octet, k: nat): LspId
    requires k < 256
  {
    LspId(NodeId(n.cfg.self, pn), k)
  }

  /** An own copy that is not a purge. */
  predicate LiveOwn(n: Node, id: LspId) {
    id in n.db && n.db[id].own && n.db[id].purgedAt.None?
  }

  /** Issue the fragments in order. */
  function IssueAll(n: Node, pn: Octet, frags: seq<Fragment>, buffer: nat, force: bool, now: nat): Node
    requires |frags| <= 256
  {
    if frags == [] then n
    else
      var k := |frags| - 1;
      Originate(IssueAll(n, pn, frags[..k], buffer, force, now), FragId(n, pn, k),
                frags[k].body, frags[k].size, buffer, force, now, frags[k].deadline)
  }

  /** Own live fragments of a node or pseudonode numbered `keep` or above. */
  function Stale(n: Node, pn: Octet, keep: nat): set<LspId> {
    set id | id in n.db && IsStale(n, pn, keep, id)
  }

  predicate IsStale(n: Node, pn: Octet, keep: nat, id: LspId) {
    LiveOwn(n, id) && id.node == NodeId(n.cfg.self, pn) && id.fragment >= keep
  }

  function WithdrawnEntry(n: Node, id: LspId, now: nat): Entry
    requires id in n.db
  {
    PurgeEntry(n, id, if n.db[id].seqno == MAX_SEQ then MAX_SEQ else n.db[id].seqno + 1, true, now)
  }

  function WithdrawnDb(n: Node, ids: set<LspId>, now: nat): Database {
    map id | id in n.db :: if id in ids then WithdrawnEntry(n, id, now) else n.db[id]
  }

  predicate Exhausts(n: Node, ids: set<LspId>, id: LspId) {
    id in ids && id in n.db && n.db[id].seqno == MAX_SEQ
  }

  function WithdrawnHold(n: Node, ids: set<LspId>, now: nat): map<LspId, nat> {
    map id | id in n.wrapUntil.Keys + ids && (id in n.wrapUntil || Exhausts(n, ids, id)) ::
      if Exhausts(n, ids, id) then now + SEQ_WRAP_HOLD else n.wrapUntil[id]
  }

  /** A set of LSPs purged at the next number, or at the top with a hold-down when there is none. */
  function WithdrawSet(n: Node, ids: set<LspId>, now: nat): Node {
    n.(db := WithdrawnDb(n, ids, now), circuits := FloodSet(n.circuits, ids, now), wrapUntil := WithdrawnHold(n, ids, now))
  }

  function Count(frags: seq<Fragment>): nat {
    if |frags| <= 256 then |frags| else 256
  }

  /** Issue every fragment there is a number for, then purge what a larger earlier origination left behind. */
  function OriginateFragmented(n: Node, pn: Octet, frags: seq<Fragment>, buffer: nat, force: bool, now: nat): Node {
    var issued := IssueAll(n, pn, frags[..Count(frags)], buffer, force, now);
    WithdrawSet(issued, Stale(issued, pn, Count(frags)), now)
  }

  // ---------- One fragment ----------

  /** The identifier can be given its next number. */
  predicate Numbered(n: Node, id: LspId) {
    id in n.db ==> n.db[id].seqno < MAX_SEQ
  }

  predicate Unchanged(n: Node, id: LspId, body: Body) {
    LiveOwn(n, id) && n.db[id].body == body
  }

  /** What the call needs for the fragment to be live with these contents afterwards. */
  predicate Issuable(n: Node, id: LspId, f: Fragment, buffer: nat, force: bool, now: nat) {
    && !HeldDown(n, id, now)
    && ((Unchanged(n, id, f.body) && !force) || (Numbered(n, id) && (f.size <= buffer || Unchanged(n, id, f.body))))
  }

  /** A fragment ends live with its contents exactly when it is issuable. */
  lemma IssuedIff(n: Node, id: LspId, f: Fragment, buffer: nat, force: bool, now: nat)
    requires Sound(n, now)
    ensures Unchanged(Originate(n, id, f.body, f.size, buffer, force, now, f.deadline), id, f.body)
      <==> Issuable(n, id, f, buffer, force, now)
  {
    if id in n.db { assert HoldsDown(n, id, now); }
    hide FloodOn;
  }

  /** Two nodes that agree about one identifier. */
  predicate AgreeAt(a: Node, b: Node, id: LspId) {
    Get(a, id) == Get(b, id) && (id in a.wrapUntil <==> id in b.wrapUntil) && (id in a.wrapUntil ==> a.wrapUntil[id] == b.wrapUntil[id])
  }

  /** Originating one identifier writes nothing recorded about another. */
  lemma OriginateWrites(n: Node, id: LspId, f: Fragment, buffer: nat, force: bool, now: nat, k: LspId)
    ensures var n' := Originate(n, id, f.body, f.size, buffer, force, now, f.deadline);
      n'.cfg == n.cfg && (k != id ==> AgreeAt(n', n, k))
  {
    hide FloodOn;
  }

  /** And reads nothing recorded about another. */
  lemma OriginateReads(a: Node, b: Node, id: LspId, f: Fragment, buffer: nat, force: bool, now: nat)
    requires a.cfg == b.cfg && AgreeAt(a, b, id)
    ensures AgreeAt(Originate(a, id, f.body, f.size, buffer, force, now, f.deadline),
                    Originate(b, id, f.body, f.size, buffer, force, now, f.deadline), id)
  {
    hide FloodOn;
    assert id in a.db <==> id in b.db;
    if id in a.db && a.db[id].seqno < MAX_SEQ {
      assert a.db[id] == b.db[id];
    }
  }

  /** In a whole origination each fragment is issued as if it were alone, and no other identifier is touched. */
  lemma {:induction false} IssueAllAt(n: Node, pn: Octet, frags: seq<Fragment>, buffer: nat, force: bool, now: nat, id: LspId)
    requires |frags| <= 256
    ensures IssueAll(n, pn, frags, buffer, force, now).cfg == n.cfg
    ensures id.node == NodeId(n.cfg.self, pn) && id.fragment < |frags| ==>
      var f := frags[id.fragment];
      AgreeAt(IssueAll(n, pn, frags, buffer, force, now), Originate(n, id, f.body, f.size, buffer, force, now, f.deadline), id)
    ensures !(id.node == NodeId(n.cfg.self, pn) && id.fragment < |frags|) ==>
      AgreeAt(IssueAll(n, pn, frags, buffer, force, now), n, id)
  {
    hide Originate; hide AgreeAt;
    AgreeSelf(n, id);
    if frags != [] {
      var k := |frags| - 1;
      var before := IssueAll(n, pn, frags[..k], buffer, force, now);
      IssueAllAt(n, pn, frags[..k], buffer, force, now, id);
      OriginateWrites(before, FragId(n, pn, k), frags[k], buffer, force, now, id);
      if id == FragId(n, pn, k) {
        OriginateReads(before, n, id, frags[k], buffer, force, now);
      } else {
        var after := IssueAll(n, pn, frags, buffer, force, now);
        if id.node == NodeId(n.cfg.self, pn) && id.fragment < k {
          var f := frags[id.fragment];
          AgreeTrans(after, before, Originate(n, id, f.body, f.size, buffer, force, now, f.deadline), id);
        } else {
          AgreeTrans(after, before, n, id);
        }
      }
    }
  }

  lemma AgreeSelf(a: Node, id: LspId)
    ensures AgreeAt(a, a, id)
  {
  }

  lemma AgreeTrans(a: Node, b: Node, c: Node, id: LspId)
    requires AgreeAt(a, b, id) && AgreeAt(b, c, id)
    ensures AgreeAt(a, c, id)
  {
  }

  // ---------- The whole set ----------

  /** Every fragment can be issued. */
  ghost predicate AllIssuable(n: Node, pn: Octet, frags: seq<Fragment>, buffer: nat, force: bool, now: nat) {
    |frags| <= 256 && forall k :: 0 <= k < |frags| ==> Issuable(n, FragId(n, pn, k), frags[k], buffer, force, now)
  }

  /** Afterwards the live own fragments are exactly 0 to n - 1, each with its contents. */
  lemma ExactlyTheFragments(n: Node, pn: Octet, frags: seq<Fragment>, buffer: nat, force: bool, now: nat, id: LspId)
    requires Sound(n, now) && AllIssuable(n, pn, frags, buffer, force, now)
    requires id.node == NodeId(n.cfg.self, pn)
    ensures var n' := OriginateFragmented(n, pn, frags, buffer, force, now);
      && (LiveOwn(n', id) <==> id.fragment < |frags|)
      && (id.fragment < |frags| ==> n'.db[id].body == frags[id.fragment].body)
  {
    hide Originate; hide FloodSet;
    assert frags[..Count(frags)] == frags;
    var issued := IssueAll(n, pn, frags, buffer, force, now);
    IssueAllAt(n, pn, frags, buffer, force, now, id);
    if id.fragment < |frags| {
      assert Issuable(n, FragId(n, pn, id.fragment), frags[id.fragment], buffer, force, now);
      IssuedIff(n, id, frags[id.fragment], buffer, force, now);
    }
    assert id in Stale(issued, pn, |frags|) <==> IsStale(issued, pn, |frags|, id);
  }

  /** A fragment number is one octet: of a longer list the first 256 are issued and the rest is left out. */
  lemma OnlyTheFirst(n: Node, pn: Octet, frags: seq<Fragment>, buffer: nat, force: bool, now: nat)
    requires |frags| > 256
    ensures OriginateFragmented(n, pn, frags, buffer, force, now) == OriginateFragmented(n, pn, frags[..256], buffer, force, now)
  {
    hide IssueAll; hide WithdrawSet;
    assert frags[..256][..256] == frags[..256];
  }

  /** Nothing above the count survives, whatever the fragments were. */
  lemma NoneAbove(n: Node, pn: Octet, frags: seq<Fragment>, buffer: nat, force: bool, now: nat, id: LspId)
    requires id.node == NodeId(n.cfg.self, pn) && id.fragment >= |frags|
    ensures !LiveOwn(OriginateFragmented(n, pn, frags, buffer, force, now), id)
  {
    hide Originate; hide FloodSet;
    assert frags[..Count(frags)] == frags;
    var issued := IssueAll(n, pn, frags, buffer, force, now);
    IssueAllAt(n, pn, frags, buffer, force, now, id);
    assert id in Stale(issued, pn, |frags|) <==> IsStale(issued, pn, |frags|, id);
  }

  /** An identifier of another node or pseudonode is left as it was. */
  lemma OthersUntouched(n: Node, pn: Octet, frags: seq<Fragment>, buffer: nat, force: bool, now: nat, id: LspId)
    requires id.node != NodeId(n.cfg.self, pn)
    ensures AgreeAt(OriginateFragmented(n, pn, frags, buffer, force, now), n, id)
    ensures OriginateFragmented(n, pn, frags, buffer, force, now).cfg == n.cfg
  {
    hide Originate; hide FloodSet;
    IssueAllAt(n, pn, frags[..Count(frags)], buffer, force, now, id);
  }

  /** Issuing what is already there changes nothing. */
  lemma {:induction false} ReissueIsIdle(n: Node, pn: Octet, frags: seq<Fragment>, buffer: nat, now: nat)
    requires |frags| <= 256 && forall k :: 0 <= k < |frags| ==> Unchanged(n, FragId(n, pn, k), frags[k].body)
    ensures IssueAll(n, pn, frags, buffer, false, now) == n
  {
    if frags != [] {
      var k := |frags| - 1;
      assert Unchanged(n, FragId(n, pn, k), frags[k].body);
      ReissueIsIdle(n, pn, frags[..k], buffer, now);
    }
  }

  /** Repeating an origination at once, or at any later time, is a no-op: no number moves and nothing is flooded. */
  lemma RepeatIsIdle(n: Node, pn: Octet, frags: seq<Fragment>, buffer: nat, force: bool, now: nat, later: nat)
    requires Sound(n, now) && AllIssuable(n, pn, frags, buffer, force, now)
    ensures var n' := OriginateFragmented(n, pn, frags, buffer, force, now);
      OriginateFragmented(n', pn, frags, buffer, false, later) == n'
  {
    hide Originate; hide IssueAll;
    var n' := OriginateFragmented(n, pn, frags, buffer, force, now);
    KeepsConfig(n, pn, frags, buffer, force, now);
    forall k | 0 <= k < |frags|
      ensures Unchanged(n', FragId(n', pn, k), frags[k].body)
    {
      ExactlyTheFragments(n, pn, frags, buffer, force, now, FragId(n, pn, k));
    }
    ReissueIsIdle(n', pn, frags, buffer, later);
    assert frags[..Count(frags)] == frags;
    forall id | id in n'.db
      ensures !IsStale(n', pn, |frags|, id)
    {
      if id.node == NodeId(n.cfg.self, pn) { ExactlyTheFragments(n, pn, frags, buffer, force, now, id); }
    }
    assert Stale(n', pn, |frags|) == {};
    WithdrawNone(n', later);
  }

  lemma KeepsConfig(n: Node, pn: Octet, frags: seq<Fragment>, buffer: nat, force: bool, now: nat)
    ensures OriginateFragmented(n, pn, frags, buffer, force, now).cfg == n.cfg
  {
    IssueAllAt(n, pn, frags[..Count(frags)], buffer, force, now, FragId(n, pn, 0));
  }

  lemma WithdrawNone(n: Node, now: nat)
    ensures WithdrawSet(n, {}, now) == n
  {
    assert WithdrawnDb(n, {}, now) == n.db;
    assert WithdrawnHold(n, {}, now) == n.wrapUntil;
    FloodNone(n.circuits, now);
  }

  // ---------- An origination is a sequence of steps ----------

  lemma {:induction false} IssueAllKeeps(n: Node, pn: Octet, frags: seq<Fragment>, buffer: nat, force: bool, now: nat)
    requires |frags| <= 256 && NoLoss(n) && Sound(n, now)
    ensures NoLoss(IssueAll(n, pn, frags, buffer, force, now)) && Sound(IssueAll(n, pn, frags, buffer, force, now), now)
  {
    hide NoLoss; hide Sound; hide Originate;
    if frags != [] {
      var k := |frags| - 1;
      var before := IssueAll(n, pn, frags[..k], buffer, force, now);
      IssueAllKeeps(n, pn, frags[..k], buffer, force, now);
      IssueAllAt(n, pn, frags[..k], buffer, force, now, FragId(n, pn, k));
      var s := Originated(FragId(n, pn, k), frags[k].body, frags[k].size, buffer, force, frags[k].deadline);
      StepKeepsCover(before, s, now);
      StepSound(before, s, now);
    }
  }

  lemma {:induction false} WithdrawKeeps(n: Node, ids: set<LspId>, now: nat)
    requires NoLoss(n) && Sound(n, now) && forall id :: id in ids ==> LiveOwn(n, id)
    ensures NoLoss(WithdrawSet(n, ids, now)) && Sound(WithdrawSet(n, ids, now), now)
    decreases |ids|
  {
    hide NoLoss; hide Sound; hide PurgeOwn; hide WithdrawSet;
    if ids == {} {
      WithdrawNone(n, now);
    } else {
      var id :| id in ids;
      WithdrawKeeps(n, ids - {id}, now);
      WithdrawOneMore(n, ids - {id}, id, now);
      assert ids - {id} + {id} == ids;
      WithdrawLeaves(n, ids - {id}, id, 0, 0, now);
      StepKeepsCover(WithdrawSet(n, ids - {id}, now), Purged(id), now);
      StepSound(WithdrawSet(n, ids - {id}, now), Purged(id), now);
    }
  }

  /** So it keeps every neighbour covered, every number sound and every hold-down. */
  lemma FragmentedKeeps(n: Node, pn: Octet, frags: seq<Fragment>, buffer: nat, force: bool, now: nat)
    requires NoLoss(n) && Sound(n, now)
    ensures NoLoss(OriginateFragmented(n, pn, frags, buffer, force, now))
    ensures Sound(OriginateFragmented(n, pn, frags, buffer, force, now), now)
  {
    hide NoLoss; hide Sound; hide WithdrawSet; hide IssueAll;
    IssueAllKeeps(n, pn, frags[..Count(frags)], buffer, force, now);
    var issued := IssueAll(n, pn, frags[..Count(frags)], buffer, force, now);
    WithdrawKeeps(issued, Stale(issued, pn, Count(frags)), now);
  }

  // ---------- As the server does it ----------

  lemma WithdrawOneMore(n: Node, ids: set<LspId>, id: LspId, now: nat)
    requires id in n.db && id !in ids
    ensures PurgeOwn(WithdrawSet(n, ids, now), id, now) == WithdrawSet(n, ids + {id}, now)
  {
    var a, b := WithdrawSet(n, ids, now), WithdrawSet(n, ids + {id}, now);
    FloodOneMore(n.circuits, ids, id, now);
    WithdrawnDbStep(n, ids, id, now);
    WithdrawnHoldStep(n, ids, id, now);
    hide FloodSet; hide FloodOn; hide WithdrawnDb; hide WithdrawnHold;
  }

  lemma WithdrawnDbStep(n: Node, ids: set<LspId>, id: LspId, now: nat)
    requires id in n.db && id !in ids
    ensures id in WithdrawnDb(n, ids, now) && WithdrawnDb(n, ids, now)[id] == n.db[id]
    ensures WithdrawnDb(n, ids + {id}, now) == WithdrawnDb(n, ids, now)[id := WithdrawnEntry(n, id, now)]
  {
    hide WithdrawnEntry;
  }

  lemma WithdrawnHoldStep(n: Node, ids: set<LspId>, id: LspId, now: nat)
    requires id in n.db && id !in ids
    ensures WithdrawnHold(n, ids + {id}, now) ==
      if n.db[id].seqno == MAX_SEQ then WithdrawnHold(n, ids, now)[id := now + SEQ_WRAP_HOLD] else WithdrawnHold(n, ids, now)
  {
    var a, b := WithdrawnHold(n, ids, now), WithdrawnHold(n, ids + {id}, now);
    assert forall k :: k != id ==> (Exhausts(n, ids + {id}, k) <==> Exhausts(n, ids, k));
    assert forall k :: k != id ==> (k in a <==> k in b);
    assert forall k :: k != id && k in a ==> a[k] == b[k];
  }

  method PurgeStaleFragments(s: Server, pn: Octet, keep: nat, now: nat)
    requires s.Valid()
    modifies s`db, s`wrapUntil, s.circuits
    ensures s.Valid() && s.circuits == old(s.circuits)
    ensures s.State() == WithdrawSet(old(s.State()), Stale(old(s.State()), pn, keep), now)
  {
    hide WithdrawSet; hide PurgeOwn; hide Values; hide IsStale;
    ghost var before := s.State();
    ghost var done: set<LspId> := {};
    var left := s.db.Keys;
    WithdrawNone(before, now);
    while left != {}
      invariant s.Valid() && s.circuits == old(s.circuits)
      invariant left <= before.db.Keys && done !! left && done <= Stale(before, pn, keep) <= done + left
      invariant s.State() == WithdrawSet(before, done, now)
      decreases |left|
    {
      var id :| id in left;
      WithdrawLeaves(before, done, id, pn, keep, now);
      var e := s.db[id];
      if e.own && e.purgedAt.None? && id.node.system == s.cfg.self && id.node.pseudonode == pn && id.fragment >= keep {
        WithdrawOneMore(before, done, id, now);
        s.Withdraw(id, now);
        done := done + {id};
      }
      left := left - {id};
    }
    assert done == Stale(before, pn, keep);
  }

  /** An entry not yet visited is as it was. */
  lemma WithdrawLeaves(n: Node, ids: set<LspId>, id: LspId, pn: Octet, keep: nat, now: nat)
    requires id in n.db && id !in ids
    ensures var n' := WithdrawSet(n, ids, now); id in n'.db && n'.db[id] == n.db[id] && n'.cfg == n.cfg
    ensures id in Stale(n, pn, keep) <==>
      n.db[id].own && n.db[id].purgedAt.None? && id.node.system == n.cfg.self && id.node.pseudonode == pn && id.fragment >= keep
  {
  }

  method OriginateAll(s: Server, pn: Octet, frags: seq<Fragment>, buffer: nat, force: bool, now: nat)
    requires s.Valid()
    modifies s`db, s`wrapUntil, s.circuits
    ensures s.Valid() && s.circuits == old(s.circuits)
    ensures s.State() == OriginateFragmented(old(s.State()), pn, frags, buffer, force, now)
  {
    hide Originate; hide WithdrawSet; hide Stale; hide Values;
    ghost var before := s.State();
    var i := 0;
    while i < |frags|
      invariant i <= Count(frags) && s.Valid() && s.circuits == old(s.circuits)
      invariant s.State() == IssueAll(before, pn, frags[..i], buffer, force, now)
    {
      if i > 255 { break; }
      assert frags[..i + 1][..i] == frags[..i];
      s.Issue(LspId(NodeId(s.cfg.self, pn), i), frags[i].body, frags[i].size, buffer, force, now, frags[i].deadline);
      i := i + 1;
    }
    assert i == Count(frags);
    PurgeStaleFragments(s, pn, if |frags| > 256 then 256 else |frags|, now);
  }
}
