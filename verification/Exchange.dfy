/** A whole exchange of CSNPs with a node's database and flooding flags, in the order copies supersede each other. */
module Exchange {
  import opened Types
  import opened Lsdb
  import opened Sequencing
  import Snp
  import Csnp

  lemma CodeFits(id: LspId)
    ensures Code(id) < 0x1_0000_0000_0000_0000
  {
  }

  /** Identifiers are told apart by the numbers their ranges are compared by. */
  lemma CodeIsInjective(a: LspId, b: LspId)
    requires Code(a) == Code(b)
    ensures a == b
  {
    var x, y := a.node.system * 256 + a.node.pseudonode, b.node.system * 256 + b.node.pseudonode;
    assert Code(a) == x * 256 + a.fragment && Code(b) == y * 256 + b.fragment;
    assert x == y && a.fragment == b.fragment;
    assert a.node.system == b.node.system && a.node.pseudonode == b.node.pseudonode;
  }

  /** The numbers order identifiers octet by octet: the system first, then the pseudonode octet, then the fragment. */
  lemma CodeOrders(a: LspId, b: LspId)
    ensures Code(a) < Code(b) <==>
            || a.node.system < b.node.system
            || (a.node.system == b.node.system &&
                (a.node.pseudonode < b.node.pseudonode || (a.node.pseudonode == b.node.pseudonode && a.fragment < b.fragment)))
  {
    Snp.LeadingDigit(a.node.system, b.node.system, 65536, a.node.pseudonode * 256 + a.fragment, b.node.pseudonode * 256 + b.fragment);
    Snp.LeadingDigit(a.node.pseudonode, b.node.pseudonode, 256, a.fragment, b.fragment);
  }

  function IdOf(id: LspId): Snp.Id {
    CodeFits(id);
    Code(id)
  }

  function Coded(listed: seq<SnpEntry>): (r: seq<Csnp.Entry>)
    ensures |r| == |listed|
    ensures forall i :: 0 <= i < |r| ==> r[i] == Csnp.Entry(IdOf(listed[i].id), Snp.Summary(listed[i].seqno, listed[i].remaining, listed[i].checksum))
  {
    if listed == [] then []
    else
      var s := listed[|listed| - 1];
      Coded(listed[..|listed| - 1]) + [Csnp.Entry(IdOf(s.id), Snp.Summary(s.seqno, s.remaining, s.checksum))]
  }

  lemma {:induction false} EntriesCompare(x: Circuit, db: Database, listed: seq<SnpEntry>, now: nat, id: LspId)
    ensures FlagsOf(CsnpEntries(x, db, listed, now), id) ==
            Csnp.ListedFor(FlagsOf(x, id), Described(db, id, now), Coded(listed), IdOf(id))
  {
    hide CsnpEntry; hide Snp.Listed; hide FlagsOf; hide Described;
    if listed != [] {
      var before, s := listed[..|listed| - 1], listed[|listed| - 1];
      EntriesCompare(x, db, before, now, id);
      assert Coded(listed)[..|before|] == Coded(before);
      EntryComparesSummaries(CsnpEntries(x, db, before, now), db, s, now, id);
      if IdOf(s.id) == IdOf(id) { CodeIsInjective(s.id, id); }
    }
  }

  lemma CodedLists(listed: seq<SnpEntry>, id: LspId)
    ensures Csnp.Lists(Coded(listed), IdOf(id)) <==> Lists(listed, id)
  {
    if i :| 0 <= i < |listed| && Coded(listed)[i].id == IdOf(id) {
      CodeIsInjective(listed[i].id, id);
    }
    if i :| 0 <= i < |listed| && listed[i].id == id {
      assert Coded(listed)[i].id == IdOf(id);
    }
  }

  lemma ArmedFlags(x: Circuit, ids: set<LspId>, now: nat, id: LspId)
    ensures FlagsOf(ArmAll(x, ids, now), id) == if id in ids then FlagsOf(x, id).(srm := true) else FlagsOf(x, id)
  {
  }

  /** Receiving a CSNP moves the flags of every LSP as comparing summaries does: by its lines, or by being left out. */
  lemma CsnpCompares(n: Node, c: CircuitId, pdu: Csnp.Pdu, listed: seq<SnpEntry>, now: nat, id: LspId)
    requires c in n.circuits && Csnp.Flat(pdu.tlvs) == Coded(listed)
    ensures FlagsOf(ReceiveCsnp(n, c, pdu.start, pdu.end, listed, now).circuits[c], id) ==
            Csnp.Received(FlagsOf(n.circuits[c], id), Described(n.db, id, now), pdu, IdOf(id))
  {
    hide CsnpEntries; hide FlagsOf; hide ArmAll; hide Lists; hide Csnp.Lists; hide Csnp.Flat; hide Csnp.ListedFor;
    var x := n.circuits[c];
    EntriesCompare(x, n.db, listed, now, id);
    CodedLists(listed, id);
    ArmedFlags(CsnpEntries(x, n.db, listed, now), Omitted(n.db, pdu.start, pdu.end, listed), now, id);
    if !Lists(listed, id) {
      Csnp.Unlisted(FlagsOf(x, id), Described(n.db, id, now), Coded(listed), IdOf(id));
    }
  }

  /** The lines of each PDU, as received. */
  ghost predicate Carries(pdus: seq<Csnp.Pdu>, lines: seq<seq<SnpEntry>>) {
    |pdus| == |lines| && forall k :: 0 <= k < |pdus| ==> Csnp.Flat(pdus[k].tlvs) == Coded(lines[k])
  }

  /** PDUs received one after another, in some order, with losses and repeats. */
  function AfterAll(n: Node, c: CircuitId, pdus: seq<Csnp.Pdu>, lines: seq<seq<SnpEntry>>, order: seq<nat>, now: nat): (r: Node)
    requires c in n.circuits && |pdus| == |lines| && forall i :: 0 <= i < |order| ==> order[i] < |pdus|
    ensures r.circuits.Keys == n.circuits.Keys && r.db == n.db
  {
    if order == [] then n
    else
      var k := order[|order| - 1];
      ReceiveCsnp(AfterAll(n, c, pdus, lines, order[..|order| - 1], now), c, pdus[k].start, pdus[k].end, lines[k], now)
  }

  lemma {:induction false} AllCompare(n: Node, c: CircuitId, pdus: seq<Csnp.Pdu>, lines: seq<seq<SnpEntry>>, order: seq<nat>, now: nat, id: LspId)
    requires c in n.circuits && Carries(pdus, lines) && forall i :: 0 <= i < |order| ==> order[i] < |pdus|
    ensures FlagsOf(AfterAll(n, c, pdus, lines, order, now).circuits[c], id) ==
            Csnp.ReceivedAll(FlagsOf(n.circuits[c], id), Described(n.db, id, now), pdus, order, IdOf(id))
  {
    hide FlagsOf; hide Described; hide ReceiveCsnp; hide Csnp.Received;
    if order != [] {
      var init, k := order[..|order| - 1], order[|order| - 1];
      AllCompare(n, c, pdus, lines, init, now, id);
      CsnpCompares(AfterAll(n, c, pdus, lines, init, now), c, pdus[k], lines[k], now, id);
    }
  }

  /** What one side should send and ask for, given what each holds and the order copies supersede each other in. */
  ghost predicate Settled(f: Snp.Flags, here: Option<Snp.Summary>, there: Option<Snp.Summary>) {
    && (f.ssn <==> there.Some? && (here.None? || Snp.Rank(there.value) > Snp.Rank(here.value)))
    && (f.srm <==> here.Some? && (there.None? || Snp.Conflicts(here.value, there.value) ||
                                  (Snp.Rank(here.value) > Snp.Rank(there.value) && !HiddenPurge(here.value, there.value))))
  }

  /** A purge, against a live copy at its own number. */
  predicate HiddenPurge(here: Snp.Summary, there: Snp.Summary) {
    here.seqno == there.seqno && here.remaining == 0 && there.remaining != 0
  }

  /**
   * Once every PDU of a neighbour's split has arrived, in any order and any number of times, the node is to ask for
   * exactly what ranks higher at the neighbour, and to send exactly what ranks higher here or conflicts, except a
   * purge the neighbour lists as live at its own number.
   */
  lemma ExchangeSettles(n: Node, c: CircuitId, sender: Csnp.Database, entries: seq<Csnp.Entry>, pdus: seq<Csnp.Pdu>, cuts: seq<nat>,
                        budget: nat, lines: seq<seq<SnpEntry>>, order: seq<nat>, now: nat, id: LspId)
    requires c in n.circuits && id !in n.circuits[c].srm && id !in n.circuits[c].ssn
    requires Csnp.Describes(entries, sender) && Csnp.IsSplit(entries, pdus, cuts, budget) && Carries(pdus, lines)
    requires (forall i :: 0 <= i < |order| ==> order[i] < |pdus|) && forall k :: 0 <= k < |pdus| ==> k in order
    ensures Settled(FlagsOf(AfterAll(n, c, pdus, lines, order, now).circuits[c], id), Described(n.db, id, now),
                    Csnp.Lookup(sender, IdOf(id)))
  {
    hide Csnp.Describes; hide Csnp.IsSplit; hide Carries; hide AfterAll; hide Csnp.ReceivedAll; hide Snp.Reconciled; hide Snp.Rank;
    hide Remaining; hide Settled;
    AllCompare(n, c, pdus, lines, order, now, id);
    var here, there := Described(n.db, id, now), Csnp.Lookup(sender, IdOf(id));
    var receiver: Csnp.Database := if here.Some? then map[IdOf(id) := here.value] else map[];
    assert Csnp.Lookup(receiver, IdOf(id)) == here;
    Csnp.CompleteExchange(sender, receiver, entries, pdus, cuts, budget, order, IdOf(id));
    ReconciledIsSettled(here, there);
  }

  lemma ReconciledIsSettled(here: Option<Snp.Summary>, there: Option<Snp.Summary>)
    ensures Settled(Snp.Reconciled(here, there), here, there)
  {
    if here.Some? && there.Some? {
      Snp.ReconciledByRank(here.value, there.value);
    }
  }
}
