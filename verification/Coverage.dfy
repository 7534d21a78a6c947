/** Which own LSPs can exist: circuits come and go, and no own LSP outlives what refreshes it. */
module Coverage {
  import opened Types
  import opened Lsdb
  import opened Flooding
  import opened Sequencing
  import opened Origination

  // ---------- Pseudonode octets ----------

  /** The octet after a given one, in the cycle 1 to 255. */
  function After(cursor: Octet): Octet {
    cursor % 255 + 1
  }

  function Ahead(cursor: Octet, k: nat): Octet {
    if k == 0 then cursor else After(Ahead(cursor, k - 1))
  }

  /** The first octet at or after the next place in the cycle that no circuit uses. */
  ghost predicate IsNextFree(cursor: Octet, used: set<Octet>, octet: Octet) {
    exists k :: 0 < k <= 255 && IsFirstFree(cursor, used, octet, k)
  }

  predicate IsFirstFree(cursor: Octet, used: set<Octet>, octet: Octet, k: nat) {
    octet == Ahead(cursor, k) && octet !in used && forall j :: 0 < j < k ==> Ahead(cursor, j) in used
  }

  lemma {:induction false} AheadIs(cursor: Octet, k: nat)
    requires k <= 255
    ensures Ahead(cursor, k) as int == if cursor + k <= 255 then cursor + k else cursor + k - 255
  {
    if k > 0 {
      AheadIs(cursor, k - 1);
    }
  }

  /** A sweep of 255 places meets every octet from 1 to 255. */
  lemma SweepMeets(cursor: Octet, octet: Octet) returns (k: nat)
    requires octet != 0
    ensures 0 < k <= 255 && Ahead(cursor, k) == octet
  {
    k := if octet > cursor then octet - cursor else octet + 255 - cursor;
    AheadIs(cursor, k);
  }

  /** The allocator's sweep: a free octet and the cursor on it, or proof that all 255 are taken and the cursor back where it was. */
  method AllocOctet(cursor: Octet, used: set<Octet>) returns (octet: Option<Octet>, cursor': Octet)
    ensures octet.Some? ==> octet.value != 0 && IsNextFree(cursor, used, octet.value) && cursor' == octet.value
    ensures octet.None? <==> forall o: Octet :: o != 0 ==> o in used
    ensures octet.None? && cursor != 0 ==> cursor' == cursor
  {
    cursor' := cursor;
    for k := 0 to 255
      invariant cursor' == Ahead(cursor, k) && forall j :: 0 < j <= k ==> Ahead(cursor, j) in used
    {
      cursor' := After(cursor');
      if cursor' !in used {
        assert IsFirstFree(cursor, used, cursor', k + 1);
        return Some(cursor'), cursor';
      }
    }
    AheadIs(cursor, 255);
    forall o: Octet | o != 0
      ensures o in used
    {
      var k := SweepMeets(cursor, o);
    }
    return None, cursor';
  }

  // ---------- One level ----------

  /** A broadcast circuit whose pseudonode octet is the one given. */
  ghost predicate HasLan(n: Node, octet: Octet) {
    exists c :: c in n.circuits && !n.circuits[c].p2p && n.circuits[c].octet == octet
  }

  /** Something refreshes this identifier: the level is in use, or a broadcast circuit has its octet. */
  ghost predicate IsRefreshed(n: Node, id: LspId) {
    id.node.system == n.cfg.self && (if id.node.pseudonode == 0 then n.circuits != map[] else HasLan(n, id.node.pseudonode))
  }

  ghost predicate IsCovered(n: Node) {
    forall id :: LiveOwn(n, id) ==> IsRefreshed(n, id)
  }

  /** Steps of the update process that neither originate nor change which circuits there are. */
  predicate IsPlain(s: Step) {
    !(s.Added? || s.Removed? || s.Originated? || s.Purged?)
  }

  /** The own LSPs of one node are among those of another. */
  ghost predicate OwnsNoMore(n: Node, n': Node) {
    n'.cfg == n.cfg && forall id :: LiveOwn(n', id) ==> LiveOwn(n, id)
  }

  lemma StoresOwnNothingNew(n: Node, c: CircuitId, m: Lsp, seqno: Seqno, now: nat, deadline: nat)
    ensures OwnsNoMore(n, ExpirePurge(n, m.id, seqno, now))
    ensures c in n.circuits ==> OwnsNoMore(n, Install(n, c, m, now))
    ensures LiveOwn(n, m.id) ==> OwnsNoMore(n, Reoriginate(n, m.id, seqno, now, deadline))
  {
    hide FloodOn;
  }

  lemma OldOwnsNothingNew(n: Node, c: CircuitId, m: Lsp, now: nat, deadline: nat)
    requires c in n.circuits && m.id in n.db && Sound(n, now)
    ensures OwnsNoMore(n, ReceiveOld(n, c, m, now, deadline))
  {
    hide ExpirePurge; hide Reoriginate;
    assert EntrySound(n.db[m.id]);
    StoresOwnNothingNew(n, c, m, n.db[m.id].seqno, now, deadline);
    StoresOwnNothingNew(n, c, m, m.seqno, now, deadline);
  }

  /** Receiving an LSP, whatever it claims, never brings a new own LSP to life. */
  lemma ReceiveOwnsNothingNew(n0: Node, c: CircuitId, m: Lsp, intact: bool, now: nat, deadline: nat)
    requires c in n0.circuits && Sound(n0, now)
    ensures OwnsNoMore(n0, ReceiveLsp(n0, c, m, intact, now, deadline))
  {
    hide ExpirePurge; hide Reoriginate; hide Install; hide ReceiveOld; hide OwnsLsp;
    var n := WithCircuit(n0, c, Hears(n0.circuits[c], m.id, Claimed(m.seqno, m.remaining)));
    CircuitSound(n0, c, Hears(n0.circuits[c], m.id, Claimed(m.seqno, m.remaining)), now);
    if m.id in n.db { OldOwnsNothingNew(n, c, m, now, deadline); }
    StoresOwnNothingNew(n, c, m, m.seqno, now, deadline);
  }

  /** Nor does ageing, synchronizing, sending or electing. */
  lemma PlainOwnsNothingNew(n: Node, s: Step, now: nat, id: LspId)
    requires Enabled(n, s, now) && IsPlain(s) && Sound(n, now)
    ensures var n' := Next(n, s, now); (LiveOwn(n', id) ==> LiveOwn(n, id)) && n'.cfg == n.cfg
  {
    hide FloodOn; hide CsnpEntries; hide PsnpEntries; hide ArmAll; hide ReceiveLsp;
    if s.GotLsp? {
      ReceiveOwnsNothingNew(n, s.c, s.m, s.intact, now, s.deadline);
    }
  }

  // ---------- What a circuit is never changes ----------

  ghost predicate SameKind(x: Circuit, y: Circuit) {
    x.p2p == y.p2p && x.octet == y.octet && x.maxSize == y.maxSize
  }

  ghost predicate SameKinds(a: Node, b: Node) {
    a.circuits.Keys == b.circuits.Keys &&
    forall c :: c in a.circuits ==> SameKind(a.circuits[c], b.circuits[c])
  }

  lemma KindsWith(n: Node, c: CircuitId, x: Circuit)
    requires c in n.circuits && SameKind(n.circuits[c], x)
    ensures SameKinds(n, WithCircuit(n, c, x))
  {
  }

  lemma KindsFlood(n: Node, id: LspId, e: Entry, except: Option<CircuitId>, now: nat)
    ensures SameKinds(n, Flood(n.(db := n.db[id := e]), id, except, now))
    ensures SameKinds(n, StoreAndFlood(n, id, e, now))
  {
  }

  lemma KindsTrans(a: Node, b: Node, c: Node)
    requires SameKinds(a, b) && SameKinds(b, c)
    ensures SameKinds(a, c)
  {
    forall k | k in a.circuits
      ensures SameKind(a.circuits[k], c.circuits[k])
    {
      assert SameKind(a.circuits[k], b.circuits[k]) && SameKind(b.circuits[k], c.circuits[k]);
    }
  }

  lemma {:induction false} SnpKeepsKind(x: Circuit, db: Database, listed: seq<SnpEntry>, now: nat)
    ensures SameKind(x, CsnpEntries(x, db, listed, now)) && SameKind(x, PsnpEntries(x, db, listed, now))
  {
    hide CsnpEntry; hide PsnpEntry;
    if listed != [] {
      var before, s := listed[..|listed| - 1], listed[|listed| - 1];
      SnpKeepsKind(x, db, before, now);
      CsnpEntryKeepsKind(CsnpEntries(x, db, before, now), db, s, now);
      PsnpEntryKeepsKind(PsnpEntries(x, db, before, now), db, s, now);
    }
  }

  lemma CsnpEntryKeepsKind(x: Circuit, db: Database, s: SnpEntry, now: nat)
    ensures SameKind(x, CsnpEntry(x, db, s, now))
  {
    hide Newer; hide Conflicts;
  }

  lemma PsnpEntryKeepsKind(x: Circuit, db: Database, s: SnpEntry, now: nat)
    ensures SameKind(x, PsnpEntry(x, db, s, now))
  {
    hide Conflicts;
  }

  lemma KindsPurges(n: Node, id: LspId, seqno: Seqno, now: nat, deadline: nat)
    ensures SameKinds(n, ExpirePurge(n, id, seqno, now)) && SameKinds(n, ExhaustSeq(n, id, now))
    ensures SameKinds(n, Reoriginate(n, id, seqno, now, deadline))
  {
    KindsFlood(n, id, PurgeEntry(n, id, seqno, false, now), None, now);
    KindsFlood(n.(wrapUntil := n.wrapUntil[id := now + SEQ_WRAP_HOLD]), id, PurgeEntry(n, id, MAX_SEQ, true, now), None, now);
    if id in n.db && seqno != MAX_SEQ {
      var e, next: Seqno := n.db[id], seqno + 1;
      KindsFlood(n, id, Entry(next, n.cfg.sum(id, next, e.body), e.body, e.size, now, MAX_AGE, true, None, deadline), None, now);
    }
    hide StoreAndFlood; hide SameKind;
  }

  lemma KindsInstall(n: Node, c: CircuitId, m: Lsp, now: nat)
    requires c in n.circuits
    ensures SameKinds(n, Install(n, c, m, now))
  {
    var e := Entry(m.seqno, m.checksum, m.body, m.size, now, ReceivedLifetime(m.remaining), false,
                   if m.remaining == 0 then Some(now) else None, 0);
    KindsFlood(n, m.id, e, Some(c), now);
    var stored := Flood(n.(db := n.db[m.id := e]), m.id, Some(c), now);
    KindsWith(stored, c, Install(n, c, m, now).circuits[c]);
    KindsTrans(n, stored, Install(n, c, m, now));
  }

  lemma KindsOld(n: Node, c: CircuitId, m: Lsp, now: nat, deadline: nat)
    requires c in n.circuits && m.id in n.db
    ensures SameKinds(n, ReceiveOld(n, c, m, now, deadline))
  {
    KindsWith(n, c, n.circuits[c]);
    KindsWith(n, c, ClearSsn(SetSrm(n.circuits[c], m.id, now), m.id));
    KindsWith(n, c, SetSsn(n.circuits[c], m.id));
    KindsPurges(n, m.id, n.db[m.id].seqno, now, deadline);
    KindsPurges(n, m.id, m.seqno, now, deadline);
    hide SameKind; hide ExpirePurge; hide Reoriginate; hide WithCircuit;
  }

  lemma KindsReceive(n0: Node, c: CircuitId, m: Lsp, intact: bool, now: nat, deadline: nat)
    requires c in n0.circuits
    ensures SameKinds(n0, ReceiveLsp(n0, c, m, intact, now, deadline))
  {
    hide ReceiveOld; hide ReceiveOwn; hide Install; hide SameKinds;
    KindsTrivial(n0);
    var n, n' := WithCircuit(n0, c, Hears(n0.circuits[c], m.id, Claimed(m.seqno, m.remaining))), ReceiveLsp(n0, c, m, intact, now, deadline);
    KindsWith(n0, c, Hears(n0.circuits[c], m.id, Claimed(m.seqno, m.remaining)));
    var ack := SetSsnAck(n.circuits[c], SnpEntry(m.id, m.seqno, 0, m.checksum));
    KindsWith(n, c, ack);
    KindsTrans(n0, n, WithCircuit(n, c, ack));
    if m.id in n.db {
      KindsOld(n, c, m, now, deadline);
      KindsTrans(n0, n, ReceiveOld(n, c, m, now, deadline));
    }
    KindsInstall(n, c, m, now);
    KindsTrans(n0, n, Install(n, c, m, now));
    KindsOwn(n, c, m, now, deadline);
    KindsTrans(n0, n, ReceiveOwn(n, c, m, now, deadline));
  }

  lemma KindsOwn(n: Node, c: CircuitId, m: Lsp, now: nat, deadline: nat)
    requires c in n.circuits
    ensures SameKinds(n, ReceiveOwn(n, c, m, now, deadline))
  {
    hide Install; hide ExpirePurge; hide Reoriginate; hide OwnsLsp; hide SameKinds;
    KindsInstall(n, c, m, now);
    KindsPurges(n, m.id, m.seqno, now, deadline);
  }

  lemma PlainKeepsKinds(n: Node, s: Step, now: nat)
    requires Enabled(n, s, now) && IsPlain(s)
    ensures SameKinds(n, Next(n, s, now))
  {
    hide ReceiveLsp; hide AgeOne; hide CsnpEntries; hide PsnpEntries; hide SameKinds;
    KindsTrivial(n);
    if s.WasLost? || s.WentDown? || s.TrySend? || s.SendPsnp? || s.Elected? {
      KindsWith(n, s.c, Next(n, s, now).circuits[s.c]);
    }
    match s
    case GotLsp(c, m, intact, deadline) => KindsReceive(n, c, m, intact, now, deadline);
    case GotCsnp(c, start, end, listed) =>
      SnpKeepsKind(n.circuits[c], n.db, listed, now);
      KindsWith(n, c, ArmAll(CsnpEntries(n.circuits[c], n.db, listed, now), Omitted(n.db, start, end, listed), now));
    case GotPsnp(c, listed) =>
      SnpKeepsKind(n.circuits[c], n.db, listed, now);
      KindsWith(n, c, PsnpEntries(n.circuits[c], n.db, listed, now));
    case Aged(id) => KindsAge(n, id, now);
    case Released => KindsReleased(n, now);
    case WentUp(c) =>
      KindsWith(n, c, n.circuits[c].(up := true, reported := map[]));
      KindsSync(WithCircuit(n, c, n.circuits[c].(up := true, reported := map[])), c, now);
      KindsTrans(n, WithCircuit(n, c, n.circuits[c].(up := true, reported := map[])), Next(n, s, now));
    case Synchronize(c) => KindsSync(n, c, now);
    case _ =>
  }

  lemma KindsTrivial(n: Node)
    ensures SameKinds(n, n)
  {
  }

  lemma KindsReleased(n: Node, now: nat)
    ensures SameKinds(n, Release(n, now))
  {
  }

  lemma KindsSync(n: Node, c: CircuitId, now: nat)
    requires c in n.circuits
    ensures SameKinds(n, Sync(n, c, now))
  {
    KindsWith(n, c, Sync(n, c, now).circuits[c]);
  }

  lemma KindsAge(n: Node, id: LspId, now: nat)
    requires id in n.db
    ensures SameKinds(n, AgeOne(n, id, now))
  {
    KindsPurges(n, id, n.db[id].seqno, now, 0);
    hide ExpirePurge;
  }

  lemma PlainCovers(n: Node, s: Step, now: nat)
    requires Enabled(n, s, now) && IsPlain(s) && Sound(n, now) && IsCovered(n)
    ensures IsCovered(Next(n, s, now))
  {
    hide Next; hide Enabled; hide Sound; hide LiveOwn;
    var n' := Next(n, s, now);
    PlainKeepsKinds(n, s, now);
    forall id | LiveOwn(n', id)
      ensures IsRefreshed(n', id)
    {
      PlainOwnsNothingNew(n, s, now, id);
      StillRefreshed(n, n', id);
    }
  }

  lemma StillRefreshed(n: Node, n': Node, id: LspId)
    requires IsRefreshed(n, id) && SameKinds(n, n') && n'.cfg == n.cfg
    ensures IsRefreshed(n', id)
  {
    if id.node.pseudonode == 0 {
      var c :| c in n.circuits;
      assert c in n'.circuits;
    } else {
      var c :| c in n.circuits && !n.circuits[c].p2p && n.circuits[c].octet == id.node.pseudonode;
      assert SameKind(n.circuits[c], n'.circuits[c]);
    }
  }
}
