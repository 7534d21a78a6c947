/** What every step of the update process keeps, and so what holds in every state a run can reach. */
module Flooding {
  import opened Types
  import opened Lsdb

  // ---------- Nothing the neighbour lacks is forgotten ----------

  /** How new a report has to be: the number of what is held, or its rank, where a purge is above a live copy. */
  datatype Order = ByNumber | ByRank

  function Needed(e: Entry, o: Order): nat {
    2 * e.seqno + (if o.ByRank? && e.purgedAt.Some? then 1 else 0)
  }

  /** The neighbour has reported the LSP at least this new since the flag was armed. */
  predicate Reported(x: Circuit, id: LspId, e: Entry, o: Order) {
    id in x.reported && x.reported[id] >= Needed(e, o)
  }

  /** The LSP will be sent, or has been reported, or cannot fit. */
  predicate Covered(x: Circuit, id: LspId, e: Entry, o: Order) {
    id in x.srm || Reported(x, id, e, o) || e.size > x.maxSize
  }

  /** On a point-to-point circuit with an adjacency Up, every LSP held is covered, unless a synchronization is owed. */
  ghost predicate NoLossOn(x: Circuit, db: Database, o: Order) {
    x.p2p && x.up && !x.syncDeferred ==> forall id :: id in db ==> Covered(x, id, db[id], o)
  }

  ghost predicate NoLossBy(n: Node, o: Order) {
    forall c :: c in n.circuits ==> NoLossOn(n.circuits[c], n.db, o)
  }

  ghost predicate NoLoss(n: Node) {
    NoLossBy(n, ByNumber)
  }

  /** A line of a sequence-number PDU that describes a live copy at the number of a purge held. */
  predicate LiveAgainstPurge(db: Database, s: SnpEntry) {
    s.id in db && db[s.id].purgedAt.Some? && s.seqno == db[s.id].seqno && s.remaining != 0
  }

  /** By rank, such lines are what costs the neighbour a purge. */
  predicate Harmless(db: Database, listed: seq<SnpEntry>, o: Order) {
    o.ByRank? ==> forall i :: 0 <= i < |listed| ==> !LiveAgainstPurge(db, listed[i])
  }

  /** Changing one circuit so that it still covers the database. */
  lemma CircuitKeeps(n: Node, c: CircuitId, x: Circuit, o: Order)
    requires NoLossBy(n, o) && NoLossOn(x, n.db, o)
    ensures NoLossBy(WithCircuit(n, c, x), o)
  {
  }

  /** A stored LSP is covered wherever it is flooded; where it is not, its sender has reported it. */
  lemma FloodKeeps(n: Node, id: LspId, e: Entry, except: Option<CircuitId>, now: nat, o: Order)
    requires NoLossBy(n, o)
    requires except.Some? && except.value in n.circuits ==> Covered(n.circuits[except.value], id, e, o)
    ensures NoLossBy(Flood(n.(db := n.db[id := e]), id, except, now), o)
  {
    var n' := Flood(n.(db := n.db[id := e]), id, except, now);
    forall c | c in n'.circuits
      ensures NoLossOn(n'.circuits[c], n'.db, o)
    {
      assert NoLossOn(n.circuits[c], n.db, o);
    }
  }

  lemma StoreKeeps(n: Node, id: LspId, e: Entry, now: nat, o: Order)
    requires NoLossBy(n, o)
    ensures NoLossBy(StoreAndFlood(n, id, e, now), o)
  {
    FloodKeeps(n, id, e, None, now, o);
  }

  /** A circuit whose every LSP was covered and still is. */
  lemma StillCovered(x: Circuit, y: Circuit, db: Database, o: Order)
    requires NoLossOn(x, db, o) && y.p2p == x.p2p && (y.up ==> x.up) && y.syncDeferred == x.syncDeferred
    requires forall id :: id in db && Covered(x, id, db[id], o) ==> Covered(y, id, db[id], o)
    ensures NoLossOn(y, db, o)
  {
  }

  lemma HearsKeeps(x: Circuit, db: Database, id: LspId, rank: nat, o: Order)
    requires NoLossOn(x, db, o)
    ensures NoLossOn(Hears(x, id, rank), db, o)
  {
    var y := Hears(x, id, rank);
    StillCovered(x, y, db, o);
  }

  /** Dropping the flag of an LSP the neighbour has reported at least as new. */
  lemma ClearReportedKeeps(x: Circuit, db: Database, id: LspId, o: Order)
    requires NoLossOn(x, db, o) && (id in db ==> Reported(x, id, db[id], o))
    ensures NoLossOn(ClearSrm(x, id), db, o)
  {
    var y := ClearSrm(x, id);
    StillCovered(x, y, db, o);
  }

  lemma ArmKeeps(x: Circuit, db: Database, ids: set<LspId>, now: nat, o: Order)
    requires NoLossOn(x, db, o)
    ensures NoLossOn(ArmAll(x, ids, now), db, o)
  {
    var y := ArmAll(x, ids, now);
    StillCovered(x, y, db, o);
  }

  lemma SetSrmKeeps(x: Circuit, db: Database, id: LspId, now: nat, o: Order)
    requires NoLossOn(x, db, o)
    ensures NoLossOn(SetSrm(x, id, now), db, o)
  {
    var y := SetSrm(x, id, now);
    StillCovered(x, y, db, o);
  }

  lemma InstallKeeps(n: Node, c: CircuitId, m: Lsp, now: nat, o: Order)
    requires NoLossBy(n, o) && c in n.circuits
    requires m.id in n.circuits[c].reported && n.circuits[c].reported[m.id] >= Claimed(m.seqno, m.remaining)
    ensures NoLossBy(Install(n, c, m, now), o)
  {
    var e := Entry(m.seqno, m.checksum, m.body, m.size, now, ReceivedLifetime(m.remaining), false,
                   if m.remaining == 0 then Some(now) else None, 0);
    FloodKeeps(n, m.id, e, Some(c), now, o);
    var stored := Flood(n.(db := n.db[m.id := e]), m.id, Some(c), now);
    ClearReportedKeeps(stored.circuits[c], stored.db, m.id, o);
    var here := ClearSrm(stored.circuits[c], m.id);
    CircuitKeeps(stored, c, if here.p2p then SetSsn(here, m.id) else here, o);
  }

  lemma OriginationsKeep(n: Node, id: LspId, seen: Seqno, now: nat, deadline: nat, o: Order)
    requires NoLossBy(n, o)
    ensures NoLossBy(ExhaustSeq(n, id, now), o) && NoLossBy(ExpirePurge(n, id, seen, now), o)
    ensures NoLossBy(PurgeOwn(n, id, now), o) && NoLossBy(Reoriginate(n, id, seen, now, deadline), o)
  {
    StoreKeeps(n.(wrapUntil := n.wrapUntil[id := now + SEQ_WRAP_HOLD]), id, PurgeEntry(n, id, MAX_SEQ, true, now), now, o);
    StoreKeeps(n, id, PurgeEntry(n, id, seen, false, now), now, o);
    if !(id in n.db && n.db[id].seqno == MAX_SEQ) {
      var seqno: Seqno := if id in n.db then n.db[id].seqno + 1 else 1;
      StoreKeeps(n, id, PurgeEntry(n, id, seqno, true, now), now, o);
    }
    if id in n.db && seen != MAX_SEQ {
      var e := n.db[id];
      var next: Seqno := seen + 1;
      StoreKeeps(n, id, Entry(next, n.cfg.sum(id, next, e.body), e.body, e.size, now, MAX_AGE, true, None, deadline), now, o);
    }
  }

  lemma OriginateKeeps(n: Node, id: LspId, body: Body, size: nat, buffer: nat, force: bool, now: nat, deadline: nat, o: Order)
    requires NoLossBy(n, o)
    ensures NoLossBy(Originate(n, id, body, size, buffer, force, now, deadline), o)
  {
    if id in n.db && n.db[id].seqno == MAX_SEQ {
      OriginationsKeep(n, id, 0, now, deadline, o);
    } else {
      var seqno: Seqno := if id in n.db then n.db[id].seqno + 1 else 1;
      StoreKeeps(n, id, Entry(seqno, n.cfg.sum(id, seqno, body), body, size, now, MAX_AGE, true, None, deadline), now, o);
    }
  }

  lemma ReceiveOldKeeps(n: Node, c: CircuitId, m: Lsp, now: nat, deadline: nat, o: Order)
    requires NoLossBy(n, o) && c in n.circuits && m.id in n.db
    ensures NoLossBy(ReceiveOld(n, c, m, now, deadline), o)
  {
    hide Flood; hide NoLossOn;
    var x, e := n.circuits[c], n.db[m.id];
    SetSrmKeeps(x, n.db, m.id, now, o);
    FlagsAside(SetSrm(x, m.id, now), n.db, m.id, o);
    FlagsAside(x, n.db, m.id, o);
    CircuitKeeps(n, c, ClearSsn(SetSrm(x, m.id, now), m.id), o);
    CircuitKeeps(n, c, SetSsn(x, m.id), o);
    OriginationsKeep(n, m.id, e.seqno, now, deadline, o);
    OriginationsKeep(n, m.id, m.seqno, now, deadline, o);
  }

  /** The acknowledgement flags have no part in it. */
  lemma FlagsAside(x: Circuit, db: Database, id: LspId, o: Order)
    requires NoLossOn(x, db, o)
    ensures NoLossOn(ClearSsn(x, id), db, o) && NoLossOn(SetSsn(x, id), db, o)
    ensures forall e: SnpEntry :: NoLossOn(SetSsnAck(x, e), db, o)
  {
    StillCovered(x, ClearSsn(x, id), db, o);
    StillCovered(x, SetSsn(x, id), db, o);
    forall e: SnpEntry
      ensures NoLossOn(SetSsnAck(x, e), db, o)
    {
      StillCovered(x, SetSsnAck(x, e), db, o);
    }
  }

  /** Receiving an LSP, in every branch of the update process. */
  lemma ReceiveLspKeeps(n0: Node, c: CircuitId, m: Lsp, intact: bool, now: nat, deadline: nat, o: Order)
    requires NoLossBy(n0, o) && c in n0.circuits
    ensures NoLossBy(ReceiveLsp(n0, c, m, intact, now, deadline), o)
  {
    hide Flood; hide NoLossOn; hide ReceiveOld; hide Install; hide Reoriginate; hide ExpirePurge;
    var n := WithCircuit(n0, c, Hears(n0.circuits[c], m.id, Claimed(m.seqno, m.remaining)));
    HearsKeeps(n0.circuits[c], n0.db, m.id, Claimed(m.seqno, m.remaining), o);
    CircuitKeeps(n0, c, Hears(n0.circuits[c], m.id, Claimed(m.seqno, m.remaining)), o);
    if m.id in n.db { ReceiveOldKeeps(n, c, m, now, deadline, o); }
    InstallKeeps(n, c, m, now, o);
    OriginationsKeep(n, m.id, m.seqno, now, deadline, o);
    FlagsAside(n.circuits[c], n.db, m.id, o);
    CircuitKeeps(n, c, SetSsnAck(n.circuits[c], SnpEntry(m.id, m.seqno, 0, m.checksum)), o);
  }

  lemma CsnpEntryKeeps(x: Circuit, db: Database, s: SnpEntry, now: nat, o: Order)
    requires NoLossOn(x, db, o) && (o.ByRank? ==> !LiveAgainstPurge(db, s))
    ensures NoLossOn(CsnpEntry(x, db, s, now), db, o)
  {
    hide NoLossOn;
    var y := Hears(x, s.id, Claimed(s.seqno, s.remaining));
    HearsKeeps(x, db, s.id, Claimed(s.seqno, s.remaining), o);
    FlagsAside(y, db, s.id, o);
    SetSrmKeeps(y, db, s.id, now, o);
    if s.id in db && s.seqno == db[s.id].seqno { ClearReportedKeeps(y, db, s.id, o); }
  }

  lemma {:induction false} CsnpEntriesKeep(x: Circuit, db: Database, listed: seq<SnpEntry>, now: nat, o: Order)
    requires NoLossOn(x, db, o) && Harmless(db, listed, o)
    ensures NoLossOn(CsnpEntries(x, db, listed, now), db, o)
  {
    hide NoLossOn; hide CsnpEntry;
    if listed != [] {
      CsnpEntriesKeep(x, db, listed[..|listed| - 1], now, o);
      CsnpEntryKeeps(CsnpEntries(x, db, listed[..|listed| - 1], now), db, listed[|listed| - 1], now, o);
    }
  }

  lemma PsnpEntryKeeps(x: Circuit, db: Database, s: SnpEntry, now: nat, o: Order)
    requires NoLossOn(x, db, o) && (o.ByRank? ==> !LiveAgainstPurge(db, s))
    ensures NoLossOn(PsnpEntry(x, db, s, now), db, o)
  {
    hide NoLossOn;
    var y := Hears(x, s.id, Claimed(s.seqno, s.remaining));
    HearsKeeps(x, db, s.id, Claimed(s.seqno, s.remaining), o);
    SetSrmKeeps(y, db, s.id, now, o);
    if s.id in db && s.seqno >= db[s.id].seqno { ClearReportedKeeps(y, db, s.id, o); }
  }

  lemma {:induction false} PsnpEntriesKeep(x: Circuit, db: Database, listed: seq<SnpEntry>, now: nat, o: Order)
    requires NoLossOn(x, db, o) && Harmless(db, listed, o)
    ensures NoLossOn(PsnpEntries(x, db, listed, now), db, o)
  {
    hide NoLossOn; hide PsnpEntry;
    if listed != [] {
      PsnpEntriesKeep(x, db, listed[..|listed| - 1], now, o);
      PsnpEntryKeeps(PsnpEntries(x, db, listed[..|listed| - 1], now), db, listed[|listed| - 1], now, o);
    }
  }

  /** A synchronization covers everything, whatever held before; one that is held down is owed. */
  lemma SyncCovers(n: Node, c: CircuitId, now: nat, o: Order)
    requires NoLossBy(n, o) || (c in n.circuits && forall d :: d in n.circuits && d != c ==> NoLossOn(n.circuits[d], n.db, o))
    requires c in n.circuits
    ensures NoLossBy(Sync(n, c, now), o)
  {
    var n' := Sync(n, c, now);
    forall d | d in n'.circuits
      ensures NoLossOn(n'.circuits[d], n'.db, o)
    {
    }
  }

  lemma AttemptKeeps(x: Circuit, db: Database, id: LspId, sent: bool, now: nat, o: Order)
    requires NoLossOn(x, db, o)
    ensures NoLossOn(Attempt(x, db, id, sent, now), db, o)
  {
    if x.p2p { StillCovered(x, Attempt(x, db, id, sent, now), db, o); }
  }

  lemma AgeKeeps(n: Node, id: LspId, now: nat, o: Order)
    requires NoLossBy(n, o) && id in n.db
    ensures NoLossBy(AgeOne(n, id, now), o)
  {
    OriginationsKeep(n, id, n.db[id].seqno, now, 0, o);
    forall c | c in n.circuits
      ensures NoLossOn(n.circuits[c], n.db - {id}, o)
    {
      assert NoLossOn(n.circuits[c], n.db, o);
    }
  }

  /** The step brings a line that describes a live copy against a purge held. */
  predicate Loses(n: Node, s: Step) {
    match s
    case GotCsnp(_, _, _, listed) => exists i :: 0 <= i < |listed| && LiveAgainstPurge(n.db, listed[i])
    case GotPsnp(_, listed) => exists i :: 0 <= i < |listed| && LiveAgainstPurge(n.db, listed[i])
    case _ => false
  }

  lemma StepKeeps(n: Node, s: Step, now: nat, o: Order)
    requires NoLossBy(n, o) && Enabled(n, s, now) && (o.ByRank? ==> !Loses(n, s))
    ensures NoLossBy(Next(n, s, now), o)
  {
    hide NoLossOn; hide ReceiveLsp; hide Originate; hide AgeOne; hide PurgeOwn; hide Sync;
    match s
    case GotLsp(c, m, intact, deadline) => ReceiveLspKeeps(n, c, m, intact, now, deadline, o);
    case GotCsnp(c, start, end, listed) =>
      CsnpEntriesKeep(n.circuits[c], n.db, listed, now, o);
      ArmKeeps(CsnpEntries(n.circuits[c], n.db, listed, now), n.db, Omitted(n.db, start, end, listed), now, o);
    case GotPsnp(c, listed) => PsnpEntriesKeep(n.circuits[c], n.db, listed, now, o);
    case WentUp(c) => SyncCovers(WithCircuit(n, c, n.circuits[c].(up := true, reported := map[])), c, now, o);
    case Synchronize(c) => SyncCovers(n, c, now, o);
    case TrySend(c, id, sent) => AttemptKeeps(n.circuits[c], n.db, id, sent, now, o);
    case Aged(id) => AgeKeeps(n, id, now, o);
    case Originated(id, body, size, buffer, force, deadline) => OriginateKeeps(n, id, body, size, buffer, force, now, deadline, o);
    case Purged(id) => OriginationsKeep(n, id, 0, now, 0, o);
    case _ => CircuitStepKeeps(n, s, now, o);
  }

  /** Every step of the node keeps every point-to-point neighbour covered, by number. */
  lemma StepKeepsCover(n: Node, s: Step, now: nat)
    requires NoLoss(n) && Enabled(n, s, now)
    ensures NoLoss(Next(n, s, now))
  {
    StepKeeps(n, s, now, ByNumber);
  }

  /** And by rank, unless it brings such a line. */
  lemma StepKeepsRanks(n: Node, s: Step, now: nat)
    requires NoLossBy(n, ByRank) && Enabled(n, s, now) && !Loses(n, s)
    ensures NoLossBy(Next(n, s, now), ByRank)
  {
    StepKeeps(n, s, now, ByRank);
  }

  /** Steps that touch one circuit and neither the database nor what it has been told. */
  lemma CircuitStepKeeps(n: Node, s: Step, now: nat, o: Order)
    requires NoLossBy(n, o) && Enabled(n, s, now)
    requires s.WasLost? || s.WentDown? || s.SendPsnp? || s.Elected? || s.Added? || s.Removed? || s.Released?
    ensures NoLossBy(Next(n, s, now), o)
  {
    if s.SendPsnp? { StillCovered(n.circuits[s.c], n.circuits[s.c].(ssn := {}, acks := map[]), n.db, o); }
    if s.Elected? { StillCovered(n.circuits[s.c], n.circuits[s.c].(dis := s.dis), n.db, o); }
  }

  // ---------- Exactly when a purge is lost ----------

  /** What decides whether an LSP is covered on a circuit. */
  ghost function Standing(x: Circuit, id: LspId): (bool, Option<nat>, nat) {
    (id in x.srm, if id in x.reported then Some(x.reported[id]) else None, x.maxSize)
  }

  lemma StandingDecides(x: Circuit, y: Circuit, id: LspId, e: Entry, o: Order)
    requires Standing(x, id) == Standing(y, id)
    ensures Covered(x, id, e, o) <==> Covered(y, id, e, o)
    ensures Reported(x, id, e, o) <==> Reported(y, id, e, o)
  {
  }

  /** The purge this node holds has not been reported, and fits: only the flag covers it. */
  predicate OnlyFlagged(x: Circuit, db: Database, id: LspId) {
    id in db && !Reported(x, id, db[id], ByRank) && db[id].size <= x.maxSize
  }

  /** A CSNP line takes the cover of a covered LSP exactly when it is live against a purge that only the flag covers. */
  lemma CsnpLineLoses(x: Circuit, db: Database, s: SnpEntry, now: nat)
    requires s.id in db && Covered(x, s.id, db[s.id], ByRank) && (db[s.id].purgedAt.Some? ==> db[s.id].lifetime == 0)
    ensures !Covered(CsnpEntry(x, db, s, now), s.id, db[s.id], ByRank) <==> LiveAgainstPurge(db, s) && OnlyFlagged(x, db, s.id)
  {
    if db[s.id].purgedAt.Some? { SpentHasNoneLeft(db[s.id], now); }
    LineCovers(x, s.id, Claimed(s.seqno, s.remaining), db[s.id], now);
    hide Remaining; hide Covered; hide Reported; hide Hears; hide SetSrm; hide ClearSrm; hide SetSsn;
  }

  /** What a line leaves of the cover, by what it does to the flag. */
  lemma LineCovers(x: Circuit, id: LspId, rank: nat, e: Entry, now: nat)
    ensures var y := Hears(x, id, rank);
      && (Covered(x, id, e, ByRank) ==> Covered(SetSsn(y, id), id, e, ByRank) && Covered(y, id, e, ByRank))
      && Covered(SetSrm(y, id, now), id, e, ByRank) && y.p2p == x.p2p
      && (Covered(ClearSrm(y, id), id, e, ByRank) <==> Reported(x, id, e, ByRank) || rank >= Needed(e, ByRank) || e.size > x.maxSize)
  {
  }

  lemma SpentHasNoneLeft(e: Entry, now: nat)
    requires e.lifetime == 0
    ensures Remaining(e, now) == 0
  {
  }

  /** So does a PSNP line on a point-to-point circuit. */
  lemma PsnpLineLoses(x: Circuit, db: Database, s: SnpEntry, now: nat)
    requires x.p2p && s.id in db && Covered(x, s.id, db[s.id], ByRank)
    ensures !Covered(PsnpEntry(x, db, s, now), s.id, db[s.id], ByRank) <==> LiveAgainstPurge(db, s) && OnlyFlagged(x, db, s.id)
  {
    LineCovers(x, s.id, Claimed(s.seqno, s.remaining), db[s.id], now);
    hide Covered; hide Reported; hide Hears; hide ClearSrm;
  }

  lemma LineElsewhere(x: Circuit, db: Database, s: SnpEntry, now: nat, id: LspId)
    requires s.id != id
    ensures Standing(CsnpEntry(x, db, s, now), id) == Standing(x, id)
    ensures Standing(PsnpEntry(x, db, s, now), id) == Standing(x, id)
    ensures PsnpEntry(x, db, s, now).p2p == x.p2p
  {
    var rank := Claimed(s.seqno, s.remaining);
    FlagsElsewhere(x, s.id, rank, now, id);
    hide Newer; hide Conflicts; hide Standing; hide Hears; hide SetSrm; hide ClearSrm; hide SetSsn;
  }

  lemma FlagsElsewhere(x: Circuit, k: LspId, rank: nat, now: nat, id: LspId)
    requires k != id
    ensures var y := Hears(x, k, rank);
      && Standing(y, id) == Standing(x, id) && Standing(SetSsn(y, k), id) == Standing(x, id)
      && Standing(SetSrm(y, k, now), id) == Standing(x, id) && Standing(ClearSrm(y, k), id) == Standing(x, id)
      && y.p2p == SetSrm(y, k, now).p2p == ClearSrm(y, k).p2p == x.p2p
  {
  }

  lemma {:induction false} LinesElsewhere(x: Circuit, db: Database, listed: seq<SnpEntry>, now: nat, id: LspId)
    requires !Lists(listed, id)
    ensures Standing(CsnpEntries(x, db, listed, now), id) == Standing(x, id)
    ensures Standing(PsnpEntries(x, db, listed, now), id) == Standing(x, id)
    ensures PsnpEntries(x, db, listed, now).p2p == x.p2p
  {
    hide CsnpEntry; hide PsnpEntry; hide Standing;
    if listed != [] {
      var before, s := listed[..|listed| - 1], listed[|listed| - 1];
      assert listed[|listed| - 1].id != id && forall i :: 0 <= i < |before| ==> before[i] == listed[i];
      LinesElsewhere(x, db, before, now, id);
      LineElsewhere(CsnpEntries(x, db, before, now), db, s, now, id);
      LineElsewhere(PsnpEntries(x, db, before, now), db, s, now, id);
    }
  }

  /** `listed[k]` is the one line for its LSP. */
  predicate OnlyLine(listed: seq<SnpEntry>, k: nat)
    requires k < |listed|
  {
    forall i :: 0 <= i < |listed| && i != k ==> listed[i].id != listed[k].id
  }

  /** A whole PDU that lists the LSP once: the cover goes exactly when that line takes it. */
  lemma {:induction false} LinesLose(x: Circuit, db: Database, listed: seq<SnpEntry>, k: nat, now: nat)
    requires k < |listed| && OnlyLine(listed, k) && listed[k].id in db && Covered(x, listed[k].id, db[listed[k].id], ByRank)
    requires db[listed[k].id].purgedAt.Some? ==> db[listed[k].id].lifetime == 0
    ensures var s := listed[k]; !Covered(CsnpEntries(x, db, listed, now), s.id, db[s.id], ByRank) <==> LiveAgainstPurge(db, s) && OnlyFlagged(x, db, s.id)
    ensures var s := listed[k];
      x.p2p ==> (!Covered(PsnpEntries(x, db, listed, now), s.id, db[s.id], ByRank) <==> LiveAgainstPurge(db, s) && OnlyFlagged(x, db, s.id))
  {
    hide CsnpEntry; hide PsnpEntry; hide Covered; hide Reported; hide Standing; hide LiveAgainstPurge;
    var n := |listed| - 1;
    var before, last, s := listed[..n], listed[n], listed[k];
    var c, p := CsnpEntries(x, db, before, now), PsnpEntries(x, db, before, now);
    assert forall i :: 0 <= i < n ==> before[i] == listed[i];
    if k == n {
      LinesElsewhere(x, db, before, now, s.id);
      StandingFits(x, c, s.id);
      StandingFits(x, p, s.id);
      StandingDecides(x, c, s.id, db[s.id], ByRank);
      StandingDecides(x, p, s.id, db[s.id], ByRank);
      CsnpLineLoses(c, db, s, now);
      if x.p2p { PsnpLineLoses(p, db, s, now); }
    } else {
      LinesLose(x, db, before, k, now);
      LineElsewhere(c, db, last, now, s.id);
      LineElsewhere(p, db, last, now, s.id);
      StandingDecides(c, CsnpEntries(x, db, listed, now), s.id, db[s.id], ByRank);
      StandingDecides(p, PsnpEntries(x, db, listed, now), s.id, db[s.id], ByRank);
    }
  }

  lemma StandingFits(x: Circuit, y: Circuit, id: LspId)
    requires Standing(x, id) == Standing(y, id)
    ensures x.maxSize == y.maxSize
  {
  }

  /**
   * Receiving a sequence-number PDU over a point-to-point circuit with its one line for an LSP that is covered: after
   * it the LSP is uncovered exactly when the line is live against a purge that only the flag covers.
   */
  lemma PduLoses(n: Node, c: CircuitId, start: nat, end: nat, listed: seq<SnpEntry>, k: nat, now: nat)
    requires c in n.circuits && n.circuits[c].p2p && k < |listed| && OnlyLine(listed, k) && listed[k].id in n.db
    requires Covered(n.circuits[c], listed[k].id, n.db[listed[k].id], ByRank)
    requires n.db[listed[k].id].purgedAt.Some? ==> n.db[listed[k].id].lifetime == 0
    ensures var s, n' := listed[k], ReceiveCsnp(n, c, start, end, listed, now);
      !Covered(n'.circuits[c], s.id, n'.db[s.id], ByRank) <==> LiveAgainstPurge(n.db, s) && OnlyFlagged(n.circuits[c], n.db, s.id)
    ensures var s, n' := listed[k], ReceivePsnp(n, c, listed, now);
      !Covered(n'.circuits[c], s.id, n'.db[s.id], ByRank) <==> LiveAgainstPurge(n.db, s) && OnlyFlagged(n.circuits[c], n.db, s.id)
  {
    hide CsnpEntries; hide PsnpEntries; hide Covered; hide OnlyLine; hide LiveAgainstPurge;
    var s, x := listed[k], n.circuits[c];
    LinesLose(x, n.db, listed, k, now);
    var y := CsnpEntries(x, n.db, listed, now);
    assert Lists(listed, s.id);
    ArmElsewhere(y, Omitted(n.db, start, end, listed), now, s.id);
    StandingDecides(y, ArmAll(y, Omitted(n.db, start, end, listed), now), s.id, n.db[s.id], ByRank);
  }

  lemma ArmElsewhere(x: Circuit, ids: set<LspId>, now: nat, id: LspId)
    requires id !in ids
    ensures Standing(ArmAll(x, ids, now), id) == Standing(x, id)
  {
  }

  /** Nor does any such line bring the purge back: a CSNP takes the flag down, a PSNP never raises it, on any circuit. */
  lemma PurgeIsNotRearmed(x: Circuit, db: Database, s: SnpEntry, now: nat)
    requires LiveAgainstPurge(db, s) && db[s.id].lifetime == 0
    ensures s.id !in CsnpEntry(x, db, s, now).srm
    ensures s.id in PsnpEntry(x, db, s, now).srm ==> s.id in x.srm && !x.p2p
  {
  }

  /** A neighbour that still lists a live copy at number 7 takes down the flag of the purge this node holds at 7. */
  lemma PurgeIsLost()
    ensures var id := LspId(NodeId(1, 0), 0);
      var e := Entry(7, 0, Purge, 27, 0, 0, false, Some(0), 0);
      var x := Circuit(true, true, 1492, 1, false, map[id := 0], {}, map[], 0, false, map[]);
      var s := SnpEntry(id, 7, 900, 0x1234);
      Covered(x, id, e, ByRank) && !Covered(CsnpEntry(x, map[id := e], s, 0), id, e, ByRank)
      && !Covered(PsnpEntry(x, map[id := e], s, 0), id, e, ByRank)
  {
    var id := LspId(NodeId(1, 0), 0);
    var x := Circuit(true, true, 1492, 1, false, map[id := 0], {}, map[], 0, false, map[]);
    var db := map[id := Entry(7, 0, Purge, 27, 0, 0, false, Some(0), 0)];
    CsnpLineLoses(x, db, SnpEntry(id, 7, 900, 0x1234), 0);
    PsnpLineLoses(x, db, SnpEntry(id, 7, 900, 0x1234), 0);
  }
}
