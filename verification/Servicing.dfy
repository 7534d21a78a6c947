/**
 * What sequence-number PDUs, adjacency changes and the transmission passes come to on a circuit: for each LSP, whether it
 * is to be sent and when, and whether it is to be reported.
 */
module Servicing {
  import opened Types
  import opened Lsdb
  import Reception

  // ---------- What the outcome is stated in ----------

  /** Nothing at the node differs but one circuit, and of it nothing but the flags and what was heard. */
  ghost predicate OnlyFlags(n: Node, n': Node, c: CircuitId) {
    && c in n.circuits && c in n'.circuits
    && n' == n.(circuits := n.circuits[c := n'.circuits[c]])
    && (var x, y := n.circuits[c], n'.circuits[c];
        y == x.(srm := y.srm, ssn := y.ssn, reported := y.reported))
  }

  /** When the LSP is to be sent, if it is. */
  ghost function SendTime(x: Circuit, id: LspId): Option<nat> {
    if id in x.srm then Some(x.srm[id]) else None
  }

  /** The PDU has one line on the LSP. */
  ghost predicate OneLine(listed: seq<SnpEntry>, s: SnpEntry, at: nat) {
    && at < |listed| && listed[at] == s
    && forall j :: 0 <= j < |listed| && j != at ==> listed[j].id != s.id
  }

  ghost predicate NoLine(listed: seq<SnpEntry>, id: LspId) {
    forall j :: 0 <= j < |listed| ==> listed[j].id != id
  }

  /** The line describes a copy that supersedes the one held, if any is. */
  ghost predicate RanksAbove(s: SnpEntry, n: Node, now: nat) {
    s.id in n.db ==> Claimed(s.seqno, s.remaining) > Reception.HeldRank(n, s.id, now)
  }

  /** The neighbour misses the copy held: it is at a lower number, or at the same one both are live with unlike contents. */
  ghost predicate Misses(s: SnpEntry, n: Node, now: nat) {
    && s.id in n.db
    && (s.seqno < n.db[s.id].seqno ||
        (s.seqno == n.db[s.id].seqno && s.checksum != n.db[s.id].checksum && s.remaining > 0 && Remaining(n.db[s.id], now) > 0))
  }

  // ---------- CSNPs ----------

  lemma {:induction false} LinesKeepTheRest(x: Circuit, db: Database, listed: seq<SnpEntry>, now: nat)
    ensures var y := CsnpEntries(x, db, listed, now); y == x.(srm := y.srm, ssn := y.ssn, reported := y.reported)
  {
    if listed != [] {
      LinesKeepTheRest(x, db, listed[..|listed| - 1], now);
    }
  }

  lemma {:induction false} UnlistedIsKept(x: Circuit, db: Database, listed: seq<SnpEntry>, now: nat, id: LspId)
    requires NoLine(listed, id)
    ensures var y := CsnpEntries(x, db, listed, now); SendTime(y, id) == SendTime(x, id) && (id in y.ssn <==> id in x.ssn)
  {
    hide CsnpEntry; hide SendTime;
    if listed != [] {
      var before := listed[..|listed| - 1];
      assert NoLine(before, id);
      UnlistedIsKept(x, db, before, now, id);
      LineLeavesOthers(CsnpEntries(x, db, before, now), db, listed[|listed| - 1], now, id);
    }
  }

  /** What one line does to the flags of its LSP. */
  ghost predicate LineDone(y: Circuit, x: Circuit, n: Node, s: SnpEntry, now: nat) {
    if RanksAbove(s, n, now) then s.id in y.ssn && SendTime(y, s.id) == SendTime(x, s.id)
    else
      && (s.id in y.ssn <==> s.id in x.ssn)
      && SendTime(y, s.id) == if Misses(s, n, now) then Some(now) else None
  }

  lemma LineIsDone(x: Circuit, n: Node, s: SnpEntry, now: nat)
    ensures LineDone(CsnpEntry(x, n.db, s, now), x, n, s, now)
  {
    hide RanksAbove; hide Misses; hide Newer; hide Conflicts; hide SetSrm; hide ClearSrm; hide SetSsn; hide Hears; hide SendTime;
    NewerIsAbove(n, s, now);
    UnderIsMissed(n, s, now);
    FlagMoves(x, s.id, Claimed(s.seqno, s.remaining), now);
  }

  lemma FlagMoves(x: Circuit, id: LspId, rank: nat, now: nat)
    ensures var h := Hears(x, id, rank);
            && SendTime(SetSrm(h, id, now), id) == Some(now) && SetSrm(h, id, now).ssn == x.ssn
            && SendTime(ClearSrm(h, id), id) == None && ClearSrm(h, id).ssn == x.ssn
            && SendTime(SetSsn(h, id), id) == SendTime(x, id) && id in SetSsn(h, id).ssn
  {
  }

  lemma NewerIsAbove(n: Node, s: SnpEntry, now: nat)
    ensures s.id !in n.db || Newer(s.seqno, s.remaining, Some(n.db[s.id]), now) <==> RanksAbove(s, n, now)
  {
  }

  lemma UnderIsMissed(n: Node, s: SnpEntry, now: nat)
    ensures s.id in n.db && (n.db[s.id].seqno > s.seqno || Conflicts(n.db[s.id], s, now)) <==> Misses(s, n, now)
  {
  }

  lemma {:induction false} ListedIsDone(x: Circuit, n: Node, listed: seq<SnpEntry>, s: SnpEntry, at: nat, now: nat)
    requires OneLine(listed, s, at)
    ensures LineDone(CsnpEntries(x, n.db, listed, now), x, n, s, now)
  {
    hide CsnpEntry; hide RanksAbove; hide Misses;
    var before, last := listed[..|listed| - 1], listed[|listed| - 1];
    if at == |listed| - 1 {
      assert NoLine(before, s.id);
      UnlistedIsKept(x, n.db, before, now, s.id);
      LineIsDone(CsnpEntries(x, n.db, before, now), n, s, now);
    } else {
      assert OneLine(before, s, at);
      ListedIsDone(x, n, before, s, at, now);
      LineLeavesOthers(CsnpEntries(x, n.db, before, now), n.db, last, now, s.id);
    }
  }

  lemma LineLeavesOthers(x: Circuit, db: Database, s: SnpEntry, now: nat, id: LspId)
    requires id != s.id
    ensures var y := CsnpEntry(x, db, s, now); SendTime(y, id) == SendTime(x, id) && (id in y.ssn <==> id in x.ssn)
  {
  }

  /**
   * A CSNP moves nothing but flags on its own circuit. What ranks higher at the neighbour is asked for; what it misses is
   * to be sent at once; what it holds alike is no longer to be sent. An LSP without a line is to be sent at once if it is
   * held and in the range, and is left alone otherwise.
   */
  lemma CsnpOutcome(n: Node, c: CircuitId, start: nat, end: nat, listed: seq<SnpEntry>, now: nat, id: LspId)
    requires c in n.circuits
    ensures var n' := ReceiveCsnp(n, c, start, end, listed, now);
            && OnlyFlags(n, n', c)
            && (forall s, at :: OneLine(listed, s, at) && s.id == id ==> LineDone(n'.circuits[c], n.circuits[c], n, s, now))
            && (NoLine(listed, id) ==>
                  && (id in n'.circuits[c].ssn <==> id in n.circuits[c].ssn)
                  && SendTime(n'.circuits[c], id) ==
                     if id in n.db && start <= Code(id) <= end then Some(now) else SendTime(n.circuits[c], id))
  {
    hide CsnpEntry; hide Code; hide LineDone;
    var x := n.circuits[c];
    var y := CsnpEntries(x, n.db, listed, now);
    hide CsnpEntries;
    LinesKeepTheRest(x, n.db, listed, now);
    if NoLine(listed, id) {
      UnlistedIsKept(x, n.db, listed, now, id);
    }
    var n' := ReceiveCsnp(n, c, start, end, listed, now);
    forall s, at | OneLine(listed, s, at) && s.id == id
      ensures LineDone(n'.circuits[c], x, n, s, now)
    {
      ListedIsDone(x, n, listed, s, at, now);
      ListedIsNotOmitted(y, x, n, start, end, listed, s, at, now);
    }
  }

  lemma ListedIsNotOmitted(y: Circuit, x: Circuit, n: Node, start: nat, end: nat, listed: seq<SnpEntry>, s: SnpEntry, at: nat, now: nat)
    requires OneLine(listed, s, at) && LineDone(y, x, n, s, now)
    ensures LineDone(ArmAll(y, Omitted(n.db, start, end, listed), now), x, n, s, now)
  {
    hide RanksAbove; hide Misses;
    assert Lists(listed, s.id);
  }

  // ---------- PSNPs ----------

  /** What one line of a PSNP does: an acknowledgement on a point-to-point circuit, a request to the DIS of a LAN. */
  ghost predicate AckDone(y: Circuit, x: Circuit, n: Node, s: SnpEntry, now: nat) {
    SendTime(y, s.id) ==
      if x.p2p then (if s.id in n.db && s.seqno >= n.db[s.id].seqno then None else SendTime(x, s.id))
      else if Misses(s, n, now) then Some(now)
      else SendTime(x, s.id)
  }

  lemma {:induction false} AcksKeepTheRest(x: Circuit, db: Database, listed: seq<SnpEntry>, now: nat)
    ensures var y := PsnpEntries(x, db, listed, now); y == x.(srm := y.srm, reported := y.reported)
  {
    if listed != [] {
      AcksKeepTheRest(x, db, listed[..|listed| - 1], now);
    }
  }

  lemma {:induction false} UnlistedIsNotAcked(x: Circuit, db: Database, listed: seq<SnpEntry>, now: nat, id: LspId)
    requires NoLine(listed, id)
    ensures SendTime(PsnpEntries(x, db, listed, now), id) == SendTime(x, id)
  {
    if listed != [] {
      assert NoLine(listed[..|listed| - 1], id);
      UnlistedIsNotAcked(x, db, listed[..|listed| - 1], now, id);
    }
  }

  lemma AckIsDone(x: Circuit, n: Node, s: SnpEntry, now: nat, id: LspId)
    ensures AckDone(PsnpEntry(x, n.db, s, now), x, n, s, now)
    ensures id != s.id ==> SendTime(PsnpEntry(x, n.db, s, now), id) == SendTime(x, id)
  {
    hide Misses; hide Conflicts;
    UnderIsMissed(n, s, now);
  }

  lemma {:induction false} ListedIsAcked(x: Circuit, n: Node, listed: seq<SnpEntry>, s: SnpEntry, at: nat, now: nat)
    requires OneLine(listed, s, at)
    ensures AckDone(PsnpEntries(x, n.db, listed, now), x, n, s, now)
  {
    hide PsnpEntry; hide Misses; hide SendTime;
    var before, last := listed[..|listed| - 1], listed[|listed| - 1];
    AcksKeepTheRest(x, n.db, before, now);
    AckIsDone(PsnpEntries(x, n.db, before, now), n, last, now, s.id);
    if at == |listed| - 1 {
      assert NoLine(before, s.id);
      UnlistedIsNotAcked(x, n.db, before, now, s.id);
    } else {
      assert OneLine(before, s, at);
      ListedIsAcked(x, n, before, s, at, now);
    }
  }

  /** A PSNP moves nothing but what is to be sent on its own circuit, and nothing on a LAN this node is not the DIS of. */
  lemma PsnpOutcome(n: Node, c: CircuitId, listed: seq<SnpEntry>, now: nat, id: LspId)
    requires c in n.circuits
    ensures var n' := ReceivePsnp(n, c, listed, now);
            && OnlyFlags(n, n', c) && n'.circuits[c].ssn == n.circuits[c].ssn
            && (!n.circuits[c].p2p && !n.circuits[c].dis ==> n' == n)
            && (n.circuits[c].p2p || n.circuits[c].dis ==>
                  forall s, at :: OneLine(listed, s, at) ==> AckDone(n'.circuits[c], n.circuits[c], n, s, now))
            && (NoLine(listed, id) ==> SendTime(n'.circuits[c], id) == SendTime(n.circuits[c], id))
  {
    hide PsnpEntries; hide AckDone; hide SendTime;
    var x := n.circuits[c];
    AcksKeepTheRest(x, n.db, listed, now);
    if NoLine(listed, id) {
      UnlistedIsNotAcked(x, n.db, listed, now, id);
    }
    forall s, at | OneLine(listed, s, at)
      ensures AckDone(PsnpEntries(x, n.db, listed, now), x, n, s, now)
    {
      ListedIsAcked(x, n, listed, s, at, now);
    }
  }

  // ---------- Adjacency changes and synchronization ----------

  /** Every LSP held is to be sent at once, whatever else is to be sent stays so, and nothing else but the hold-down moves. */
  ghost predicate HandsOver(n: Node, n': Node, c: CircuitId, now: nat) {
    && c in n.circuits && c in n'.circuits && n' == n.(circuits := n.circuits[c := n'.circuits[c]])
    && (var x, y := n.circuits[c], n'.circuits[c];
        && (forall id :: SendTime(y, id) == if id in n.db then Some(now) else SendTime(x, id))
        && y.syncHold == now + 5 * SECOND && !y.syncDeferred
        && y == x.(srm := y.srm, syncHold := y.syncHold, syncDeferred := y.syncDeferred, reported := y.reported))
  }

  /** The whole database is handed over, at most once in five seconds; in between, that it is owed is noted. */
  lemma SyncOutcome(n: Node, c: CircuitId, now: nat)
    requires c in n.circuits
    ensures var n' := Sync(n, c, now);
            if n.circuits[c].syncHold <= now then HandsOver(n, n', c, now)
            else n' == n.(circuits := n.circuits[c := n.circuits[c].(syncDeferred := true)])
  {
    var x, y := n.circuits[c], Sync(n, c, now).circuits[c];
    if x.syncHold <= now {
      forall id
        ensures SendTime(y, id) == if id in n.db then Some(now) else SendTime(x, id)
      {
      }
    }
  }

  /**
   * A neighbour that comes Up is owed the database. One that falls back keeps the flags for its return. One that is torn
   * down takes all of them along.
   */
  lemma AdjacencyOutcome(n: Node, c: CircuitId, now: nat)
    requires c in n.circuits
    ensures var x, y := n.circuits[c], AdjacencyUp(n, c, now).circuits[c];
            && y.up && (forall id :: id in n.db && x.syncHold <= now ==> SendTime(y, id) == Some(now))
            && (now < x.syncHold ==> y.syncDeferred && y.srm == x.srm)
    ensures var x, y := n.circuits[c], AdjacencyLost(n, c).circuits[c];
            !y.up && y == x.(up := y.up)
    ensures var y := AdjacencyDown(n, c).circuits[c];
            !y.up && y.srm == map[] && y.ssn == {} && y.acks == map[] && y.reported == map[]
    ensures var db := n.db; AdjacencyUp(n, c, now).db == db && AdjacencyLost(n, c).db == db && AdjacencyDown(n, c).db == db
  {
    var m := n.(circuits := n.circuits[c := n.circuits[c].(up := true, reported := map[])]);
    SyncOutcome(m, c, now);
    hide SendTime;
  }

  // ---------- Transmission ----------

  /** The time of the flag has come, on a circuit with somebody to send to. */
  ghost predicate MayGo(x: Circuit, id: LspId, now: nat) {
    id in x.srm && x.srm[id] <= now && (x.p2p ==> x.up)
  }

  /** The circuit takes the LSP: it is held, and no longer than the circuit's frames. */
  ghost predicate Fits(x: Circuit, db: Database, id: LspId) {
    id in db && db[id].size <= x.maxSize
  }

  /**
   * A pass over flags whose time has come. What cannot be sent is dropped; what could not be written stays due; what was
   * written is due again after five seconds on a point-to-point circuit, until it is acknowledged, and done with on a LAN.
   */
  lemma TransmitOutcome(x: Circuit, db: Database, tried: set<LspId>, sends: set<LspId>, now: nat, id: LspId)
    requires tried <= Due(x, now)
    ensures var y := Served(x, db, tried, sends, now);
            && y == x.(srm := y.srm)
            && (id in tried ==> MayGo(x, id, now))
            && SendTime(y, id) ==
               if id !in tried then SendTime(x, id)
               else if !Fits(x, db, id) then None
               else if id !in sends then SendTime(x, id)
               else if x.p2p then Some(now + 5 * SECOND)
               else None
    ensures id in Due(x, now) <==> MayGo(x, id, now)
  {
  }

  // ---------- Reports ----------

  /**
   * A PSNP describes the copy held, its lifetime less the whole seconds passed since it came in; for an LSP not held it
   * repeats the acknowledgement kept, and without one asks with an empty description.
   */
  lemma ReportOutcome(x: Circuit, db: Database, id: LspId, now: nat)
    requires id in x.acks ==> x.acks[id].id == id
    ensures var s := PsnpLine(x, db, id, now);
            && s.id == id
            && (id in db ==>
                  var e := db[id];
                  && s.seqno == e.seqno && s.checksum == e.checksum
                  && (now < e.inserted ==> s.remaining == e.lifetime)
                  && forall k: nat :: e.inserted + k * SECOND <= now < e.inserted + (k + 1) * SECOND ==>
                       s.remaining == if k < e.lifetime then e.lifetime - k else 0)
            && (id !in db && id in x.acks ==> s == x.acks[id])
            && (id !in db && id !in x.acks ==> s == SnpEntry(id, 0, 0, 0))
  {
    if id in db {
      var e := db[id];
      forall k: nat | e.inserted + k * SECOND <= now < e.inserted + (k + 1) * SECOND
        ensures (now - e.inserted) / SECOND == k
      {
      }
    }
  }

  /** An identifier is held down until its time, and not beyond. */
  lemma ReleaseOutcome(n: Node, now: nat, id: LspId)
    ensures var n' := Release(n, now);
            && n' == n.(wrapUntil := n'.wrapUntil)
            && (id in n'.wrapUntil <==> id in n.wrapUntil && now < n.wrapUntil[id])
            && (id in n'.wrapUntil ==> n'.wrapUntil[id] == n.wrapUntil[id])
  {
  }

  // ---------- Circuits ----------

  /** A PSNP sent clears every report; an election moves only who is DIS; a new circuit has nothing to send or report. */
  lemma CircuitOutcome(n: Node, c: CircuitId, dis: bool, p2p: bool, maxSize: nat, octet: Octet, now: nat)
    ensures Enabled(n, SendPsnp(c), now) ==>
              var n' := Next(n, SendPsnp(c), now);
              && n' == n.(circuits := n.circuits[c := n'.circuits[c]]) && n'.circuits[c].ssn == {} && n'.circuits[c].acks == map[]
              && n'.circuits[c].srm == n.circuits[c].srm && n'.circuits[c].reported == n.circuits[c].reported
    ensures Enabled(n, Elected(c, dis), now) ==>
              var n' := Next(n, Elected(c, dis), now);
              n'.circuits[c].dis == dis && n' == n.(circuits := n.circuits[c := n.circuits[c].(dis := n'.circuits[c].dis)])
    ensures Enabled(n, Added(c, p2p, maxSize, octet), now) ==>
              var n' := Next(n, Added(c, p2p, maxSize, octet), now);
              var y := n'.circuits[c];
              && n' == n.(circuits := n.circuits[c := y])
              && y.p2p == p2p && y.maxSize == maxSize && y.octet == octet && !y.up && !y.dis
              && y.srm == map[] && y.ssn == {} && y.acks == map[] && y.reported == map[] && y.syncHold == 0 && !y.syncDeferred
    ensures Enabled(n, Removed(c), now) ==>
              var n' := Next(n, Removed(c), now);
              && n' == n.(circuits := n'.circuits) && c !in n'.circuits
              && forall d :: d != c ==> (d in n'.circuits <==> d in n.circuits) && (d in n.circuits ==> n'.circuits[d] == n.circuits[d])
  {
  }
}
