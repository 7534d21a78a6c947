/**
 * What receiving, originating, withdrawing and ageing one LSP come to: what is stored, where it is to be sent, and where
 * it is acknowledged. Receiving is told case by case in the order copies supersede each other.
 */
module Reception {
  import opened Types
  import opened Lsdb

  // ---------- What the outcome is stated in ----------

  /** Nothing but what concerns `id` differs on the circuit. */
  ghost predicate SameElsewhere(x: Circuit, y: Circuit, id: LspId) {
    && y.p2p == x.p2p && y.up == x.up && y.maxSize == x.maxSize && y.octet == x.octet && y.dis == x.dis
    && y.syncHold == x.syncHold && y.syncDeferred == x.syncDeferred
    && forall k :: k != id ==>
         && (k in y.srm <==> k in x.srm) && (k in x.srm && k in y.srm ==> y.srm[k] == x.srm[k])
         && (k in y.ssn <==> k in x.ssn)
         && (k in y.acks <==> k in x.acks) && (k in x.acks && k in y.acks ==> y.acks[k] == x.acks[k])
  }

  /** Nothing but what concerns `id` differs at the node. */
  ghost predicate OnlyConcerns(n: Node, n': Node, id: LspId) {
    && n'.cfg == n.cfg && n'.circuits.Keys == n.circuits.Keys
    && (forall c :: c in n.circuits ==> SameElsewhere(n.circuits[c], n'.circuits[c], id))
    && (forall k :: k != id ==>
          && (k in n'.db <==> k in n.db) && (k in n.db && k in n'.db ==> n'.db[k] == n.db[k])
          && (k in n'.wrapUntil <==> k in n.wrapUntil) && (k in n.wrapUntil && k in n'.wrapUntil ==> n'.wrapUntil[k] == n.wrapUntil[k]))
  }

  /** To be sent from now on, and neither reported nor requested. */
  ghost predicate ToSend(x: Circuit, id: LspId, now: nat) {
    id in x.srm && x.srm[id] == now && id !in x.ssn && id !in x.acks
  }

  ghost predicate ToSendEverywhere(n: Node, id: LspId, now: nat) {
    forall c :: c in n.circuits ==> ToSend(n.circuits[c], id, now)
  }

  /** The flags of the LSP are what they were. */
  ghost predicate FlagsKept(x: Circuit, y: Circuit, id: LspId) {
    && (id in y.srm <==> id in x.srm) && (id in x.srm && id in y.srm ==> y.srm[id] == x.srm[id])
    && (id in y.ssn <==> id in x.ssn)
    && (id in y.acks <==> id in x.acks) && (id in x.acks && id in y.acks ==> y.acks[id] == x.acks[id])
  }

  ghost predicate FlagsKeptBut(n: Node, n': Node, c: CircuitId, id: LspId) {
    forall d :: d in n.circuits && d in n'.circuits && d != c ==> FlagsKept(n.circuits[d], n'.circuits[d], id)
  }

  /** The rank of the copy held: its number, then a purge or spent copy above a live one. */
  function HeldRank(n: Node, id: LspId, now: nat): nat
    requires id in n.db
  {
    2 * n.db[id].seqno + if Remaining(n.db[id], now) == 0 then 1 else 0
  }

  function CopyRank(m: Lsp): nat {
    2 * m.seqno + if m.remaining == 0 then 1 else 0
  }

  /** The copy supersedes what is held. */
  predicate RanksHigher(n: Node, m: Lsp, now: nat) {
    m.id in n.db ==> CopyRank(m) > HeldRank(n, m.id, now)
  }

  // ---------- The outcomes ----------

  /** The copy is stored as it came, a lifetime below the maximum raised to it, and passed on everywhere but back. */
  ghost predicate Stored(n': Node, n: Node, c: CircuitId, m: Lsp, now: nat) {
    && m.id in n'.db
    && (var e := n'.db[m.id];
        && e.seqno == m.seqno && e.checksum == m.checksum && e.body == m.body && e.size == m.size && !e.own
        && e.purgedAt == (if m.remaining == 0 then Some(now) else None)
        && Remaining(e, now) == (if m.remaining == 0 then 0 else Max(m.remaining, MAX_AGE)))
    && (forall d :: d in n'.circuits && d != c ==> ToSend(n'.circuits[d], m.id, now))
    && c in n'.circuits && c in n.circuits && m.id !in n'.circuits[c].srm
    && (m.id in n'.circuits[c].ssn <==> n.circuits[c].p2p || m.id in n.circuits[c].ssn)
    && n'.wrapUntil == n.wrapUntil
  }

  /** The checksum is the one of the number and contents, and a purge is a bare header. */
  ghost predicate Sealed(n: Node, id: LspId) {
    && id in n.db && n.db[id].checksum == n.cfg.sum(id, n.db[id].seqno, n.db[id].body)
    && (n.db[id].body == Purge ==> n.db[id].size == n.cfg.purgeSize)
  }

  /** The number is exhausted: a purge at the top, sent everywhere, and the identifier held down. */
  ghost predicate Exhausted(n': Node, id: LspId, now: nat) {
    && id in n'.db && n'.db[id].seqno == MAX_SEQ && n'.db[id].own && n'.db[id].purgedAt == Some(now)
    && n'.db[id].body == Purge && Sealed(n', id)
    && Remaining(n'.db[id], now) == 0 && ToSendEverywhere(n', id, now)
    && id in n'.wrapUntil && n'.wrapUntil[id] == now + SEQ_WRAP_HOLD
  }

  /** The own LSP is issued again, unchanged, one above the number seen, and sent everywhere. */
  ghost predicate Reissued(n': Node, n: Node, id: LspId, seen: Seqno, now: nat, deadline: nat) {
    if seen == MAX_SEQ then Exhausted(n', id, now)
    else
      && id in n'.db && id in n.db
      && n'.db[id].seqno == seen + 1 && n'.db[id].body == n.db[id].body && n'.db[id].size == n.db[id].size
      && n'.db[id].own && n'.db[id].purgedAt == None && n'.db[id].refreshAt == deadline
      && n'.db[id].checksum == n.cfg.sum(id, n'.db[id].seqno, n'.db[id].body)
      && Remaining(n'.db[id], now) == MAX_AGE && ToSendEverywhere(n', id, now) && n'.wrapUntil == n.wrapUntil
  }

  /** A purge of somebody else's LSP at `seqno`, sent everywhere. */
  ghost predicate PurgedAt(n': Node, n: Node, id: LspId, seqno: Seqno, now: nat) {
    && id in n'.db && n'.db[id].seqno == seqno && !n'.db[id].own && n'.db[id].purgedAt == Some(now)
    && n'.db[id].body == Purge && Remaining(n'.db[id], now) == 0 && Sealed(n', id)
    && ToSendEverywhere(n', id, now) && n'.wrapUntil == n.wrapUntil
  }

  /** The database stays, and so do the flags of the LSP on every other circuit. */
  ghost predicate DatabaseStays(n': Node, n: Node, c: CircuitId, id: LspId) {
    n'.db == n.db && n'.wrapUntil == n.wrapUntil && FlagsKeptBut(n, n', c, id) && c in n.circuits && c in n'.circuits
  }

  /** Nothing is done about it. */
  ghost predicate Ignored(n': Node, n: Node, c: CircuitId, id: LspId) {
    DatabaseStays(n', n, c, id) && FlagsKept(n.circuits[c], n'.circuits[c], id)
  }

  /** It is reported back on a point-to-point circuit and left alone on a LAN. */
  ghost predicate Acknowledged(n': Node, n: Node, c: CircuitId, id: LspId) {
    && DatabaseStays(n', n, c, id)
    && (var x, y := n.circuits[c], n'.circuits[c];
        if x.p2p then id in y.ssn && (id in y.srm <==> id in x.srm) && (id in y.acks <==> id in x.acks)
        else FlagsKept(x, y, id))
  }

  /** This node originates the LSP now: it is its own and live, of the node itself or of a LAN it is the DIS of. */
  predicate Originates(n: Node, id: LspId) {
    && id in n.db && n.db[id].own && n.db[id].purgedAt.None? && id.node.system == n.cfg.self
    && (id.node.pseudonode == 0 ||
        exists c :: c in n.circuits && n.circuits[c].octet == id.node.pseudonode && n.circuits[c].dis)
  }

  /** The same number, live on both sides, with different contents. */
  predicate Differs(n: Node, m: Lsp, now: nat) {
    m.id in n.db && m.seqno == n.db[m.id].seqno && m.remaining != 0 && Remaining(n.db[m.id], now) != 0 && m.checksum != n.db[m.id].checksum
  }

  /** What a copy that supersedes the one held comes to. */
  ghost predicate HigherOutcome(n: Node, n': Node, c: CircuitId, m: Lsp, now: nat, deadline: nat) {
    if m.id !in n.db && m.remaining == 0 then
      // a purge of something unknown: never stored, acknowledged in its own words on a point-to-point circuit
      && DatabaseStays(n', n, c, m.id)
      && (var x, y := n.circuits[c], n'.circuits[c];
          if x.p2p then
            && m.id in y.ssn && m.id in y.acks && y.acks[m.id] == SnpEntry(m.id, m.seqno, 0, m.checksum)
            && (m.id in y.srm <==> m.id in x.srm)
          else FlagsKept(x, y, m.id))
    else if m.id !in n.db && n.cfg.limit > 0 && |n.db| >= n.cfg.limit then Ignored(n', n, c, m.id)
    else if Originates(n, m.id) then Reissued(n', n, m.id, m.seqno, now, deadline)
    else if m.id.node.system == n.cfg.self && m.remaining != 0 then PurgedAt(n', n, m.id, m.seqno, now)
    else Stored(n', n, c, m, now)
  }

  /** What a copy that does not comes to. */
  ghost predicate OtherOutcome(n: Node, n': Node, c: CircuitId, m: Lsp, now: nat, deadline: nat)
    requires m.id in n.db
  {
    if CopyRank(m) < HeldRank(n, m.id, now) then DatabaseStays(n', n, c, m.id) && ToSend(n'.circuits[c], m.id, now)
    else if !Differs(n, m, now) then Acknowledged(n', n, c, m.id)
    else if n.db[m.id].own then Reissued(n', n, m.id, m.seqno, now, deadline)
    else PurgedAt(n', n, m.id, m.seqno, now)
  }

  ghost predicate Outcome(n: Node, n': Node, c: CircuitId, m: Lsp, intact: bool, now: nat, deadline: nat) {
    if m.remaining != 0 && !intact then n' == n
    else
      && OnlyConcerns(n, n', m.id)
      && (if RanksHigher(n, m, now) then HigherOutcome(n, n', c, m, now, deadline)
          else OtherOutcome(n, n', c, m, now, deadline))
  }

  // ---------- The update process has that outcome ----------

  /** What each update of the flags does, and to whose. */
  lemma FlagOutcomes(x: Circuit, e: SnpEntry, now: nat)
    ensures SameElsewhere(x, x, e.id) && FlagsKept(x, x, e.id)
    ensures var y := ClearSsn(SetSrm(x, e.id, now), e.id); SameElsewhere(x, y, e.id) && ToSend(y, e.id, now)
    ensures var y := SetSsn(x, e.id);
      SameElsewhere(x, y, e.id) && e.id in y.ssn && (e.id in y.srm <==> e.id in x.srm) && (e.id in y.acks <==> e.id in x.acks)
  {
    var y := ClearSsn(SetSrm(x, e.id, now), e.id);
    assert SameElsewhere(x, y, e.id);
    assert SameElsewhere(x, SetSsn(x, e.id), e.id);
  }

  lemma ArrivalOutcomes(x: Circuit, id: LspId)
    ensures var y := ClearSrm(x, id); SameElsewhere(x, y, id) && id !in y.srm && (id in y.ssn <==> id in x.ssn) && y.p2p == x.p2p
    ensures var y := SetSsn(ClearSrm(x, id), id); SameElsewhere(x, y, id) && id in y.ssn && id !in y.srm
  {
  }

  lemma AckOutcome(x: Circuit, e: SnpEntry)
    ensures var y := SetSsnAck(x, e);
      SameElsewhere(x, y, e.id) && e.id in y.ssn && e.id in y.acks && y.acks[e.id] == e && (e.id in y.srm <==> e.id in x.srm)
  {
  }

  lemma FloodOutcome(n: Node, id: LspId, e: Entry, except: Option<CircuitId>, now: nat)
    ensures var n' := Flood(n.(db := n.db[id := e]), id, except, now);
      && OnlyConcerns(n, n', id) && id in n'.db && n'.db[id] == e && n'.wrapUntil == n.wrapUntil
      && (forall c :: c in n.circuits && Some(c) != except ==> ToSend(n'.circuits[c], id, now))
      && (forall c :: c in n.circuits && Some(c) == except ==> n'.circuits[c] == n.circuits[c])
  {
    hide SameElsewhere; hide ToSend; hide SetSrm; hide ClearSsn;
    forall c | c in n.circuits
      ensures SameElsewhere(n.circuits[c], n.circuits[c], id)
      ensures var y := ClearSsn(SetSrm(n.circuits[c], id, now), id); SameElsewhere(n.circuits[c], y, id) && ToSend(y, id, now)
    {
      FlagOutcomes(n.circuits[c], SnpEntry(id, 0, 0, 0), now);
    }
  }

  lemma FreshLifetime(e: Entry, now: nat)
    requires e.inserted == now
    ensures Remaining(e, now) == e.lifetime
  {
  }

  lemma StoreOutcome(n: Node, id: LspId, e: Entry, now: nat)
    requires e.inserted == now
    ensures var n' := StoreAndFlood(n, id, e, now);
      && OnlyConcerns(n, n', id) && n'.cfg == n.cfg && id in n'.db && n'.db[id] == e && n'.wrapUntil == n.wrapUntil
      && ToSendEverywhere(n', id, now) && Remaining(e, now) == e.lifetime
  {
    FloodOutcome(n, id, e, None, now);
    FreshLifetime(e, now);
    hide Flood; hide ToSend; hide SameElsewhere; hide Remaining;
  }

  lemma PurgeOutcome(n: Node, id: LspId, seqno: Seqno, now: nat)
    ensures OnlyConcerns(n, ExpirePurge(n, id, seqno, now), id) && PurgedAt(ExpirePurge(n, id, seqno, now), n, id, seqno, now)
  {
    FloodOutcome(n, id, PurgeEntry(n, id, seqno, false, now), None, now);
    FreshLifetime(PurgeEntry(n, id, seqno, false, now), now);
    hide Flood; hide ToSend;
  }

  lemma ExhaustOutcome(n: Node, id: LspId, now: nat)
    ensures OnlyConcerns(n, ExhaustSeq(n, id, now), id) && Exhausted(ExhaustSeq(n, id, now), id, now)
  {
    var held := n.(wrapUntil := n.wrapUntil[id := now + SEQ_WRAP_HOLD]);
    FloodOutcome(held, id, PurgeEntry(n, id, MAX_SEQ, true, now), None, now);
    FreshLifetime(PurgeEntry(n, id, MAX_SEQ, true, now), now);
    hide Flood; hide ToSend; hide SameElsewhere;
  }

  lemma ReissueOutcome(n: Node, id: LspId, seen: Seqno, now: nat, deadline: nat)
    requires id in n.db
    ensures OnlyConcerns(n, Reoriginate(n, id, seen, now, deadline), id)
    ensures Reissued(Reoriginate(n, id, seen, now, deadline), n, id, seen, now, deadline)
  {
    if seen == MAX_SEQ {
      ExhaustOutcome(n, id, now);
    } else {
      var e, seqno: Seqno := n.db[id], seen + 1;
      var next := Entry(seqno, n.cfg.sum(id, seqno, e.body), e.body, e.size, now, MAX_AGE, true, None, deadline);
      FloodOutcome(n, id, next, None, now);
      FreshLifetime(next, now);
      hide Flood; hide ToSend; hide SameElsewhere; hide Remaining;
    }
  }

  lemma InstallOutcome(n: Node, c: CircuitId, m: Lsp, now: nat)
    requires c in n.circuits
    ensures OnlyConcerns(n, Install(n, c, m, now), m.id) && Stored(Install(n, c, m, now), n, c, m, now)
  {
    hide Flood; hide ToSend; hide Remaining; hide SameElsewhere; hide ClearSrm; hide SetSsn;
    var e := Entry(m.seqno, m.checksum, m.body, m.size, now, ReceivedLifetime(m.remaining), false,
                   if m.remaining == 0 then Some(now) else None, 0);
    FloodOutcome(n, m.id, e, Some(c), now);
    FreshLifetime(e, now);
    var stored := Flood(n.(db := n.db[m.id := e]), m.id, Some(c), now);
    assert stored.circuits[c] == n.circuits[c];
    ArrivalOutcomes(n.circuits[c], m.id);
  }

  /** `h` is `n` but for what the neighbour on `c` has been heard to hold. */
  ghost predicate HeardOf(n: Node, h: Node, c: CircuitId) {
    && c in n.circuits && h == n.(circuits := h.circuits) && h.circuits.Keys == n.circuits.Keys
    && (forall d :: d in n.circuits ==> h.circuits[d] == n.circuits[d].(reported := h.circuits[d].reported))
  }

  /** The outcomes do not look at that. */
  lemma HearingAside(x: Circuit, h: Circuit, y: Circuit, id: LspId)
    requires h == x.(reported := h.reported)
    ensures SameElsewhere(h, y, id) <==> SameElsewhere(x, y, id)
    ensures FlagsKept(h, y, id) <==> FlagsKept(x, y, id)
  {
  }

  lemma ConcernsFromHeard(n: Node, h: Node, n': Node, c: CircuitId, id: LspId)
    requires HeardOf(n, h, c) && OnlyConcerns(h, n', id)
    ensures OnlyConcerns(n, n', id)
    ensures FlagsKeptBut(h, n', c, id) <==> FlagsKeptBut(n, n', c, id)
  {
    hide SameElsewhere; hide FlagsKept;
    forall d | d in n.circuits
      ensures SameElsewhere(n.circuits[d], n'.circuits[d], id)
      ensures FlagsKept(h.circuits[d], n'.circuits[d], id) <==> FlagsKept(n.circuits[d], n'.circuits[d], id)
    {
      assert SameElsewhere(h.circuits[d], n'.circuits[d], id);
      HearingAside(n.circuits[d], h.circuits[d], n'.circuits[d], id);
    }
  }

  lemma OriginatesFromHeard(n: Node, h: Node, c: CircuitId, id: LspId)
    requires HeardOf(n, h, c)
    ensures Originates(h, id) <==> Originates(n, id)
  {
    forall d | d in n.circuits
      ensures h.circuits[d].octet == n.circuits[d].octet && h.circuits[d].dis == n.circuits[d].dis
    {
    }
  }

  lemma StaysFromHeard(n: Node, h: Node, n': Node, c: CircuitId, id: LspId)
    requires HeardOf(n, h, c) && OnlyConcerns(h, n', id)
    ensures DatabaseStays(n', h, c, id) <==> DatabaseStays(n', n, c, id)
    ensures FlagsKept(h.circuits[c], n'.circuits[c], id) <==> FlagsKept(n.circuits[c], n'.circuits[c], id)
    ensures var x, y := n.circuits[c], h.circuits[c]; x.p2p == y.p2p && x.srm == y.srm && x.ssn == y.ssn && x.acks == y.acks
  {
    hide FlagsKept; hide SameElsewhere; hide FlagsKeptBut;
    ConcernsFromHeard(n, h, n', c, id);
    HearingAside(n.circuits[c], h.circuits[c], n'.circuits[c], id);
  }

  lemma HigherFromHeard(n: Node, h: Node, n': Node, c: CircuitId, m: Lsp, now: nat, deadline: nat)
    requires HeardOf(n, h, c) && OnlyConcerns(h, n', m.id) && HigherOutcome(h, n', c, m, now, deadline)
    ensures HigherOutcome(n, n', c, m, now, deadline)
  {
    hide FlagsKept; hide ToSend; hide Remaining; hide DatabaseStays; hide Originates; hide OnlyConcerns; hide ToSendEverywhere;
    StaysFromHeard(n, h, n', c, m.id);
    OriginatesFromHeard(n, h, c, m.id);
  }

  lemma OtherFromHeard(n: Node, h: Node, n': Node, c: CircuitId, m: Lsp, now: nat, deadline: nat)
    requires HeardOf(n, h, c) && OnlyConcerns(h, n', m.id) && m.id in n.db && OtherOutcome(h, n', c, m, now, deadline)
    ensures OtherOutcome(n, n', c, m, now, deadline)
  {
    hide FlagsKept; hide ToSend; hide Remaining; hide DatabaseStays; hide OnlyConcerns; hide ToSendEverywhere;
    StaysFromHeard(n, h, n', c, m.id);
  }

  lemma LocalOutcome(n: Node, c: CircuitId, x: Circuit, id: LspId)
    requires c in n.circuits && SameElsewhere(n.circuits[c], x, id)
    ensures OnlyConcerns(n, WithCircuit(n, c, x), id) && DatabaseStays(WithCircuit(n, c, x), n, c, id)
    ensures WithCircuit(n, c, x).circuits[c] == x && (x == n.circuits[c] ==> WithCircuit(n, c, x) == n)
  {
    hide SameElsewhere; hide FlagsKept;
    forall d | d in n.circuits
      ensures SameElsewhere(n.circuits[d], n.circuits[d], id) && FlagsKept(n.circuits[d], n.circuits[d], id)
    {
      FlagOutcomes(n.circuits[d], SnpEntry(id, 0, 0, 0), 0);
    }
  }

  lemma OldOutcome(n: Node, c: CircuitId, m: Lsp, now: nat, deadline: nat)
    requires c in n.circuits && m.id in n.db && !RanksHigher(n, m, now)
    ensures OnlyConcerns(n, ReceiveOld(n, c, m, now, deadline), m.id)
    ensures OtherOutcome(n, ReceiveOld(n, c, m, now, deadline), c, m, now, deadline)
  {
    hide OnlyConcerns; hide Reissued; hide PurgedAt; hide ExpirePurge; hide Reoriginate; hide FlagsKept; hide Remaining; hide SameElsewhere;
    hide DatabaseStays; hide ToSend; hide SetSrm; hide SetSsn; hide ClearSsn; hide WithCircuit;
    var x := n.circuits[c];
    FlagOutcomes(x, SnpEntry(m.id, 0, 0, 0), now);
    LocalOutcome(n, c, ClearSsn(SetSrm(x, m.id, now), m.id), m.id);
    LocalOutcome(n, c, SetSsn(x, m.id), m.id);
    LocalOutcome(n, c, x, m.id);
    PurgeOutcome(n, m.id, n.db[m.id].seqno, now);
    ReissueOutcome(n, m.id, m.seqno, now, deadline);
  }

  lemma NewOutcome(n: Node, c: CircuitId, m: Lsp, now: nat, deadline: nat)
    requires c in n.circuits && RanksHigher(n, m, now)
    ensures var n' := ReceiveNew(n, c, m, now, deadline); OnlyConcerns(n, n', m.id) && HigherOutcome(n, n', c, m, now, deadline)
  {
    hide OnlyConcerns; hide Reissued; hide PurgedAt; hide Stored; hide Install; hide ExpirePurge; hide Reoriginate; hide FlagsKept;
    hide RanksHigher; hide SameElsewhere; hide DatabaseStays; hide SetSsnAck; hide WithCircuit;
    var x, ack := n.circuits[c], SnpEntry(m.id, m.seqno, 0, m.checksum);
    FlagOutcomes(x, ack, now);
    AckOutcome(x, ack);
    LocalOutcome(n, c, SetSsnAck(x, ack), m.id);
    LocalOutcome(n, c, x, m.id);
    InstallOutcome(n, c, m, now);
    PurgeOutcome(n, m.id, m.seqno, now);
    if m.id in n.db { ReissueOutcome(n, m.id, m.seqno, now, deadline); }
    assert Originates(n, m.id) <==> OwnsLsp(n, m.id) && m.id in n.db && n.db[m.id].own && n.db[m.id].purgedAt.None?;
  }

  /** In every case. */
  lemma ReceiveOutcome(n: Node, c: CircuitId, m: Lsp, intact: bool, now: nat, deadline: nat)
    requires c in n.circuits
    ensures Outcome(n, ReceiveLsp(n, c, m, intact, now, deadline), c, m, intact, now, deadline)
  {
    var rank := Claimed(m.seqno, m.remaining);
    var h, n' := WithCircuit(n, c, Hears(n.circuits[c], m.id, rank)), ReceiveLsp(n, c, m, intact, now, deadline);
    HearsOnly(n, c, m.id, rank);
    assert Newer(m.seqno, m.remaining, Get(h, m.id), now) <==> RanksHigher(h, m, now);
    assert RanksHigher(h, m, now) <==> RanksHigher(n, m, now);
    hide HigherOutcome; hide OtherOutcome; hide OnlyConcerns; hide ReceiveNew; hide ReceiveOld; hide RanksHigher; hide Newer; hide Hears;
    hide Remaining;
    if m.remaining == 0 || intact {
      if RanksHigher(h, m, now) {
        NewOutcome(h, c, m, now, deadline);
        HigherFromHeard(n, h, n', c, m, now, deadline);
      } else {
        HeldIfNotHigher(h, m, now);
        OldOutcome(h, c, m, now, deadline);
        OtherFromHeard(n, h, n', c, m, now, deadline);
      }
      ConcernsFromHeard(n, h, n', c, m.id);
    }
  }

  lemma HearsOnly(n: Node, c: CircuitId, id: LspId, rank: nat)
    requires c in n.circuits
    ensures HeardOf(n, WithCircuit(n, c, Hears(n.circuits[c], id, rank)), c)
  {
  }

  lemma HeldIfNotHigher(n: Node, m: Lsp, now: nat)
    requires !RanksHigher(n, m, now)
    ensures m.id in n.db
  {
  }

  /**
   * An intact copy from another system that ranks above the one held, or a live one of something unknown while there is
   * room: it is in the database as it came, on its way over every other circuit, and acknowledged where it came from.
   */
  lemma NewerIsTaken(n: Node, c: CircuitId, m: Lsp, now: nat, deadline: nat)
    requires c in n.circuits && m.id.node.system != n.cfg.self
    requires if m.id in n.db then CopyRank(m) > HeldRank(n, m.id, now)
             else m.remaining != 0 && (n.cfg.limit == 0 || |n.db| < n.cfg.limit)
    ensures var n' := ReceiveLsp(n, c, m, true, now, deadline);
      && m.id in n'.db && n'.db[m.id].seqno == m.seqno && n'.db[m.id].checksum == m.checksum
      && n'.db[m.id].body == m.body && n'.db[m.id].size == m.size && !n'.db[m.id].own
      && (n'.db[m.id].purgedAt.Some? <==> m.remaining == 0)
      && Remaining(n'.db[m.id], now) == (if m.remaining == 0 then 0 else Max(m.remaining, MAX_AGE))
      && (forall k :: k != m.id ==> (k in n'.db <==> k in n.db) && (k in n.db && k in n'.db ==> n'.db[k] == n.db[k]))
      && n'.circuits.Keys == n.circuits.Keys
      && (forall d :: d in n.circuits && d != c ==> m.id in n'.circuits[d].srm && n'.circuits[d].srm[m.id] == now && m.id !in n'.circuits[d].ssn)
      && m.id !in n'.circuits[c].srm && (m.id in n'.circuits[c].ssn <==> n.circuits[c].p2p || m.id in n.circuits[c].ssn)
  {
    hide Remaining; hide SameElsewhere; hide ReceiveLsp; hide HeldRank; hide CopyRank;
    ReceiveOutcome(n, c, m, true, now, deadline);
  }

  /** A copy of an LSP this node originates now, above the one held: the LSP is issued again above the number seen. */
  lemma OwnIsReclaimed(n: Node, c: CircuitId, m: Lsp, now: nat, deadline: nat)
    requires c in n.circuits && Originates(n, m.id) && CopyRank(m) > HeldRank(n, m.id, now) && m.seqno != MAX_SEQ
    ensures var n' := ReceiveLsp(n, c, m, true, now, deadline);
      && m.id in n'.db && n'.db[m.id].seqno == m.seqno + 1 && n'.db[m.id].body == n.db[m.id].body && n'.db[m.id].own
      && Remaining(n'.db[m.id], now) == MAX_AGE && n'.circuits.Keys == n.circuits.Keys
      && (forall d :: d in n.circuits ==> m.id in n'.circuits[d].srm && n'.circuits[d].srm[m.id] == now)
  {
    hide Remaining; hide SameElsewhere; hide ReceiveLsp; hide HeldRank; hide CopyRank;
    ReceiveOutcome(n, c, m, true, now, deadline);
  }

  // ---------- Originating, withdrawing, ageing ----------

  /** A new number of an own LSP with these contents, sent everywhere. */
  ghost predicate Issued(n': Node, n: Node, id: LspId, body: Body, size: nat, now: nat, deadline: nat) {
    && id in n'.db && n'.db[id].seqno == (if id in n.db then n.db[id].seqno + 1 else 1)
    && n'.db[id].body == body && n'.db[id].size == size && n'.db[id].own && n'.db[id].purgedAt == None
    && n'.db[id].refreshAt == deadline && Remaining(n'.db[id], now) == MAX_AGE
    && n'.db[id].checksum == n.cfg.sum(id, n'.db[id].seqno, body) && ToSendEverywhere(n', id, now) && n'.wrapUntil == n.wrapUntil
  }

  /** An origination is idle while the identifier is held down, while nothing changed unless forced, and when it does not fit. */
  lemma OriginateOutcome(n: Node, id: LspId, body: Body, size: nat, buffer: nat, force: bool, now: nat, deadline: nat)
    ensures var n' := Originate(n, id, body, size, buffer, force, now, deadline);
      var waits := id in n.wrapUntil && now < n.wrapUntil[id];
      var stands := id in n.db && n.db[id].own && n.db[id].purgedAt == None && n.db[id].body == body && !force;
      if waits || stands then n' == n
      else if id in n.db && n.db[id].seqno == MAX_SEQ then OnlyConcerns(n, n', id) && Exhausted(n', id, now)
      else if size > buffer then n' == n
      else OnlyConcerns(n, n', id) && Issued(n', n, id, body, size, now, deadline)
  {
    hide StoreAndFlood; hide ToSendEverywhere; hide Remaining; hide ExhaustSeq; hide OnlyConcerns; hide Exhausted;
    ExhaustOutcome(n, id, now);
    if !(id in n.db && n.db[id].seqno == MAX_SEQ) {
      var seqno: Seqno := if id in n.db then n.db[id].seqno + 1 else 1;
      var e := Entry(seqno, n.cfg.sum(id, seqno, body), body, size, now, MAX_AGE, true, None, deadline);
      StoreOutcome(n, id, e, now);
    }
  }

  /** A withdrawn LSP is a purge at the next number, sent everywhere. */
  lemma WithdrawOutcome(n: Node, id: LspId, now: nat)
    ensures var n' := PurgeOwn(n, id, now);
      && OnlyConcerns(n, n', id)
      && if id in n.db && n.db[id].seqno == MAX_SEQ then Exhausted(n', id, now)
         else
           && id in n'.db && n'.db[id].seqno == (if id in n.db then n.db[id].seqno + 1 else 1)
           && n'.db[id].body == Purge && n'.db[id].own && n'.db[id].purgedAt == Some(now) && Remaining(n'.db[id], now) == 0
           && Sealed(n', id) && ToSendEverywhere(n', id, now) && n'.wrapUntil == n.wrapUntil
  {
    hide StoreAndFlood; hide ToSendEverywhere; hide Remaining; hide ExhaustSeq; hide OnlyConcerns; hide Exhausted;
    ExhaustOutcome(n, id, now);
    if !(id in n.db && n.db[id].seqno == MAX_SEQ) {
      var seqno: Seqno := if id in n.db then n.db[id].seqno + 1 else 1;
      StoreOutcome(n, id, PurgeEntry(n, id, seqno, true, now), now);
    }
  }

  /** A purge goes after a minute; another's LSP that has run out becomes one at its own number; all else stays. */
  lemma AgeOutcome(n: Node, id: LspId, now: nat)
    requires id in n.db
    ensures var n', e := AgeOne(n, id, now), n.db[id];
      if e.purgedAt.Some? then n' == if now >= e.purgedAt.value + 60 * SECOND then n.(db := n.db - {id}) else n
      else if !e.own && Remaining(e, now) == 0 then OnlyConcerns(n, n', id) && PurgedAt(n', n, id, e.seqno, now)
      else n' == n
  {
    PurgeOutcome(n, id, n.db[id].seqno, now);
    hide ExpirePurge; hide OnlyConcerns; hide PurgedAt; hide Remaining;
  }

  /** A remaining lifetime runs down by one each second from when the copy was stored. */
  lemma RunsDown(e: Entry, seconds: nat, more: nat)
    requires more < SECOND
    ensures Remaining(e, e.inserted + seconds * SECOND + more) == if seconds <= e.lifetime then e.lifetime - seconds else 0
  {
    assert (seconds * SECOND + more) / SECOND == seconds;
  }
}
