/** Sequence numbers, purges and the exhaustion hold-down over every run of the update process. */
module Sequencing {
  import opened Types
  import opened Lsdb
  import opened Flooding
  import Snp

  /** The order in which copies of one LSP supersede each other: the number first, then a purge above a live copy. */
  function Rank(e: Entry, now: nat): nat {
    2 * e.seqno + (if Remaining(e, now) == 0 then 1 else 0)
  }

  /** The comparison the update process makes is the strict order on ranks. */
  lemma NewerIsHigher(seqno: Seqno, remaining: nat, e: Entry, now: nat)
    ensures Newer(seqno, remaining, Some(e), now) <==> Claimed(seqno, remaining) > Rank(e, now)
  {
  }

  /** Time alone never lowers a rank: a lifetime only runs down. */
  lemma AgeingRaises(e: Entry, now: nat, later: nat)
    requires now <= later
    ensures Rank(e, now) <= Rank(e, later)
  {
    var a := if now < e.inserted then 0 else (now - e.inserted) / SECOND;
    var b := if later < e.inserted then 0 else (later - e.inserted) / SECOND;
    assert a <= b;
  }

  // ---------- No step lowers a rank ----------

  /** Whatever is still held is held at no lower a rank. */
  ghost predicate Advances(n: Node, n': Node, now: nat) {
    forall id :: id in n.db && id in n'.db ==> Rank(n'.db[id], now) >= Rank(n.db[id], now)
  }

  /** Storing one entry at no lower a rank than the one it replaces. */
  lemma StoreAdvances(n: Node, n': Node, id: LspId, e: Entry, now: nat)
    requires n'.db == n.db[id := e]
    requires id in n.db ==> Rank(e, now) >= Rank(n.db[id], now)
    ensures Advances(n, n', now)
  {
  }

  /** A purge at the number held, or above. */
  lemma PurgeAdvances(n: Node, id: LspId, seqno: Seqno, now: nat)
    requires id in n.db ==> seqno >= n.db[id].seqno
    ensures Advances(n, ExpirePurge(n, id, seqno, now), now)
    ensures seqno == MAX_SEQ ==> Advances(n, ExhaustSeq(n, id, now), now)
  {
    StoreAdvances(n, ExpirePurge(n, id, seqno, now), id, PurgeEntry(n, id, seqno, false, now), now);
    if seqno == MAX_SEQ {
      StoreAdvances(n, ExhaustSeq(n, id, now), id, PurgeEntry(n, id, MAX_SEQ, true, now), now);
    }
  }

  lemma ReoriginateAdvances(n: Node, id: LspId, seen: Seqno, now: nat, deadline: nat)
    requires id in n.db ==> seen >= n.db[id].seqno
    ensures Advances(n, Reoriginate(n, id, seen, now, deadline), now)
  {
    if id in n.db && seen == MAX_SEQ {
      PurgeAdvances(n, id, MAX_SEQ, now);
    }
  }

  lemma ReceiveLspAdvances(n0: Node, c: CircuitId, m: Lsp, intact: bool, now: nat, deadline: nat)
    requires c in n0.circuits
    ensures Advances(n0, ReceiveLsp(n0, c, m, intact, now, deadline), now)
  {
    hide Flood; hide Reoriginate; hide ExpirePurge; hide Covered;
    var n := WithCircuit(n0, c, Hears(n0.circuits[c], m.id, Claimed(m.seqno, m.remaining)));
    var held := Get(n, m.id);
    if Newer(m.seqno, m.remaining, held, now) {
      ReoriginateAdvances(n, m.id, m.seqno, now, deadline);
      PurgeAdvances(n, m.id, m.seqno, now);
      InstallAdvances(n, c, m, now);
    } else {
      ReceiveOldAdvances(n, c, m, now, deadline);
    }
  }

  lemma ReceiveOldAdvances(n: Node, c: CircuitId, m: Lsp, now: nat, deadline: nat)
    requires c in n.circuits && m.id in n.db
    ensures Advances(n, ReceiveOld(n, c, m, now, deadline), now)
  {
    hide Reoriginate; hide ExpirePurge;
    PurgeAdvances(n, m.id, n.db[m.id].seqno, now);
    if m.seqno == n.db[m.id].seqno {
      ReoriginateAdvances(n, m.id, m.seqno, now, deadline);
    }
  }

  lemma InstallAdvances(n: Node, c: CircuitId, m: Lsp, now: nat)
    requires c in n.circuits && Newer(m.seqno, m.remaining, Get(n, m.id), now)
    ensures Advances(n, Install(n, c, m, now), now)
  {
    var e := Entry(m.seqno, m.checksum, m.body, m.size, now, ReceivedLifetime(m.remaining), false,
                   if m.remaining == 0 then Some(now) else None, 0);
    StoreAdvances(n, Install(n, c, m, now), m.id, e, now);
  }

  lemma OriginateAdvances(n: Node, id: LspId, body: Body, size: nat, buffer: nat, force: bool, now: nat, deadline: nat)
    ensures Advances(n, Originate(n, id, body, size, buffer, force, now, deadline), now)
    ensures Advances(n, PurgeOwn(n, id, now), now)
  {
    if id in n.db && n.db[id].seqno == MAX_SEQ {
      PurgeAdvances(n, id, MAX_SEQ, now);
    }
  }

  lemma StepAdvances(n: Node, s: Step, now: nat)
    requires Enabled(n, s, now)
    ensures Advances(n, Next(n, s, now), now)
  {
    hide ReceiveLsp; hide Originate; hide PurgeOwn;
    match s
    case GotLsp(c, m, intact, deadline) => ReceiveLspAdvances(n, c, m, intact, now, deadline);
    case Originated(id, body, size, buffer, force, deadline) => OriginateAdvances(n, id, body, size, buffer, force, now, deadline);
    case Purged(id) => OriginateAdvances(n, id, Purge, 0, 0, false, now, 0);
    case Aged(id) => PurgeAdvances(n, id, n.db[id].seqno, now);
    case _ =>
  }

  // ---------- Purges, own numbers, hold-down, acknowledgements ----------

  /** A purge has no lifetime left, and an own LSP never carries the number 0. */
  predicate EntrySound(e: Entry) {
    (e.purgedAt.Some? ==> e.lifetime == 0) && (e.own ==> e.seqno >= 1)
  }

  /** A held-down identifier has no live own copy. */
  predicate HoldsDown(n: Node, id: LspId, now: nat) {
    HeldDown(n, id, now) && id in n.db && n.db[id].own ==> n.db[id].purgedAt.Some?
  }

  ghost predicate Sound(n: Node, now: nat) {
    && (forall id :: id in n.db ==> EntrySound(n.db[id]))
    && (forall id :: id in n.db ==> HoldsDown(n, id, now))
    && (forall c :: c in n.circuits ==> n.circuits[c].acks.Keys <= n.circuits[c].ssn)
  }

  /** While a hold-down lasts, no own copy with lifetime left is in the database. */
  lemma NoLiveCopy(n: Node, id: LspId, now: nat)
    requires Sound(n, now) && HeldDown(n, id, now) && id in n.db && n.db[id].own
    ensures Remaining(n.db[id], now) == 0
  {
    assert HoldsDown(n, id, now);
  }

  lemma StoreSound(n: Node, id: LspId, e: Entry, now: nat)
    requires Sound(n, now) && EntrySound(e)
    requires HeldDown(n, id, now) && e.own ==> e.purgedAt.Some?
    ensures Sound(StoreAndFlood(n, id, e, now), now)
  {
    var n' := StoreAndFlood(n, id, e, now);
    forall k | k in n'.db
      ensures EntrySound(n'.db[k]) && HoldsDown(n', k, now)
    {
      if k != id { assert HoldsDown(n, k, now); }
    }
  }

  lemma ExhaustSound(n: Node, id: LspId, now: nat)
    requires Sound(n, now)
    ensures Sound(ExhaustSeq(n, id, now), now)
  {
    var n' := ExhaustSeq(n, id, now);
    forall k | k in n'.db
      ensures EntrySound(n'.db[k]) && HoldsDown(n', k, now)
    {
      if k != id { assert HoldsDown(n, k, now); }
    }
  }

  /** Changing the flags of one circuit. */
  lemma CircuitSound(n: Node, c: CircuitId, x: Circuit, now: nat)
    requires Sound(n, now) && x.acks.Keys <= x.ssn
    ensures Sound(WithCircuit(n, c, x), now)
  {
    var n' := WithCircuit(n, c, x);
    forall k | k in n'.db
      ensures HoldsDown(n', k, now)
    {
      assert HoldsDown(n, k, now);
    }
  }

  lemma ReoriginateSound(n: Node, id: LspId, seen: Seqno, now: nat, deadline: nat)
    requires Sound(n, now)
    requires id in n.db && HeldDown(n, id, now) ==> !n.db[id].own || n.db[id].purgedAt.Some?
    requires id in n.db ==> n.db[id].own && n.db[id].purgedAt.None?
    ensures Sound(Reoriginate(n, id, seen, now, deadline), now)
  {
    hide StoreAndFlood; hide Sound;
    if id in n.db {
      if seen == MAX_SEQ {
        ExhaustSound(n, id, now);
      } else {
        var e, seqno: Seqno := n.db[id], seen + 1;
        StoreSound(n, id, Entry(seqno, n.cfg.sum(id, seqno, e.body), e.body, e.size, now, MAX_AGE, true, None, deadline), now);
      }
    }
  }

  lemma InstallSound(n: Node, c: CircuitId, m: Lsp, now: nat)
    requires Sound(n, now) && c in n.circuits
    ensures Sound(Install(n, c, m, now), now)
  {
    var n' := Install(n, c, m, now);
    forall k | k in n'.db
      ensures EntrySound(n'.db[k]) && HoldsDown(n', k, now)
    {
      if k != m.id { assert HoldsDown(n, k, now); }
    }
    assert n.circuits[c].acks.Keys <= n.circuits[c].ssn;
  }

  lemma ReceiveOldSound(n: Node, c: CircuitId, m: Lsp, now: nat, deadline: nat)
    requires Sound(n, now) && c in n.circuits && m.id in n.db
    ensures Sound(ReceiveOld(n, c, m, now, deadline), now)
  {
    hide StoreAndFlood; hide Reoriginate;
    var x, e := n.circuits[c], n.db[m.id];
    CircuitSound(n, c, ClearSsn(SetSrm(x, m.id, now), m.id), now);
    CircuitSound(n, c, SetSsn(x, m.id), now);
    StoreSound(n, m.id, PurgeEntry(n, m.id, e.seqno, false, now), now);
    if e.own && Remaining(e, now) != 0 {
      assert HoldsDown(n, m.id, now);
      ReoriginateSound(n, m.id, m.seqno, now, deadline);
    }
  }

  lemma ReceiveLspSound(n0: Node, c: CircuitId, m: Lsp, intact: bool, now: nat, deadline: nat)
    requires Sound(n0, now) && c in n0.circuits
    ensures Sound(ReceiveLsp(n0, c, m, intact, now, deadline), now)
  {
    hide StoreAndFlood; hide Reoriginate; hide Install; hide ReceiveOld;
    var n := WithCircuit(n0, c, Hears(n0.circuits[c], m.id, Claimed(m.seqno, m.remaining)));
    CircuitSound(n0, c, Hears(n0.circuits[c], m.id, Claimed(m.seqno, m.remaining)), now);
    if m.id in n.db {
      ReceiveOldSound(n, c, m, now, deadline);
      assert HoldsDown(n, m.id, now);
      if n.db[m.id].own && n.db[m.id].purgedAt.None? { ReoriginateSound(n, m.id, m.seqno, now, deadline); }
    }
    InstallSound(n, c, m, now);
    StoreSound(n, m.id, PurgeEntry(n, m.id, m.seqno, false, now), now);
    CircuitSound(n, c, SetSsnAck(n.circuits[c], SnpEntry(m.id, m.seqno, 0, m.checksum)), now);
  }

  lemma OriginateSound(n: Node, id: LspId, body: Body, size: nat, buffer: nat, force: bool, now: nat, deadline: nat)
    requires Sound(n, now)
    ensures Sound(Originate(n, id, body, size, buffer, force, now, deadline), now)
  {
    hide StoreAndFlood; hide Sound;
    if id in n.db && n.db[id].seqno == MAX_SEQ {
      ExhaustSound(n, id, now);
    } else if !HeldDown(n, id, now) {
      var seqno: Seqno := if id in n.db then n.db[id].seqno + 1 else 1;
      StoreSound(n, id, Entry(seqno, n.cfg.sum(id, seqno, body), body, size, now, MAX_AGE, true, None, deadline), now);
    }
  }

  lemma PurgeOwnSound(n: Node, id: LspId, now: nat)
    requires Sound(n, now)
    ensures Sound(PurgeOwn(n, id, now), now)
  {
    hide StoreAndFlood; hide Sound;
    if id in n.db && n.db[id].seqno == MAX_SEQ {
      ExhaustSound(n, id, now);
    } else {
      StoreSound(n, id, PurgeEntry(n, id, if id in n.db then n.db[id].seqno + 1 else 1, true, now), now);
    }
  }

  lemma AgeSound(n: Node, id: LspId, now: nat)
    requires Sound(n, now) && id in n.db
    ensures Sound(AgeOne(n, id, now), now)
  {
    StoreSound(n, id, PurgeEntry(n, id, n.db[id].seqno, false, now), now);
    forall k | k in n.db
      ensures HoldsDown(n.(db := n.db - {id}), k, now)
    {
      assert HoldsDown(n, k, now);
    }
  }

  lemma CsnpEntrySound(x: Circuit, db: Database, s: SnpEntry, now: nat)
    requires x.acks.Keys <= x.ssn
    ensures CsnpEntry(x, db, s, now).acks.Keys <= CsnpEntry(x, db, s, now).ssn
  {
    hide Newer; hide Conflicts;
  }

  lemma PsnpEntrySound(x: Circuit, db: Database, s: SnpEntry, now: nat)
    requires x.acks.Keys <= x.ssn
    ensures PsnpEntry(x, db, s, now).acks.Keys <= PsnpEntry(x, db, s, now).ssn
  {
    hide Conflicts;
  }

  /** The entries of a sequence-number PDU never leave an acknowledgement unlisted. */
  lemma {:induction false} SnpSound(x: Circuit, db: Database, listed: seq<SnpEntry>, now: nat)
    requires x.acks.Keys <= x.ssn
    ensures CsnpEntries(x, db, listed, now).acks.Keys <= CsnpEntries(x, db, listed, now).ssn
    ensures PsnpEntries(x, db, listed, now).acks.Keys <= PsnpEntries(x, db, listed, now).ssn
  {
    hide CsnpEntry; hide PsnpEntry;
    if listed != [] {
      var before, s := listed[..|listed| - 1], listed[|listed| - 1];
      SnpSound(x, db, before, now);
      CsnpEntrySound(CsnpEntries(x, db, before, now), db, s, now);
      PsnpEntrySound(PsnpEntries(x, db, before, now), db, s, now);
    }
  }

  lemma StepSound(n: Node, s: Step, now: nat)
    requires Sound(n, now) && Enabled(n, s, now)
    ensures Sound(Next(n, s, now), now)
  {
    hide ReceiveLsp; hide Originate; hide AgeOne; hide PurgeOwn; hide CsnpEntries; hide PsnpEntries; hide Sound;
    match s
    case GotLsp(c, m, intact, deadline) => ReceiveLspSound(n, c, m, intact, now, deadline);
    case Aged(id) => AgeSound(n, id, now);
    case Originated(id, body, size, buffer, force, deadline) => OriginateSound(n, id, body, size, buffer, force, now, deadline);
    case Purged(id) => PurgeOwnSound(n, id, now);
    case Released => ReleaseSound(n, now);
    case _ => FlagStepSound(n, s, now);
  }

  lemma ReleaseSound(n: Node, now: nat)
    requires Sound(n, now)
    ensures Sound(Release(n, now), now)
  {
    forall k | k in n.db
      ensures HoldsDown(Release(n, now), k, now)
    {
      assert HoldsDown(n, k, now);
    }
  }

  /** Receiving a sequence-number PDU. */
  lemma SnpStepSound(n: Node, c: CircuitId, start: nat, end: nat, listed: seq<SnpEntry>, now: nat)
    requires Sound(n, now) && c in n.circuits
    ensures Sound(ReceiveCsnp(n, c, start, end, listed, now), now)
    ensures Sound(ReceivePsnp(n, c, listed, now), now)
  {
    hide CsnpEntries; hide PsnpEntries;
    var x := n.circuits[c];
    SnpSound(x, n.db, listed, now);
    hide Sound;
    CircuitSound(n, c, ArmAll(CsnpEntries(x, n.db, listed, now), Omitted(n.db, start, end, listed), now), now);
    CircuitSound(n, c, PsnpEntries(x, n.db, listed, now), now);
  }

  lemma SyncSound(n: Node, c: CircuitId, now: nat)
    requires Sound(n, now) && c in n.circuits
    ensures Sound(Sync(n, c, now), now)
  {
    var x := n.circuits[c];
    assert x.acks.Keys <= x.ssn;
    hide Sound;
    CircuitSound(n, c, x.(syncDeferred := true), now);
    CircuitSound(n, c, ArmAll(x.(syncHold := now + SYNC_HOLD_DOWN, syncDeferred := false), n.db.Keys, now), now);
  }

  lemma FlagStepSound(n: Node, s: Step, now: nat)
    requires Sound(n, now) && Enabled(n, s, now)
    requires !(s.GotLsp? || s.Aged? || s.Originated? || s.Purged? || s.Released?)
    ensures Sound(Next(n, s, now), now)
  {
    assert !s.Added? ==> n.circuits[s.c].acks.Keys <= n.circuits[s.c].ssn;
    hide Sound; hide ReceiveCsnp; hide ReceivePsnp; hide Sync;
    match s
    case GotCsnp(c, start, end, listed) => SnpStepSound(n, c, start, end, listed, now);
    case GotPsnp(c, listed) => SnpStepSound(n, c, 0, 0, listed, now);
    case WentUp(c) =>
      CircuitSound(n, c, n.circuits[c].(up := true, reported := map[]), now);
      SyncSound(WithCircuit(n, c, n.circuits[c].(up := true, reported := map[])), c, now);
    case WasLost(c) => CircuitSound(n, c, n.circuits[c].(up := false), now);
    case WentDown(c) => CircuitSound(n, c, ClearFlags(n.circuits[c]).(up := false), now);
    case Synchronize(c) => SyncSound(n, c, now);
    case TrySend(c, id, sent) => CircuitSound(n, c, Attempt(n.circuits[c], n.db, id, sent, now), now);
    case SendPsnp(c) => CircuitSound(n, c, n.circuits[c].(ssn := {}, acks := map[]), now);
    case Elected(c, dis) => CircuitSound(n, c, n.circuits[c].(dis := dis), now);
    case Added(c, p2p, maxSize, octet) =>
      CircuitSound(n, c, Circuit(p2p, false, maxSize, octet, false, map[], {}, map[], 0, false, map[]), now);
    case Removed(c) => RemovedSound(n, c, now);
  }

  lemma RemovedSound(n: Node, c: CircuitId, now: nat)
    requires Sound(n, now)
    ensures Sound(n.(circuits := n.circuits - {c}), now)
  {
    forall k | k in n.db
      ensures HoldsDown(n.(circuits := n.circuits - {c}), k, now)
    {
      assert HoldsDown(n, k, now);
    }
  }

  // ---------- Runs ----------

  datatype Event = Event(step: Step, at: nat)

  /** The states of a run, one more than its events; the clock never goes back. */
  ghost predicate IsRun(states: seq<Node>, events: seq<Event>) {
    && |states| == |events| + 1
    && (forall i :: 0 <= i < |events| ==> Happens(states, events, i))
    && (forall i, j :: 0 <= i <= j < |events| ==> events[i].at <= events[j].at)
  }

  ghost predicate Happens(states: seq<Node>, events: seq<Event>, i: nat)
    requires i < |events| && |states| == |events| + 1
  {
    && Enabled(states[i], events[i].step, events[i].at)
    && states[i + 1] == Next(states[i], events[i].step, events[i].at)
  }

  /** A node that has just started: nothing held, no circuit added yet. */
  predicate IsFresh(n: Node) {
    n.db == map[] && n.circuits == map[] && n.wrapUntil == map[]
  }

  lemma LaterSound(n: Node, now: nat, later: nat)
    requires Sound(n, now) && now <= later
    ensures Sound(n, later)
  {
    forall k | k in n.db
      ensures HoldsDown(n, k, later)
    {
      assert HoldsDown(n, k, now);
    }
  }

  /** In every state a run reaches: every neighbour covered, every purge empty, every own number at least 1, every hold-down kept. */
  lemma {:induction false} EveryStateIsSound(states: seq<Node>, events: seq<Event>, i: nat, now: nat)
    requires IsRun(states, events) && IsFresh(states[0]) && i <= |events|
    requires i > 0 ==> events[i - 1].at <= now
    ensures NoLoss(states[i]) && Sound(states[i], now)
  {
    if i > 0 {
      var at := events[i - 1].at;
      EveryStateIsSound(states, events, i - 1, at);
      assert Happens(states, events, i - 1);
      StepKeepsCover(states[i - 1], events[i - 1].step, at);
      StepSound(states[i - 1], events[i - 1].step, at);
      LaterSound(states[i], at, now);
    }
  }

  /** By rank every neighbour is covered as long as no line described a live copy against a purge held. */
  lemma {:induction false} EveryPurgeIsCovered(states: seq<Node>, events: seq<Event>, i: nat)
    requires IsRun(states, events) && IsFresh(states[0]) && i <= |events|
    requires forall k :: 0 <= k < i ==> !Loses(states[k], events[k].step)
    ensures NoLossBy(states[i], ByRank)
  {
    hide Next; hide Enabled; hide Loses;
    if i > 0 {
      EveryPurgeIsCovered(states, events, i - 1);
      assert Happens(states, events, i - 1);
      StepKeepsRanks(states[i - 1], events[i - 1].step, events[i - 1].at);
    }
  }

  /** So a neighbour can be behind by a purge only after such a line. */
  lemma LossHasACause(states: seq<Node>, events: seq<Event>, i: nat) returns (k: nat)
    requires IsRun(states, events) && IsFresh(states[0]) && i <= |events| && !NoLossBy(states[i], ByRank)
    ensures k < i && Loses(states[k], events[k].step)
  {
    if forall k :: 0 <= k < i ==> !Loses(states[k], events[k].step) {
      EveryPurgeIsCovered(states, events, i);
    }
    k :| 0 <= k < i && Loses(states[k], events[k].step);
  }

  /** An identifier held all the way from one state to another is held at no lower a rank at the end. */
  lemma {:induction false} RankNeverFalls(states: seq<Node>, events: seq<Event>, i: nat, j: nat, id: LspId, from: nat, now: nat)
    requires IsRun(states, events) && i <= j <= |events|
    requires forall k :: i <= k <= j ==> id in states[k].db
    requires from <= now && (i < |events| && i < j ==> from <= events[i].at) && (j > i ==> events[j - 1].at <= now)
    ensures Rank(states[i].db[id], from) <= Rank(states[j].db[id], now)
  {
    hide Next; hide Enabled; hide Rank;
    if i == j {
      AgeingRaises(states[i].db[id], from, now);
    } else {
      var at := events[j - 1].at;
      assert events[i].at <= events[j - 1].at;
      RankNeverFalls(states, events, i, j - 1, id, from, at);
      assert Happens(states, events, j - 1);
      StepAdvances(states[j - 1], events[j - 1].step, at);
      AgeingRaises(states[j].db[id], at, now);
    }
  }

  // ---------- Echoes and acknowledgements ----------

  /** An own live LSP that comes back at the number held leaves the database alone exactly when it carries the checksum stored. */
  lemma EchoIsIdle(n: Node, c: CircuitId, m: Lsp, now: nat, deadline: nat)
    requires c in n.circuits && m.id in n.db
    requires n.db[m.id].own && Remaining(n.db[m.id], now) != 0
    requires m.seqno == n.db[m.id].seqno && m.remaining != 0
    ensures ReceiveLsp(n, c, m, true, now, deadline).db == n.db <==> m.checksum == n.db[m.id].checksum
  {
    var n' := ReceiveLsp(n, c, m, true, now, deadline);
    if m.checksum != n.db[m.id].checksum {
      assert Rank(n'.db[m.id], now) > Rank(n.db[m.id], now);
    }
  }

  /**
   * An acknowledgement compares numbers only. It takes down the flag of an LSP the neighbour holds at a lower rank
   * exactly when this node holds a purge and the neighbour reports a live copy at the same number.
   */
  lemma AcknowledgedBelow(x: Circuit, db: Database, s: SnpEntry, now: nat)
    requires x.p2p && s.id in db && s.id in x.srm
    ensures (s.id !in PsnpEntry(x, db, s, now).srm && Claimed(s.seqno, s.remaining) < Rank(db[s.id], now))
      <==> (s.seqno == db[s.id].seqno && Remaining(db[s.id], now) == 0 && s.remaining != 0)
  {
    var y := PsnpEntry(x, db, s, now);
    assert s.id in y.srm <==> s.seqno < db[s.id].seqno;
  }

  /** So does a line of a CSNP, on any circuit. */
  lemma ListedBelow(x: Circuit, db: Database, s: SnpEntry, now: nat)
    requires s.id in db && s.id in x.srm
    ensures (s.id !in CsnpEntry(x, db, s, now).srm && Claimed(s.seqno, s.remaining) < Rank(db[s.id], now))
      <==> (s.seqno == db[s.id].seqno && Remaining(db[s.id], now) == 0 && s.remaining != 0)
  {
    hide Remaining;
  }

  /** What a database says of an LSP at one instant, in the terms of a sequence-number PDU. */
  function Described(db: Database, id: LspId, now: nat): Option<Snp.Summary> {
    if id in db then Some(Snp.Summary(db[id].seqno, Remaining(db[id], now), db[id].checksum)) else None
  }

  function FlagsOf(x: Circuit, id: LspId): Snp.Flags {
    Snp.Flags(id in x.srm, id in x.ssn)
  }

  /** A CSNP entry moves the two flags of its LSP as the pointwise comparison of summaries does, and no other LSP's. */
  lemma EntryComparesSummaries(x: Circuit, db: Database, s: SnpEntry, now: nat, id: LspId)
    ensures FlagsOf(CsnpEntry(x, db, s, now), id) ==
      if id == s.id then Snp.Listed(FlagsOf(x, id), Described(db, id, now), Snp.Summary(s.seqno, s.remaining, s.checksum))
      else FlagsOf(x, id)
  {
    hide Newer; hide Conflicts; hide Snp.Newer; hide Snp.Conflicts; hide Remaining;
    hide Hears; hide SetSsn; hide SetSrm; hide ClearSrm; hide FlagsOf;
    ComparisonsAgree(db, s, now);
    FlagsMove(x, s.id, Claimed(s.seqno, s.remaining), now, id);
  }

  lemma ComparisonsAgree(db: Database, s: SnpEntry, now: nat)
    ensures var told, held := Snp.Summary(s.seqno, s.remaining, s.checksum), Described(db, s.id, now);
      if s.id !in db then Snp.Newer(told, held)
      else (Newer(s.seqno, s.remaining, Some(db[s.id]), now) <==> Snp.Newer(told, held)) &&
           (Conflicts(db[s.id], s, now) <==> Snp.Conflicts(held.value, told))
  {
    hide Remaining;
  }

  lemma FlagsMove(x: Circuit, k: LspId, rank: nat, now: nat, id: LspId)
    ensures var y := Hears(x, k, rank);
      && FlagsOf(SetSsn(y, k), id) == (if id == k then FlagsOf(x, id).(ssn := true) else FlagsOf(x, id))
      && FlagsOf(SetSrm(y, k, now), id) == (if id == k then FlagsOf(x, id).(srm := true) else FlagsOf(x, id))
      && FlagsOf(ClearSrm(y, k), id) == (if id == k then FlagsOf(x, id).(srm := false) else FlagsOf(x, id))
  {
  }
}
