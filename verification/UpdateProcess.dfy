/** The update process as the server runs it: circuits are objects, their flags maps written in place. */
module UpdateProcess {
  import opened Types
  import opened Lsdb
  import opened Flooding
  import opened Sequencing
  import Reception

  /** One circuit's flooding state at one level. */
  class FloodingCircuit {
    const p2p: bool
    const maxSize: nat
    const octet: Octet
    var up: bool
    var dis: bool
    var srm: map<LspId, nat>
    var ssn: set<LspId>
    var acks: map<LspId, SnpEntry>
    var syncHold: nat
    var syncDeferred: bool
    ghost var reported: map<LspId, nat>

    ghost function Value(): (x: Circuit)
      reads this
      ensures x.p2p == p2p
    {
      Circuit(p2p, up, maxSize, octet, dis, srm, ssn, acks, syncHold, syncDeferred, reported)
    }

    constructor (p2p: bool, maxSize: nat, octet: Octet)
      ensures Value() == Circuit(p2p, false, maxSize, octet, false, map[], {}, map[], 0, false, map[])
    {
      this.p2p, this.maxSize, this.octet := p2p, maxSize, octet;
      up, dis, srm, ssn, acks := false, false, map[], {}, map[];
      syncHold, syncDeferred, reported := 0, false, map[];
    }

    method Arm(id: LspId, when: nat)
      modifies this
      ensures Value() == SetSrm(old(Value()), id, when)
    {
      srm := srm[id := when];
      reported := reported - {id};
    }

    method Disarm(id: LspId)
      modifies this
      ensures Value() == ClearSrm(old(Value()), id)
    {
      srm := srm - {id};
    }

    method Report(id: LspId)
      modifies this
      ensures Value() == SetSsn(old(Value()), id)
    {
      ssn := ssn + {id};
    }

    method ReportAs(e: SnpEntry)
      modifies this
      ensures Value() == SetSsnAck(old(Value()), e)
    {
      acks := acks[e.id := e];
      Report(e.id);
    }

    method Unreport(id: LspId)
      modifies this
      ensures Value() == ClearSsn(old(Value()), id)
    {
      ssn := ssn - {id};
      acks := acks - {id};
    }

    method Clear()
      modifies this
      ensures Value() == ClearFlags(old(Value()))
    {
      srm, ssn, acks, reported := map[], {}, map[], map[];
    }

    method MarkUp()
      modifies this
      ensures Value() == old(Value()).(up := true, reported := map[])
    {
      up, reported := true, map[];
    }

    /** Record what the neighbour is heard to hold; history only. */
    ghost method Note(id: LspId, rank: nat)
      modifies this`reported
      ensures Value() == Hears(old(Value()), id, rank)
    {
      reported := reported[id := if id in reported && reported[id] > rank then reported[id] else rank];
    }

    method ReceiveCsnpEntry(db: Database, s: SnpEntry, now: nat)
      modifies this
      ensures Value() == CsnpEntry(old(Value()), db, s, now)
    {
      Note(s.id, Claimed(s.seqno, s.remaining));
      if s.id !in db || Newer(s.seqno, s.remaining, Some(db[s.id]), now) {
        Report(s.id);
      } else if db[s.id].seqno > s.seqno {
        Arm(s.id, now);
      } else if db[s.id].seqno == s.seqno && Remaining(db[s.id], now) != 0 && s.remaining != 0 && db[s.id].checksum != s.checksum {
        Arm(s.id, now);
      } else {
        Disarm(s.id);
      }
    }

    method ReceivePsnpEntry(db: Database, s: SnpEntry, now: nat)
      modifies this
      ensures Value() == PsnpEntry(old(Value()), db, s, now)
    {
      Note(s.id, Claimed(s.seqno, s.remaining));
      if p2p {
        if s.id in db && s.seqno >= db[s.id].seqno { Disarm(s.id); }
      } else if s.id in db && (db[s.id].seqno > s.seqno || Conflicts(db[s.id], s, now)) {
        Arm(s.id, now);
      }
    }

    /** Arm the flag of every LSP of a set, one at a time. */
    method ArmEach(ids: set<LspId>, now: nat)
      modifies this
      ensures Value() == ArmAll(old(Value()), ids, now)
    {
      hide ArmAll; hide SetSrm;
      ghost var before := Value();
      ghost var done: set<LspId> := {};
      var left := ids;
      ArmNone(before, now);
      while left != {}
        invariant done + left == ids
        invariant Value() == ArmAll(before, done, now)
        decreases |left|
      {
        var id :| id in left;
        ArmOneMore(before, done, id, now);
        Arm(id, now);
        done, left := done + {id}, left - {id};
      }
      assert done == ids;
    }

    /** A sweep over the entries, then over what the range holds and the entries do not. */
    method ReceiveCsnpList(db: Database, start: nat, end: nat, listed: seq<SnpEntry>, now: nat)
      modifies this
      ensures Value() == ArmAll(CsnpEntries(old(Value()), db, listed, now), Omitted(db, start, end, listed), now)
    {
      ghost var before := Value();
      var names: set<LspId> := {};
      for i := 0 to |listed|
        invariant Value() == CsnpEntries(before, db, listed[..i], now)
        invariant forall id :: id in names <==> Lists(listed[..i], id)
      {
        ListsStep(listed, i);
        assert listed[..i + 1][..i] == listed[..i];
        ReceiveCsnpEntry(db, listed[i], now);
        names := names + {listed[i].id};
      }
      assert listed[..|listed|] == listed;
      var omitted := set id | id in db && id !in names && start <= Code(id) <= end;
      assert omitted == Omitted(db, start, end, listed);
      ArmEach(omitted, now);
    }

    /** Serve due flags in any order until the budget of writes is spent; `spent` counts the writes, failed ones included. */
    method Transmit(db: Database, sends: set<LspId>, budget: nat, now: nat)
      returns (tried: set<LspId>, written: set<LspId>, spent: nat)
      modifies this
      ensures Value() == Served(old(Value()), db, tried, sends, now)
      ensures tried <= old(Due(Value(), now)) && (spent < budget ==> tried == old(Due(Value(), now)))
      ensures written == Sendable(old(Value()), db, tried, sends)
      ensures |written| <= spent <= budget && spent == |Writable(old(Value()), db, tried)|
    {
      hide Served; hide Due; hide Sendable; hide Attempt; hide Unsendable; hide Writable;
      ghost var before, due := Value(), Due(Value(), now);
      tried, written, spent := {}, {}, 0;
      ServeNone(before, db, sends, now);
      NoneWritable(before, db, sends);
      if p2p && !up { return; }
      var left := srm.Keys;
      while left != {} && spent < budget
        invariant left <= before.srm.Keys && tried !! left && tried <= due <= tried + left
        invariant Value() == Served(before, db, tried, sends, now)
        invariant written == Sendable(before, db, tried, sends) && spent == |Writable(before, db, tried)| <= budget
        decreases |left|
      {
        var id :| id in left;
        left := left - {id};
        ServeOneMore(before, db, tried, id, sends, now);
        if srm[id] <= now {
          SendOneMore(before, db, tried, id, sends);
          WritableOneMore(before, db, tried, id);
          UnsendableReads(Value(), before, db, id);
          written, spent := TransmitOne(db, id, sends, written, spent, now);
          tried := tried + {id};
        }
      }
      SendableIsWritable(before, db, tried, sends);
    }

    method TransmitOne(db: Database, id: LspId, sends: set<LspId>, written: set<LspId>, spent: nat, now: nat)
      returns (written': set<LspId>, spent': nat)
      modifies this
      ensures Value() == Attempt(old(Value()), db, id, id in sends, now)
      ensures written' == if Unsendable(old(Value()), db, id) || id !in sends then written else written + {id}
      ensures spent' == if Unsendable(old(Value()), db, id) then spent else spent + 1
    {
      written', spent' := written, spent;
      if id !in db || db[id].size > maxSize {
        Disarm(id);
        return;
      }
      spent' := spent + 1;
      if id in sends {
        written' := written + {id};
        if p2p {
          srm := srm[id := now + MIN_TRANSMIT_INTERVAL];
        } else {
          Disarm(id);
        }
      }
    }

    /**
     * Serve the flags of a circuit that is going, one tick's worth after another as long as a round takes a flag down.
     * When every write succeeds, all that is due and fits is written on a LAN, and on a point-to-point circuit if it is
     * no more than one tick's worth; where every flag on such a circuit fits, never more than that is written.
     */
    method Drain(db: Database, sends: set<LspId>, now: nat) returns (written: set<LspId>, ghost tried: set<LspId>)
      modifies this
      ensures Value() == Served(old(Value()), db, tried, sends, now)
      ensures Drains(old(Value()), db, sends, tried, written, now)
    {
      hide Served; hide Due; hide Sendable; hide Writable; hide Fitting; hide Leaves;
      ghost var before := Value();
      written, tried := {}, {};
      ServeNone(before, db, sends, now);
      var left := |srm|;
      while left > 0
        invariant Value() == Served(before, db, tried, sends, now) && tried <= Due(before, now)
        invariant written == Sendable(before, db, tried, sends) && left == |srm|
        invariant before.p2p && Fitting(before, db) ==> tried == {} && written == {}
        decreases left
      {
        ghost var was := tried;
        RoundOn(before, db, was, sends, now);
        var round, sent, spent := Transmit(db, sends, MAX_PER_TICK, now);
        RoundJoins(before, db, was, round, sends, now);
        tried, written := tried + round, written + sent;
        if |srm| >= left {
          NothingLeft(before, db, was, round, sends, now);
          Finished(before, db, was, round, spent, sends, now);
          return;
        }
        FittingStalls(before, db, was, round, sends, now);
        left := |srm|;
      }
      RoundOn(before, db, tried, sends, now);
      assert srm == map[];
      NoneDue(Value(), now);
      DueIsTried(before, db, tried, sends, now);
      AllTried(before, db, tried, sends, now);
    }

    method ReportLine(db: Database, id: LspId, now: nat) returns (line: SnpEntry)
      ensures line == PsnpLine(Value(), db, id, now)
    {
      line := SnpEntry(id, 0, 0, 0);
      if id in db {
        line := SnpEntry(id, db[id].seqno, Remaining(db[id], now), db[id].checksum);
      } else if id in acks {
        line := acks[id];
      }
    }

    /** Report every flagged LSP and clear the flags; nothing is kept back, because only flagged LSPs have an acknowledgement. */
    method TransmitPsnp(db: Database, now: nat) returns (lines: map<LspId, SnpEntry>)
      requires acks.Keys <= ssn
      modifies this
      ensures FloodReady(Value()) ==> Value() == old(Value()).(ssn := {}, acks := map[])
      ensures FloodReady(Value()) ==> lines == Lines(old(Value()), db, old(ssn), now)
      ensures !FloodReady(Value()) ==> lines == map[] && Value() == old(Value())
    {
      lines := map[];
      if p2p && !up { return; }
      lines := ReportEach(db, now);
    }

    method ReportEach(db: Database, now: nat) returns (lines: map<LspId, SnpEntry>)
      requires acks.Keys <= ssn
      modifies this
      ensures Value() == old(Value()).(ssn := {}, acks := map[]) && lines == Lines(old(Value()), db, old(ssn), now)
    {
      hide PsnpLine; hide Lines; hide Cleared; hide ClearSsn;
      ghost var before, done: set<LspId> := Value(), {};
      var left := ssn;
      ClearedNone(before, db, now);
      lines := map[];
      while left != {}
        invariant left <= before.ssn && done == before.ssn - left
        invariant Value() == Cleared(before, done)
        invariant lines == Lines(before, db, done, now)
        decreases |left|
      {
        var id :| id in left;
        lines := ReportAndClear(db, before, done, id, lines, now);
        left := left - {id};
        assert done + {id} == before.ssn - left;
        done := before.ssn - left;
      }
      ClearedAll(before);
      assert done == before.ssn;
    }

    /** One flagged LSP reported and its flag cleared. */
    method ReportAndClear(db: Database, ghost before: Circuit, ghost done: set<LspId>, id: LspId, lines: map<LspId, SnpEntry>, now: nat)
      returns (lines': map<LspId, SnpEntry>)
      requires Value() == Cleared(before, done) && lines == Lines(before, db, done, now) && id !in done
      modifies this
      ensures Value() == Cleared(before, done + {id}) && lines' == Lines(before, db, done + {id}, now)
    {
      hide PsnpLine; hide Lines; hide Cleared; hide ClearSsn; hide FloodingCircuit.Value;
      ClearedOneMore(before, db, done, id, now);
      var line := ReportLine(db, id, now);
      lines' := lines[id := line];
      Unreport(id);
    }

    method ReceivePsnpList(db: Database, listed: seq<SnpEntry>, now: nat)
      modifies this
      ensures Value() == PsnpEntries(old(Value()), db, listed, now)
    {
      ghost var before := Value();
      for i := 0 to |listed|
        invariant Value() == PsnpEntries(before, db, listed[..i], now)
      {
        assert listed[..i + 1][..i] == listed[..i];
        ReceivePsnpEntry(db, listed[i], now);
      }
      assert listed[..|listed|] == listed;
    }
  }

  /** What a PSNP reports for a set of LSPs. */
  function Lines(x: Circuit, db: Database, ids: set<LspId>, now: nat): map<LspId, SnpEntry> {
    map id | id in ids :: PsnpLine(x, db, id, now)
  }

  function Cleared(x: Circuit, ids: set<LspId>): Circuit {
    x.(ssn := x.ssn - ids, acks := x.acks - ids)
  }

  lemma ClearedNone(x: Circuit, db: Database, now: nat)
    ensures Cleared(x, {}) == x && Lines(x, db, {}, now) == map[]
  {
    assert x.acks - {} == x.acks;
  }

  lemma ClearedOneMore(x: Circuit, db: Database, ids: set<LspId>, id: LspId, now: nat)
    requires id !in ids
    ensures ClearSsn(Cleared(x, ids), id) == Cleared(x, ids + {id})
    ensures Lines(x, db, ids + {id}, now) == Lines(x, db, ids, now)[id := PsnpLine(x, db, id, now)]
    ensures PsnpLine(Cleared(x, ids), db, id, now) == PsnpLine(x, db, id, now)
  {
    hide Remaining;
    assert x.ssn - ids - {id} == x.ssn - (ids + {id});
    assert x.acks - ids - {id} == x.acks - (ids + {id});
  }

  lemma ClearedAll(x: Circuit)
    requires x.acks.Keys <= x.ssn
    ensures Cleared(x, x.ssn) == x.(ssn := {}, acks := map[])
  {
    assert x.acks - x.ssn == map[];
  }

  lemma ArmNone(x: Circuit, now: nat)
    ensures ArmAll(x, {}, now) == x
  {
    assert ArmAll(x, {}, now).srm == x.srm;
  }

  lemma ArmOneMore(x: Circuit, ids: set<LspId>, id: LspId, now: nat)
    ensures SetSrm(ArmAll(x, ids, now), id, now) == ArmAll(x, ids + {id}, now)
  {
    var y, z := SetSrm(ArmAll(x, ids, now), id, now), ArmAll(x, ids + {id}, now);
    assert y.srm == z.srm;
    assert y.reported == z.reported;
  }

  lemma ListsStep(listed: seq<SnpEntry>, i: nat)
    requires i < |listed|
    ensures forall id :: Lists(listed[..i + 1], id) <==> Lists(listed[..i], id) || id == listed[i].id
  {
    var a, b := listed[..i], listed[..i + 1];
    forall id
      ensures Lists(b, id) <==> Lists(a, id) || id == listed[i].id
    {
      if Lists(a, id) {
        var k :| 0 <= k < |a| && a[k].id == id;
        assert b[k].id == id;
      }
      if Lists(b, id) && id != listed[i].id {
        var k :| 0 <= k < |b| && b[k].id == id;
        assert a[k].id == id;
      }
      assert b[i] == listed[i];
    }
  }

  /** The circuits as values, by their place in the list. */
  ghost function Values(cs: seq<FloodingCircuit>): map<CircuitId, Circuit>
    reads cs
  {
    map i | 0 <= i < |cs| :: cs[i].Value()
  }

  ghost predicate Distinct(cs: seq<FloodingCircuit>) {
    forall i, j :: 0 <= i < |cs| && 0 <= j < |cs| && i != j ==> cs[i] != cs[j]
  }

  /** The flags set on every circuit of the list, but for one. */
  method FloodLsp(cs: seq<FloodingCircuit>, id: LspId, except: Option<CircuitId>, now: nat)
    requires Distinct(cs)
    modifies cs
    ensures Values(cs) == FloodOn(old(Values(cs)), id, except, now)
  {
    hide ClearSsn; hide SetSrm; hide FloodingCircuit.Value;
    for i := 0 to |cs|
      invariant forall k :: 0 <= k < i ==> Flagged(cs[k].Value(), old(cs[k].Value()), id, Some(k) == except, now)
      invariant forall k :: i <= k < |cs| ==> cs[k].Value() == old(cs[k].Value())
    {
      if Some(i) != except {
        FlagOne(cs[i], id, now);
      }
    }
  }

  ghost predicate Flagged(x: Circuit, before: Circuit, id: LspId, excepted: bool, now: nat) {
    x == if excepted then before else ClearSsn(SetSrm(before, id, now), id)
  }

  method FlagOne(x: FloodingCircuit, id: LspId, now: nat)
    modifies x
    ensures x.Value() == ClearSsn(SetSrm(old(x.Value()), id, now), id)
  {
    x.Arm(id, now);
    x.Unreport(id);
  }

  /** One level of the node. */
  class Server {
    const cfg: Config
    var db: Database
    var circuits: seq<FloodingCircuit>
    var wrapUntil: map<LspId, nat>

    ghost predicate Valid()
      reads this
    {
      Distinct(circuits)
    }

    ghost function State(): Node
      reads this, circuits
    {
      Node(cfg, db, Values(circuits), wrapUntil)
    }

    constructor (cfg: Config)
      ensures Valid() && State() == Node(cfg, map[], map[], map[])
    {
      this.cfg := cfg;
      db, circuits, wrapUntil := map[], [], map[];
    }

    method Store(id: LspId, e: Entry, now: nat)
      requires Valid()
      modifies this`db, circuits
      ensures Valid() && State() == StoreAndFlood(old(State()), id, e, now)
    {
      hide FloodOn; hide Values; hide Distinct;
      db := db[id := e];
      FloodLsp(circuits, id, None, now);
    }

    method TurnIntoPurge(id: LspId, seqno: Seqno, now: nat)
      requires Valid()
      modifies this`db, circuits
      ensures Valid() && State() == ExpirePurge(old(State()), id, seqno, now)
    {
      hide StoreAndFlood; hide Values;
      Store(id, Entry(seqno, cfg.sum(id, seqno, Purge), Purge, cfg.purgeSize, now, 0, false, Some(now), 0), now);
    }

    method Exhaust(id: LspId, now: nat)
      requires Valid()
      modifies this`db, this`wrapUntil, circuits
      ensures Valid() && State() == ExhaustSeq(old(State()), id, now)
    {
      hide StoreAndFlood; hide Values;
      wrapUntil := wrapUntil[id := now + SEQ_WRAP_HOLD];
      Store(id, Entry(MAX_SEQ, cfg.sum(id, MAX_SEQ, Purge), Purge, cfg.purgeSize, now, 0, true, Some(now), 0), now);
    }

    method Withdraw(id: LspId, now: nat)
      requires Valid()
      modifies this`db, this`wrapUntil, circuits
      ensures Valid() && State() == PurgeOwn(old(State()), id, now)
    {
      hide StoreAndFlood; hide Values;
      var seqno: Seqno := 1;
      if id in db {
        if db[id].seqno == MAX_SEQ {
          Exhaust(id, now);
          return;
        }
        seqno := db[id].seqno + 1;
      }
      Store(id, Entry(seqno, cfg.sum(id, seqno, Purge), Purge, cfg.purgeSize, now, 0, true, Some(now), 0), now);
    }

    method Reclaim(id: LspId, seen: Seqno, now: nat, deadline: nat)
      requires Valid()
      modifies this`db, this`wrapUntil, circuits
      ensures Valid() && State() == Reoriginate(old(State()), id, seen, now, deadline)
    {
      hide StoreAndFlood; hide Values;
      if id !in db { return; }
      if seen == MAX_SEQ {
        Exhaust(id, now);
        return;
      }
      var e, seqno: Seqno := db[id], seen + 1;
      Store(id, Entry(seqno, cfg.sum(id, seqno, e.body), e.body, e.size, now, MAX_AGE, true, None, deadline), now);
    }

    method Issue(id: LspId, body: Body, size: nat, buffer: nat, force: bool, now: nat, deadline: nat)
      requires Valid()
      modifies this`db, this`wrapUntil, circuits
      ensures Valid() && State() == Originate(old(State()), id, body, size, buffer, force, now, deadline)
    {
      hide StoreAndFlood; hide Values;
      if id in wrapUntil && now < wrapUntil[id] { return; }
      if id in db && db[id].own && db[id].purgedAt.None? && !force && db[id].body == body { return; }
      var seqno: Seqno := 1;
      if id in db {
        if db[id].seqno == MAX_SEQ {
          Exhaust(id, now);
          return;
        }
        seqno := db[id].seqno + 1;
      }
      if size > buffer { return; }
      Store(id, Entry(seqno, cfg.sum(id, seqno, body), body, size, now, MAX_AGE, true, None, deadline), now);
    }

    method Owns(id: LspId) returns (owns: bool)
      ensures owns == OwnsLsp(State(), id)
    {
      if id.node.system != cfg.self { return false; }
      if id.node.pseudonode == 0 { return true; }
      for i := 0 to |circuits|
        invariant forall k :: 0 <= k < i ==> !(circuits[k].octet == id.node.pseudonode && circuits[k].dis)
      {
        if circuits[i].octet == id.node.pseudonode && circuits[i].dis {
          assert State().circuits[i].dis;
          return true;
        }
      }
      return false;
    }

    /** Stop sending an LSP to the circuit it came from; on a point-to-point circuit, report it there. */
    method Acknowledge(c: CircuitId, id: LspId)
      requires Valid() && c < |circuits|
      modifies circuits[c]
      ensures State() == WithCircuit(old(State()), c,
        if circuits[c].p2p then SetSsn(ClearSrm(old(circuits[c].Value()), id), id) else ClearSrm(old(circuits[c].Value()), id))
    {
      circuits[c].Disarm(id);
      if circuits[c].p2p {
        circuits[c].Report(id);
      }
      assert Values(circuits) == old(Values(circuits))[c := circuits[c].Value()];
    }

    /** Store a newer copy, flood it onward, acknowledge it where it came from. */
    method Accept(c: CircuitId, m: Lsp, now: nat)
      requires Valid() && c < |circuits|
      modifies this`db, circuits
      ensures Valid() && State() == Install(old(State()), c, m, now)
    {
      hide FloodOn; hide SetSsn; hide FloodingCircuit.Value;
      db := db[m.id := Entry(m.seqno, m.checksum, m.body, m.size, now, ReceivedLifetime(m.remaining), false,
                             if m.remaining == 0 then Some(now) else None, 0)];
      FloodLsp(circuits, m.id, Some(c), now);
      Acknowledge(c, m.id);
    }

    /** A newer LSP that carries this node's own system ID; `taken` says it was dealt with here. */
    method HandleOwn(c: CircuitId, m: Lsp, now: nat, deadline: nat) returns (taken: bool)
      requires Valid() && c < |circuits|
      modifies this`db, this`wrapUntil, circuits
      ensures Valid() && circuits == old(circuits)
      ensures taken ==> m.id.node.system == cfg.self && State() == ReceiveOwn(old(State()), c, m, now, deadline)
      ensures !taken ==> unchanged(this) && unchanged(circuits)
      ensures !taken && m.id.node.system == cfg.self ==> ReceiveOwn(State(), c, m, now, deadline) == Install(State(), c, m, now)
    {
      hide StoreAndFlood; hide Values; hide Install; hide ExpirePurge; hide Reoriginate; hide OwnsLsp;
      if m.id.node.system != cfg.self { return false; }
      var owns := Owns(m.id);
      if owns && m.id in db && db[m.id].own && db[m.id].purgedAt.None? {
        Reclaim(m.id, m.seqno, now, deadline);
        return true;
      } else if m.remaining == 0 {
        return false;
      } else {
        TurnIntoPurge(m.id, m.seqno, now);
        return true;
      }
    }

    /** A received copy that is not newer than the one held. */
    method ReceiveStale(c: CircuitId, m: Lsp, now: nat, deadline: nat)
      requires Valid() && c < |circuits| && m.id in db
      modifies this`db, this`wrapUntil, circuits
      ensures Valid() && circuits == old(circuits)
      ensures State() == ReceiveOld(old(State()), c, m, now, deadline)
    {
      hide ExpirePurge; hide Reoriginate; hide FloodingCircuit.Value;
      var e := db[m.id];
      if m.seqno < e.seqno || (m.seqno == e.seqno && Remaining(e, now) == 0 && m.remaining != 0) {
        FlagOne(circuits[c], m.id, now);
        assert Values(circuits) == old(Values(circuits))[c := circuits[c].Value()];
      } else if m.seqno == e.seqno && m.remaining != 0 && Remaining(e, now) != 0 && m.checksum != e.checksum {
        if !e.own {
          TurnIntoPurge(m.id, e.seqno, now);
        } else {
          Reclaim(m.id, m.seqno, now, deadline);
        }
      } else if circuits[c].p2p {
        circuits[c].Report(m.id);
        assert Values(circuits) == old(Values(circuits))[c := circuits[c].Value()];
      }
    }

    ghost method NoteHeard(c: CircuitId, id: LspId, rank: nat)
      requires Valid() && c < |circuits|
      modifies circuits[c]
      ensures State() == WithCircuit(old(State()), c, Hears(old(circuits[c].Value()), id, rank))
    {
      circuits[c].Note(id, rank);
      assert Values(circuits) == old(Values(circuits))[c := circuits[c].Value()];
    }

    /** A purge of an LSP the database does not hold is reported back in the words it came in. */
    method AcknowledgeUnknown(c: CircuitId, e: SnpEntry)
      requires Valid() && c < |circuits|
      modifies circuits[c]
      ensures State() == WithCircuit(old(State()), c, SetSsnAck(old(circuits[c].Value()), e))
    {
      circuits[c].ReportAs(e);
      assert Values(circuits) == old(Values(circuits))[c := circuits[c].Value()];
    }

    /** The update process for one received LSP, and what it comes to. */
    method ProcessLsp(c: CircuitId, m: Lsp, intact: bool, now: nat, deadline: nat)
      requires Valid() && c < |circuits|
      modifies this`db, this`wrapUntil, circuits
      ensures Valid() && circuits == old(circuits)
      ensures State() == ReceiveLsp(old(State()), c, m, intact, now, deadline)
      ensures Reception.Outcome(old(State()), State(), c, m, intact, now, deadline)
    {
      hide ReceiveLsp; hide Reception.Outcome;
      ghost var before := State();
      Update(c, m, intact, now, deadline);
      Reception.ReceiveOutcome(before, c, m, intact, now, deadline);
    }

    method Update(c: CircuitId, m: Lsp, intact: bool, now: nat, deadline: nat)
      requires Valid() && c < |circuits|
      modifies this`db, this`wrapUntil, circuits
      ensures Valid() && circuits == old(circuits)
      ensures State() == ReceiveLsp(old(State()), c, m, intact, now, deadline)
    {
      hide ReceiveOld; hide ReceiveOwn; hide Install; hide FloodingCircuit.Value; hide SetSsnAck;
      if m.remaining != 0 && !intact { return; }
      NoteHeard(c, m.id, Claimed(m.seqno, m.remaining));
      var held := if m.id in db then Some(db[m.id]) else None;
      if !Newer(m.seqno, m.remaining, held, now) {
        ReceiveStale(c, m, now, deadline);
        return;
      }
      if held.None? && m.remaining == 0 {
        if circuits[c].p2p {
          AcknowledgeUnknown(c, SnpEntry(m.id, m.seqno, 0, m.checksum));
        }
        return;
      }
      if held.None? && cfg.limit > 0 && |db| >= cfg.limit { return; }
      var taken := HandleOwn(c, m, now, deadline);
      if !taken {
        Accept(c, m, now);
      }
    }

    method ProcessCsnp(c: CircuitId, start: nat, end: nat, listed: seq<SnpEntry>, now: nat)
      requires Valid() && c < |circuits|
      modifies circuits[c]
      ensures State() == ReceiveCsnp(old(State()), c, start, end, listed, now)
    {
      hide CsnpEntries; hide ArmAll; hide Omitted; hide FloodingCircuit.Value;
      circuits[c].ReceiveCsnpList(db, start, end, listed, now);
      assert Values(circuits) == old(Values(circuits))[c := circuits[c].Value()];
    }

    method ProcessPsnp(c: CircuitId, listed: seq<SnpEntry>, now: nat)
      requires Valid() && c < |circuits|
      modifies circuits[c]
      ensures State() == ReceivePsnp(old(State()), c, listed, now)
    {
      hide PsnpEntries;
      if !circuits[c].p2p && !circuits[c].dis { return; }
      circuits[c].ReceivePsnpList(db, listed, now);
      assert Values(circuits) == old(Values(circuits))[c := circuits[c].Value()];
    }

    method SyncCircuitLevel(c: CircuitId, now: nat)
      requires Valid() && c < |circuits|
      modifies circuits[c]
      ensures State() == Sync(old(State()), c, now)
    {
      hide ArmAll;
      var x := circuits[c];
      if now < x.syncHold {
        x.syncDeferred := true;
      } else {
        x.syncHold, x.syncDeferred := now + SYNC_HOLD_DOWN, false;
        x.ArmEach(db.Keys, now);
      }
      assert Values(circuits) == old(Values(circuits))[c := x.Value()];
    }

    /** A point-to-point adjacency comes Up. */
    method ComeUp(c: CircuitId, now: nat)
      requires Valid() && c < |circuits|
      modifies circuits[c]
      ensures State() == AdjacencyUp(old(State()), c, now)
    {
      hide Sync;
      circuits[c].MarkUp();
      assert Values(circuits) == old(Values(circuits))[c := circuits[c].Value()];
      SyncCircuitLevel(c, now);
    }

    /** It is torn down, and the flags aimed at the neighbour with it. */
    method TearDown(c: CircuitId)
      requires Valid() && c < |circuits|
      modifies circuits[c]
      ensures State() == AdjacencyDown(old(State()), c)
    {
      circuits[c].Clear();
      circuits[c].up := false;
      assert Values(circuits) == old(Values(circuits))[c := circuits[c].Value()];
    }

    /** Serve the due flags of one circuit, at most `budget` of them written. */
    method TransmitSrm(c: CircuitId, sends: set<LspId>, budget: nat, now: nat)
      returns (tried: set<LspId>, written: set<LspId>, spent: nat)
      requires Valid() && c < |circuits|
      modifies circuits[c]
      ensures State() == WithCircuit(old(State()), c, Served(old(circuits[c].Value()), db, tried, sends, now))
      ensures tried <= old(Due(circuits[c].Value(), now)) && (spent < budget ==> tried == old(Due(circuits[c].Value(), now)))
      ensures written == Sendable(old(circuits[c].Value()), db, tried, sends)
      ensures |written| <= spent <= budget && spent == |Writable(old(circuits[c].Value()), db, tried)|
    {
      hide Served; hide Due; hide Sendable; hide Writable;
      tried, written, spent := circuits[c].Transmit(db, sends, budget, now);
      assert Values(circuits) == old(Values(circuits))[c := circuits[c].Value()];
    }

    /** One ageing pass over the database, in any order. */
    method AgeLsps(now: nat)
      requires Valid()
      modifies this`db, circuits
      ensures Valid() && State() == AgeSet(old(State()), old(db).Keys, now)
    {
      hide AgeSet; hide AgeOne; hide ExpirePurge; hide Values;
      ghost var before := State();
      ghost var done: set<LspId> := {};
      var left := db.Keys;
      AgeNone(before, now);
      while left != {}
        invariant Valid() && circuits == old(circuits) && done + left == before.db.Keys && done !! left
        invariant left <= db.Keys && State() == AgeSet(before, done, now)
        decreases |left|
      {
        var id :| id in left;
        AgeOneMore(before, done, id, now);
        AgeEntry(id, now);
        AgeLeaves(before, done + {id}, now);
        done, left := done + {id}, left - {id};
      }
      assert done == before.db.Keys;
    }

    method AgeEntry(id: LspId, now: nat)
      requires Valid() && id in db
      modifies this`db, circuits
      ensures Valid() && State() == AgeOne(old(State()), id, now)
    {
      hide ExpirePurge; hide Values;
      var e := db[id];
      if e.purgedAt.Some? {
        if now >= e.purgedAt.value + ZERO_AGE * SECOND { db := db - {id}; }
      } else if e.own && e.refreshAt <= now {
      } else if Remaining(e, now) == 0 && !e.own {
        TurnIntoPurge(id, e.seqno, now);
      }
    }
  }

  lemma AgeNone(n: Node, now: nat)
    ensures AgeSet(n, {}, now) == n
  {
    assert Expired(n.db, {}, now) == {};
    assert AgedDb(n, {}, now) == n.db;
    FloodNone(n.circuits, now);
  }

  lemma FloodNone(circuits: map<CircuitId, Circuit>, now: nat)
    ensures FloodSet(circuits, {}, now) == circuits
  {
    forall c | c in circuits
      ensures FlagAll(circuits[c], {}, now) == circuits[c]
    {
      ArmNone(circuits[c], now);
      assert circuits[c].acks - {} == circuits[c].acks;
    }
  }

  /** The entries not yet looked at are still there. */
  lemma AgeLeaves(n: Node, ids: set<LspId>, now: nat)
    ensures n.db.Keys - ids <= AgeSet(n, ids, now).db.Keys
  {
  }

  lemma AgeOneMore(n: Node, ids: set<LspId>, id: LspId, now: nat)
    requires id in n.db && id !in ids
    ensures id in AgeSet(n, ids, now).db
    ensures AgeOne(AgeSet(n, ids, now), id, now) == AgeSet(n, ids + {id}, now)
  {
    AgedDbStep(n, ids, id, now);
    var expired := Expired(n.db, ids, now);
    assert Expired(n.db, ids + {id}, now) == if RunsOut(n.db[id], now) then expired + {id} else expired;
    FloodOneMore(n.circuits, expired, id, now);
    hide FloodSet; hide FloodOn; hide Expired; hide AgedDb;
  }

  lemma AgedDbStep(n: Node, ids: set<LspId>, id: LspId, now: nat)
    requires id in n.db && id !in ids
    ensures id in AgedDb(n, ids, now) && AgedDb(n, ids, now)[id] == n.db[id]
    ensures AgedDb(n, ids + {id}, now) ==
      if Droppable(n.db[id], now) then AgedDb(n, ids, now) - {id}
      else if RunsOut(n.db[id], now) then AgedDb(n, ids, now)[id := PurgeEntry(n, id, n.db[id].seqno, false, now)]
      else AgedDb(n, ids, now)
  {
    hide RunsOut; hide PurgeEntry;
    var a, b := AgedDb(n, ids, now), AgedDb(n, ids + {id}, now);
    assert forall k :: k != id ==> (k in a <==> k in b);
    assert forall k :: k != id && k in a ==> a[k] == b[k];
  }

  lemma FlagOneMore(x: Circuit, ids: set<LspId>, id: LspId, now: nat)
    ensures ClearSsn(SetSrm(FlagAll(x, ids, now), id, now), id) == FlagAll(x, ids + {id}, now)
  {
    ArmOneMore(x, ids, id, now);
    assert x.ssn - ids - {id} == x.ssn - (ids + {id});
    assert x.acks - ids - {id} == x.acks - (ids + {id});
  }

  lemma FloodOneMore(circuits: map<CircuitId, Circuit>, ids: set<LspId>, id: LspId, now: nat)
    ensures FloodOn(FloodSet(circuits, ids, now), id, None, now) == FloodSet(circuits, ids + {id}, now)
  {
    hide FlagAll; hide ClearSsn; hide SetSrm;
    forall c | c in circuits
      ensures ClearSsn(SetSrm(FlagAll(circuits[c], ids, now), id, now), id) == FlagAll(circuits[c], ids + {id}, now)
    {
      FlagOneMore(circuits[c], ids, id, now);
    }
  }

  /** Those of a set that fit and whose write succeeds. */
  function Sendable(x: Circuit, db: Database, ids: set<LspId>, sends: set<LspId>): set<LspId> {
    set id | id in ids && !Unsendable(x, db, id) && id in sends
  }

  lemma ServeNone(x: Circuit, db: Database, sends: set<LspId>, now: nat)
    ensures Served(x, db, {}, sends, now) == x && Sendable(x, db, {}, sends) == {}
    ensures Due(x, now) <= x.srm.Keys && (!FloodReady(x) ==> Due(x, now) == {})
    ensures FloodReady(x) ==> forall id :: id in x.srm ==> (id in Due(x, now) <==> x.srm[id] <= now)
  {
    assert Served(x, db, {}, sends, now).srm == x.srm;
  }

  lemma ServeOneMore(x: Circuit, db: Database, ids: set<LspId>, id: LspId, sends: set<LspId>, now: nat)
    requires id in x.srm && id !in ids
    ensures id in Served(x, db, ids, sends, now).srm && Served(x, db, ids, sends, now).srm[id] == x.srm[id]
    ensures Attempt(Served(x, db, ids, sends, now), db, id, id in sends, now) == Served(x, db, ids + {id}, sends, now)
  {
    ServedStep(x, db, ids, id, sends, now);
    UnsendableReads(Served(x, db, ids, sends, now), x, db, id);
    ServedKind(x, db, ids, sends, now);
    hide Served; hide Unsendable;
  }

  lemma ServedKind(x: Circuit, db: Database, ids: set<LspId>, sends: set<LspId>, now: nat)
    ensures Served(x, db, ids, sends, now) == x.(srm := Served(x, db, ids, sends, now).srm)
  {
  }

  lemma ServedStep(x: Circuit, db: Database, ids: set<LspId>, id: LspId, sends: set<LspId>, now: nat)
    requires id in x.srm && id !in ids
    ensures var a, b := Served(x, db, ids, sends, now).srm, Served(x, db, ids + {id}, sends, now).srm;
      && id in a && a[id] == x.srm[id]
      && b == if Leaves(x, db, id, sends) then a - {id} else if id in sends then a[id := now + MIN_TRANSMIT_INTERVAL] else a
  {
    hide Leaves;
    var a, b := Served(x, db, ids, sends, now).srm, Served(x, db, ids + {id}, sends, now).srm;
    assert forall k :: k != id ==> (k in a <==> k in b);
    assert forall k :: k != id && k in a ==> a[k] == b[k];
  }

  lemma UnsendableReads(a: Circuit, x: Circuit, db: Database, id: LspId)
    requires a.maxSize == x.maxSize
    ensures Unsendable(a, db, id) == Unsendable(x, db, id)
  {
  }

  lemma SendOneMore(x: Circuit, db: Database, ids: set<LspId>, id: LspId, sends: set<LspId>)
    requires id !in ids
    ensures id !in Sendable(x, db, ids, sends)
    ensures Sendable(x, db, ids + {id}, sends) ==
      if Unsendable(x, db, id) || id !in sends then Sendable(x, db, ids, sends) else Sendable(x, db, ids, sends) + {id}
  {
  }

  // ---------- Draining a circuit ----------

  /** LSPs one circuit sends at one level in a tick. */
  const MAX_PER_TICK: nat := 100

  /** Those of a set that can be sent at all. */
  function Writable(x: Circuit, db: Database, ids: set<LspId>): set<LspId> {
    set id | id in ids && !Unsendable(x, db, id)
  }

  /** Every flagged LSP is held and fits. */
  predicate Fitting(x: Circuit, db: Database) {
    forall id :: id in x.srm ==> !Unsendable(x, db, id)
  }

  /** What draining a circuit comes to: the flags tried and the LSPs written. */
  ghost predicate Drains(x: Circuit, db: Database, sends: set<LspId>, tried: set<LspId>, written: set<LspId>, now: nat) {
    && tried <= Due(x, now) && written == Sendable(x, db, tried, sends)
    && (var all := Writable(x, db, Due(x, now)); all <= sends && (!x.p2p || |all| <= MAX_PER_TICK) ==> written == all)
    && (x.p2p && Fitting(x, db) ==> |written| <= MAX_PER_TICK)
  }

  /** So more than one tick's worth on a point-to-point circuit where everything fits leaves something unsent. */
  lemma BacklogIsLost(x: Circuit, db: Database, sends: set<LspId>, tried: set<LspId>, written: set<LspId>, now: nat)
    requires Drains(x, db, sends, tried, written, now) && x.p2p && Fitting(x, db) && |Due(x, now)| > MAX_PER_TICK
    ensures exists id :: id in Due(x, now) && id !in written
  {
    if Due(x, now) <= written {
      SubsetSize(Due(x, now), written);
    }
  }

  lemma NoneWritable(x: Circuit, db: Database, sends: set<LspId>)
    ensures Writable(x, db, {}) == {}
  {
  }

  lemma WritableOneMore(x: Circuit, db: Database, ids: set<LspId>, id: LspId)
    requires id !in ids
    ensures |Writable(x, db, ids + {id})| == if Unsendable(x, db, id) then |Writable(x, db, ids)| else |Writable(x, db, ids)| + 1
  {
    var a, b := Writable(x, db, ids), Writable(x, db, ids + {id});
    assert b == if Unsendable(x, db, id) then a else a + {id};
    assert id !in a;
  }

  lemma {:induction false} SubsetSize<T>(a: set<T>, b: set<T>)
    requires a <= b
    ensures |a| <= |b| && (|a| == |b| ==> a == b)
    decreases a
  {
    if a == {} {
      assert |b| == 0 ==> b == {};
    } else {
      var x :| x in a;
      SubsetSize(a - {x}, b - {x});
    }
  }

  lemma SendableIsWritable(x: Circuit, db: Database, ids: set<LspId>, sends: set<LspId>)
    ensures |Sendable(x, db, ids, sends)| <= |Writable(x, db, ids)|
  {
    SubsetSize(Sendable(x, db, ids, sends), Writable(x, db, ids));
  }

  /** What later rounds still find due was due before. */
  lemma RoundOn(x: Circuit, db: Database, ids: set<LspId>, sends: set<LspId>, now: nat)
    ensures var y := Served(x, db, ids, sends, now);
      Due(y, now) <= Due(x, now) && Due(y, now) <= y.srm.Keys && y.p2p == x.p2p && y.maxSize == x.maxSize && y.srm.Keys <= x.srm.Keys
  {
  }

  /** And what was due and not tried is due still. */
  lemma DueIsTried(x: Circuit, db: Database, ids: set<LspId>, sends: set<LspId>, now: nat)
    ensures Due(x, now) <= ids + Due(Served(x, db, ids, sends, now), now)
  {
    hide Leaves;
  }

  /** Two rounds are one over both sets. */
  lemma RoundJoins(x: Circuit, db: Database, a: set<LspId>, b: set<LspId>, sends: set<LspId>, now: nat)
    ensures var y := Served(x, db, a, sends, now);
      && Served(y, db, b, sends, now) == Served(x, db, a + b, sends, now)
      && Sendable(x, db, a, sends) + Sendable(y, db, b, sends) == Sendable(x, db, a + b, sends)
      && Writable(y, db, b) == Writable(x, db, b)
  {
    var y := Served(x, db, a, sends, now);
    forall id
      ensures Unsendable(y, db, id) == Unsendable(x, db, id) && Leaves(y, db, id, sends) == Leaves(x, db, id, sends)
    {
    }
    hide Unsendable; hide Leaves;
    assert Served(y, db, b, sends, now).srm == Served(x, db, a + b, sends, now).srm;
  }

  /** A round that takes no flag down has met none that leaves. */
  lemma NothingLeft(x: Circuit, db: Database, a: set<LspId>, b: set<LspId>, sends: set<LspId>, now: nat)
    requires b <= Due(Served(x, db, a, sends, now), now)
    requires |Served(x, db, a + b, sends, now).srm| >= |Served(x, db, a, sends, now).srm|
    ensures forall id :: id in b ==> !Leaves(x, db, id, sends)
  {
    var y, z := Served(x, db, a, sends, now), Served(x, db, a + b, sends, now);
    assert z.srm.Keys <= y.srm.Keys;
    SubsetSize(z.srm.Keys, y.srm.Keys);
    assert |z.srm.Keys| == |z.srm| && |y.srm.Keys| == |y.srm|;
    hide Leaves;
    assert forall id :: id in b ==> id in y.srm.Keys;
  }

  /** On a point-to-point circuit where everything fits no round takes a flag down. */
  lemma FittingStalls(x: Circuit, db: Database, a: set<LspId>, b: set<LspId>, sends: set<LspId>, now: nat)
    ensures x.p2p && Fitting(x, db) ==> |Served(x, db, a + b, sends, now).srm| == |Served(x, db, a, sends, now).srm|
  {
    if x.p2p && Fitting(x, db) {
      var y, z := Served(x, db, a, sends, now), Served(x, db, a + b, sends, now);
      assert z.srm.Keys == x.srm.Keys == y.srm.Keys;
      assert |z.srm.Keys| == |z.srm| && |y.srm.Keys| == |y.srm|;
    }
  }

  lemma NoneDue(x: Circuit, now: nat)
    requires x.srm == map[]
    ensures Due(x, now) == {}
  {
  }

  /** With all that was due tried, and every write successful, all that can be sent is written. */
  lemma AllTried(x: Circuit, db: Database, ids: set<LspId>, sends: set<LspId>, now: nat)
    requires ids <= Due(x, now)
    ensures var all := Writable(x, db, Due(x, now)); all <= sends && all <= ids ==> Sendable(x, db, ids, sends) == all
    ensures Due(x, now) <= ids ==> Writable(x, db, Due(x, now)) <= ids
  {
  }

  /** The last round of a drain, when it takes no flag down. */
  lemma Finished(x: Circuit, db: Database, a: set<LspId>, b: set<LspId>, spent: nat, sends: set<LspId>, now: nat)
    requires var due := Due(Served(x, db, a, sends, now), now); b <= due && (spent < MAX_PER_TICK ==> b == due)
    requires a + b <= Due(x, now) && spent == |Writable(x, db, b)| <= MAX_PER_TICK
    requires forall id :: id in b ==> !Leaves(x, db, id, sends)
    ensures var all := Writable(x, db, Due(x, now));
      all <= sends && (!x.p2p || |all| <= MAX_PER_TICK) ==> Sendable(x, db, a + b, sends) == all
  {
    var all := Writable(x, db, Due(x, now));
    if all <= sends && (!x.p2p || |all| <= MAX_PER_TICK) {
      if !x.p2p {
        forall id
          ensures id !in b
        {
          assert id in b && !Unsendable(x, db, id) ==> id in all;
        }
      }
      assert Writable(x, db, b) <= all;
      SubsetSize(Writable(x, db, b), all);
      DueIsTried(x, db, a, sends, now);
      AllTried(x, db, a + b, sends, now);
    }
  }

  /** After a pass nothing is left that should have been dropped or purged. */
  lemma AgedIsSettled(n: Node, now: nat, id: LspId)
    requires id in AgeSet(n, n.db.Keys, now).db
    ensures var e := AgeSet(n, n.db.Keys, now).db[id]; !Droppable(e, now) && !RunsOut(e, now)
  {
  }

  // ---------- A pass is a sequence of steps ----------

  lemma {:induction false} AgePassIsSteps(n: Node, ids: set<LspId>, now: nat)
    requires ids <= n.db.Keys && NoLoss(n) && Sound(n, now)
    ensures NoLoss(AgeSet(n, ids, now)) && Sound(AgeSet(n, ids, now), now)
    decreases |ids|
  {
    hide NoLoss; hide Sound; hide AgeSet; hide AgeOne;
    if ids == {} {
      AgeNone(n, now);
    } else {
      var id :| id in ids;
      AgePassIsSteps(n, ids - {id}, now);
      AgeOneMore(n, ids - {id}, id, now);
      assert ids - {id} + {id} == ids;
      StepKeepsCover(AgeSet(n, ids - {id}, now), Aged(id), now);
      StepSound(AgeSet(n, ids - {id}, now), Aged(id), now);
    }
  }

  lemma {:induction false} TransmitPassIsSteps(n: Node, c: CircuitId, ids: set<LspId>, sends: set<LspId>, now: nat)
    requires NoLoss(n) && Sound(n, now) && c in n.circuits && ids <= Due(n.circuits[c], now)
    ensures var n' := WithCircuit(n, c, Served(n.circuits[c], n.db, ids, sends, now)); NoLoss(n') && Sound(n', now)
    decreases |ids|
  {
    hide NoLoss; hide Sound; hide Served; hide Attempt; hide Leaves; hide Unsendable;
    var x := n.circuits[c];
    if ids == {} {
      ServeNone(x, n.db, sends, now);
      assert n.circuits[c := x] == n.circuits;
    } else {
      var id :| id in ids;
      TransmitPassIsSteps(n, c, ids - {id}, sends, now);
      ServeOneMore(x, n.db, ids - {id}, id, sends, now);
      assert ids - {id} + {id} == ids;
      var y := Served(x, n.db, ids - {id}, sends, now);
      ServedKind(x, n.db, ids - {id}, sends, now);
      var before := WithCircuit(n, c, y);
      var s := TrySend(c, id, id in sends);
      StepKeepsCover(before, s, now);
      StepSound(before, s, now);
      hide ReceiveLsp; hide Originate; hide AgeOne; hide PurgeOwn; hide Sync;
      assert Next(before, s, now) == WithCircuit(n, c, Served(x, n.db, ids, sends, now)) by {
        assert before.circuits[c := Attempt(y, n.db, id, id in sends, now)] == n.circuits[c := Attempt(y, n.db, id, id in sends, now)];
      }
    }
  }
}
