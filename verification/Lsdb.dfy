/** The link-state database of one level, the flooding flags of its circuits, and the steps that change them. */
module Lsdb {
  import opened Types

  /** Lifetimes are in seconds. */
  const MAX_AGE: nat := 1200
  const ZERO_AGE: nat := 60
  const SEQ_WRAP_HOLD: nat := (ZERO_AGE + 5) * SECOND
  const SYNC_HOLD_DOWN: nat := 5 * SECOND
  const MIN_TRANSMIT_INTERVAL: nat := 5 * SECOND

  type Seqno = n: nat | n < 0x1_0000_0000
  const MAX_SEQ: Seqno := 0xffff_ffff

  /** What an LSP says, up to equality: header flags and TLVs, or nothing but the purge's originator. */
  datatype Body = Purge | Content(tlvs: nat)

  /** One LSP in the database. */
  datatype Entry = Entry(
    seqno: Seqno,
    checksum: nat,
    body: Body,
    size: nat,
    inserted: nat,
    lifetime: nat,               // remaining lifetime at insertion
    own: bool,
    purgedAt: Option<nat>,
    refreshAt: nat)              // own LSPs: when to re-originate

  type Database = map<LspId, Entry>

  /** A received LSP. */
  datatype Lsp = Lsp(id: LspId, seqno: Seqno, remaining: nat, checksum: nat, body: Body, size: nat)

  /** One line of a sequence-number PDU. */
  datatype SnpEntry = SnpEntry(id: LspId, seqno: Seqno, remaining: nat, checksum: nat)

  /** The current remaining lifetime, aged from insertion. */
  function Remaining(e: Entry, now: nat): nat {
    var elapsed := if now < e.inserted then 0 else (now - e.inserted) / SECOND;
    if e.lifetime < elapsed then 0 else e.lifetime - elapsed
  }

  /** A lifetime below MaxAge is stored as MaxAge, except a purge's (section 2 of RFC 7987). */
  function ReceivedLifetime(remaining: nat): nat {
    if remaining == 0 then 0 else Max(remaining, MAX_AGE)
  }

  /** Whether a candidate supersedes what is held: a higher number, or at the same number a purge a live copy. */
  predicate Newer(seqno: Seqno, remaining: nat, held: Option<Entry>, now: nat) {
    match held
    case None => true
    case Some(e) =>
      if seqno != e.seqno then seqno > e.seqno
      else remaining == 0 && Remaining(e, now) != 0
  }

  // ---------- Circuits ----------

  datatype Circuit = Circuit(
    p2p: bool,
    up: bool,                              // point-to-point: an adjacency is Up at this level
    maxSize: nat,                          // the circuit MTU less the LLC header
    octet: Octet,                          // pseudonode octet
    dis: bool,                             // this node is the elected DIS here
    srm: map<LspId, nat>,                  // to be sent, not before the time given
    ssn: set<LspId>,                       // to be reported in the next PSNP
    acks: map<LspId, SnpEntry>,            // what to report for an LSP the database does not hold
    syncHold: nat,
    syncDeferred: bool,
    reported: map<LspId, nat>)             // history: the rank the neighbour has reported since the flag was last armed

  function SetSrm(c: Circuit, id: LspId, when: nat): Circuit {
    c.(srm := c.srm[id := when], reported := c.reported - {id})
  }

  function ClearSrm(c: Circuit, id: LspId): Circuit {
    c.(srm := c.srm - {id})
  }

  function SetSsn(c: Circuit, id: LspId): Circuit {
    c.(ssn := c.ssn + {id})
  }

  function SetSsnAck(c: Circuit, e: SnpEntry): Circuit {
    SetSsn(c.(acks := c.acks[e.id := e]), e.id)
  }

  function ClearSsn(c: Circuit, id: LspId): Circuit {
    c.(ssn := c.ssn - {id}, acks := c.acks - {id})
  }

  function ClearFlags(c: Circuit): Circuit {
    c.(srm := map[], ssn := {}, acks := map[], reported := map[])
  }

  predicate FloodReady(c: Circuit) {
    !c.p2p || c.up
  }

  /** The rank of a copy as someone describes it: the number first, then a purge above a live copy. */
  function Claimed(seqno: Seqno, remaining: nat): nat {
    2 * seqno + (if remaining == 0 then 1 else 0)
  }

  /** The neighbour has been heard to hold `id` at `rank`. */
  function Hears(c: Circuit, id: LspId, rank: nat): Circuit {
    c.(reported := c.reported[id := if id in c.reported && c.reported[id] > rank then c.reported[id] else rank])
  }

  // ---------- The node ----------

  type CircuitId = nat

  datatype Config = Config(
    self: SystemId,
    limit: nat,                                     // cap on stored LSPs, 0 for none
    purgeSize: nat,                                 // octets of a header-only purge
    sum: (LspId, Seqno, Body) -> nat)               // the checksum serialization computes for an own LSP

  /** What this node holds at one level. */
  datatype Node = Node(
    cfg: Config,
    db: Database,
    circuits: map<CircuitId, Circuit>,
    wrapUntil: map<LspId, nat>)                     // identifiers held down after sequence exhaustion

  function Get(n: Node, id: LspId): Option<Entry> {
    if id in n.db then Some(n.db[id]) else None
  }

  function WithCircuit(n: Node, c: CircuitId, x: Circuit): Node {
    n.(circuits := n.circuits[c := x])
  }

  /** Arm the flag of an LSP on every circuit, but for the one it came in on. */
  function FloodOn(circuits: map<CircuitId, Circuit>, id: LspId, except: Option<CircuitId>, now: nat): map<CircuitId, Circuit> {
    map c | c in circuits :: if Some(c) == except then circuits[c] else ClearSsn(SetSrm(circuits[c], id, now), id)
  }

  function Flood(n: Node, id: LspId, except: Option<CircuitId>, now: nat): Node {
    n.(circuits := FloodOn(n.circuits, id, except, now))
  }

  function PurgeEntry(n: Node, id: LspId, seqno: Seqno, own: bool, now: nat): Entry {
    Entry(seqno, n.cfg.sum(id, seqno, Purge), Purge, n.cfg.purgeSize, now, 0, own, Some(now), 0)
  }

  /** Store an entry and flood it everywhere. */
  function StoreAndFlood(n: Node, id: LspId, e: Entry, now: nat): Node {
    Flood(n.(db := n.db[id := e]), id, None, now)
  }

  /** Turn a foreign LSP into a purge at the number it has reached. */
  function ExpirePurge(n: Node, id: LspId, seqno: Seqno, now: nat): Node {
    StoreAndFlood(n, id, PurgeEntry(n, id, seqno, false, now), now)
  }

  /** The number space of an own identifier is used up: purge at the top and hold the identifier down. */
  function ExhaustSeq(n: Node, id: LspId, now: nat): Node {
    StoreAndFlood(n.(wrapUntil := n.wrapUntil[id := now + SEQ_WRAP_HOLD]), id, PurgeEntry(n, id, MAX_SEQ, true, now), now)
  }

  function PurgeOwn(n: Node, id: LspId, now: nat): Node {
    if id in n.db && n.db[id].seqno == MAX_SEQ then ExhaustSeq(n, id, now)
    else
      var seqno: Seqno := if id in n.db then n.db[id].seqno + 1 else 1;
      StoreAndFlood(n, id, PurgeEntry(n, id, seqno, true, now), now)
  }

  /** Re-issue an own LSP above a number seen on the wire. */
  function Reoriginate(n: Node, id: LspId, seen: Seqno, now: nat, deadline: nat): Node {
    if id !in n.db then n
    else if seen == MAX_SEQ then ExhaustSeq(n, id, now)
    else
      var e := n.db[id];
      var seqno: Seqno := seen + 1;
      StoreAndFlood(n, id, Entry(seqno, n.cfg.sum(id, seqno, e.body), e.body, e.size, now, MAX_AGE, true, None, deadline), now)
  }

  predicate HeldDown(n: Node, id: LspId, now: nat) {
    id in n.wrapUntil && now < n.wrapUntil[id]
  }

  /** Originate one fragment, unless it is held down, unchanged, or larger than the buffer. */
  function Originate(n: Node, id: LspId, body: Body, size: nat, buffer: nat, force: bool, now: nat, deadline: nat): Node {
    if HeldDown(n, id, now) then n
    else if id in n.db && n.db[id].own && n.db[id].purgedAt.None? && !force && n.db[id].body == body then n
    else if id in n.db && n.db[id].seqno == MAX_SEQ then ExhaustSeq(n, id, now)
    else if size > buffer then n
    else
      var seqno: Seqno := if id in n.db then n.db[id].seqno + 1 else 1;
      StoreAndFlood(n, id, Entry(seqno, n.cfg.sum(id, seqno, body), body, size, now, MAX_AGE, true, None, deadline), now)
  }

  /** This node is the originator of `id`: its own node LSP, or a pseudonode LSP where it is the DIS. */
  predicate OwnsLsp(n: Node, id: LspId) {
    && id.node.system == n.cfg.self
    && (id.node.pseudonode == 0 ||
        exists c :: c in n.circuits && n.circuits[c].octet == id.node.pseudonode && n.circuits[c].dis)
  }

  /** Store a newer copy, flood it onward, and acknowledge it where it came from. */
  function Install(n: Node, c: CircuitId, m: Lsp, now: nat): Node
    requires c in n.circuits
  {
    var e := Entry(m.seqno, m.checksum, m.body, m.size, now, ReceivedLifetime(m.remaining), false,
                   if m.remaining == 0 then Some(now) else None, 0);
    var stored := Flood(n.(db := n.db[m.id := e]), m.id, Some(c), now);
    var here := ClearSrm(stored.circuits[c], m.id);
    WithCircuit(stored, c, if here.p2p then SetSsn(here, m.id) else here)
  }

  /** A newer copy that carries this node's own system ID. */
  function ReceiveOwn(n: Node, c: CircuitId, m: Lsp, now: nat, deadline: nat): Node
    requires c in n.circuits
  {
    if OwnsLsp(n, m.id) && m.id in n.db && n.db[m.id].own && n.db[m.id].purgedAt.None?
    then Reoriginate(n, m.id, m.seqno, now, deadline)
    else if m.remaining == 0 then Install(n, c, m, now)
    else ExpirePurge(n, m.id, m.seqno, now)
  }

  /** A copy that is not newer than the one held. */
  function ReceiveOld(n: Node, c: CircuitId, m: Lsp, now: nat, deadline: nat): Node
    requires c in n.circuits && m.id in n.db
  {
    var x, e := n.circuits[c], n.db[m.id];
    if m.seqno < e.seqno then WithCircuit(n, c, ClearSsn(SetSrm(x, m.id, now), m.id))
    else if m.seqno == e.seqno && Remaining(e, now) == 0 && m.remaining != 0
    then WithCircuit(n, c, ClearSsn(SetSrm(x, m.id, now), m.id))
    else if m.seqno == e.seqno && m.remaining != 0 && Remaining(e, now) != 0 && m.checksum != e.checksum
    then if !e.own then ExpirePurge(n, m.id, e.seqno, now) else Reoriginate(n, m.id, m.seqno, now, deadline)
    else if x.p2p then WithCircuit(n, c, SetSsn(x, m.id))
    else n
  }

  /** A copy that is newer than the one held, or of something not held. */
  function ReceiveNew(n: Node, c: CircuitId, m: Lsp, now: nat, deadline: nat): Node
    requires c in n.circuits
  {
    if m.id !in n.db && m.remaining == 0 then
      if n.circuits[c].p2p
      then WithCircuit(n, c, SetSsnAck(n.circuits[c], SnpEntry(m.id, m.seqno, 0, m.checksum)))
      else n
    else if m.id !in n.db && n.cfg.limit > 0 && |n.db| >= n.cfg.limit then n
    else if m.id.node.system == n.cfg.self then ReceiveOwn(n, c, m, now, deadline)
    else Install(n, c, m, now)
  }

  /** The update process for one received LSP; `intact` says its checksum verifies. */
  function ReceiveLsp(n0: Node, c: CircuitId, m: Lsp, intact: bool, now: nat, deadline: nat): Node
    requires c in n0.circuits
  {
    if m.remaining != 0 && !intact then n0
    else
      var n := WithCircuit(n0, c, Hears(n0.circuits[c], m.id, Claimed(m.seqno, m.remaining)));
      if Newer(m.seqno, m.remaining, Get(n, m.id), now) then ReceiveNew(n, c, m, now, deadline)
      else ReceiveOld(n, c, m, now, deadline)
  }

  // ---------- Sequence-number PDUs ----------

  /** The same number on two live copies with different contents. */
  predicate Conflicts(e: Entry, s: SnpEntry, now: nat) {
    e.seqno == s.seqno && Remaining(e, now) != 0 && s.remaining != 0 && e.checksum != s.checksum
  }

  /** One entry of a CSNP. */
  function CsnpEntry(x0: Circuit, db: Database, s: SnpEntry, now: nat): Circuit {
    var x := Hears(x0, s.id, Claimed(s.seqno, s.remaining));
    if s.id !in db || Newer(s.seqno, s.remaining, Some(db[s.id]), now) then SetSsn(x, s.id)
    else if db[s.id].seqno > s.seqno || Conflicts(db[s.id], s, now) then SetSrm(x, s.id, now)
    else ClearSrm(x, s.id)
  }

  function CsnpEntries(x: Circuit, db: Database, listed: seq<SnpEntry>, now: nat): Circuit {
    if listed == [] then x
    else CsnpEntry(CsnpEntries(x, db, listed[..|listed| - 1], now), db, listed[|listed| - 1], now)
  }

  /** Arm the flags of a set of LSPs. */
  function ArmAll(x: Circuit, ids: set<LspId>, now: nat): Circuit {
    x.(srm := map id | id in x.srm.Keys + ids :: if id in ids then now else x.srm[id],
       reported := x.reported - ids)
  }

  /** An LSP identifier read as the eight-octet number its ranges are compared by. */
  function Code(id: LspId): nat {
    id.node.system * 65536 + id.node.pseudonode * 256 + id.fragment
  }

  predicate Lists(listed: seq<SnpEntry>, id: LspId) {
    exists i :: 0 <= i < |listed| && listed[i].id == id
  }

  /** What the database holds in the range that the PDU does not list. */
  function Omitted(db: Database, start: nat, end: nat, listed: seq<SnpEntry>): set<LspId> {
    set id | id in db && start <= Code(id) <= end && !Lists(listed, id)
  }

  function ReceiveCsnp(n: Node, c: CircuitId, start: nat, end: nat, listed: seq<SnpEntry>, now: nat): Node
    requires c in n.circuits
  {
    WithCircuit(n, c, ArmAll(CsnpEntries(n.circuits[c], n.db, listed, now), Omitted(n.db, start, end, listed), now))
  }

  /** One entry of a PSNP: an acknowledgement on a point-to-point circuit, a request to the DIS of a LAN. */
  function PsnpEntry(x0: Circuit, db: Database, s: SnpEntry, now: nat): Circuit {
    var x := Hears(x0, s.id, Claimed(s.seqno, s.remaining));
    if s.id !in db then x
    else if x.p2p then (if s.seqno >= db[s.id].seqno then ClearSrm(x, s.id) else x)
    else if db[s.id].seqno > s.seqno || Conflicts(db[s.id], s, now) then SetSrm(x, s.id, now)
    else x
  }

  function PsnpEntries(x: Circuit, db: Database, listed: seq<SnpEntry>, now: nat): Circuit {
    if listed == [] then x
    else PsnpEntry(PsnpEntries(x, db, listed[..|listed| - 1], now), db, listed[|listed| - 1], now)
  }

  function ReceivePsnp(n: Node, c: CircuitId, listed: seq<SnpEntry>, now: nat): Node
    requires c in n.circuits
  {
    if !n.circuits[c].p2p && !n.circuits[c].dis then n
    else WithCircuit(n, c, PsnpEntries(n.circuits[c], n.db, listed, now))
  }

  // ---------- Adjacency changes and synchronization ----------

  /** Hand the whole database to the neighbour, or note that it is owed while the hold-down lasts. */
  function Sync(n: Node, c: CircuitId, now: nat): Node
    requires c in n.circuits
  {
    var x := n.circuits[c];
    if now < x.syncHold then WithCircuit(n, c, x.(syncDeferred := true))
    else WithCircuit(n, c, ArmAll(x.(syncHold := now + SYNC_HOLD_DOWN, syncDeferred := false), n.db.Keys, now))
  }

  /** A point-to-point adjacency comes Up at this level. */
  function AdjacencyUp(n: Node, c: CircuitId, now: nat): Node
    requires c in n.circuits
  {
    Sync(WithCircuit(n, c, n.circuits[c].(up := true, reported := map[])), c, now)
  }

  /** The adjacency falls back to Init, or loses this level, without being torn down. */
  function AdjacencyLost(n: Node, c: CircuitId): Node
    requires c in n.circuits
  {
    WithCircuit(n, c, n.circuits[c].(up := false))
  }

  /** It is torn down: the flags went to a neighbour that is gone. */
  function AdjacencyDown(n: Node, c: CircuitId): Node
    requires c in n.circuits
  {
    WithCircuit(n, c, ClearFlags(n.circuits[c]).(up := false))
  }

  // ---------- Transmission ----------

  /** The flags whose time has come. */
  function Due(x: Circuit, now: nat): set<LspId> {
    if FloodReady(x) then set id | id in x.srm && x.srm[id] <= now else {}
  }

  /** One flagged LSP whose time has come; `sent` says whether the write succeeds. */
  function Attempt(x: Circuit, db: Database, id: LspId, sent: bool, now: nat): Circuit {
    if Unsendable(x, db, id) then ClearSrm(x, id)
    else if !sent then x
    else if x.p2p then x.(srm := x.srm[id := now + MIN_TRANSMIT_INTERVAL])
    else ClearSrm(x, id)
  }

  /** A set of due flags served at once, where the writes of `sends` succeed: sent, dropped because they cannot be, or kept. */
  function Served(x: Circuit, db: Database, ids: set<LspId>, sends: set<LspId>, now: nat): Circuit {
    x.(srm := map id | id in x.srm && !(id in ids && Leaves(x, db, id, sends)) ::
         if id in ids && id in sends then now + MIN_TRANSMIT_INTERVAL else x.srm[id])
  }

  predicate Leaves(x: Circuit, db: Database, id: LspId, sends: set<LspId>) {
    Unsendable(x, db, id) || (!x.p2p && id in sends)
  }

  predicate Unsendable(x: Circuit, db: Database, id: LspId) {
    id !in db || db[id].size > x.maxSize
  }

  // ---------- Ageing ----------

  /** A purge has been held long enough. */
  predicate Droppable(e: Entry, now: nat) {
    e.purgedAt.Some? && now >= e.purgedAt.value + ZERO_AGE * SECOND
  }

  /** A foreign LSP has run out of lifetime. */
  predicate RunsOut(e: Entry, now: nat) {
    e.purgedAt.None? && !e.own && Remaining(e, now) == 0
  }

  /** One database entry looked at by the ageing pass. */
  function AgeOne(n: Node, id: LspId, now: nat): Node
    requires id in n.db
  {
    if Droppable(n.db[id], now) then n.(db := n.db - {id})
    else if RunsOut(n.db[id], now) then ExpirePurge(n, id, n.db[id].seqno, now)
    else n
  }

  /** A set of LSPs armed on a circuit, and no longer reported there. */
  function FlagAll(x: Circuit, ids: set<LspId>, now: nat): Circuit {
    ArmAll(x, ids, now).(ssn := x.ssn - ids, acks := x.acks - ids)
  }

  function FloodSet(circuits: map<CircuitId, Circuit>, ids: set<LspId>, now: nat): map<CircuitId, Circuit> {
    map c | c in circuits :: FlagAll(circuits[c], ids, now)
  }

  function Expired(db: Database, ids: set<LspId>, now: nat): set<LspId> {
    set id | id in db && id in ids && RunsOut(db[id], now)
  }

  function AgedDb(n: Node, ids: set<LspId>, now: nat): Database {
    map id | id in n.db && !(id in ids && Droppable(n.db[id], now)) ::
      if id in ids && RunsOut(n.db[id], now) then PurgeEntry(n, id, n.db[id].seqno, false, now) else n.db[id]
  }

  /** A set of entries looked at by the ageing pass. */
  function AgeSet(n: Node, ids: set<LspId>, now: nat): Node {
    n.(db := AgedDb(n, ids, now), circuits := FloodSet(n.circuits, Expired(n.db, ids, now), now))
  }

  /** The identifiers whose hold-down has elapsed are released. */
  function Release(n: Node, now: nat): Node {
    n.(wrapUntil := map id | id in n.wrapUntil && now < n.wrapUntil[id] :: n.wrapUntil[id])
  }

  /** What one PSNP reports for a flagged identifier: the copy held, or the acknowledgement kept for one that is not. */
  function PsnpLine(x: Circuit, db: Database, id: LspId, now: nat): SnpEntry {
    if id in db then SnpEntry(id, db[id].seqno, Remaining(db[id], now), db[id].checksum)
    else if id in x.acks then x.acks[id]
    else SnpEntry(id, 0, 0, 0)
  }

  // ---------- Steps ----------

  /** Everything that can happen to a level of the node at one instant. */
  datatype Step =
    | GotLsp(c: CircuitId, m: Lsp, intact: bool, deadline: nat)
    | GotCsnp(c: CircuitId, start: nat, end: nat, listed: seq<SnpEntry>)
    | GotPsnp(c: CircuitId, listed: seq<SnpEntry>)
    | WentUp(c: CircuitId)
    | WasLost(c: CircuitId)
    | WentDown(c: CircuitId)
    | Synchronize(c: CircuitId)
    | TrySend(c: CircuitId, id: LspId, sent: bool)
    | SendPsnp(c: CircuitId)
    | Aged(id: LspId)
    | Originated(id: LspId, body: Body, size: nat, buffer: nat, force: bool, deadline: nat)
    | Purged(id: LspId)
    | Released
    | Elected(c: CircuitId, dis: bool)
    | Added(c: CircuitId, p2p: bool, maxSize: nat, octet: Octet)
    | Removed(c: CircuitId)

  /** When a step can happen: circuits exist, only own live LSPs are withdrawn, only due flags are served. */
  predicate Enabled(n: Node, s: Step, now: nat) {
    match s
    case GotLsp(c, _, _, _) => c in n.circuits
    case GotCsnp(c, _, _, _) => c in n.circuits
    case GotPsnp(c, _) => c in n.circuits
    case WentUp(c) => c in n.circuits && n.circuits[c].p2p
    case WasLost(c) => c in n.circuits && n.circuits[c].p2p
    case WentDown(c) => c in n.circuits && n.circuits[c].p2p
    case Synchronize(c) => c in n.circuits
    case TrySend(c, id, _) =>
      c in n.circuits && FloodReady(n.circuits[c]) && id in n.circuits[c].srm && n.circuits[c].srm[id] <= now
    case SendPsnp(c) => c in n.circuits && FloodReady(n.circuits[c])
    case Aged(id) => id in n.db
    case Originated(id, _, _, _, _, _) => id.node.system == n.cfg.self
    case Purged(id) => id in n.db && n.db[id].own && n.db[id].purgedAt.None?
    case Released => true
    case Elected(c, _) => c in n.circuits && !n.circuits[c].p2p
    case Added(c, _, _, octet) => c !in n.circuits && octet != 0
    case Removed(c) => c in n.circuits
  }

  function Next(n: Node, s: Step, now: nat): Node
    requires Enabled(n, s, now)
  {
    match s
    case GotLsp(c, m, intact, deadline) => ReceiveLsp(n, c, m, intact, now, deadline)
    case GotCsnp(c, start, end, listed) => ReceiveCsnp(n, c, start, end, listed, now)
    case GotPsnp(c, listed) => ReceivePsnp(n, c, listed, now)
    case WentUp(c) => AdjacencyUp(n, c, now)
    case WasLost(c) => AdjacencyLost(n, c)
    case WentDown(c) => AdjacencyDown(n, c)
    case Synchronize(c) => Sync(n, c, now)
    case TrySend(c, id, sent) => WithCircuit(n, c, Attempt(n.circuits[c], n.db, id, sent, now))
    case SendPsnp(c) => WithCircuit(n, c, n.circuits[c].(ssn := {}, acks := map[]))
    case Aged(id) => AgeOne(n, id, now)
    case Originated(id, body, size, buffer, force, deadline) => Originate(n, id, body, size, buffer, force, now, deadline)
    case Purged(id) => PurgeOwn(n, id, now)
    case Released => Release(n, now)
    case Elected(c, dis) => WithCircuit(n, c, n.circuits[c].(dis := dis))
    case Added(c, p2p, maxSize, octet) =>
      WithCircuit(n, c, Circuit(p2p, false, maxSize, octet, false, map[], {}, map[], 0, false, map[]))
    case Removed(c) => n.(circuits := n.circuits - {c})
  }
}
