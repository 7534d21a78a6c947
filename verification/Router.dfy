/** Both levels of a node and the circuits they share, over every run of circuit changes and protocol steps. */
module Router {
  import opened Types
  import opened Lsdb
  import opened Flooding
  import opened Sequencing
  import opened Origination
  import opened Coverage
  import opened Refresh
  import UpdateProcess

  /** A configured circuit. */
  datatype Port = Port(octet: Octet, p2p: bool, levels: set<Level>, maxSize: nat)

  datatype Router = Router(l1: Node, l2: Node, ports: map<CircuitId, Port>, cursor: Octet)

  function At(r: Router, l: Level): Node {
    if l == L1 then r.l1 else r.l2
  }

  function With(r: Router, l: Level, n: Node): Router {
    if l == L1 then r.(l1 := n) else r.(l2 := n)
  }

  function Octets(r: Router): set<Octet> {
    set c | c in r.ports :: r.ports[c].octet
  }

  function NewCircuit(p: Port): Circuit {
    Circuit(p.p2p, false, p.maxSize, p.octet, false, map[], {}, map[], 0, false, map[])
  }

  /** What to regenerate at one level. */
  datatype Work = Work(order: seq<Octet>, plan: Plan)

  /** What is tried on a departing circuit at one level before it goes, and which writes succeed. */
  datatype Farewell = Farewell(tried: set<LspId>, sends: set<LspId>)

  datatype Op =
    | Plain(l: Level, s: Step)
    | Regenerated(w1: Work, w2: Work, buffer: nat, force: bool)
    | AddCircuit(c: CircuitId, port: Port)
    | DeleteCircuit(c: CircuitId, bye1: Farewell, bye2: Farewell)

  /** Regenerate one level, if any circuit is at it. */
  function RegenerateAt(n: Node, w: Work, buffer: nat, force: bool, now: nat): Node {
    if n.circuits == map[] then n else Regenerate(n, w.order, w.plan, buffer, force, now)
  }

  function AddAt(n: Node, c: CircuitId, p: Port, l: Level): Node {
    if l in p.levels then WithCircuit(n, c, NewCircuit(p)) else n
  }

  /** The circuit's pseudonode withdrawn, and the node itself if this is the level's last circuit. */
  function Leaving(n: Node, c: CircuitId, octet: Octet, now: nat): (r: Node)
    ensures r.circuits.Keys == n.circuits.Keys
  {
    var n1 := WithdrawSet(n, Stale(n, octet, 0), now);
    if n.circuits.Keys == {c} then WithdrawSet(n1, Stale(n1, 0, 0), now) else n1
  }

  /** Withdraw, serve the flags while the circuit is still there, take its adjacency down, and take it out. */
  function DeleteAt(n: Node, c: CircuitId, octet: Octet, bye: Farewell, now: nat): Node {
    if c !in n.circuits then n
    else
      var n2 := Leaving(n, c, octet, now);
      var n3 := WithCircuit(n2, c, Served(n2.circuits[c], n2.db, bye.tried, bye.sends, now));
      var n4 := if n3.circuits[c].p2p then AdjacencyDown(n3, c) else n3;
      n4.(circuits := n4.circuits - {c})
  }

  ghost predicate CanRegenerate(n: Node, w: Work) {
    n.circuits != map[] ==> IsRegeneration(n, w.order, w.plan)
  }

  ghost predicate Possible(r: Router, op: Op, now: nat) {
    match op
    case Plain(l, s) => Enabled(At(r, l), s, now) && IsPlain(s)
    case Regenerated(w1, w2, _, _) => CanRegenerate(r.l1, w1) && CanRegenerate(r.l2, w2)
    case AddCircuit(c, p) => c !in r.ports && p.levels != {} && p.octet != 0 && IsNextFree(r.cursor, Octets(r), p.octet)
    case DeleteCircuit(c, _, _) => c in r.ports
  }

  ghost function Do(r: Router, op: Op, now: nat): Router
    requires Possible(r, op, now)
  {
    match op
    case Plain(l, s) => With(r, l, Next(At(r, l), s, now))
    case Regenerated(w1, w2, buffer, force) =>
      r.(l1 := RegenerateAt(r.l1, w1, buffer, force, now), l2 := RegenerateAt(r.l2, w2, buffer, force, now))
    case AddCircuit(c, p) =>
      Router(AddAt(r.l1, c, p, L1), AddAt(r.l2, c, p, L2), r.ports[c := p], p.octet)
    case DeleteCircuit(c, bye1, bye2) =>
      var octet := r.ports[c].octet;
      r.(l1 := DeleteAt(r.l1, c, octet, bye1, now), l2 := DeleteAt(r.l2, c, octet, bye2, now), ports := r.ports - {c})
  }

  /** A protocol step happens at its own level: the other one, the circuits and the cursor stay. */
  lemma LevelsAreApart(r: Router, l: Level, s: Step, now: nat)
    requires Possible(r, Plain(l, s), now)
    ensures var r' := Do(r, Plain(l, s), now);
            && (l == L1 ==> r'.l1 == Next(r.l1, s, now) && r'.l2 == r.l2)
            && (l == L2 ==> r'.l2 == Next(r.l2, s, now) && r'.l1 == r.l1)
            && r'.ports == r.ports && r'.cursor == r.cursor
  {
    hide Next; hide Enabled;
  }

  // ---------- The invariant ----------

  /** Octets name circuits: never 0, never two alike. */
  ghost predicate Unique(ports: map<CircuitId, Port>) {
    && (forall c :: c in ports ==> 1 <= ports[c].octet <= 255)
    && (forall c, d :: c in ports && d in ports && c != d ==> ports[c].octet != ports[d].octet)
  }

  /** The circuits of a level are the configured ones that are at it. */
  ghost predicate Matches(n: Node, ports: map<CircuitId, Port>, l: Level) {
    && (forall c :: c in n.circuits <==> c in ports && l in ports[c].levels)
    && (forall c :: c in n.circuits ==> SameKind(n.circuits[c], NewCircuit(ports[c])))
  }

  ghost predicate LevelOk(n: Node, ports: map<CircuitId, Port>, l: Level, now: nat) {
    NoLoss(n) && Sound(n, now) && IsCovered(n) && Matches(n, ports, l)
  }

  ghost predicate Ok(r: Router, now: nat) {
    Unique(r.ports) && LevelOk(r.l1, r.ports, L1, now) && LevelOk(r.l2, r.ports, L2, now)
  }

  lemma MatchesStill(n: Node, n': Node, ports: map<CircuitId, Port>, l: Level)
    requires Matches(n, ports, l) && SameKinds(n, n')
    ensures Matches(n', ports, l)
  {
    forall c | c in n'.circuits
      ensures SameKind(n'.circuits[c], NewCircuit(ports[c]))
    {
      assert SameKind(n.circuits[c], n'.circuits[c]);
    }
  }

  lemma PlainOk(n: Node, ports: map<CircuitId, Port>, l: Level, s: Step, now: nat)
    requires LevelOk(n, ports, l, now) && Enabled(n, s, now) && IsPlain(s)
    ensures LevelOk(Next(n, s, now), ports, l, now)
  {
    hide NoLoss; hide Sound; hide IsCovered; hide Matches; hide Next; hide Enabled; hide SameKinds;
    StepKeepsCover(n, s, now);
    StepSound(n, s, now);
    PlainCovers(n, s, now);
    PlainKeepsKinds(n, s, now);
    MatchesStill(n, Next(n, s, now), ports, l);
  }

  lemma RegenerateOk(n: Node, ports: map<CircuitId, Port>, l: Level, w: Work, buffer: nat, force: bool, now: nat)
    requires LevelOk(n, ports, l, now) && CanRegenerate(n, w)
    ensures LevelOk(RegenerateAt(n, w, buffer, force, now), ports, l, now)
  {
    hide NoLoss; hide Sound; hide IsCovered; hide Matches; hide Regenerate; hide IsRegeneration; hide SameKinds;
    if n.circuits != map[] {
      RegenerateKeeps(n, w.order, w.plan, buffer, force, now);
      RegenerateCovers(n, w.order, w.plan, buffer, force, now);
      MatchesStill(n, Regenerate(n, w.order, w.plan, buffer, force, now), ports, l);
    }
  }

  lemma AddOk(n: Node, ports: map<CircuitId, Port>, l: Level, c: CircuitId, p: Port, now: nat)
    requires LevelOk(n, ports, l, now) && c !in ports && p.octet != 0
    ensures LevelOk(AddAt(n, c, p, l), ports[c := p], l, now)
  {
    hide NoLoss; hide Sound; hide IsCovered; hide SameKind;
    if l in p.levels {
      AddIsStep(n, c, p, now);
      AddCovers(n, c, NewCircuit(p));
      assert SameKind(NewCircuit(p), NewCircuit(p)) by { KindSelf(NewCircuit(p)); }
    }
  }

  lemma KindSelf(x: Circuit)
    ensures SameKind(x, x)
  {
  }

  lemma AddCovers(n: Node, c: CircuitId, x: Circuit)
    requires IsCovered(n) && c !in n.circuits
    ensures IsCovered(WithCircuit(n, c, x))
  {
    var n' := WithCircuit(n, c, x);
    forall id | LiveOwn(n', id)
      ensures IsRefreshed(n', id)
    {
      assert LiveOwn(n, id);
      if id.node.pseudonode == 0 {
        assert c in n'.circuits;
      } else {
        var d :| d in n.circuits && !n.circuits[d].p2p && n.circuits[d].octet == id.node.pseudonode;
        assert d in n'.circuits && n'.circuits[d] == n.circuits[d];
      }
    }
  }

  lemma AddIsStep(n: Node, c: CircuitId, p: Port, now: nat)
    requires NoLoss(n) && Sound(n, now) && c !in n.circuits && p.octet != 0
    ensures NoLoss(WithCircuit(n, c, NewCircuit(p))) && Sound(WithCircuit(n, c, NewCircuit(p)), now)
  {
    hide NoLoss; hide Sound;
    StepKeepsCover(n, Added(c, p.p2p, p.maxSize, p.octet), now);
    StepSound(n, Added(c, p.p2p, p.maxSize, p.octet), now);
  }

  // ---------- Deleting a circuit ----------

  /** Withdrawing a node or pseudonode leaves none of its LSPs alive and every other as it was. */
  lemma WithdrawClears(n: Node, octet: Octet, now: nat)
    requires NoLoss(n) && Sound(n, now)
    ensures var n' := WithdrawSet(n, Stale(n, octet, 0), now);
      && NoLoss(n') && Sound(n', now) && SameKinds(n, n') && n'.cfg == n.cfg
      && forall id :: LiveOwn(n', id) ==> LiveOwn(n, id) && id.node != NodeId(n.cfg.self, octet)
  {
    hide NoLoss; hide Sound; hide SameKinds; hide FloodSet;
    WithdrawKeeps(n, Stale(n, octet, 0), now);
    KindsWithdraw(n, Stale(n, octet, 0), now);
  }

  /** What a deletion has withdrawn before the circuit goes. */
  ghost predicate Withdrawn(n: Node, n': Node, c: CircuitId, octet: Octet) {
    forall id :: LiveOwn(n', id) ==>
      && LiveOwn(n, id) && id.node != NodeId(n.cfg.self, octet)
      && (n.circuits.Keys == {c} ==> id.node != NodeId(n.cfg.self, 0))
  }

  /** What the departing circuit does last is nothing to the rest of the node. */
  lemma FarewellIsLocal(n: Node, c: CircuitId, octet: Octet, bye: Farewell, now: nat)
    requires c in n.circuits
    ensures var n2 := Leaving(n, c, octet, now); DeleteAt(n, c, octet, bye, now) == n2.(circuits := n2.circuits - {c})
  {
    hide Leaving; hide Served; hide ClearFlags;
    var n2 := Leaving(n, c, octet, now);
    var n3 := WithCircuit(n2, c, Served(n2.circuits[c], n2.db, bye.tried, bye.sends, now));
    GoneIsGone(n2, c, n3.circuits[c]);
    if n3.circuits[c].p2p { GoneIsGone(n3, c, ClearFlags(n3.circuits[c]).(up := false)); }
  }

  lemma GoneIsGone(n: Node, c: CircuitId, x: Circuit)
    ensures WithCircuit(n, c, x).circuits - {c} == n.circuits - {c}
  {
  }

  lemma DeleteWithdraws(n: Node, c: CircuitId, octet: Octet, bye: Farewell, now: nat) returns (n2: Node)
    requires NoLoss(n) && Sound(n, now) && c in n.circuits
    ensures DeleteAt(n, c, octet, bye, now) == n2.(circuits := n2.circuits - {c})
    ensures NoLoss(n2) && Sound(n2, now) && SameKinds(n, n2) && n2.cfg == n.cfg && Withdrawn(n, n2, c, octet)
  {
    FarewellIsLocal(n, c, octet, bye, now);
    hide NoLoss; hide Sound; hide WithdrawSet; hide Stale; hide LiveOwn; hide SameKinds; hide DeleteAt;
    var n1 := WithdrawSet(n, Stale(n, octet, 0), now);
    WithdrawClears(n, octet, now);
    n2 := n1;
    if n.circuits.Keys == {c} {
      WithdrawClears(n1, 0, now);
      n2 := WithdrawSet(n1, Stale(n1, 0, 0), now);
      KindsTrans(n, n1, n2);
    }
  }

  lemma DeleteOk(n: Node, ports: map<CircuitId, Port>, l: Level, c: CircuitId, bye: Farewell, now: nat)
    requires LevelOk(n, ports, l, now) && Unique(ports) && c in ports
    ensures LevelOk(DeleteAt(n, c, ports[c].octet, bye, now), ports - {c}, l, now)
  {
    hide NoLoss; hide Sound; hide IsCovered; hide Withdrawn; hide Unique; hide SameKind;
    if c in n.circuits {
      var n2 := DeleteWithdraws(n, c, ports[c].octet, bye, now);
      RemoveIsStep(n2, c, now);
      RemovedCovers(n, n2, ports, l, c);
      MatchesStill(n, n2, ports, l);
      MatchesRemoved(n2, ports, l, c);
      hide DeleteAt; hide Matches;
    }
  }

  /** An LSP the deletion withdraws: of the circuit's pseudonode, or of the node itself when its last circuit goes. */
  ghost predicate Departs(n: Node, c: CircuitId, octet: Octet, id: LspId) {
    LiveOwn(n, id) && (id.node == NodeId(n.cfg.self, octet) || (n.circuits.Keys == {c} && id.node == NodeId(n.cfg.self, 0)))
  }

  lemma WithdrawArms(n: Node, c: CircuitId, pn: Octet, now: nat, id: LspId)
    requires c in n.circuits && LiveOwn(n, id) && id.node == NodeId(n.cfg.self, pn)
    ensures var n' := WithdrawSet(n, Stale(n, pn, 0), now);
      && c in n'.circuits && id in n'.circuits[c].srm && n'.circuits[c].srm[id] == now
      && id in n'.db && n'.db[id].purgedAt == Some(now) && n'.db[id].size == n.cfg.purgeSize
  {
    assert id in Stale(n, pn, 0);
  }

  lemma WithdrawKeepsArmed(n: Node, c: CircuitId, pn: Octet, now: nat, id: LspId)
    requires c in n.circuits && id in n.circuits[c].srm && n.circuits[c].srm[id] == now
    requires id in n.db && n.db[id].purgedAt.Some?
    ensures var n' := WithdrawSet(n, Stale(n, pn, 0), now);
      c in n'.circuits && id in n'.circuits[c].srm && n'.circuits[c].srm[id] == now && id in n'.db && n'.db[id] == n.db[id]
  {
    assert id !in Stale(n, pn, 0);
  }

  lemma LeavingKeeps(n: Node, c: CircuitId, octet: Octet, now: nat)
    requires c in n.circuits
    ensures var n2 := Leaving(n, c, octet, now);
      && c in n2.circuits && n2.circuits[c].p2p == n.circuits[c].p2p && n2.circuits[c].up == n.circuits[c].up
      && n2.circuits[c].maxSize == n.circuits[c].maxSize && n2.cfg == n.cfg
  {
  }

  /** Every LSP withdrawn is a purge by then, and due on the circuit that goes. */
  lemma FarewellIsDue(n: Node, c: CircuitId, octet: Octet, now: nat, id: LspId)
    requires c in n.circuits && FloodReady(n.circuits[c]) && octet != 0 && Departs(n, c, octet, id)
    ensures var n2 := Leaving(n, c, octet, now);
      && c in n2.circuits && id in Due(n2.circuits[c], now)
      && id in n2.db && n2.db[id].purgedAt.Some? && n2.db[id].size == n.cfg.purgeSize
  {
    LeavingKeeps(n, c, octet, now);
    var n1 := WithdrawSet(n, Stale(n, octet, 0), now);
    if id.node == NodeId(n.cfg.self, octet) {
      WithdrawArms(n, c, octet, now, id);
      WithdrawKeepsArmed(n1, c, 0, now, id);
    } else {
      assert n1.cfg == n.cfg && c in n1.circuits;
      assert LiveOwn(n1, id);
      WithdrawArms(n1, c, 0, now, id);
    }
  }

  /**
   * Drained with every write successful, a LAN is sent every purge that fits it, and so is a point-to-point circuit
   * with no more than one tick's worth due.
   */
  lemma FarewellIsSent(n: Node, c: CircuitId, octet: Octet, now: nat, id: LspId, sends: set<LspId>, tried: set<LspId>, written: set<LspId>)
    requires c in n.circuits && FloodReady(n.circuits[c]) && octet != 0 && Departs(n, c, octet, id)
    requires n.cfg.purgeSize <= n.circuits[c].maxSize
    requires var n2 := Leaving(n, c, octet, now); var x := n2.circuits[c]; var all := UpdateProcess.Writable(x, n2.db, Due(x, now));
      && UpdateProcess.Drains(x, n2.db, sends, tried, written, now)
      && all <= sends && (!x.p2p || |all| <= UpdateProcess.MAX_PER_TICK)
    ensures id in written
  {
    FarewellIsDue(n, c, octet, now, id);
    LeavingKeeps(n, c, octet, now);
    hide Leaving; hide Due; hide UpdateProcess.Sendable;
  }

  lemma MatchesRemoved(n: Node, ports: map<CircuitId, Port>, l: Level, c: CircuitId)
    requires Matches(n, ports, l)
    ensures Matches(n.(circuits := n.circuits - {c}), ports - {c}, l)
  {
  }

  lemma RemoveIsStep(n: Node, c: CircuitId, now: nat)
    requires NoLoss(n) && Sound(n, now) && c in n.circuits
    ensures NoLoss(n.(circuits := n.circuits - {c})) && Sound(n.(circuits := n.circuits - {c}), now)
  {
    hide NoLoss; hide Sound;
    StepKeepsCover(n, Removed(c), now);
    StepSound(n, Removed(c), now);
  }

  lemma RemovedCovers(n: Node, n2: Node, ports: map<CircuitId, Port>, l: Level, c: CircuitId)
    requires IsCovered(n) && Matches(n, ports, l) && Unique(ports) && c in n.circuits && SameKinds(n, n2) && n2.cfg == n.cfg
    requires Withdrawn(n, n2, c, ports[c].octet)
    ensures IsCovered(n2.(circuits := n2.circuits - {c}))
  {
    var n3 := n2.(circuits := n2.circuits - {c});
    forall id | LiveOwn(n3, id)
      ensures IsRefreshed(n3, id)
    {
      assert LiveOwn(n2, id);
      assert IsRefreshed(n, id);
      hide LiveOwn; hide IsCovered; hide Withdrawn;
      if id.node.pseudonode == 0 {
        var d :| d in n.circuits && d != c;
        assert d in n3.circuits;
      } else {
        var d :| d in n.circuits && !n.circuits[d].p2p && n.circuits[d].octet == id.node.pseudonode;
        assert SameKind(n.circuits[d], NewCircuit(ports[d])) && SameKind(n.circuits[d], n2.circuits[d]);
        assert d in n3.circuits && n3.circuits[d] == n2.circuits[d];
      }
    }
  }

  lemma UniqueAdd(r: Router, c: CircuitId, p: Port)
    requires Unique(r.ports) && p.octet != 0 && p.octet !in Octets(r)
    ensures Unique(r.ports[c := p])
  {
    forall d | d in r.ports
      ensures r.ports[d].octet != p.octet
    {
      assert r.ports[d].octet in Octets(r);
    }
  }

  /** Every operation keeps the whole invariant. */
  lemma OpKeeps(r: Router, op: Op, now: nat)
    requires Ok(r, now) && Possible(r, op, now)
    ensures Ok(Do(r, op, now), now)
  {
    hide LevelOk; hide Next; hide Enabled; hide RegenerateAt; hide AddAt; hide DeleteAt; hide Unique;
    match op
    case Plain(l, s) => PlainOk(At(r, l), r.ports, l, s, now);
    case Regenerated(w1, w2, buffer, force) =>
      RegenerateOk(r.l1, r.ports, L1, w1, buffer, force, now);
      RegenerateOk(r.l2, r.ports, L2, w2, buffer, force, now);
    case AddCircuit(c, p) =>
      UniqueAdd(r, c, p);
      AddOk(r.l1, r.ports, L1, c, p, now);
      AddOk(r.l2, r.ports, L2, c, p, now);
    case DeleteCircuit(c, bye1, bye2) =>
      DeleteOk(r.l1, r.ports, L1, c, bye1, now);
      DeleteOk(r.l2, r.ports, L2, c, bye2, now);
      UniqueRemove(r.ports, c);
  }

  lemma UniqueRemove(ports: map<CircuitId, Port>, c: CircuitId)
    requires Unique(ports)
    ensures Unique(ports - {c})
  {
  }

  // ---------- Runs ----------

  datatype Timed = Timed(op: Op, at: nat)

  ghost predicate IsRouterRun(states: seq<Router>, ops: seq<Timed>) {
    && |states| == |ops| + 1
    && (forall i :: 0 <= i < |ops| ==> Follows(states, ops, i))
    && (forall i, j :: 0 <= i <= j < |ops| ==> ops[i].at <= ops[j].at)
  }

  ghost predicate Follows(states: seq<Router>, ops: seq<Timed>, i: nat)
    requires i < |ops| && |states| == |ops| + 1
  {
    Possible(states[i], ops[i].op, ops[i].at) && states[i + 1] == Do(states[i], ops[i].op, ops[i].at)
  }

  lemma OkLater(r: Router, now: nat, later: nat)
    requires Ok(r, now) && now <= later
    ensures Ok(r, later)
  {
    LaterSound(r.l1, now, later);
    LaterSound(r.l2, now, later);
    hide Sound; hide NoLoss; hide IsCovered; hide Matches; hide Unique;
  }

  /** In every reachable state octets are unique, and every live own LSP is one that regeneration visits. */
  lemma {:induction false} EveryStateIsCovered(states: seq<Router>, ops: seq<Timed>, i: nat, now: nat)
    requires IsRouterRun(states, ops) && i <= |ops| && (i > 0 ==> ops[i - 1].at <= now)
    requires IsFresh(states[0].l1) && IsFresh(states[0].l2) && states[0].ports == map[]
    ensures Ok(states[i], now)
  {
    if i > 0 {
      hide Ok; hide Do; hide Possible;
      var at := ops[i - 1].at;
      EveryStateIsCovered(states, ops, i - 1, at);
      assert Follows(states, ops, i - 1);
      OpKeeps(states[i - 1], ops[i - 1].op, at);
      OkLater(states[i], at, now);
    }
  }

  /** A forced regeneration at any reachable state leaves no own LSP of either level past its deadline. */
  lemma RefreshReachesAll(r: Router, w1: Work, w2: Work, buffer: nat, now: nat, l: Level, id: LspId)
    requires Ok(r, now) && Possible(r, Regenerated(w1, w2, buffer, true), now)
    requires forall octet :: octet in w1.plan ==> FitsAndWaits(w1.plan[octet], buffer, now)
    requires forall octet :: octet in w2.plan ==> FitsAndWaits(w2.plan[octet], buffer, now)
    ensures !Overdue(At(Do(r, Regenerated(w1, w2, buffer, true), now), l), id, now)
  {
    hide NoLoss; hide Sound; hide Matches; hide Regenerate; hide IsRegeneration;
    var n, w := At(r, l), if l == L1 then w1 else w2;
    if n.circuits == map[] {
      IdleLevelOwnsNothing(n, id);
    } else {
      ForcedLeavesNoneOverdue(n, w.order, w.plan, buffer, now, id);
    }
  }

  /** A level no circuit is at holds no live own LSP: there is nothing left to refresh there. */
  lemma IdleLevelOwnsNothing(n: Node, id: LspId)
    requires IsCovered(n) && n.circuits == map[]
    ensures !LiveOwn(n, id)
  {
    assert LiveOwn(n, id) ==> IsRefreshed(n, id);
  }
}
