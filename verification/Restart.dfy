/** Point-to-point adjacencies and the help a restarting neighbour is given (RFC 5303, section 3.2.1 of RFC 5306). */
module Restart {
  import opened Types

  datatype State = Down | Init | Up

  /** The Restart TLV: restart request and suppress-adjacency bits. */
  datatype RestartTlv = RestartTlv(request: bool, suppress: bool)

  /** Whom the neighbour's three-way TLV says it hears. */
  datatype Echo = Nobody | Us | Another

  /** A hello; its holding time is in seconds. */
  datatype Hello = Hello(
    system: SystemId,
    source: nat,
    levels: set<Level>,
    areas: set<nat>,
    holding: nat,
    echo: Echo,
    restart: Option<RestartTlv>)

  /** This node and the circuit: its system, the levels the circuit is at, its area addresses. */
  datatype Port = Port(self: SystemId, levels: set<Level>, areas: set<nat>)

  datatype Neighbor = Neighbor(
    system: SystemId,
    source: nat,             // the address its hellos come from
    state: State,
    levels: set<Level>,      // those both ends are at
    holding: nat,
    lastHeard: nat,
    restartCapable: bool,
    restartMode: bool,
    suppressed: bool)

  /** The levels both ends are at; Level 1 only within an area. */
  function Common(port: Port, h: Hello): set<Level> {
    port.levels * h.levels - if port.areas * h.areas == {} then {L1} else {}
  }

  /** A hello that is dropped before it can touch the adjacency. */
  predicate Dropped(port: Port, h: Hello) {
    h.holding == 0 || h.system == port.self || Common(port, h) == {}
  }

  predicate Requests(h: Hello) {
    h.restart.Some? && h.restart.value.request
  }

  /** The request is covered: it comes from the neighbour an adjacency is Up to, from the address it is Up from. */
  predicate Held(adj: Option<Neighbor>, h: Hello) {
    Requests(h) && adj.Some? && adj.value.system == h.system && adj.value.state == Up && adj.value.source == h.source
  }

  /** What one hello says about a restart; a covered request moves the holding timer only the first time. */
  function Noted(n: Neighbor, h: Hello, held: bool, now: nat): Neighbor {
    var noted := n.(restartCapable := h.restart.Some?,
                    suppressed := h.restart.Some? && h.restart.value.suppress,
                    restartMode := Requests(h));
    if !held then noted.(holding := h.holding, lastHeard := now)
    else if !n.restartMode then noted.(lastHeard := now)
    else noted
  }

  /** When the adjacency expires. */
  function Expiry(n: Neighbor): nat {
    n.lastHeard + n.holding * SECOND
  }

  predicate Expired(n: Neighbor, now: nat) {
    now - n.lastHeard > n.holding * SECOND
  }

  /** The whole seconds left before expiry, as the acknowledgement reports them. */
  function Remaining(n: Neighbor, now: nat): nat {
    var hold := n.holding * SECOND;
    var left := hold - (now - n.lastHeard);
    if left <= 0 then 0
    else if left >= hold then n.holding
    else left / SECOND
  }

  /** The adjacency of the circuit after one hello. */
  function Heard(port: Port, adj: Option<Neighbor>, h: Hello, now: nat): Option<Neighbor> {
    var held := Held(adj, h);
    if Dropped(port, h) then adj
    else if !held && h.echo == Another then
      if adj.Some? && adj.value.system == h.system then None else adj
    else
      Some(Noted(Base(adj, h), h, held, now).(source := h.source, levels := Common(port, h), state := if held || h.echo == Us then Up else Init))
  }

  /** The neighbour the hello is about: the one there is, or a new one in its place. */
  function Base(adj: Option<Neighbor>, h: Hello): Neighbor {
    if adj.Some? && adj.value.system == h.system then adj.value
    else Neighbor(h.system, h.source, Down, {}, 0, 0, false, false, false)
  }

  /** The levels at which the adjacency carries traffic. */
  ghost function Usable(adj: Option<Neighbor>): set<Level> {
    if adj.Some? && adj.value.state == Up then adj.value.levels else {}
  }

  /** What this node's own LSPs say of the adjacency: to whom, at which levels, and whether it is to be left out for now. */
  ghost function Advertised(adj: Option<Neighbor>): Option<(SystemId, set<Level>, bool)> {
    if adj.Some? && adj.value.state == Up then Some((adj.value.system, adj.value.levels, adj.value.suppressed)) else None
  }

  /** The same neighbour in the same state, at the same levels and suppressed alike. */
  ghost predicate SaysTheSame(a: Option<Neighbor>, b: Option<Neighbor>) {
    a.Some? && b.Some? && a.value.system == b.value.system && a.value.state == b.value.state && a.value.levels == b.value.levels
    && a.value.suppressed == b.value.suppressed
  }

  /** The level carries traffic to the neighbour `system`. */
  ghost predicate CarriesTo(adj: Option<Neighbor>, system: SystemId, l: Level) {
    adj.Some? && adj.value.system == system && adj.value.state == Up && l in adj.value.levels
  }

  /** Something this node says of itself may have changed: the state, or while Up the levels, the suppression or the addresses. */
  ghost predicate IsNews(before: Option<Neighbor>, after: Option<Neighbor>, addressesChanged: bool) {
    || (before.Some? && (after.None? || after.value.system != before.value.system))
    || (after.Some? && (before.None? || before.value.state != after.value.state))
    || (before.Some? && after.Some? && after.value.state == Up &&
        (before.value.levels != after.value.levels || before.value.suppressed != after.value.suppressed || addressesChanged))
  }

  // ---------- The handshake ----------

  /** A level the hello can make an adjacency at: both ends are at it, and at Level 1 they share an area address. */
  ghost predicate Shared(port: Port, h: Hello, l: Level) {
    l in port.levels && l in h.levels && (l == L1 ==> exists a :: a in port.areas && a in h.areas)
  }

  /** Nothing to make an adjacency of: no holding time, our own system, or no level in common. */
  ghost predicate Useless(port: Port, h: Hello) {
    h.holding == 0 || h.system == port.self || forall l :: !Shared(port, h, l)
  }

  /** A restart request from the neighbour the adjacency is Up to, at the address it is Up from. */
  ghost predicate Covers(adj: Option<Neighbor>, h: Hello) {
    && h.restart.Some? && h.restart.value.request
    && adj.Some? && adj.value.state == Up && adj.value.system == h.system && adj.value.source == h.source
  }

  /** The sender says it hears somebody else, and is not restarting under cover. */
  ghost predicate TurnedAway(adj: Option<Neighbor>, h: Hello) {
    h.echo == Another && !Covers(adj, h)
  }

  /**
   * The adjacency after a hello. A useless one changes nothing. One that echoes another system and covers no restart ends
   * the adjacency to its sender, and no other. Any other one leaves an adjacency to its sender, at the shared levels: Up
   * if it echoes us or covers a restart, in Init otherwise. It expires the hello's holding time from now; a covered
   * request keeps the holding time agreed before, counted from the first such request.
   */
  ghost predicate Shakes(port: Port, adj: Option<Neighbor>, next: Option<Neighbor>, h: Hello, now: nat) {
    if Useless(port, h) then next == adj
    else if TurnedAway(adj, h) then
      next == if adj.Some? && adj.value.system == h.system then None else adj
    else
      && next.Some? && next.value.system == h.system && next.value.source == h.source
      && next.value.state == (if h.echo == Us || Covers(adj, h) then Up else Init)
      && (forall l :: l in next.value.levels <==> Shared(port, h, l))
      && (next.value.restartCapable <==> h.restart.Some?)
      && (next.value.restartMode <==> h.restart.Some? && h.restart.value.request)
      && (next.value.suppressed <==> h.restart.Some? && h.restart.value.suppress)
      && (if Covers(adj, h) then
            && next.value.holding == adj.value.holding
            && next.value.lastHeard == (if adj.value.restartMode then adj.value.lastHeard else now)
          else next.value.holding == h.holding && next.value.lastHeard == now)
  }

  lemma CommonIsShared(port: Port, h: Hello)
    ensures forall l :: l in Common(port, h) <==> Shared(port, h, l)
    ensures Dropped(port, h) <==> Useless(port, h)
  {
    assert port.areas * h.areas == {} <==> !exists a :: a in port.areas && a in h.areas by {
      if a :| a in port.areas && a in h.areas { assert a in port.areas * h.areas; }
    }
    assert Common(port, h) == {} <==> forall l :: l !in Common(port, h);
  }

  lemma HeardShakes(port: Port, adj: Option<Neighbor>, h: Hello, now: nat)
    ensures Shakes(port, adj, Heard(port, adj, h, now), h, now)
  {
    CommonIsShared(port, h);
    hide Common; hide Shared; hide Dropped; hide Useless;
  }

  /** What a hello makes this node do besides. */
  datatype Effects = Effects(
    ack: Option<nat>,        // the remaining time acknowledged
    synced: set<Level>,      // levels whose database is handed over
    cleared: bool,           // a neighbour was taken down, and its flooding flags with it
    regen: bool)             // the own LSPs are to be regenerated

  class P2PCircuit {
    const port: Port
    var adj: Option<Neighbor>

    /** The neighbour is gone. */
    method TearDown()
      modifies `adj
      ensures adj == None
    {
      adj := None;
    }

    /**
     * Process one hello. A level that becomes usable is handed the database, and under a covered request every level
     * is; whatever changes of what the own LSPs say is followed by a regeneration; a neighbour that is taken down or
     * replaced takes its flags with it; a restart request that is not dropped or turned away is acknowledged with the
     * time left.
     */
    method ProcessHello(h: Hello, addressesChanged: bool, now: nat) returns (e: Effects)
      modifies `adj
      ensures adj == Heard(port, old(adj), h, now) && Shakes(port, old(adj), adj, h, now)
      ensures e.ack.Some? <==> Requests(h) && !Dropped(port, h) && (old(Held(adj, h)) || h.echo != Another)
      ensures e.ack.Some? ==> adj.Some? && e.ack.value == Remaining(adj.value, now)
      ensures e.synced == if old(Held(adj, h)) && !Dropped(port, h) then Usable(adj) else Usable(adj) - if e.cleared then {} else old(Usable(adj))
      ensures forall l :: l in e.synced <==>
                && CarriesTo(adj, h.system, l) && !Useless(port, h) && !TurnedAway(old(adj), h)
                && (old(Covers(adj, h)) || !old(CarriesTo(adj, h.system, l)))
      ensures e.regen <==> IsNews(old(adj), adj, addressesChanged && !Useless(port, h) && !TurnedAway(old(adj), h))
      ensures e.cleared <==> old(adj).Some? && (adj.None? || adj.value.system != old(adj).value.system)
      ensures Advertised(adj) != old(Advertised(adj)) ==> e.regen
      ensures !e.cleared && !addressesChanged && SaysTheSame(old(adj), adj) ==> !e.regen
      ensures Dropped(port, h) ==> e == Effects(None, {}, false, false)
    {
      hide Shakes; hide Shared; hide Useless;
      HeardShakes(port, adj, h, now);
      CommonIsShared(port, h);
      e := Effects(None, {}, false, false);
      if h.holding == 0 {
        return;
      }
      if h.system == port.self {
        return;
      }
      var common := port.levels * h.levels;
      if L1 in common && port.areas * h.areas == {} {
        common := common - {L1};
      }
      assert common == Common(port, h);
      if common == {} {
        return;
      }
      var held := Requests(h) && adj.Some? && adj.value.system == h.system && adj.value.state == Up && adj.value.source == h.source;
      if !held && h.echo == Another {
        if adj.Some? && adj.value.system == h.system {
          TearDown();
          e := e.(cleared := true, regen := true);
        }
        return;
      }
      var state := Init;
      if held || h.echo == Us {
        state := Up;
      }
      var prior, replaced := Replace(h);
      Refresh(h, held, state, common, now);
      var changed := prior.state != state || (state == Up && prior.levels != common);
      var ack := if Requests(h) then Some(Remaining(adj.value, now)) else None;
      var synced := {};
      if changed && state == Up {
        synced := set l | l in common && (prior.state != Up || l !in prior.levels);
      }
      if held {
        synced := common;
      }
      e := Effects(ack, synced, replaced, replaced || changed || (state == Up && (addressesChanged || adj.value.suppressed != prior.suppressed)));
    }

    /** The neighbour the hello comes from, in place of any other. */
    method Replace(h: Hello) returns (prior: Neighbor, replaced: bool)
      modifies `adj
      ensures prior == Base(old(adj), h) && adj == Some(prior)
      ensures replaced <==> old(adj).Some? && old(adj).value.system != h.system
    {
      replaced := adj.Some? && adj.value.system != h.system;
      if replaced {
        TearDown();
      }
      if adj.None? {
        adj := Some(Neighbor(h.system, h.source, Down, {}, 0, 0, false, false, false));
      }
      prior := adj.value;
    }

    /** What the hello says of the neighbour. */
    method Refresh(h: Hello, held: bool, state: State, common: set<Level>, now: nat)
      requires adj.Some?
      modifies `adj
      ensures adj == Some(Noted(old(adj).value, h, held, now).(source := h.source, levels := common, state := state))
    {
      var first := !adj.value.restartMode;
      adj := Some(adj.value.(source := h.source, restartCapable := h.restart.Some?,
                             suppressed := h.restart.Some? && h.restart.value.suppress, restartMode := Requests(h)));
      if !held {
        adj := Some(adj.value.(holding := h.holding, lastHeard := now));
      } else if first {
        adj := Some(adj.value.(lastHeard := now));
      }
      adj := Some(adj.value.(state := state, levels := common));
    }
  }

  /** One hello of a run, at its time. */
  datatype Arrival = Arrival(hello: Hello, now: nat)

  /** Hellos in order of time, from `from` on. */
  predicate InOrder(run: seq<Arrival>, from: nat) {
    forall i :: 0 <= i < |run| ==> from <= run[i].now && (i > 0 ==> run[i - 1].now <= run[i].now)
  }

  /** Every hello of the run asks for a restart and comes from the neighbour's own address; none clears the request. */
  predicate AllRequests(port: Port, run: seq<Arrival>, system: SystemId, source: nat) {
    forall i :: 0 <= i < |run| ==>
      Requests(run[i].hello) && run[i].hello.system == system && run[i].hello.source == source && !Dropped(port, run[i].hello)
  }

  function After(port: Port, adj: Option<Neighbor>, run: seq<Arrival>): Option<Neighbor> {
    if run == [] then adj
    else Heard(port, After(port, adj, run[..|run| - 1]), run[|run| - 1].hello, run[|run| - 1].now)
  }

  /**
   * The hold is bounded: through any run of requests, whatever else they carry, the adjacency stays Up, keeps the
   * holding time agreed before, and its expiry moves at most once, to the first request plus that holding time.
   */
  lemma {:induction false} HoldIsBounded(port: Port, n: Neighbor, run: seq<Arrival>)
    requires n.state == Up && AllRequests(port, run, n.system, n.source) && run != []
    ensures var m := After(port, Some(n), run);
            && m.Some? && m.value.state == Up && m.value.restartMode
            && m.value.system == n.system && m.value.source == n.source && m.value.holding == n.holding
            && m.value.lastHeard == (if n.restartMode then n.lastHeard else run[0].now)
            && Expiry(m.value) == (if n.restartMode then Expiry(n) else run[0].now + n.holding * SECOND)
    decreases |run|
  {
    if |run| > 1 {
      var init := run[..|run| - 1];
      assert init[0] == run[0];
      HoldIsBounded(port, n, init);
    } else {
      assert run[..0] == [];
    }
  }

  /** What the acknowledgement of the `i`-th request of a run says. */
  ghost function AckAt(port: Port, n: Neighbor, run: seq<Arrival>, i: nat): nat
    requires i < |run| && After(port, Some(n), run[..i + 1]).Some?
  {
    Remaining(After(port, Some(n), run[..i + 1]).value, run[i].now)
  }

  /** A promise never reaches past the expiry it is computed from. */
  lemma PromiseIsKept(n: Neighbor, now: nat)
    ensures Remaining(n, now) > 0 && n.lastHeard <= now ==> now + Remaining(n, now) * SECOND <= Expiry(n) && !Expired(n, now)
  {
  }

  /** With the expiry fixed, later promises are no longer. */
  lemma PromisesShrink(n: Neighbor, m: Neighbor, now: nat, later: nat)
    requires n.holding == m.holding && n.lastHeard == m.lastHeard && n.lastHeard <= now <= later
    ensures Remaining(m, later) <= Remaining(n, now)
  {
  }

  /** Acknowledged remaining times never increase along a run of requests, and none promises a time past the expiry. */
  lemma {:induction false} AcksNeverIncrease(port: Port, n: Neighbor, run: seq<Arrival>, i: nat, j: nat)
    requires n.state == Up && AllRequests(port, run, n.system, n.source) && InOrder(run, n.lastHeard)
    requires i <= j < |run|
    ensures After(port, Some(n), run[..i + 1]).Some? && After(port, Some(n), run[..j + 1]).Some?
    ensures AckAt(port, n, run, j) <= AckAt(port, n, run, i)
    ensures AckAt(port, n, run, j) > 0 ==>
              run[j].now + AckAt(port, n, run, j) * SECOND <= if n.restartMode then Expiry(n) else run[0].now + n.holding * SECOND
  {
    HoldIsBounded(port, n, run[..i + 1]);
    HoldIsBounded(port, n, run[..j + 1]);
    var a, b := After(port, Some(n), run[..i + 1]).value, After(port, Some(n), run[..j + 1]).value;
    Monotone(run, n.lastHeard, 0, i);
    Monotone(run, n.lastHeard, i, j);
    PromisesShrink(a, b, run[i].now, run[j].now);
    PromiseIsKept(b, run[j].now);
  }

  lemma {:induction false} Monotone(run: seq<Arrival>, from: nat, i: nat, j: nat)
    requires InOrder(run, from) && i <= j < |run|
    ensures run[i].now <= run[j].now
    decreases j - i
  {
    if i < j { Monotone(run, from, i, j - 1); }
  }

  /** An adjacency is Up only to a system one of whose hellos in the run echoed us, unless it was Up to it from the start. */
  lemma {:induction false} UpWasEchoed(port: Port, adj: Option<Neighbor>, run: seq<Arrival>)
    requires After(port, adj, run).Some? && After(port, adj, run).value.state == Up
    requires !(adj.Some? && adj.value.state == Up && adj.value.system == After(port, adj, run).value.system)
    ensures exists i :: 0 <= i < |run| && run[i].hello.echo == Us && run[i].hello.system == After(port, adj, run).value.system
    decreases |run|
  {
    var init, last := run[..|run| - 1], run[|run| - 1];
    HeardShakes(port, After(port, adj, init), last.hello, last.now);
    var was, next := After(port, adj, init), After(port, adj, run);
    if last.hello.echo != Us || last.hello.system != next.value.system || Useless(port, last.hello) {
      assert was.Some? && was.value.state == Up && was.value.system == next.value.system;
      UpWasEchoed(port, adj, init);
      var i :| 0 <= i < |init| && init[i].hello.echo == Us && init[i].hello.system == was.value.system;
      assert run[i] == init[i];
    }
  }

  /** After a hello that covers no restart, the adjacency to its sender is not expired for the hello's holding time, and is from then on. */
  lemma HeardLasts(port: Port, adj: Option<Neighbor>, h: Hello, now: nat, later: nat)
    requires !Useless(port, h) && !Covers(adj, h) && h.echo != Another && now <= later
    ensures var n := Heard(port, adj, h, now);
      n.Some? && n.value.system == h.system && (Expired(n.value, later) <==> later > now + h.holding * SECOND)
  {
    HeardShakes(port, adj, h, now);
  }

  /** What is acknowledged is the time left, in whole seconds. */
  lemma AckIsTimeLeft(n: Neighbor, now: nat)
    requires n.lastHeard <= now && !Expired(n, now)
    ensures now + Remaining(n, now) * SECOND <= Expiry(n) < now + (Remaining(n, now) + 1) * SECOND
  {
  }
}
