/** Programming the forwarding table: keeping it in step with the RIB when individual writes fail. */
module Fib {
  import opened Types

  /** A resolved next hop: egress interface and gateway. */
  datatype NextHop = NextHop(iface: nat, gateway: nat)

  datatype RouteInfo = RouteInfo(metric: nat, level: Level, preference: nat, algo: nat, nextHops: seq<NextHop>)

  type Rib = map<Prefix, RouteInfo>

  /** A notification to watchers: the route now chosen for a prefix, or its withdrawal. */
  datatype Event = Chosen(prefix: Prefix, route: RouteInfo) | Withdrawn(prefix: Prefix)

  /** Whether a recomputed route needs neither a notification nor a write; level and preference do not count. */
  predicate SameRoute(a: RouteInfo, b: RouteInfo) {
    a.metric == b.metric && a.algo == b.algo && a.nextHops == b.nextHops
  }

  /** What a subscriber that applies events in order ends up with. */
  function Replay(rib: Rib, events: seq<Event>): Rib
    decreases |events|
  {
    if events == [] then rib
    else
      match events[0]
      case Chosen(p, r) => Replay(rib[p := r], events[1..])
      case Withdrawn(p) => Replay(rib - {p}, events[1..])
  }

  /** Two routes that differ at most in level and preference. */
  ghost predicate Alike(a: RouteInfo, b: RouteInfo) {
    a == b.(level := a.level, preference := a.preference)
  }

  /** The same prefixes, with routes that differ at most in level and preference. */
  ghost predicate SameUpToLabels(a: Rib, b: Rib) {
    a.Keys == b.Keys && forall p :: p in a ==> Alike(a[p], b[p])
  }

  /** News when `next` replaces `rib`: a route that was not there like that, or one that is gone. */
  ghost predicate IsNews(rib: Rib, next: Rib, e: Event) {
    match e
    case Chosen(p, r) => p in next && r == next[p] && !(p in rib && Alike(rib[p], r))
    case Withdrawn(p) => p in rib && p !in next
  }

  /** Nothing but news, all of it about prefixes of `done`, and of each prefix once. */
  ghost predicate OnlyNews(rib: Rib, next: Rib, sent: seq<Event>, done: set<Prefix>) {
    && (forall i :: 0 <= i < |sent| ==> IsNews(rib, next, sent[i]) && sent[i].prefix in done)
    && forall i, j :: 0 <= i < j < |sent| ==> sent[i].prefix != sent[j].prefix
  }

  lemma MoreNews(rib: Rib, next: Rib, sent: seq<Event>, done: set<Prefix>, e: Event)
    requires OnlyNews(rib, next, sent, done) && e.prefix !in done && IsNews(rib, next, e)
    ensures OnlyNews(rib, next, sent + [e], done + {e.prefix})
  {
  }

  lemma StillNews(rib: Rib, next: Rib, sent: seq<Event>, done: set<Prefix>, p: Prefix)
    requires OnlyNews(rib, next, sent, done)
    ensures OnlyNews(rib, next, sent, done + {p})
  {
  }

  lemma ChangeIsNews(rib: Rib, next: Rib, p: Prefix)
    ensures p in next && !(p in rib && SameRoute(rib[p], next[p])) ==> IsNews(rib, next, Chosen(p, next[p]))
    ensures p in rib && p !in next ==> IsNews(rib, next, Withdrawn(p))
  {
  }

  lemma NoChangeNoNews(rib: Rib, sent: seq<Event>)
    requires OnlyNews(rib, rib, sent, rib.Keys + rib.Keys)
    ensures sent == []
  {
    assert sent != [] ==> IsNews(rib, rib, sent[0]);
  }

  lemma NewsOfBoth(rib: Rib, next: Rib, first: seq<Event>, second: seq<Event>, done: set<Prefix>, more: set<Prefix>)
    requires OnlyNews(rib, next, first, done) && OnlyNews(rib, next, second, more) && done !! more
    ensures OnlyNews(rib, next, first + second, done + more)
  {
  }

  /** Writes that the forwarding plane rejects in one call. */
  datatype Faults = Faults(update: set<Prefix>, withdraw: set<Prefix>)

  /** Everything the router and the forwarding plane hold about one prefix. */
  datatype Cell = Cell(route: Option<RouteInfo>, installed: bool, pending: bool, forwarded: Option<seq<NextHop>>)

  /** What programming does to one prefix: `next` is its new route, `accepted` what the policy says of it. */
  function Programmed(c: Cell, next: Option<RouteInfo>, accepted: bool, updateFails: bool, withdrawFails: bool): Cell {
    var removed := if c.installed && !withdrawFails then None else c.forwarded;
    match next
    case None =>
      if c.route.None? then c else Cell(None, false, false, removed)
    case Some(r) =>
      if !accepted then Cell(next, false, false, removed)
      else if c.route.Some? && SameRoute(c.route.value, r) && c.installed && !c.pending then c.(route := next)
      else if updateFails then Cell(next, c.installed, true, c.forwarded)
      else Cell(next, true, false, Some(r.nextHops))
  }

  /** What must hold of a prefix between two calls, under the policy of the last one. */
  predicate Consistent(c: Cell, accepted: bool) {
    && (c.route.None? || !accepted ==> !c.installed && !c.pending)
    && (c.route.Some? && accepted ==> c.installed || c.pending)
    && (c.installed ==> c.forwarded.Some?)
    && (c.installed && !c.pending ==> c.forwarded == Some(c.route.value.nextHops))
  }

  /** The forwarding plane carries what the policy lets through of the route, and nothing else. */
  predicate Agrees(c: Cell, accepted: bool) {
    c.forwarded == if c.route.Some? && accepted then Some(c.route.value.nextHops) else None
  }

  /** A withdrawal is due: the prefix is installed and its route is gone or rejected. */
  predicate WithdrawalDue(c: Cell, next: Option<RouteInfo>, accepted: bool) {
    c.installed && (next.None? || !accepted)
  }

  /** Programming keeps every prefix consistent, whatever fails. */
  lemma ProgrammedIsConsistent(c: Cell, was: bool, next: Option<RouteInfo>, accepted: bool, updateFails: bool, withdrawFails: bool)
    requires Consistent(c, was)
    ensures Consistent(Programmed(c, next, accepted, updateFails, withdrawFails), accepted)
  {
  }

  /** A route the forwarding plane is to carry and, as far as the router knows, does not carry already. */
  ghost predicate WriteDue(c: Cell, next: Option<RouteInfo>, accepted: bool) {
    next.Some? && accepted && !(c.route.Some? && Alike(c.route.value, next.value) && c.installed && !c.pending)
  }

  /** What a call makes of a prefix: what is written, what is taken out, and what stays to be retried. */
  lemma ProgrammedIs(c: Cell, was: bool, next: Option<RouteInfo>, accepted: bool, updateFails: bool, withdrawFails: bool)
    requires Consistent(c, was)
    ensures var c' := Programmed(c, next, accepted, updateFails, withdrawFails);
            && c'.route == next
            && (c'.pending <==> WriteDue(c, next, accepted) && updateFails)
            && (c'.installed <==> next.Some? && accepted && (c.installed || !updateFails))
            && c'.forwarded == (if WriteDue(c, next, accepted) && !updateFails then Some(next.value.nextHops)
                                else if c.installed && (next.None? || !accepted) && !withdrawFails then None
                                else c.forwarded)
  {
  }

  /** Something unwanted stays in the forwarding plane: no withdrawal is due on it, or the one that is due fails. */
  predicate Left(c: Cell, next: Option<RouteInfo>, accepted: bool, withdrawFails: bool) {
    c.forwarded.Some? && (next.None? || !accepted) && (c.installed ==> withdrawFails)
  }

  /** Whatever was left over before, a prefix not pending agrees with its route afterwards exactly when nothing is left. */
  lemma AgreesUnlessLeft(c: Cell, was: bool, next: Option<RouteInfo>, accepted: bool, updateFails: bool, withdrawFails: bool)
    requires Consistent(c, was)
    ensures var c' := Programmed(c, next, accepted, updateFails, withdrawFails);
            !c'.pending ==> (Agrees(c', accepted) <==> !Left(c, next, accepted, withdrawFails))
  {
  }

  /**
   * Starting with nothing left over, a prefix not pending agrees with its route afterwards exactly when no
   * withdrawal that was due on it failed.
   */
  lemma AgreesUnlessWithdrawFails(c: Cell, was: bool, next: Option<RouteInfo>, accepted: bool, updateFails: bool, withdrawFails: bool)
    requires Consistent(c, was) && (!c.installed ==> c.forwarded == None)
    ensures var c' := Programmed(c, next, accepted, updateFails, withdrawFails);
            && (!c'.pending ==> (Agrees(c', accepted) <==> !(WithdrawalDue(c, next, accepted) && withdrawFails)))
            && ((!c'.installed ==> c'.forwarded == None) <==> !(WithdrawalDue(c, next, accepted) && withdrawFails))
  {
  }

  /** The route itself is adopted in any case, and a prefix in neither table is left alone. */
  lemma ProgrammedRoute(c: Cell, next: Option<RouteInfo>, accepted: bool, updateFails: bool, withdrawFails: bool)
    ensures Programmed(c, next, accepted, updateFails, withdrawFails).route == next
    ensures c.route.None? && next.None? ==> Programmed(c, next, accepted, updateFails, withdrawFails) == c
  {
  }

  function Lookup<T>(m: map<Prefix, T>, p: Prefix): Option<T> {
    if p in m then Some(m[p]) else None
  }

  /** One event applied to a subscriber's copy. */
  function Applied(rib: Rib, e: Event): Rib {
    match e
    case Chosen(p, r) => rib[p := r]
    case Withdrawn(p) => rib - {p}
  }

  lemma {:induction false} ReplayOneMore(rib: Rib, events: seq<Event>, e: Event)
    ensures Replay(rib, events + [e]) == Applied(Replay(rib, events), e)
    decreases |events|
  {
    if events == [] {
      assert Replay(rib, [e]) == Replay(Applied(rib, e), [e][1..]);
    } else {
      assert (events + [e])[1..] == events[1..] + [e];
      ReplayOneMore(Applied(rib, events[0]), events[1..], e);
    }
  }

  /** A subscriber in step, up to labels, with the new table on the prefixes `done` and with the old one elsewhere. */
  ghost predicate InStep(copy: Rib, rib: Rib, next: Rib, done: set<Prefix>) {
    forall p :: InStepAt(copy, rib, next, done, p)
  }

  ghost predicate InStepAt(copy: Rib, rib: Rib, next: Rib, done: set<Prefix>, p: Prefix) {
    var want := if p in done then Lookup(next, p) else Lookup(rib, p);
    (p in copy <==> want.Some?) && (p in copy ==> SameRoute(copy[p], want.value))
  }

  /** One prefix brought up to date, with the event that announces it if one is due. */
  lemma InStepMore(copy: Rib, rib: Rib, next: Rib, done: set<Prefix>, p: Prefix)
    requires InStep(copy, rib, next, done) && p !in done
    ensures p in next && !(p in rib && SameRoute(rib[p], next[p])) ==> InStep(copy[p := next[p]], rib, next, done + {p})
    ensures p in next && p in rib && SameRoute(rib[p], next[p]) ==> InStep(copy, rib, next, done + {p})
    ensures p !in next ==> InStep(copy - {p}, rib, next, done + {p})
  {
    var same := p in next && p in rib && SameRoute(rib[p], next[p]);
    var copy' := if same then copy else if p in next then copy[p := next[p]] else copy - {p};
    assert InStepAt(copy, rib, next, done, p);
    forall q
      ensures InStepAt(copy', rib, next, done + {p}, q)
    {
      assert InStepAt(copy, rib, next, done, q);
    }
  }

  lemma GoneIsNews(copy: Rib, rib: Rib, next: Rib, sent: seq<Event>, gone: set<Prefix>, p: Prefix)
    requires InStep(Replay(copy, sent), rib, next, next.Keys + gone) && OnlyNews(rib, next, sent, gone)
    requires p in rib && p !in next && p !in gone
    ensures InStep(Replay(copy, sent + [Withdrawn(p)]), rib, next, next.Keys + (gone + {p}))
    ensures OnlyNews(rib, next, sent + [Withdrawn(p)], gone + {p})
  {
    hide InStep; hide Replay;
    InStepMore(Replay(copy, sent), rib, next, next.Keys + gone, p);
    ReplayOneMore(copy, sent, Withdrawn(p));
    assert next.Keys + gone + {p} == next.Keys + (gone + {p});
    MoreNews(rib, next, sent, gone, Withdrawn(p));
  }

  /** The part of a prefix's state that programming touches before the table itself is replaced. */
  function PlaneOf(c: Cell): (bool, bool, Option<seq<NextHop>>) {
    (c.installed, c.pending, c.forwarded)
  }

  lemma NothingDone(copy: Rib, rib: Rib, next: Rib)
    requires SameUpToLabels(copy, rib)
    ensures InStep(copy, rib, next, {})
  {
  }

  lemma AllDone(copy: Rib, rib: Rib, next: Rib)
    requires InStep(copy, rib, next, next.Keys + rib.Keys)
    ensures SameUpToLabels(copy, next)
  {
    forall p
      ensures p in copy <==> p in next
      ensures p in next ==> SameRoute(copy[p], next[p])
    {
      assert InStepAt(copy, rib, next, next.Keys + rib.Keys, p);
    }
  }

  /** Programming the same table again over a forwarding plane that accepts every write leaves nothing pending. */
  lemma RetrySettles(c: Cell, accepted: bool)
    requires Consistent(c, accepted)
    ensures var c' := Programmed(c, c.route, accepted, false, false);
            !c'.pending && Consistent(c', accepted) && (Agrees(c', accepted) <==> !Left(c, c.route, accepted, false))
  {
  }

  /** A route whose withdrawal was rejected is in the forwarding plane still, and no retry looks for it. */
  lemma RejectedWithdrawalStays()
    ensures var hops := [NextHop(1, 1)];
      var c := Cell(Some(RouteInfo(10, L1, 1, 0, hops)), true, false, Some(hops));
      var c' := Programmed(c, None, false, false, true);
      && Consistent(c, true) && Agrees(c, true) && !c'.pending && !Agrees(c', false)
      && Programmed(c', None, false, false, false) == c'
  {
  }

  class ForwardingTable {
    var rib: Rib
    var installed: set<Prefix>
    var pending: set<Prefix>
    var kernel: map<Prefix, seq<NextHop>>
    var events: seq<Event>

    function At(p: Prefix): Cell
      reads this
    {
      Cell(Lookup(rib, p), p in installed, p in pending, Lookup(kernel, p))
    }

    function Plane(p: Prefix): (bool, bool, Option<seq<NextHop>>)
      reads this
    {
      PlaneOf(At(p))
    }

    method Withdraw(p: Prefix, fails: bool)
      modifies `kernel
      ensures kernel == if fails then old(kernel) else old(kernel) - {p}
    {
      if !fails {
        kernel := kernel - {p};
      }
    }

    method Update(p: Prefix, nextHops: seq<NextHop>, fails: bool)
      modifies `kernel
      ensures kernel == if fails then old(kernel) else old(kernel)[p := nextHops]
    {
      if !fails {
        kernel := kernel[p := nextHops];
      }
    }

    /** Bring one route of the new table to the forwarding plane. */
    method ProgramOne(p: Prefix, r: RouteInfo, accepted: bool, faults: Faults)
      modifies `installed, `pending, `kernel, `events
      ensures var c := old(At(p)); var c' := Programmed(c, Some(r), accepted, p in faults.update, p in faults.withdraw);
              Plane(p) == PlaneOf(c')
      ensures forall q :: q != p ==> Plane(q) == old(Plane(q))
      ensures events == old(events) + if p in rib && SameRoute(rib[p], r) then [] else [Chosen(p, r)]
    {
      var changed := p !in rib || !SameRoute(rib[p], r);
      if changed {
        events := events + [Chosen(p, r)];
      }
      if !accepted {
        if p in installed {
          Withdraw(p, p in faults.withdraw);
          installed := installed - {p};
        }
        pending := pending - {p};
      } else if changed || p !in installed || p in pending {
        Update(p, r.nextHops, p in faults.update);
        if p in faults.update {
          pending := pending + {p};
        } else {
          pending := pending - {p};
          installed := installed + {p};
        }
      }
    }

    /** Take a route that is gone from the table out of the forwarding plane. */
    method WithdrawOne(p: Prefix, faults: Faults)
      requires p in rib
      modifies `installed, `pending, `kernel, `events
      ensures var c := old(At(p)); var c' := Programmed(c, None, false, p in faults.update, p in faults.withdraw);
              Plane(p) == PlaneOf(c')
      ensures forall q :: q != p ==> Plane(q) == old(Plane(q))
      ensures events == old(events) + [Withdrawn(p)]
    {
      events := events + [Withdrawn(p)];
      if p in installed {
        Withdraw(p, p in faults.withdraw);
        installed := installed - {p};
      }
      pending := pending - {p};
    }

    /** The policy's word on the new route of a prefix; a prefix without one is not accepted. */
    static function Accepted(next: Rib, policy: (Prefix, RouteInfo) -> bool, p: Prefix): bool {
      p in next && policy(p, next[p])
    }

    /** What programming `next` makes of the prefix. */
    static function Expected(c: Cell, next: Rib, policy: (Prefix, RouteInfo) -> bool, faults: Faults, p: Prefix): Cell {
      Programmed(c, Lookup(next, p), Accepted(next, policy, p), p in faults.update, p in faults.withdraw)
    }

    /** The first pass: every route of the new table, in any order. */
    method ProgramAll(next: Rib, policy: (Prefix, RouteInfo) -> bool, faults: Faults, ghost copy: Rib) returns (ghost sent: seq<Event>)
      requires InStep(copy, rib, next, {})
      modifies `installed, `pending, `kernel, `events
      ensures events == old(events) + sent && InStep(Replay(copy, sent), rib, next, next.Keys)
      ensures OnlyNews(rib, next, sent, next.Keys)
      ensures forall p :: p !in next ==> Plane(p) == old(Plane(p))
      ensures forall p :: p in next ==> Plane(p) == PlaneOf(Expected(old(At(p)), next, policy, faults, p))
    {
      sent := [];
      ghost var done: set<Prefix> := {};
      var todo := next.Keys;
      while todo != {}
        invariant todo <= next.Keys && done == next.Keys - todo
        invariant forall p :: p !in done ==> Plane(p) == old(Plane(p))
        invariant forall p :: p in done ==> Plane(p) == PlaneOf(Expected(old(At(p)), next, policy, faults, p))
        invariant events == old(events) + sent && InStep(Replay(copy, sent), rib, next, done)
        invariant OnlyNews(rib, next, sent, done)
      {
        hide Replay; hide InStep; hide SameRoute; hide Programmed; hide Alike; hide OnlyNews;
        var p :| p in todo;
        todo := todo - {p};
        ghost var before := sent;
        assert At(p) == old(At(p)) by { assert Plane(p) == old(Plane(p)); }
        ProgramOne(p, next[p], policy(p, next[p]), faults);
        InStepMore(Replay(copy, before), rib, next, done, p);
        if p in rib && SameRoute(rib[p], next[p]) {
          StillNews(rib, next, sent, done, p);
        } else {
          ReplayOneMore(copy, before, Chosen(p, next[p]));
          ChangeIsNews(rib, next, p);
          MoreNews(rib, next, before, done, Chosen(p, next[p]));
          sent := before + [Chosen(p, next[p])];
        }
        done := done + {p};
      }
      assert done == next.Keys;
    }

    /** The second pass: every route of the old table that the new one lacks, in any order. */
    method WithdrawGone(next: Rib, faults: Faults, ghost copy: Rib) returns (ghost sent: seq<Event>)
      requires InStep(copy, rib, next, next.Keys)
      modifies `installed, `pending, `kernel, `events
      ensures events == old(events) + sent && InStep(Replay(copy, sent), rib, next, next.Keys + rib.Keys)
      ensures OnlyNews(rib, next, sent, rib.Keys - next.Keys)
      ensures forall p :: p !in rib || p in next ==> Plane(p) == old(Plane(p))
      ensures forall p :: p in rib && p !in next ==>
        Plane(p) == PlaneOf(Programmed(old(At(p)), None, false, p in faults.update, p in faults.withdraw))
    {
      sent := [];
      ghost var gone: set<Prefix> := {};
      var todo := rib.Keys - next.Keys;
      assert next.Keys + gone == next.Keys;
      while todo != {}
        invariant gone + todo == rib.Keys - next.Keys && gone !! todo
        invariant forall p :: p !in gone ==> Plane(p) == old(Plane(p))
        invariant forall p :: p in gone ==>
          Plane(p) == PlaneOf(Programmed(old(At(p)), None, false, p in faults.update, p in faults.withdraw))
        invariant events == old(events) + sent && InStep(Replay(copy, sent), rib, next, next.Keys + gone)
        invariant OnlyNews(rib, next, sent, gone)
      {
        hide Replay; hide InStep; hide SameRoute; hide Programmed; hide OnlyNews; hide IsNews;
        var p :| p in todo;
        todo := todo - {p};
        assert At(p) == old(At(p)) by { assert Plane(p) == old(Plane(p)); }
        WithdrawOne(p, faults);
        GoneIsNews(copy, rib, next, sent, gone, p);
        sent := sent + [Withdrawn(p)];
        gone := gone + {p};
      }
      assert next.Keys + gone == next.Keys + rib.Keys;
    }

    /** Both passes over one difference. */
    method BothPasses(next: Rib, policy: (Prefix, RouteInfo) -> bool, faults: Faults, ghost copy: Rib) returns (ghost sent: seq<Event>)
      requires InStep(copy, rib, next, {})
      modifies `installed, `pending, `kernel, `events
      ensures events == old(events) + sent && InStep(Replay(copy, sent), rib, next, next.Keys + rib.Keys)
      ensures OnlyNews(rib, next, sent, next.Keys + rib.Keys)
      ensures forall p :: Plane(p) == PlaneOf(Expected(old(At(p)), next, policy, faults, p))
    {
      hide InStep; hide Replay; hide Programmed; hide Accepted; hide OnlyNews;
      ghost var first := ProgramAll(next, policy, faults, copy);
      label middle:
      ghost var second := WithdrawGone(next, faults, Replay(copy, first));
      ReplayTwice(copy, first, second);
      sent := first + second;
      NewsOfBoth(rib, next, first, second, next.Keys, rib.Keys - next.Keys);
      assert next.Keys + (rib.Keys - next.Keys) == next.Keys + rib.Keys;
      forall p
        ensures Plane(p) == PlaneOf(Expected(old(At(p)), next, policy, faults, p))
      {
        if p !in next {
          assert old@middle(Plane(p)) == old(Plane(p));
          assert old@middle(At(p)) == old(At(p));
          NotAccepted(next, policy, p);
          ProgrammedRoute(old(At(p)), None, false, p in faults.update, p in faults.withdraw);
        }
      }
    }

    static lemma NotAccepted(next: Rib, policy: (Prefix, RouteInfo) -> bool, p: Prefix)
      requires p !in next
      ensures !Accepted(next, policy, p)
    {
    }

    /**
     * Program the difference between the new table and the current one, then adopt the new table.  `faults`
     * says which writes the forwarding plane rejects, `copy` is any subscriber's view of the table so far.
     */
    method ProgramFib(next: Rib, policy: (Prefix, RouteInfo) -> bool, faults: Faults, ghost copy: Rib) returns (ghost sent: seq<Event>)
      requires SameUpToLabels(copy, rib)
      modifies this
      ensures rib == next
      ensures forall p :: At(p) == Expected(old(At(p)), next, policy, faults, p)
      ensures events == old(events) + sent && SameUpToLabels(Replay(copy, sent), next)
      ensures OnlyNews(old(rib), next, sent, next.Keys + old(rib).Keys)
    {
      hide InStep; hide Replay; hide Programmed; hide Accepted; hide OnlyNews; hide SameUpToLabels;
      NothingDone(copy, rib, next);
      sent := BothPasses(next, policy, faults, copy);
      AllDone(Replay(copy, sent), rib, next);
      label middle:
      rib := next;
      forall p
        ensures At(p) == Expected(old(At(p)), next, policy, faults, p)
      {
        assert Plane(p) == old@middle(Plane(p));
        ProgrammedRoute(old(At(p)), Lookup(next, p), Accepted(next, policy, p), p in faults.update, p in faults.withdraw);
      }
    }

    /** Every prefix is consistent under the policy. */
    ghost predicate Steady(policy: (Prefix, RouteInfo) -> bool)
      reads this
    {
      forall p :: Consistent(At(p), Accepted(rib, policy, p))
    }

    /** The prefixes of which a call with this table leaves something unwanted in the forwarding plane. */
    ghost predicate Leaves(next: Rib, policy: (Prefix, RouteInfo) -> bool, faults: Faults, p: Prefix)
      reads this
    {
      Left(At(p), Lookup(next, p), Accepted(next, policy, p), p in faults.withdraw)
    }

    /**
     * After a call the forwarding plane carries, of every prefix not pending, what the policy lets through of the new
     * table and nothing else, exactly where the call leaves nothing unwanted: what an earlier call left, or what a
     * withdrawal it had to make and that was rejected leaves now.
     */
    method Install(next: Rib, was: (Prefix, RouteInfo) -> bool, policy: (Prefix, RouteInfo) -> bool, faults: Faults)
      requires Steady(was)
      modifies this
      ensures rib == next && Steady(policy)
      ensures forall p :: p !in pending ==> (Agrees(At(p), Accepted(next, policy, p)) <==> !old(Leaves(next, policy, faults, p)))
    {
      hide Programmed; hide Agrees; hide Consistent; hide Left;
      ghost var sent := ProgramFib(next, policy, faults, rib);
      forall p
        ensures !At(p).pending ==> (Agrees(At(p), Accepted(next, policy, p)) <==> !old(Leaves(next, policy, faults, p)))
        ensures Consistent(At(p), Accepted(next, policy, p))
      {
        ghost var c := old(At(p));
        assert old(Consistent(At(p), Accepted(rib, was, p)));
        AgreesUnlessLeft(c, old(Accepted(rib, was, p)), Lookup(next, p), Accepted(next, policy, p), p in faults.update, p in faults.withdraw);
        ProgrammedIsConsistent(c, old(Accepted(rib, was, p)), Lookup(next, p), Accepted(next, policy, p), p in faults.update, p in faults.withdraw);
      }
    }

    /**
     * The periodic retry against a forwarding plane that works again: nothing pending, nothing announced, and agreement
     * exactly on the prefixes of which no failed withdrawal has left anything behind.
     */
    method Retry(policy: (Prefix, RouteInfo) -> bool)
      requires Steady(policy)
      modifies this
      ensures rib == old(rib) && events == old(events)
      ensures Steady(policy) && pending == {}
      ensures forall p :: Agrees(At(p), Accepted(rib, policy, p)) <==> !old(Leaves(rib, policy, Faults({}, {}), p))
    {
      hide Programmed; hide Agrees; hide Consistent; hide Left;
      ghost var sent := ProgramFib(rib, policy, Faults({}, {}), rib);
      NoChangeNoNews(rib, sent);
      forall p
        ensures p !in pending && Consistent(At(p), Accepted(rib, policy, p))
        ensures Agrees(At(p), Accepted(rib, policy, p)) <==> !old(Leaves(rib, policy, Faults({}, {}), p))
      {
        assert old(Consistent(At(p), Accepted(rib, policy, p)));
        RetrySettles(old(At(p)), Accepted(rib, policy, p));
      }
    }
  }

  lemma {:induction false} ReplayTwice(rib: Rib, first: seq<Event>, second: seq<Event>)
    ensures Replay(rib, first + second) == Replay(Replay(rib, first), second)
    decreases |first|
  {
    if first == [] {
      assert first + second == second;
    } else {
      assert (first + second)[1..] == first[1..] + second;
      ReplayTwice(Applied(rib, first[0]), first[1..], second);
    }
  }
}
