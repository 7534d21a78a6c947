/**
 * The window in which a short remaining lifetime is not reported as corrupt (section 3.2 of RFC 7987), and the
 * budget that bounds how long database exchanges may hold that window open on one adjacency.
 */
module SyncBudget {
  import opened Types

  /** Times and durations are in nanoseconds. */
  const WINDOW: nat := 60 * SECOND            // ZeroAgeLifetime
  const MAX_SUPPRESSION: nat := 5 * WINDOW
  const REFILL_DIVISOR: nat := 10

  /** What an adjacency remembers: when the window opened, what has been charged, when the refill was last taken. */
  datatype Budget = Budget(since: nat, spent: nat, charged: nat)

  function Fresh(now: nat): Budget {
    Budget(now, 0, now)
  }

  function Refilled(b: Budget, now: nat): Budget {
    if now <= b.charged then b
    else b.(charged := now, spent := Max(0, b.spent - (now - b.charged) / REFILL_DIVISOR))
  }

  function Opened(b: Budget, now: nat): Budget {
    var r := Refilled(b, now);
    if now <= r.since || r.spent >= MAX_SUPPRESSION then r
    else r.(spent := r.spent + Min(now - r.since, WINDOW), since := now)
  }

  /** The symptom is reported only once the exchange is a window old. */
  predicate CorruptLifetime(b: Budget, remaining: nat, now: nat) {
    0 < remaining < 60 && now - b.since >= WINDOW
  }

  class Adjacency {
    var upSince: nat
    var syncSince: nat
    var syncSpent: nat
    var syncCharged: nat

    function Value(): Budget
      reads this
    {
      Budget(syncSince, syncSpent, syncCharged)
    }

    /** The adjacency comes Up: a fresh episode, with the bound ahead of it whatever exchanges follow. */
    method ResetSyncWindow(now: nat)
      modifies this
      ensures upSince == now && Value() == Budget(now, 0, now) && Value() == Fresh(now) && Sound(Value(), now)
    {
      upSince, syncSince, syncSpent, syncCharged := now, now, 0, now;
    }

    method RefillSyncBudget(now: nat)
      modifies `syncSpent, `syncCharged
      ensures Value() == Refilled(old(Value()), now)
    {
      var elapsed := now - syncCharged;
      if elapsed <= 0 {
        return;
      }
      syncCharged := now;
      var left := syncSpent - elapsed / REFILL_DIVISOR;
      if left < 0 {
        left := 0;
      }
      syncSpent := left;
    }

    method OpenSyncWindow(now: nat)
      modifies `syncSince, `syncSpent, `syncCharged
      ensures Value() == Opened(old(Value()), now)
    {
      RefillSyncBudget(now);
      var add := now - syncSince;
      if add <= 0 {
        return;
      }
      if syncSpent >= MAX_SUPPRESSION {
        return;
      }
      syncSpent := syncSpent + Min(add, WINDOW);
      syncSince := now;
    }
  }

  /**
   * An exchange opens the window again unless the charges outstanding, less a tenth of the time since they were last
   * counted, come to five minutes; it is charged the time since the window last opened, a minute at most.
   */
  lemma ExchangeReopens(b: Budget, now: nat, remaining: nat, t: nat)
    requires b.since < now <= t && b.charged <= now
    ensures var owed := Max(0, b.spent - (now - b.charged) / 10); var c := Opened(b, now);
            if owed < 300 * SECOND then
              && c.spent == owed + Min(now - b.since, 60 * SECOND)
              && (CorruptLifetime(c, remaining, t) <==> 1 <= remaining <= 59 && t >= now + 60 * SECOND)
            else
              && c.spent == owed
              && (CorruptLifetime(c, remaining, t) <==> 1 <= remaining <= 59 && t >= b.since + 60 * SECOND)
  {
    if b.charged == now {
      assert (now - b.charged) / 10 == 0;
    }
  }

  /** The instants of a run of exchanges, in order and not before `from`. */
  predicate InOrder(calls: seq<nat>, from: nat) {
    calls == [] || (from <= calls[0] && InOrder(calls[1..], calls[0]))
  }

  /** The budget in force at time `t`, once the calls up to `t` have been made. */
  function At(b: Budget, calls: seq<nat>, t: nat): Budget
    decreases |calls|
  {
    if calls == [] || t < calls[0] then b else At(Opened(b, calls[0]), calls[1..], t)
  }

  /** No short lifetime would be reported at `t`. */
  ghost predicate Suppressed(b: Budget, calls: seq<nat>, t: nat) {
    forall remaining :: !CorruptLifetime(At(b, calls, t), remaining, t)
  }

  /** How many instants of [lo, hi) are suppressed. */
  ghost function Count(b: Budget, calls: seq<nat>, lo: nat, hi: nat): nat
    decreases hi - lo
  {
    if lo >= hi then 0 else (if Suppressed(b, calls, lo) then 1 else 0) + Count(b, calls, lo + 1, hi)
  }

  /** The part of the open window that has passed by `t`. */
  function Used(b: Budget, t: nat): nat
    requires b.since <= t
  {
    Min(t - b.since, WINDOW)
  }

  lemma SuppressedIsYoung(b: Budget, calls: seq<nat>, t: nat)
    ensures Suppressed(b, calls, t) <==> t - At(b, calls, t).since < WINDOW
  {
    assert CorruptLifetime(At(b, calls, t), 1, t) <==> t - At(b, calls, t).since >= WINDOW;
  }

  lemma {:induction false} CountSplits(b: Budget, calls: seq<nat>, lo: nat, mid: nat, hi: nat)
    requires lo <= mid <= hi
    ensures Count(b, calls, lo, hi) == Count(b, calls, lo, mid) + Count(b, calls, mid, hi)
    decreases mid - lo
  {
    if lo < mid { CountSplits(b, calls, lo + 1, mid, hi); }
  }

  /** Before the next call, suppression is the open window running out. */
  lemma {:induction false} CountWindow(b: Budget, calls: seq<nat>, lo: nat, hi: nat)
    requires b.since <= lo <= hi && (calls == [] || hi <= calls[0])
    ensures Count(b, calls, lo, hi) == Used(b, hi) - Used(b, lo)
    decreases hi - lo
  {
    if lo < hi {
      SuppressedIsYoung(b, calls, lo);
      CountWindow(b, calls, lo + 1, hi);
    }
  }

  /** From the first call on, it may be counted as made. */
  lemma {:induction false} CountPastCall(b: Budget, calls: seq<nat>, lo: nat, hi: nat)
    requires calls != [] && calls[0] <= lo
    ensures Count(b, calls, lo, hi) == Count(Opened(b, calls[0]), calls[1..], lo, hi)
    decreases hi - lo
  {
    if lo < hi {
      SuppressedIsYoung(b, calls, lo);
      SuppressedIsYoung(Opened(b, calls[0]), calls[1..], lo);
      CountPastCall(b, calls, lo + 1, hi);
    }
  }

  /** What holds of a budget at time `t` within one Up episode. */
  predicate Sound(b: Budget, t: nat) {
    b.since <= t && b.charged <= t && b.spent <= MAX_SUPPRESSION + WINDOW
  }

  lemma OpenedIsSound(b: Budget, from: nat, now: nat)
    requires Sound(b, from) && from <= now
    ensures Sound(Opened(b, now), now)
    ensures Opened(b, now).charged == now
  {
  }

  /** No charge made before `hi` takes the spent budget past `cap`. */
  predicate StaysWithin(b: Budget, calls: seq<nat>, hi: nat, cap: nat)
    decreases |calls|
  {
    b.spent <= cap && (calls != [] && calls[0] < hi ==> StaysWithin(Opened(b, calls[0]), calls[1..], hi, cap))
  }

  /** Suppressed time is charged when a window is reopened, and charges come back only at the refill rate. */
  lemma {:induction false} Accounting(b: Budget, calls: seq<nat>, lo: nat, hi: nat, cap: nat)
    requires Sound(b, lo) && InOrder(calls, lo) && lo <= hi && StaysWithin(b, calls, hi, cap)
    ensures REFILL_DIVISOR * (Count(b, calls, lo, hi) + Used(b, lo) + b.spent)
            <= REFILL_DIVISOR * (cap + WINDOW) + (hi - b.charged)
    decreases |calls|
  {
    if calls == [] || hi <= calls[0] {
      CountWindow(b, calls, lo, hi);
    } else {
      var c := calls[0];
      CountSplits(b, calls, lo, c, hi);
      CountWindow(b, calls, lo, c);
      CountPastCall(b, calls, c, hi);
      OpenedIsSound(b, lo, c);
      Accounting(Opened(b, c), calls[1..], c, hi, cap);
    }
  }

  /** The bound for any cap the charges stay within. */
  lemma SuppressionWithin(b: Budget, calls: seq<nat>, lo: nat, hi: nat, cap: nat)
    requires Sound(b, lo) && InOrder(calls, lo) && lo <= hi && StaysWithin(b, calls, hi, cap)
    ensures REFILL_DIVISOR * Count(b, calls, lo, hi) <= (hi - lo) + REFILL_DIVISOR * (cap + WINDOW)
  {
    if calls == [] || hi <= calls[0] {
      CountWindow(b, calls, lo, hi);
    } else {
      var c := calls[0];
      CountSplits(b, calls, lo, c, hi);
      CountWindow(b, calls, lo, c);
      CountPastCall(b, calls, c, hi);
      OpenedIsSound(b, lo, c);
      Accounting(Opened(b, c), calls[1..], c, hi, cap);
    }
  }

  /** A charge takes it past the budget by less than a window. */
  lemma {:induction false} NeverFarPast(b: Budget, calls: seq<nat>, from: nat, hi: nat)
    requires Sound(b, from) && InOrder(calls, from)
    ensures StaysWithin(b, calls, hi, MAX_SUPPRESSION + WINDOW)
    decreases |calls|
  {
    if calls != [] {
      OpenedIsSound(b, from, calls[0]);
      NeverFarPast(Opened(b, calls[0]), calls[1..], calls[0], hi);
    }
  }

  /**
   * Over any interval of an Up episode and any exchanges in it, the report is suppressed for at most a tenth of the
   * interval, plus the budget, plus two windows; one window suffices when no charge takes the budget past its limit.
   */
  lemma SuppressionIsBounded(b: Budget, calls: seq<nat>, lo: nat, hi: nat)
    requires Sound(b, lo) && InOrder(calls, lo) && lo <= hi
    ensures REFILL_DIVISOR * Count(b, calls, lo, hi) <= (hi - lo) + REFILL_DIVISOR * (MAX_SUPPRESSION + 2 * WINDOW)
    ensures StaysWithin(b, calls, hi, MAX_SUPPRESSION) ==>
              REFILL_DIVISOR * Count(b, calls, lo, hi) <= (hi - lo) + REFILL_DIVISOR * (MAX_SUPPRESSION + WINDOW)
  {
    NeverFarPast(b, calls, lo, hi);
    SuppressionWithin(b, calls, lo, hi, MAX_SUPPRESSION + WINDOW);
    if StaysWithin(b, calls, hi, MAX_SUPPRESSION) {
      SuppressionWithin(b, calls, lo, hi, MAX_SUPPRESSION);
    }
  }

  /** The bound at any point of an Up episode, counted from where it began. */
  lemma {:induction false} EpisodeIsBounded(b: Budget, calls: seq<nat>, from: nat, lo: nat, hi: nat)
    requires Sound(b, from) && InOrder(calls, from) && from <= lo <= hi
    ensures REFILL_DIVISOR * Count(b, calls, lo, hi) <= (hi - lo) + REFILL_DIVISOR * (MAX_SUPPRESSION + 2 * WINDOW)
    decreases |calls|
  {
    if calls != [] && calls[0] <= lo {
      CountPastCall(b, calls, lo, hi);
      OpenedIsSound(b, from, calls[0]);
      EpisodeIsBounded(Opened(b, calls[0]), calls[1..], calls[0], lo, hi);
    } else {
      SuppressionIsBounded(b, calls, lo, hi);
    }
  }

  /** A run inside one Up episode keeps the budget sound, so the bound holds from any point of it. */
  lemma {:induction false} RunIsSound(now: nat, b: Budget, calls: seq<nat>, t: nat)
    requires Sound(b, now) && InOrder(calls, now) && now <= t
    ensures Sound(At(b, calls, t), t)
    decreases |calls|
  {
    if calls != [] && calls[0] <= t {
      OpenedIsSound(b, now, calls[0]);
      RunIsSound(calls[0], Opened(b, calls[0]), calls[1..], t);
    }
  }

  /** An adjacency that comes Up starts a fresh episode, and the bound holds all through it. */
  lemma UpIsBounded(up: nat, calls: seq<nat>, lo: nat, hi: nat)
    requires InOrder(calls, up) && up <= lo <= hi
    ensures REFILL_DIVISOR * Count(Fresh(up), calls, lo, hi) <= (hi - lo) + REFILL_DIVISOR * (MAX_SUPPRESSION + 2 * WINDOW)
  {
    EpisodeIsBounded(Fresh(up), calls, up, lo, hi);
  }

  lemma {:induction false} CountAll(b: Budget, calls: seq<nat>, lo: nat, hi: nat)
    requires lo <= hi && forall t :: lo <= t < hi ==> Suppressed(b, calls, t)
    ensures Count(b, calls, lo, hi) == hi - lo
    decreases hi - lo
  {
    if lo < hi { CountAll(b, calls, lo + 1, hi); }
  }

  /** One exchange a minute, from the `k`-th minute to the sixth. */
  function Minutes(k: nat): seq<nat>
    requires k <= 7
    decreases 7 - k
  {
    if k == 7 then [] else [k * WINDOW] + Minutes(k + 1)
  }

  /** The budget once the exchange of minute `k` has been made: each minute charges 60 s and gives back 6 s. */
  function AfterMinute(k: nat): Budget
    requires k <= 6
  {
    Budget(k * WINDOW, (if k == 0 then 0 else 60 + (k - 1) * 54) * SECOND, k * WINDOW)
  }

  lemma {:induction false} EveryMinuteReopens(k: nat, t: nat)
    requires k < 6 && k * WINDOW <= t < 7 * WINDOW
    ensures Suppressed(AfterMinute(k), Minutes(k + 1), t) && InOrder(Minutes(k + 1), k * WINDOW)
    decreases 6 - k
  {
    assert Opened(AfterMinute(k), (k + 1) * WINDOW) == AfterMinute(k + 1);
    assert Minutes(k + 1)[1..] == Minutes(k + 2);
    SuppressedIsYoung(AfterMinute(k), Minutes(k + 1), t);
    SuppressedIsYoung(AfterMinute(k + 1), Minutes(k + 2), t);
    if k < 5 {
      EveryMinuteReopens(k + 1, Max(t, (k + 1) * WINDOW));
    } else {
      assert Minutes(7) == [];
    }
  }

  /** A bound with a single window, as the comment on the refill rate states it, does not hold. */
  lemma OneWindowIsNotEnough()
    ensures InOrder(Minutes(1), 0)
    ensures REFILL_DIVISOR * Count(Fresh(0), Minutes(1), 0, 7 * WINDOW)
            > 7 * WINDOW + REFILL_DIVISOR * (MAX_SUPPRESSION + WINDOW)
  {
    EveryMinuteReopens(0, 0);
    forall t | 0 <= t < 7 * WINDOW
      ensures Suppressed(Fresh(0), Minutes(1), t)
    {
      EveryMinuteReopens(0, t);
    }
    CountAll(Fresh(0), Minutes(1), 0, 7 * WINDOW);
  }
}
