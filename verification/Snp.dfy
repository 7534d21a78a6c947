/** Sequence-number PDUs: LSP identifiers as octet strings, and the comparison a receiver makes entry by entry. */
module Snp {
  import opened Types

  // ---------- LSP identifiers ----------

  /** An octet string read as a big-endian number. */
  function Value(o: seq<Octet>): nat {
    if o == [] then 0 else Value(o[..|o| - 1]) * 256 + o[|o| - 1]
  }

  function Power256(n: nat): nat {
    if n == 0 then 1 else 256 * Power256(n - 1)
  }

  lemma {:induction false} ValueBound(o: seq<Octet>)
    ensures Value(o) < Power256(|o|)
  {
    if o != [] { ValueBound(o[..|o| - 1]); }
  }

  /** Octet by octet, most significant first, as `bytes.Compare` orders strings of one length. */
  predicate Before(a: seq<Octet>, b: seq<Octet>)
    requires |a| == |b|
  {
    a != [] && (a[0] < b[0] || (a[0] == b[0] && Before(a[1..], b[1..])))
  }

  lemma {:induction false} ValueFromFront(o: seq<Octet>)
    requires o != []
    ensures Value(o) == o[0] * Power256(|o| - 1) + Value(o[1..])
  {
    if |o| > 1 {
      var init, last := o[..|o| - 1], o[|o| - 1];
      ValueFromFront(init);
      assert init[1..] == o[1..][..|o| - 2];
      assert Power256(|o| - 1) == 256 * Power256(|o| - 2);
      assert (o[0] * Power256(|o| - 2)) * 256 == o[0] * Power256(|o| - 1);
    } else {
      assert o[..0] == [] && o[1..] == [];
    }
  }

  /** Comparing octet strings is comparing the numbers they stand for. */
  lemma {:induction false} BeforeIsLess(a: seq<Octet>, b: seq<Octet>)
    requires |a| == |b|
    ensures Before(a, b) <==> Value(a) < Value(b)
  {
    if a != [] {
      ValueFromFront(a);
      ValueFromFront(b);
      BeforeIsLess(a[1..], b[1..]);
      ValueBound(a[1..]);
      ValueBound(b[1..]);
      LeadingDigit(a[0], b[0], Power256(|a| - 1), Value(a[1..]), Value(b[1..]));
    }
  }

  lemma LeadingDigit(x: nat, y: nat, p: nat, u: nat, v: nat)
    requires u < p && v < p
    ensures x * p + u < y * p + v <==> x < y || (x == y && u < v)
  {
    if x < y {
      Gap(x, y, p);
    } else if y < x {
      Gap(y, x, p);
    }
  }

  lemma {:induction false} Gap(x: nat, y: nat, p: nat)
    requires x < y
    ensures x * p + p <= y * p
    decreases y
  {
    assert y * p == (y - 1) * p + p;
    if x < y - 1 { Gap(x, y - 1, p); }
  }

  /** The identifier after `id`: add one, carrying from the last octet towards the first. */
  method NextLspId(id: seq<Octet>) returns (next: seq<Octet>)
    ensures |next| == |id|
    ensures Value(id) + 1 < Power256(|id|) ==> Value(next) == Value(id) + 1
    ensures Value(id) + 1 == Power256(|id|) ==> Value(next) == 0
  {
    next := id;
    var i := |id|;
    while i > 0
      invariant 0 <= i <= |id| == |next|
      invariant next[..i] == id[..i]
      invariant forall k :: i <= k < |id| ==> id[k] == 255 && next[k] == 0
    {
      i := i - 1;
      next := next[i := (next[i] as int + 1) % 256];
      if next[i] != 0 {
        Carried(id, next, i);
        ValueBound(next);
        return;
      }
    }
    AllOnes(id, next);
  }

  /** A carry that stops at `i`: the octets behind it turn over from 255 to 0. */
  lemma {:induction false} Carried(id: seq<Octet>, next: seq<Octet>, i: nat)
    requires |id| == |next| && i < |id| && next[i] as int == id[i] as int + 1 && next[..i] == id[..i]
    requires forall k :: i < k < |id| ==> id[k] == 255 && next[k] == 0
    ensures Value(next) == Value(id) + 1
  {
    var n := |id| - 1;
    if i < n {
      assert id[..n][..i] == id[..i] == next[..i] == next[..n][..i];
      Carried(id[..n], next[..n], i);
    } else {
      assert id[..n] == next[..n];
    }
  }

  lemma {:induction false} AllOnes(id: seq<Octet>, next: seq<Octet>)
    requires |id| == |next| && forall k :: 0 <= k < |id| ==> id[k] == 255 && next[k] == 0
    ensures Value(id) + 1 == Power256(|id|) && Value(next) == 0
  {
    if id != [] { AllOnes(id[..|id| - 1], next[..|id| - 1]); }
  }

  // ---------- Comparing one entry ----------

  /** An LSP identifier as a number: eight octets. */
  type Id = n: nat | n < 0x1_0000_0000_0000_0000

  /** What a database or a sequence-number PDU says of an LSP at one instant. */
  datatype Summary = Summary(seqno: nat, remaining: nat, checksum: nat)

  /** The candidate supersedes what is held: a higher number, or at the same number a purge against a live copy. */
  predicate Newer(cand: Summary, held: Option<Summary>) {
    match held
    case None => true
    case Some(h) =>
      if cand.seqno != h.seqno then cand.seqno > h.seqno
      else cand.remaining == 0 && h.remaining != 0
  }

  /** The same number on two live copies with different contents. */
  predicate Conflicts(a: Summary, b: Summary) {
    a.seqno == b.seqno && a.remaining != 0 && b.remaining != 0 && a.checksum != b.checksum
  }

  /** The two flooding flags of one LSP on one circuit: to be sent, to be reported or requested. */
  datatype Flags = Flags(srm: bool, ssn: bool)

  /** What one listed entry does to the flags of its LSP. */
  function Listed(f: Flags, local: Option<Summary>, e: Summary): Flags {
    if Newer(e, local) then f.(ssn := true)
    else if local.value.seqno > e.seqno || Conflicts(local.value, e) then f.(srm := true)
    else f.(srm := false)
  }

  /** What a complete exchange should come to for one LSP, given both databases. */
  function Reconciled(local: Option<Summary>, remote: Option<Summary>): Flags {
    match (local, remote)
    case (None, None) => Flags(false, false)
    case (Some(_), None) => Flags(true, false)
    case (None, Some(_)) => Flags(false, true)
    case (Some(l), Some(r)) => Flags(l.seqno > r.seqno || Conflicts(l, r), Newer(r, local))
  }

  lemma ListedReconciles(local: Option<Summary>, e: Summary)
    ensures Listed(Flags(false, false), local, e) == Reconciled(local, Some(e))
    ensures Listed(Reconciled(local, Some(e)), local, e) == Reconciled(local, Some(e))
  {
  }

  /** The order in which copies supersede each other: the number first, then a purge above a live copy. */
  function Rank(s: Summary): nat {
    2 * s.seqno + if s.remaining == 0 then 1 else 0
  }

  /**
   * In the terms of that order: what ranks higher at the other side is requested; what ranks higher here is sent, and
   * so is a conflicting copy, except a purge against a live copy at its own number, which is neither sent nor asked for.
   */
  lemma ReconciledByRank(l: Summary, r: Summary)
    ensures Reconciled(Some(l), Some(r)).ssn <==> Rank(r) > Rank(l)
    ensures Reconciled(Some(l), Some(r)).srm <==>
              Conflicts(l, r) || (Rank(l) > Rank(r) && !(l.seqno == r.seqno && l.remaining == 0 && r.remaining != 0))
  {
  }

  /** The purge at number 7 that a live copy at 7 hides. */
  lemma PurgeIsNotSent()
    ensures var purge, live := Summary(7, 0, 0), Summary(7, 900, 0x1234);
      Rank(purge) > Rank(live) && Reconciled(Some(purge), Some(live)) == Flags(false, false)
  {
  }
}
