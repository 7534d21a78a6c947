/** Describing a whole database in complete sequence-number PDUs that each fit one frame, and reading them back. */
module Csnp {
  import opened Types
  import opened Snp

  const MAX_ENTRIES_PER_TLV: nat := 15
  const ENTRY_SIZE: nat := 16
  const CSNP_HEADER_LEN: nat := 33
  /** The longest Authentication TLV: header, type, key identifier and a SHA-512 digest. */
  const MAX_AUTH_LEN: nat := 69

  const LAST_ID: Id := 0xffff_ffff_ffff_ffff

  datatype Entry = Entry(id: Id, lsp: Summary)

  datatype Pdu = Pdu(start: Id, end: Id, tlvs: seq<seq<Entry>>)

  function Flat(tlvs: seq<seq<Entry>>): seq<Entry> {
    if tlvs == [] then [] else Flat(tlvs[..|tlvs| - 1]) + tlvs[|tlvs| - 1]
  }

  function TlvLen(chunk: seq<Entry>): nat {
    2 + ENTRY_SIZE * |chunk|
  }

  function AreaLen(tlvs: seq<seq<Entry>>): nat {
    if tlvs == [] then 0 else AreaLen(tlvs[..|tlvs| - 1]) + TlvLen(tlvs[|tlvs| - 1])
  }

  /** In octets: two for each TLV, sixteen for each entry. */
  lemma {:induction false} AreaIs(tlvs: seq<seq<Entry>>)
    ensures AreaLen(tlvs) == 2 * |tlvs| + 16 * |Flat(tlvs)|
  {
    if tlvs != [] { AreaIs(tlvs[..|tlvs| - 1]); }
  }

  predicate Sorted(entries: seq<Entry>) {
    forall i, j :: 0 <= i < j < |entries| ==> entries[i].id < entries[j].id
  }

  /** Groups of at most one TLV's worth, none empty, which in order make up the list. */
  method ChunkEntries(entries: seq<Entry>) returns (out: seq<seq<Entry>>)
    ensures Flat(out) == entries
    ensures forall c :: c in out ==> 0 < |c| <= MAX_ENTRIES_PER_TLV
    ensures forall k :: 0 <= k < |out| - 1 ==> |out[k]| == 15
  {
    out := [];
    var i := 0;
    while i < |entries|
      invariant 0 <= i <= |entries|
      invariant Flat(out) == entries[..i]
      invariant forall c :: c in out ==> 0 < |c| <= MAX_ENTRIES_PER_TLV
      invariant forall k :: 0 <= k < |out| - 1 ==> |out[k]| == 15
      invariant i < |entries| && out != [] ==> |out[|out| - 1]| == 15
    {
      var end := Min(i + MAX_ENTRIES_PER_TLV, |entries|);
      var grown := out + [entries[i..end]];
      assert grown[..|grown| - 1] == out;
      assert entries[..i] + entries[i..end] == entries[..end];
      out := grown;
      i := end;
    }
    assert entries[..i] == entries;
  }

  /** Where a range that starts with entry `i` begins: just past the entry before. */
  function StartOf(entries: seq<Entry>, i: nat): nat
    requires i <= |entries|
  {
    if i == 0 then 0 else entries[i - 1].id + 1
  }

  /** `pdu` describes the entries from `lo` to `hi`. */
  ghost predicate Holds(entries: seq<Entry>, pdu: Pdu, lo: nat, hi: nat) {
    lo <= hi <= |entries| && Flat(pdu.tlvs) == entries[lo..hi] && pdu.start == StartOf(entries, lo)
  }

  /** `pdu` describes the entries from `lo` to `hi`, at least one, ends at the last of them, and fits. */
  ghost predicate Stretch(entries: seq<Entry>, pdu: Pdu, lo: nat, hi: nat, budget: nat) {
    lo < hi && Holds(entries, pdu, lo, hi) && pdu.end == entries[hi - 1].id && AreaLen(pdu.tlvs) <= budget
  }

  /** The PDUs built so far describe consecutive stretches up to `cuts[|pdus|]`, each ending at its last entry. */
  ghost predicate Prefixes(entries: seq<Entry>, pdus: seq<Pdu>, cuts: seq<nat>, budget: nat) {
    && |cuts| == |pdus| + 1 && cuts[0] == 0
    && (forall k :: 0 <= k < |cuts| ==> cuts[k] <= |entries|)
    && (forall k :: 0 <= k < |pdus| ==> Stretch(entries, pdus[k], cuts[k], cuts[k + 1], budget))
  }

  /** The finished split: as above, but the last range runs to the end of the identifier space. */
  ghost predicate IsSplit(entries: seq<Entry>, pdus: seq<Pdu>, cuts: seq<nat>, budget: nat) {
    && |pdus| > 0 && |cuts| == |pdus| + 1
    && Prefixes(entries, pdus[..|pdus| - 1], cuts[..|pdus|], budget)
    && cuts[|pdus| - 1] <= cuts[|pdus|] == |entries|
    && (|pdus| > 1 ==> cuts[|pdus| - 1] < |entries|)
    && Holds(entries, pdus[|pdus| - 1], cuts[|pdus| - 1], |entries|)
    && pdus[|pdus| - 1].end == LAST_ID
    && AreaLen(pdus[|pdus| - 1].tlvs) <= budget
  }

  /** Octets left for entries in one PDU: the circuit's frame or the receive buffer, less header and authentication. */
  function Budget(mtu: nat, authLen: nat): int {
    Min(RECEIVE_BUFFER, mtu - 3) - CSNP_HEADER_LEN - authLen
  }

  /** The floor on circuit MTUs leaves room for one full TLV. */
  lemma BudgetTakesOneTlv(mtu: nat, authLen: nat)
    requires mtu - 3 >= MIN_LSP_MTU && authLen <= MAX_AUTH_LEN
    ensures Budget(mtu, authLen) >= 2 + ENTRY_SIZE * MAX_ENTRIES_PER_TLV
    ensures CSNP_HEADER_LEN + Budget(mtu, authLen) + authLen == Min(RECEIVE_BUFFER, mtu - 3)
  {
  }

  /** A PDU under construction: `tlvs` holds the entries since the last cut, up to `packed`. */
  ghost predicate Building(entries: seq<Entry>, pdus: seq<Pdu>, cuts: seq<nat>, budget: nat,
                           tlvs: seq<seq<Entry>>, size: nat, start: nat, last: nat, packed: nat)
  {
    && Prefixes(entries, pdus, cuts, budget)
    && cuts[|pdus|] <= packed <= |entries| && Flat(tlvs) == entries[cuts[|pdus|]..packed]
    && start == StartOf(entries, cuts[|pdus|])
    && size == AreaLen(tlvs) && size <= budget
    && (tlvs == [] <==> cuts[|pdus|] == packed) && (tlvs != [] ==> last == entries[packed - 1].id)
  }

  lemma Flushed(entries: seq<Entry>, pdus: seq<Pdu>, cuts: seq<nat>, budget: nat,
                tlvs: seq<seq<Entry>>, size: nat, start: Id, last: Id, packed: nat)
    requires Sorted(entries) && Building(entries, pdus, cuts, budget, tlvs, size, start, last, packed) && tlvs != []
    ensures Building(entries, pdus + [Pdu(start, last, tlvs)], cuts + [packed], budget, [], 0, last + 1, last, packed)
    ensures packed < |entries| ==> last < LAST_ID
  {
    if packed < |entries| { assert entries[packed - 1].id < entries[packed].id; }
    var pdus', cuts' := pdus + [Pdu(start, last, tlvs)], cuts + [packed];
    assert Stretch(entries, Pdu(start, last, tlvs), cuts[|pdus|], packed, budget);
    hide Stretch; hide Sorted;
    forall k | 0 <= k < |pdus'|
      ensures Stretch(entries, pdus'[k], cuts'[k], cuts'[k + 1], budget)
    {
      if k < |pdus| { assert Stretch(entries, pdus[k], cuts[k], cuts[k + 1], budget); }
    }
  }

  lemma Added(entries: seq<Entry>, pdus: seq<Pdu>, cuts: seq<nat>, budget: nat,
              tlvs: seq<seq<Entry>>, size: nat, start: nat, last: nat, packed: nat, chunk: seq<Entry>)
    requires Building(entries, pdus, cuts, budget, tlvs, size, start, last, packed)
    requires chunk != [] && packed + |chunk| <= |entries| && chunk == entries[packed..packed + |chunk|]
    requires size + TlvLen(chunk) <= budget
    ensures Building(entries, pdus, cuts, budget, tlvs + [chunk], size + TlvLen(chunk), start, chunk[|chunk| - 1].id, packed + |chunk|)
  {
    var grown := tlvs + [chunk];
    assert grown[..|grown| - 1] == tlvs;
    var lo, more := cuts[|pdus|], packed + |chunk|;
    assert entries[lo..packed] + entries[packed..more] == entries[lo..more];
  }

  lemma Finished(entries: seq<Entry>, pdus: seq<Pdu>, cuts: seq<nat>, budget: nat,
                 tlvs: seq<seq<Entry>>, size: nat, start: Id, last: nat)
    requires Building(entries, pdus, cuts, budget, tlvs, size, start, last, |entries|)
    requires pdus != [] ==> tlvs != []
    ensures IsSplit(entries, pdus + [Pdu(start, LAST_ID, tlvs)], cuts + [|entries|], budget)
  {
    var pdus', cuts' := pdus + [Pdu(start, LAST_ID, tlvs)], cuts + [|entries|];
    assert pdus'[..|pdus'| - 1] == pdus && cuts'[..|pdus'|] == cuts;
  }

  /** The TLV that opens the next PDU would not have gone into this one. */
  ghost predicate TooMuch(tlvs: seq<seq<Entry>>, next: seq<seq<Entry>>, budget: nat) {
    next != [] && AreaLen(tlvs) + 2 + 16 * |next[0]| > budget
  }

  /** TLVs of 1 to 15 entries, and no PDU opened while the one before had room. */
  ghost predicate IsTight(pdus: seq<Pdu>, budget: nat) {
    && (forall k, t :: 0 <= k < |pdus| && t in pdus[k].tlvs ==> 0 < |t| <= 15)
    && forall k :: 0 < k < |pdus| ==> TooMuch(pdus[k - 1].tlvs, pdus[k].tlvs, budget)
  }

  /** The PDUs so far, and the one under construction behind them. */
  ghost predicate TightSoFar(pdus: seq<Pdu>, tlvs: seq<seq<Entry>>, budget: nat) {
    && IsTight(pdus, budget) && (forall t :: t in tlvs ==> 0 < |t| <= 15)
    && (pdus != [] ==> tlvs != [] && TooMuch(pdus[|pdus| - 1].tlvs, tlvs, budget))
  }

  lemma TightGrows(pdus: seq<Pdu>, tlvs: seq<seq<Entry>>, chunk: seq<Entry>, budget: nat)
    requires TightSoFar(pdus, tlvs, budget) && 0 < |chunk| <= 15
    ensures TightSoFar(pdus, tlvs + [chunk], budget)
  {
    hide TooMuch;
    if pdus != [] {
      assert (tlvs + [chunk])[0] == tlvs[0];
      TooMuchStill(pdus[|pdus| - 1].tlvs, tlvs, tlvs + [chunk], budget);
    }
  }

  lemma TooMuchStill(before: seq<seq<Entry>>, tlvs: seq<seq<Entry>>, more: seq<seq<Entry>>, budget: nat)
    requires TooMuch(before, tlvs, budget) && more != [] && more[0] == tlvs[0]
    ensures TooMuch(before, more, budget)
  {
  }

  lemma TightCloses(pdus: seq<Pdu>, pdu: Pdu, budget: nat)
    requires TightSoFar(pdus, pdu.tlvs, budget)
    ensures IsTight(pdus + [pdu], budget)
  {
    hide TooMuch;
  }

  lemma TightOpens(pdus: seq<Pdu>, pdu: Pdu, chunk: seq<Entry>, budget: nat)
    requires TightSoFar(pdus, pdu.tlvs, budget) && 0 < |chunk| <= 15 && AreaLen(pdu.tlvs) + TlvLen(chunk) > budget
    ensures TightSoFar(pdus + [pdu], [chunk], budget)
  {
    TightCloses(pdus, pdu, budget);
  }

  /** Cut the sorted database into PDUs whose ranges follow one another over the whole identifier space. */
  method SendCsnp(entries: seq<Entry>, budget: nat) returns (pdus: seq<Pdu>, ghost cuts: seq<nat>)
    requires Sorted(entries) && budget >= 2 + ENTRY_SIZE * MAX_ENTRIES_PER_TLV
    ensures IsSplit(entries, pdus, cuts, budget)
    ensures exists at :: IsSplit(entries, pdus, at, budget)
    ensures IsTight(pdus, budget)
  {
    hide Building; hide Sorted; hide AreaLen; hide TightSoFar; hide IsTight; hide TooMuch; hide IsSplit;
    var chunks := ChunkEntries(entries);
    pdus, cuts := [], [0];
    var tlvs: seq<seq<Entry>>, size: nat := [], 0;
    var start: Id, last: Id := 0, 0;
    ghost var packed: nat := 0;
    NothingBuilt(entries, budget);
    NothingLoose(budget);
    for c := 0 to |chunks|
      invariant packed <= |entries| && Flat(chunks[..c]) == entries[..packed]
      invariant Building(entries, pdus, cuts, budget, tlvs, size, start, last, packed)
      invariant (tlvs == [] ==> pdus == [] && size == 0) && (c > 0 ==> tlvs != [])
      invariant TightSoFar(pdus, tlvs, budget) && size == AreaLen(tlvs)
    {
      var chunk := chunks[c];
      assert chunk in chunks;
      NextStretch(entries, chunks, c, packed);
      pdus, cuts, tlvs, size, start := AddChunk(entries, budget, pdus, cuts, tlvs, size, start, last, packed, chunk);
      packed := packed + |chunk|;
      last := chunk[|chunk| - 1].id;
    }
    assert chunks[..|chunks|] == chunks;
    assert packed == |entries|;
    Finished(entries, pdus, cuts, budget, tlvs, size, start, last);
    TightCloses(pdus, Pdu(start, LAST_ID, tlvs), budget);
    pdus := pdus + [Pdu(start, LAST_ID, tlvs)];
    cuts := cuts + [packed];
  }

  /** One more TLV, in a new PDU if it does not go into the one under construction. */
  method AddChunk(entries: seq<Entry>, budget: nat, pdus: seq<Pdu>, ghost cuts: seq<nat>, tlvs: seq<seq<Entry>>, size: nat,
                  start: Id, last: Id, ghost packed: nat, chunk: seq<Entry>)
    returns (pdus': seq<Pdu>, ghost cuts': seq<nat>, tlvs': seq<seq<Entry>>, size': nat, start': Id)
    requires Sorted(entries) && budget >= 2 + ENTRY_SIZE * MAX_ENTRIES_PER_TLV && 0 < |chunk| <= MAX_ENTRIES_PER_TLV
    requires packed + |chunk| <= |entries| && chunk == entries[packed..packed + |chunk|]
    requires Building(entries, pdus, cuts, budget, tlvs, size, start, last, packed)
    requires TightSoFar(pdus, tlvs, budget) && size == AreaLen(tlvs) && (tlvs == [] ==> size == 0)
    ensures Building(entries, pdus', cuts', budget, tlvs', size', start', chunk[|chunk| - 1].id, packed + |chunk|)
    ensures TightSoFar(pdus', tlvs', budget) && size' == AreaLen(tlvs') && tlvs' != []
  {
    hide Building; hide Sorted; hide AreaLen; hide TightSoFar; hide IsTight; hide TooMuch;
    pdus', cuts', tlvs', size', start' := pdus, cuts, tlvs, size, start;
    var n := TlvLen(chunk);
    if size + n > budget && tlvs != [] {
      Flushed(entries, pdus, cuts, budget, tlvs, size, start, last, packed);
      TightOpens(pdus, Pdu(start, last, tlvs), chunk, budget);
      pdus', cuts' := pdus + [Pdu(start, last, tlvs)], cuts + [packed];
      start' := last + 1;
      tlvs', size' := [], 0;
      NothingLoose(budget);
      assert [] + [chunk] == [chunk];
    } else {
      TightGrows(pdus, tlvs, chunk, budget);
    }
    AreaGrows(tlvs', chunk);
    Added(entries, pdus', cuts', budget, tlvs', size', start', last, packed, chunk);
    tlvs', size' := tlvs' + [chunk], size' + n;
  }

  lemma NothingLoose(budget: nat)
    ensures TightSoFar([], [], budget) && AreaLen([]) == 0
  {
  }

  lemma AreaGrows(tlvs: seq<seq<Entry>>, chunk: seq<Entry>)
    ensures AreaLen(tlvs + [chunk]) == AreaLen(tlvs) + TlvLen(chunk)
  {
    var grown := tlvs + [chunk];
    assert grown[..|grown| - 1] == tlvs;
  }

  lemma NothingBuilt(entries: seq<Entry>, budget: nat)
    ensures Building(entries, [], [0], budget, [], 0, 0, 0, 0)
  {
  }

  /** The `c`-th chunk is the next stretch of the list. */
  lemma NextStretch(entries: seq<Entry>, chunks: seq<seq<Entry>>, c: nat, packed: nat)
    requires Flat(chunks) == entries && c < |chunks| && packed <= |entries|
    requires Flat(chunks[..c]) == entries[..packed]
    ensures packed + |chunks[c]| <= |entries| && chunks[c] == entries[packed..packed + |chunks[c]|]
    ensures Flat(chunks[..c + 1]) == entries[..packed + |chunks[c]|]
  {
    assert chunks[..c + 1][..c] == chunks[..c];
    FlatPrefix(chunks, c + 1);
  }

  lemma {:induction false} FlatPrefix(chunks: seq<seq<Entry>>, c: nat)
    requires c <= |chunks|
    ensures Flat(chunks[..c]) <= Flat(chunks)
    decreases |chunks|
  {
    if c < |chunks| {
      var init := chunks[..|chunks| - 1];
      assert init[..c] == chunks[..c];
      FlatPrefix(init, c);
    } else {
      assert chunks[..c] == chunks;
    }
  }

  // ---------- The ranges ----------

  predicate InRange(id: Id, pdu: Pdu) {
    pdu.start <= id <= pdu.end
  }

  /** Where range `k` of a split ends, and that the next begins right after. */
  lemma SplitRange(entries: seq<Entry>, pdus: seq<Pdu>, cuts: seq<nat>, budget: nat, k: nat)
    requires IsSplit(entries, pdus, cuts, budget) && k < |pdus|
    ensures Holds(entries, pdus[k], cuts[k], cuts[k + 1])
    ensures k < |pdus| - 1 ==> cuts[k] < cuts[k + 1] && pdus[k].end == entries[cuts[k + 1] - 1].id
    ensures k < |pdus| - 1 ==> pdus[k + 1].start == pdus[k].end + 1
    ensures k == 0 ==> pdus[k].start == 0
    ensures k == |pdus| - 1 ==> pdus[k].end == LAST_ID
    ensures AreaLen(pdus[k].tlvs) <= budget
  {
    var init, cut := pdus[..|pdus| - 1], cuts[..|pdus|];
    if k < |pdus| - 1 {
      assert init[k] == pdus[k] && cut[k] == cuts[k] && cut[k + 1] == cuts[k + 1];
      if k + 1 < |pdus| - 1 { assert init[k + 1] == pdus[k + 1] && cut[k + 2] == cuts[k + 2]; }
    } else {
      assert k == 0 ==> cut[0] == 0;
    }
  }

  /** Ranges are in order, so no identifier lies in two. */
  lemma {:induction false} RangesAreDisjoint(entries: seq<Entry>, pdus: seq<Pdu>, cuts: seq<nat>, budget: nat, j: nat, k: nat)
    requires Sorted(entries) && IsSplit(entries, pdus, cuts, budget) && j < k < |pdus|
    ensures pdus[j].end < pdus[k].start
    decreases k - j
  {
    SplitRange(entries, pdus, cuts, budget, k - 1);
    SplitRange(entries, pdus, cuts, budget, k);
    if j < k - 1 {
      RangesAreDisjoint(entries, pdus, cuts, budget, j, k - 1);
      RangeIsNonempty(entries, pdus, cuts, budget, k - 1);
    }
  }

  lemma RangeIsNonempty(entries: seq<Entry>, pdus: seq<Pdu>, cuts: seq<nat>, budget: nat, k: nat)
    requires Sorted(entries) && IsSplit(entries, pdus, cuts, budget) && k < |pdus|
    ensures pdus[k].start <= pdus[k].end
  {
    SplitRange(entries, pdus, cuts, budget, k);
    if 0 < cuts[k] < cuts[k + 1] { assert entries[cuts[k] - 1].id < entries[cuts[k + 1] - 1].id; }
  }

  /** Ranges cover the identifier space, so every identifier lies in one. */
  lemma {:induction false} RangeOf(entries: seq<Entry>, pdus: seq<Pdu>, cuts: seq<nat>, budget: nat, id: Id, from: nat) returns (k: nat)
    requires IsSplit(entries, pdus, cuts, budget) && from < |pdus| && pdus[from].start <= id
    ensures k < |pdus| && InRange(id, pdus[k])
    decreases |pdus| - from
  {
    SplitRange(entries, pdus, cuts, budget, from);
    if id <= pdus[from].end {
      k := from;
    } else {
      k := RangeOf(entries, pdus, cuts, budget, id, from + 1);
    }
  }

  /** An entry sits in the PDU whose range holds it. */
  lemma EntryIsInItsRange(entries: seq<Entry>, pdus: seq<Pdu>, cuts: seq<nat>, budget: nat, k: nat, i: nat)
    requires Sorted(entries) && IsSplit(entries, pdus, cuts, budget) && k < |pdus| && i < |entries|
    ensures cuts[k] <= i < cuts[k + 1] <==> InRange(entries[i].id, pdus[k])
  {
    SplitRange(entries, pdus, cuts, budget, k);
    var lo, hi := cuts[k], cuts[k + 1];
    if i < lo { assert entries[i].id <= entries[lo - 1].id; }
    if lo <= i && lo > 0 { assert entries[lo - 1].id < entries[i].id; }
    if i < hi { assert entries[i].id <= entries[hi - 1].id; }
    if hi <= i && hi > 0 { assert entries[hi - 1].id < entries[i].id; }
  }

  // ---------- The receiver ----------

  /** A database as it stands at one instant. */
  type Database = map<Id, Summary>

  function Lookup(db: Database, id: Id): Option<Summary> {
    if id in db then Some(db[id]) else None
  }

  /** What the entries listed for `id`, in order, do to its flags. */
  function ListedFor(f: Flags, local: Option<Summary>, listed: seq<Entry>, id: Id): Flags {
    if listed == [] then f
    else
      var before, e := ListedFor(f, local, listed[..|listed| - 1], id), listed[|listed| - 1];
      if e.id == id then Listed(before, local, e.lsp) else before
  }

  predicate Lists(listed: seq<Entry>, id: Id) {
    exists i :: 0 <= i < |listed| && listed[i].id == id
  }

  /** What one CSNP does to the flags of one LSP: by its entry, or by being left out of the range. */
  function Received(f: Flags, local: Option<Summary>, pdu: Pdu, id: Id): Flags {
    var listed := Flat(pdu.tlvs);
    if Lists(listed, id) then ListedFor(f, local, listed, id)
    else if local.Some? && InRange(id, pdu) then f.(srm := true)
    else f
  }

  class Circuit {
    var srm: set<Id>
    var ssn: set<Id>

    function At(id: Id): Flags
      reads this
    {
      Flags(id in srm, id in ssn)
    }

    /** One entry: request it, send ours, or stop sending. */
    method ProcessEntry(db: Database, e: Entry)
      modifies this
      ensures At(e.id) == Listed(old(At(e.id)), Lookup(db, e.id), e.lsp)
      ensures forall id :: id != e.id ==> At(id) == old(At(id))
    {
      if e.id !in db || Newer(e.lsp, Some(db[e.id])) {
        ssn := ssn + {e.id};
      } else if db[e.id].seqno > e.lsp.seqno {
        srm := srm + {e.id};
      } else if Conflicts(db[e.id], e.lsp) {
        srm := srm + {e.id};
      } else {
        srm := srm - {e.id};
      }
    }

    /** Reconcile the database with a CSNP: first what it lists, then what it leaves out of its range. */
    method ProcessCsnp(db: Database, pdu: Pdu)
      modifies this
      ensures forall id :: At(id) == Received(old(At(id)), Lookup(db, id), pdu, id)
    {
      var listed := Flat(pdu.tlvs);
      var known: set<Id> := {};
      for i := 0 to |listed|
        invariant known == set k | 0 <= k < i :: listed[k].id
        invariant forall id :: At(id) == ListedFor(old(At(id)), Lookup(db, id), listed[..i], id)
      {
        hide Listed; hide Lookup;
        ProcessEntry(db, listed[i]);
        known := known + {listed[i].id};
        assert listed[..i + 1][..i] == listed[..i];
      }
      assert listed[..|listed|] == listed;
      label entries:
      ghost var missing := set id | id in db && id !in known && InRange(id, pdu);
      var todo := db.Keys;
      while todo != {}
        invariant todo <= db.Keys
        invariant ssn == old@entries(ssn)
        invariant srm == old@entries(srm) + (missing - todo)
      {
        var id :| id in todo;
        todo := todo - {id};
        if id !in known && InRange(id, pdu) {
          srm := srm + {id};
        }
      }
      forall id: Id
        ensures At(id) == Received(old(At(id)), Lookup(db, id), pdu, id)
      {
        assert id in known <==> Lists(listed, id);
        if !Lists(listed, id) { Unlisted(old(At(id)), Lookup(db, id), listed, id); }
      }
    }
  }

  lemma {:induction false} Unlisted(f: Flags, local: Option<Summary>, listed: seq<Entry>, id: Id)
    requires !Lists(listed, id)
    ensures ListedFor(f, local, listed, id) == f
  {
    if listed != [] {
      var init := listed[..|listed| - 1];
      assert forall i :: 0 <= i < |init| ==> init[i] == listed[i];
      Unlisted(f, local, init, id);
    }
  }

  // ---------- Splitting is invisible ----------

  /** The sorted list a sender makes of its database. */
  ghost predicate Describes(entries: seq<Entry>, db: Database) {
    && Sorted(entries)
    && (forall i :: 0 <= i < |entries| ==> entries[i].id in db && db[entries[i].id] == entries[i].lsp)
    && (forall id :: id in db ==> Lists(entries, id))
  }

  /** In a sorted stretch an identifier is listed once. */
  lemma {:induction false} ListedOnce(f: Flags, local: Option<Summary>, entries: seq<Entry>, lo: nat, hi: nat, i: nat)
    requires Sorted(entries) && lo <= i < hi <= |entries|
    ensures ListedFor(f, local, entries[lo..hi], entries[i].id) == Listed(f, local, entries[i].lsp)
    decreases hi
  {
    hide Listed;
    assert entries[lo..hi][..hi - lo - 1] == entries[lo..hi - 1];
    if i < hi - 1 {
      ListedOnce(f, local, entries, lo, hi - 1, i);
    } else {
      assert !Lists(entries[lo..hi - 1], entries[i].id);
      Unlisted(f, local, entries[lo..hi - 1], entries[i].id);
    }
  }

  /** What a PDU lists is held and lies in its range. */
  lemma ListedIsInRange(sender: Database, entries: seq<Entry>, pdus: seq<Pdu>, cuts: seq<nat>, budget: nat, k: nat, j: nat)
    requires Describes(entries, sender) && IsSplit(entries, pdus, cuts, budget) && k < |pdus|
    requires cuts[k] <= j < cuts[k + 1] <= |entries|
    ensures entries[j].id in sender && InRange(entries[j].id, pdus[k])
  {
    hide IsSplit; hide Describes; hide Sorted; hide InRange;
    var found := SortedAndComplete(entries, sender, entries[j].id);
    EntryIsInItsRange(entries, pdus, cuts, budget, k, j);
    IsDescribed(entries, sender, j);
  }

  /** What is held and lies in a PDU's range is among its entries. */
  lemma InRangeIsListed(sender: Database, entries: seq<Entry>, pdus: seq<Pdu>, cuts: seq<nat>, budget: nat, k: nat, id: Id)
    returns (i: nat)
    requires Describes(entries, sender) && IsSplit(entries, pdus, cuts, budget) && k < |pdus|
    requires id in sender && InRange(id, pdus[k])
    ensures cuts[k] <= i < cuts[k + 1] <= |entries| && entries[i].id == id && entries[i].lsp == sender[id]
  {
    SplitRange(entries, pdus, cuts, budget, k);
    hide IsSplit; hide Describes; hide Sorted; hide InRange; hide Flat; hide AreaLen;
    i := SortedAndComplete(entries, sender, id);
    EntryIsInItsRange(entries, pdus, cuts, budget, k, i);
    IsDescribed(entries, sender, i);
  }

  /** A PDU lists of the database exactly what lies in its range. */
  lemma ListsItsRange(sender: Database, entries: seq<Entry>, pdus: seq<Pdu>, cuts: seq<nat>, budget: nat, k: nat, id: Id)
    requires Describes(entries, sender) && IsSplit(entries, pdus, cuts, budget) && k < |pdus|
    ensures cuts[k] <= cuts[k + 1] <= |entries| && Flat(pdus[k].tlvs) == entries[cuts[k]..cuts[k + 1]]
    ensures Lists(entries[cuts[k]..cuts[k + 1]], id) <==> id in sender && InRange(id, pdus[k])
    ensures id in sender && InRange(id, pdus[k]) ==>
              exists i :: cuts[k] <= i < cuts[k + 1] && entries[i].id == id && entries[i].lsp == sender[id]
  {
    assert k + 1 < |cuts|;
    hide IsSplit; hide AreaLen; hide Describes; hide InRange; hide Flat; hide Lists;
    SplitRange(entries, pdus, cuts, budget, k);
    ListsPart(sender, entries, pdus, cuts, budget, k, id);
    if id in sender && InRange(id, pdus[k]) {
      var i := InRangeIsListed(sender, entries, pdus, cuts, budget, k, id);
    }
  }

  lemma ListsPart(sender: Database, entries: seq<Entry>, pdus: seq<Pdu>, cuts: seq<nat>, budget: nat, k: nat, id: Id)
    requires Describes(entries, sender) && IsSplit(entries, pdus, cuts, budget) && k < |pdus|
    requires k + 1 < |cuts| && cuts[k] <= cuts[k + 1] <= |entries|
    ensures Lists(entries[cuts[k]..cuts[k + 1]], id) <==> id in sender && InRange(id, pdus[k])
  {
    hide IsSplit; hide Describes; hide InRange;
    var lo, hi := cuts[k], cuts[k + 1];
    var part := entries[lo..hi];
    if Lists(part, id) {
      var j :| 0 <= j < |part| && part[j].id == id;
      ListedIsInRange(sender, entries, pdus, cuts, budget, k, lo + j);
    }
    if id in sender && InRange(id, pdus[k]) {
      var i := InRangeIsListed(sender, entries, pdus, cuts, budget, k, id);
      assert part[i - lo].id == id;
    }
  }

  lemma SortedAndComplete(entries: seq<Entry>, db: Database, id: Id) returns (i: nat)
    requires Describes(entries, db)
    ensures Sorted(entries) && (id in db ==> i < |entries| && entries[i].id == id)
  {
    hide Sorted;
    i := 0;
    if id in db {
      assert Lists(entries, id);
      i :| 0 <= i < |entries| && entries[i].id == id;
    }
  }

  lemma IsDescribed(entries: seq<Entry>, db: Database, i: nat)
    requires Describes(entries, db) && i < |entries|
    ensures entries[i].id in db && db[entries[i].id] == entries[i].lsp
  {
  }

  /** A PDU of the split settles the identifiers in its range and touches no other. */
  lemma PduReconciles(sender: Database, entries: seq<Entry>, pdus: seq<Pdu>, cuts: seq<nat>, budget: nat,
                      local: Option<Summary>, k: nat, f: Flags, id: Id)
    requires Describes(entries, sender) && IsSplit(entries, pdus, cuts, budget) && k < |pdus|
    ensures !InRange(id, pdus[k]) ==> Received(f, local, pdus[k], id) == f
    ensures InRange(id, pdus[k]) && (f == Flags(false, false) || f == Reconciled(local, Lookup(sender, id))) ==>
              Received(f, local, pdus[k], id) == Reconciled(local, Lookup(sender, id))
  {
    assert Sorted(entries);
    hide Describes; hide IsSplit; hide Listed; hide Reconciled; hide Sorted; hide Flat;
    ListsItsRange(sender, entries, pdus, cuts, budget, k, id);
    if id in sender && InRange(id, pdus[k]) {
      var i :| cuts[k] <= i < cuts[k + 1] && entries[i].id == id && entries[i].lsp == sender[id];
      ListedOnce(f, local, entries, cuts[k], cuts[k + 1], i);
      ListedReconciles(local, entries[i].lsp);
    } else if InRange(id, pdus[k]) {
      LeftOut(f, local);
    }
  }

  lemma LeftOut(f: Flags, local: Option<Summary>)
    ensures f == Flags(false, false) || f == Reconciled(local, None) ==>
              (if local.Some? then f.(srm := true) else f) == Reconciled(local, None)
  {
  }

  /** The flags of one LSP after PDUs have come in some order, with losses and repeats. */
  function ReceivedAll(f: Flags, local: Option<Summary>, pdus: seq<Pdu>, order: seq<nat>, id: Id): Flags
    requires forall i :: 0 <= i < |order| ==> order[i] < |pdus|
  {
    if order == [] then f
    else Received(ReceivedAll(f, local, pdus, order[..|order| - 1], id), local, pdus[order[|order| - 1]], id)
  }

  /**
   * Splitting cannot be seen: the PDUs of one database, received in any order and any number of times, leave on each
   * LSP the flags that comparing the two databases LSP by LSP calls for, as soon as the PDU for it has come.
   */
  lemma {:induction false} SplittingIsInvisible(sender: Database, receiver: Database, entries: seq<Entry>, pdus: seq<Pdu>,
                                                cuts: seq<nat>, budget: nat, order: seq<nat>, id: Id)
    requires Describes(entries, sender) && IsSplit(entries, pdus, cuts, budget)
    requires forall i :: 0 <= i < |order| ==> order[i] < |pdus|
    ensures ReceivedAll(Flags(false, false), Lookup(receiver, id), pdus, order, id) ==
              if exists i :: 0 <= i < |order| && InRange(id, pdus[order[i]])
              then Reconciled(Lookup(receiver, id), Lookup(sender, id))
              else Flags(false, false)
    decreases |order|
  {
    hide Describes; hide IsSplit; hide Reconciled; hide Received; hide InRange;
    if order != [] {
      var init, k := order[..|order| - 1], order[|order| - 1];
      SplittingIsInvisible(sender, receiver, entries, pdus, cuts, budget, init, id);
      var f := ReceivedAll(Flags(false, false), Lookup(receiver, id), pdus, init, id);
      PduReconciles(sender, entries, pdus, cuts, budget, Lookup(receiver, id), k, f, id);
      assert forall i :: 0 <= i < |init| ==> init[i] == order[i];
    }
  }

  /** Once every PDU has come at least once, the two databases have been compared in full. */
  lemma CompleteExchange(sender: Database, receiver: Database, entries: seq<Entry>, pdus: seq<Pdu>,
                         cuts: seq<nat>, budget: nat, order: seq<nat>, id: Id)
    requires Describes(entries, sender) && IsSplit(entries, pdus, cuts, budget)
    requires forall i :: 0 <= i < |order| ==> order[i] < |pdus|
    requires forall k :: 0 <= k < |pdus| ==> k in order
    ensures ReceivedAll(Flags(false, false), Lookup(receiver, id), pdus, order, id) ==
              Reconciled(Lookup(receiver, id), Lookup(sender, id))
  {
    assert |pdus| > 0;
    hide Describes; hide IsSplit; hide Reconciled; hide ReceivedAll; hide Holds; hide AreaLen;
    SplittingIsInvisible(sender, receiver, entries, pdus, cuts, budget, order, id);
    SplitRange(entries, pdus, cuts, budget, 0);
    var k := RangeOf(entries, pdus, cuts, budget, id, 0);
    var i := Arrives(pdus, order, k);
    assert InRange(id, pdus[order[i]]);
  }

  lemma Arrives(pdus: seq<Pdu>, order: seq<nat>, k: nat) returns (i: nat)
    requires k < |pdus| && forall k :: 0 <= k < |pdus| ==> k in order
    ensures i < |order| && order[i] == k
  {
    assert k in order;
    i :| 0 <= i < |order| && order[i] == k;
  }
}
