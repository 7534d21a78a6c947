/** How a node's own reachability is packed: sub-TLVs into entries, entries into TLVs, TLVs into LSP fragments. */
module Packing {
  import opened Types

  const MAX_TLV_VALUE: nat := 255
  const IS_REACH_HEADER: nat := 11
  const MAX_SUB_TLV_AREA: nat := MAX_TLV_VALUE - IS_REACH_HEADER
  const MAX_LINK_ATTR_AREA: nat := MAX_SUB_TLV_AREA / 2
  const LSP_HEADER: nat := 27
  const LLC_HEADER: nat := 3

  /** Something to be packed: its identity, and its octets on the wire unless it fails to serialize. */
  datatype Item = Item(name: nat, octets: Option<nat>)

  function Flatten<T>(lists: seq<seq<T>>): seq<T> {
    if lists == [] then [] else lists[0] + Flatten(lists[1..])
  }

  function Weight(t: Item, failed: nat): nat {
    if t.octets.Some? then t.octets.value else failed
  }

  /** Octets of a list, each failing item counted at a given stand-in. */
  function Size(items: seq<Item>, failed: nat): nat {
    if items == [] then 0
    else Weight(items[0], failed) + Size(items[1..], failed)
  }

  predicate Serializes(items: seq<Item>) {
    forall i :: 0 <= i < |items| ==> items[i].octets.Some?
  }

  /** The list makes one TLV: everything serializes and the value stays within 255 octets. */
  predicate Fits(items: seq<Item>) {
    Serializes(items) && Size(items, 0) <= MAX_TLV_VALUE
  }

  /** With the sum over a concatenation this says what a size is: the octets of each item, or the stand-in for it. */
  lemma SizeOfOne(t: Item, failed: nat)
    ensures Size([], failed) == 0
    ensures Size([t], failed) == if t.octets.Some? then t.octets.value else failed
  {
    assert [t][1..] == [];
  }

  lemma FitsIs(items: seq<Item>)
    ensures Fits(items) <==> (forall t :: t in items ==> t.octets.Some?) && Size(items, 0) <= 255
  {
    assert forall i :: 0 <= i < |items| ==> items[i] in items;
  }

  lemma {:induction false} SizeOfConcat(a: seq<Item>, b: seq<Item>, failed: nat)
    ensures Size(a + b, failed) == Size(a, failed) + Size(b, failed)
  {
    if a == [] {
      assert a + b == b;
    } else {
      assert (a + b)[1..] == a[1..] + b;
      SizeOfConcat(a[1..], b, failed);
    }
  }

  /** What fits goes on fitting when items are taken off either end. */
  lemma PartFits(items: seq<Item>, i: nat, j: nat)
    requires i <= j <= |items| && Fits(items)
    ensures Fits(items[i..j])
  {
    SizeOfConcat(items[..i] + items[i..j], items[j..], 0);
    SizeOfConcat(items[..i], items[i..j], 0);
    assert items == items[..i] + items[i..j] + items[j..];
  }

  lemma {:induction false} FlattenSnoc<T>(lists: seq<seq<T>>, last: seq<T>)
    ensures Flatten(lists + [last]) == Flatten(lists) + last
  {
    if lists == [] {
      assert lists + [last] == [last];
      assert Flatten([last]) == last + Flatten<T>([]);
    } else {
      assert (lists + [last])[1..] == lists[1..] + [last];
      FlattenSnoc(lists[1..], last);
    }
  }

  // ---------- Entries into TLVs ----------

  /** An in-order split into nonempty chunks, each one TLV, but that an item no TLV can hold stands alone. */
  ghost predicate IsSplit(chunks: seq<seq<Item>>) {
    forall k :: 0 <= k < |chunks| ==> chunks[k] != [] && (Fits(chunks[k]) || |chunks[k]| == 1)
  }

  /** No chunk could have taken the first item of the next one too. */
  ghost predicate IsGreedy(chunks: seq<seq<Item>>) {
    forall k :: 0 < k < |chunks| ==> IsFull(chunks[k - 1], chunks[k])
  }

  ghost predicate IsFull(chunk: seq<Item>, next: seq<Item>) {
    next != [] && !Fits(chunk + [next[0]])
  }

  /** Growing a chunk while it fits, stepping back over the item that did not. */
  method TlvChunks(entries: seq<Item>) returns (out: seq<seq<Item>>)
    ensures Flatten(out) == entries && IsSplit(out) && IsGreedy(out)
  {
    out := [];
    var start, i := 0, 0;
    while i < |entries|
      invariant 0 <= start <= i <= |entries|
      invariant Flatten(out) == entries[..start] && IsSplit(out) && IsGreedy(out)
      invariant start < i ==> Fits(entries[start..i])
      invariant out != [] && start < |entries| ==> !Fits(out[|out| - 1] + [entries[start]])
      decreases 2 * |entries| - i - start
    {
      if Fits(entries[start..i + 1]) {
        i := i + 1;
      } else if i == start {
        out := EmitChunk(entries, out, start, i + 1);
        start, i := i + 1, i + 1;
      } else {
        out := EmitChunk(entries, out, start, i);
        start := i;
      }
    }
    if start < |entries| {
      out := EmitChunk(entries, out, start, |entries|);
    }
    assert entries[..|entries|] == entries;
  }

  /** Emit `entries[start..end]` as the next chunk, the largest that fits or a lone item. */
  method EmitChunk(entries: seq<Item>, chunks: seq<seq<Item>>, start: nat, end: nat) returns (out: seq<seq<Item>>)
    requires start < end <= |entries|
    requires Flatten(chunks) == entries[..start] && IsSplit(chunks) && IsGreedy(chunks)
    requires chunks != [] ==> !Fits(chunks[|chunks| - 1] + [entries[start]])
    requires Fits(entries[start..end]) || end == start + 1
    requires end < |entries| ==> !Fits(entries[start..end + 1]) || !Fits(entries[start..end])
    ensures Flatten(out) == entries[..end] && IsSplit(out) && IsGreedy(out) && out != []
    ensures end < |entries| ==> !Fits(out[|out| - 1] + [entries[end]])
  {
    var chunk := entries[start..end];
    out := chunks + [chunk];
    FlattenSnoc(chunks, chunk);
    assert entries[..start] + chunk == entries[..end];
    if end < |entries| {
      var wider := entries[start..end + 1];
      assert chunk + [entries[end]] == wider && wider[..end - start] == chunk;
      if Fits(wider) { PartFits(wider, 0, end - start); }
    }
  }

  /** No in-order split of the same entries, or of more, has fewer chunks than a greedy one. */
  lemma {:induction false} GreedyIsFewest(greedy: seq<seq<Item>>, other: seq<seq<Item>>, before: seq<Item>)
    requires IsSplit(greedy) && IsGreedy(greedy) && IsSplit(other)
    requires Flatten(other) == before + Flatten(greedy)
    ensures |greedy| <= |other|
  {
    if greedy != [] {
      NoOverreach(greedy, other, before);
      var rest, rest' := Flatten(greedy[1..]), Flatten(other[1..]);
      assert IsGreedy(greedy[1..]) by {
        assert forall k :: 0 <= k < |greedy[1..]| ==> greedy[1..][k] == greedy[k + 1];
      }
      var skipped := rest'[..|rest'| - |rest|];
      assert rest' == skipped + rest by {
        assert rest' == Flatten(other)[|Flatten(other)| - |rest'|..];
        assert rest == Flatten(other)[|Flatten(other)| - |rest|..];
      }
      GreedyIsFewest(greedy[1..], other[1..], skipped);
    }
  }

  /** A first chunk that starts no later than the greedy one ends no later: it would have had to fit one item more. */
  lemma NoOverreach(greedy: seq<seq<Item>>, other: seq<seq<Item>>, before: seq<Item>)
    requires IsSplit(greedy) && IsGreedy(greedy) && IsSplit(other) && greedy != []
    requires Flatten(other) == before + Flatten(greedy)
    ensures other != [] && |Flatten(greedy[1..])| <= |Flatten(other[1..])|
  {
    hide Fits; hide Flatten;
    FlattenFirst(greedy);
    FlattenFirst(greedy[1..]);
    FlattenFirst(other);
    if |Flatten(greedy[1..])| > |Flatten(other[1..])| {
      var chunk, next, first := greedy[0], greedy[1], other[0];
      assert IsFull(greedy[1 - 1], greedy[1]);
      Straddles(first, Flatten(other[1..]), before, chunk, Flatten(greedy[1..]));
      assert Flatten(greedy[1..])[0] == next[0];
      assert Fits(first);
      PartFits(first, |before|, |before| + |chunk| + 1);
    }
  }

  /** Of two ways to cut the same items, a first cut that falls later holds the other's piece and one item more. */
  lemma Straddles(first: seq<Item>, rest: seq<Item>, before: seq<Item>, chunk: seq<Item>, tail: seq<Item>)
    requires first + rest == before + (chunk + tail) && |tail| > |rest|
    ensures |before| + |chunk| + 1 <= |first| && first[|before|..|before| + |chunk| + 1] == chunk + [tail[0]]
  {
    var all, i, j := first + rest, |before|, |before| + |chunk| + 1;
    assert |all| == |before| + |chunk| + |tail|;
    assert first[i..j] == all[i..j];
    assert all[i..j] == (chunk + tail)[..|chunk| + 1];
  }

  lemma FlattenFirst<T>(lists: seq<seq<T>>)
    ensures lists != [] ==> Flatten(lists) == lists[0] + Flatten(lists[1..])
    ensures lists == [] ==> Flatten(lists) == []
  {
  }

  /** The split into TLVs is the shortest there is. */
  lemma ChunksAreFewest(entries: seq<Item>, out: seq<seq<Item>>, other: seq<seq<Item>>)
    requires Flatten(out) == entries && IsSplit(out) && IsGreedy(out)
    requires Flatten(other) == entries && IsSplit(other)
    ensures |out| <= |other|
  {
    assert [] + Flatten(out) == entries;
    GreedyIsFewest(out, other, []);
  }

  // ---------- Sub-TLVs into entries ----------

  /** The first item of what follows would not have gone in beside the rest. */
  ghost predicate Overflows(part: seq<Item>, next: seq<Item>, room: int, failed: nat) {
    next != [] && Size(part, failed) + Weight(next[0], failed) > room
  }

  /** A new part is opened only when the one before is too full for its first item. */
  ghost predicate IsTight(parts: seq<seq<Item>>, room: int, failed: nat) {
    forall k :: 0 < k < |parts| ==> Overflows(parts[k - 1], parts[k], room, failed)
  }

  /** The sub-TLVs of one entry stay within the area beside the link attributes, but that one alone may not. */
  ghost predicate EntryArea(attrs: seq<Item>, part: seq<Item>) {
    Size(attrs, MAX_SUB_TLV_AREA + 1) + Size(part, MAX_SUB_TLV_AREA + 1) <= MAX_SUB_TLV_AREA || |part| <= 1
  }

  lemma TightNone(room: int, failed: nat)
    ensures IsTight([], room, failed)
  {
  }

  lemma TightSnoc(parts: seq<seq<Item>>, part: seq<Item>, left: seq<Item>, room: int, failed: nat)
    requires IsTight(parts, room, failed) && part <= left && (left != [] ==> part != [])
    requires parts != [] ==> left != [] && Overflows(parts[|parts| - 1], left, room, failed)
    ensures IsTight(parts + [part], room, failed)
  {
  }

  /** One neighbour's sub-TLVs spread over as many entries as they need, the attributes repeated on each. */
  method AppendIsReach(attrs: seq<Item>, subs: seq<Item>) returns (parts: seq<seq<Item>>)
    ensures Flatten(parts) == subs && parts != []
    ensures forall k :: 0 <= k < |parts| ==> EntryArea(attrs, parts[k])
    ensures IsTight(parts, MAX_SUB_TLV_AREA - Size(attrs, MAX_SUB_TLV_AREA + 1), MAX_SUB_TLV_AREA + 1)
  {
    hide Size; hide Flatten; hide EntryArea; hide Overflows; hide IsTight;
    TightNone(MAX_SUB_TLV_AREA - Size(attrs, MAX_SUB_TLV_AREA + 1), MAX_SUB_TLV_AREA + 1);
    FlattenFirst<Item>([]);
    parts := [];
    var left := subs;
    ghost var room := MAX_SUB_TLV_AREA - Size(attrs, MAX_SUB_TLV_AREA + 1);
    while true
      invariant Flatten(parts) + left == subs && IsTight(parts, room, MAX_SUB_TLV_AREA + 1)
      invariant parts != [] ==> left != [] && Overflows(parts[|parts| - 1], left, room, MAX_SUB_TLV_AREA + 1)
      invariant forall k :: 0 <= k < |parts| ==> EntryArea(attrs, parts[k])
      decreases |left|
    {
      var taken := TakeEntry(attrs, left);
      var part, rest := left[..taken], left[taken..];
      FlattenSnoc(parts, part);
      TightSnoc(parts, part, left, room, MAX_SUB_TLV_AREA + 1);
      assert Flatten(parts) + part + rest == subs;
      parts, left := parts + [part], rest;
      if left == [] { return; }
    }
  }

  /** How many leading sub-TLVs go into the next entry: at least one when there is one. */
  method TakeEntry(attrs: seq<Item>, subs: seq<Item>) returns (taken: nat)
    ensures taken <= |subs| && (subs != [] ==> taken > 0)
    ensures EntryArea(attrs, subs[..taken])
    ensures taken < |subs| ==>
      Overflows(subs[..taken], subs[taken..], MAX_SUB_TLV_AREA - Size(attrs, MAX_SUB_TLV_AREA + 1), MAX_SUB_TLV_AREA + 1)
  {
    var failed := MAX_SUB_TLV_AREA + 1;
    var size := Size(attrs, failed);
    taken := 0;
    while taken < |subs|
      invariant taken <= |subs| && size == Size(attrs, failed) + Size(subs[..taken], failed)
      invariant EntryArea(attrs, subs[..taken])
    {
      var n := Weight(subs[taken], failed);
      if size + n > MAX_SUB_TLV_AREA && taken > 0 { return; }
      SizeOfConcat(subs[..taken], [subs[taken]], failed);
      assert subs[..taken] + [subs[taken]] == subs[..taken + 1];
      size := size + n;
      taken := taken + 1;
    }
  }

  /** With the attributes within half the area, and no sub-TLV over the other half, every entry goes into a TLV. */
  lemma EntryFitsTlv(attrs: seq<Item>, part: seq<Item>)
    requires Serializes(attrs) && Size(attrs, MAX_SUB_TLV_AREA + 1) <= MAX_LINK_ATTR_AREA
    requires forall i :: 0 <= i < |part| ==> part[i].octets.Some? && part[i].octets.value <= MAX_LINK_ATTR_AREA
    requires EntryArea(attrs, part)
    ensures IS_REACH_HEADER + Size(attrs + part, MAX_SUB_TLV_AREA + 1) <= MAX_TLV_VALUE
  {
    SizeOfConcat(attrs, part, MAX_SUB_TLV_AREA + 1);
    if |part| == 1 {
      assert part == [part[0]];
    }
  }

  // ---------- TLVs into fragments ----------

  /** TLVs in order, the fixed ones first, a new fragment opened when the next one would overflow a nonempty one. */
  method PackFragments(fixed: seq<Item>, variable: seq<Item>, budget: int) returns (frags: seq<seq<Item>>)
    ensures Flatten(frags) == fixed + variable && frags != [] && fixed <= frags[0]
    ensures forall k :: 0 < k < |frags| ==> frags[k] != []
    ensures forall k :: 0 <= k < |frags| ==> WithinBudget(frags[k], fixed, budget)
    ensures IsTight(frags, budget, RECEIVE_BUFFER)
  {
    frags := [fixed];
    var size := Size(fixed, RECEIVE_BUFFER);
    FlattenSnoc([], fixed);
    assert [] + [fixed] == [fixed];
    for i := 0 to |variable|
      invariant frags != [] && fixed <= frags[0] && Flatten(frags) == fixed + variable[..i]
      invariant size == Size(frags[|frags| - 1], RECEIVE_BUFFER) && IsTight(frags, budget, RECEIVE_BUFFER)
      invariant forall k :: 0 < k < |frags| ==> frags[k] != []
      invariant forall k :: 0 <= k < |frags| ==> WithinBudget(frags[k], fixed, budget)
    {
      frags, size := PackOne(fixed, frags, size, variable[i], budget);
      assert fixed + variable[..i] + [variable[i]] == fixed + variable[..i + 1];
    }
    assert variable[..|variable|] == variable;
  }

  /** A fragment fits, or nothing could be done about it: only the fixed TLVs, or one TLV alone. */
  ghost predicate WithinBudget(frag: seq<Item>, fixed: seq<Item>, budget: int) {
    Size(frag, RECEIVE_BUFFER) <= budget || frag == fixed || |frag| == 1
  }

  method PackOne(fixed: seq<Item>, before: seq<seq<Item>>, size: nat, t: Item, budget: int)
    returns (frags: seq<seq<Item>>, size': nat)
    requires before != [] && fixed <= before[0] && size == Size(before[|before| - 1], RECEIVE_BUFFER)
    requires forall k :: 0 < k < |before| ==> before[k] != []
    requires forall k :: 0 <= k < |before| ==> WithinBudget(before[k], fixed, budget)
    requires IsTight(before, budget, RECEIVE_BUFFER)
    ensures IsTight(frags, budget, RECEIVE_BUFFER)
    ensures frags != [] && fixed <= frags[0] && Flatten(frags) == Flatten(before) + [t]
    ensures size' == Size(frags[|frags| - 1], RECEIVE_BUFFER)
    ensures forall k :: 0 < k < |frags| ==> frags[k] != []
    ensures forall k :: 0 <= k < |frags| ==> WithinBudget(frags[k], fixed, budget)
  {
    var last, ts := before[|before| - 1], Weight(t, RECEIVE_BUFFER);
    SizeOfConcat(last, [t], RECEIVE_BUFFER);
    FlattenSnoc(before[..|before| - 1], last);
    FlattenSnoc(before[..|before| - 1], last + [t]);
    FlattenSnoc(before, [t]);
    assert before == before[..|before| - 1] + [last];
    if size + ts > budget && last != [] {
      frags, size' := before + [[t]], ts;
    } else {
      frags, size' := before[..|before| - 1] + [last + [t]], size + ts;
    }
  }

  // ---------- The buffer ----------

  /** The largest size every circuit can send, no more than the configured cap and what every system must accept. */
  method LspBufferSize(cap: nat, mtus: seq<nat>) returns (size: int)
    ensures size <= RECEIVE_BUFFER && (cap > 0 ==> size <= cap)
    ensures forall i :: 0 <= i < |mtus| ==> size <= mtus[i] - LLC_HEADER
    ensures size == RECEIVE_BUFFER || (cap > 0 && size == cap) || exists i :: 0 <= i < |mtus| && size == mtus[i] - LLC_HEADER
  {
    size := RECEIVE_BUFFER;
    if cap > 0 && cap < size { size := cap; }
    for i := 0 to |mtus|
      invariant size <= RECEIVE_BUFFER && (cap > 0 ==> size <= cap)
      invariant forall k :: 0 <= k < i ==> size <= mtus[k] - LLC_HEADER
      invariant size == RECEIVE_BUFFER || (cap > 0 && size == cap) || exists k :: 0 <= k < i && size == mtus[k] - LLC_HEADER
    {
      if mtus[i] - LLC_HEADER < size { size := mtus[i] - LLC_HEADER; }
    }
  }

  /**
   * Every fragment can be sent on every circuit: with circuits of at least the minimum MTU, an authentication TLV of at
   * most 69 octets, fixed TLVs that fit, and variable TLVs that serialize at all.
   */
  lemma FragmentsFitCircuits(fixed: seq<Item>, variable: seq<Item>, frags: seq<seq<Item>>, buffer: int, auth: nat, mtu: nat, k: nat)
    requires buffer >= MIN_LSP_MTU && auth <= 69 && buffer <= mtu - LLC_HEADER && k < |frags|
    requires forall i :: 0 <= i < |variable| ==> variable[i].octets.Some? && variable[i].octets.value <= MAX_TLV_VALUE + 2
    requires Size(fixed, RECEIVE_BUFFER) <= buffer - LSP_HEADER - auth
    requires Flatten(frags) == fixed + variable && fixed <= frags[0]
    requires forall j :: 0 <= j < |frags| ==> WithinBudget(frags[j], fixed, buffer - LSP_HEADER - auth)
    ensures LSP_HEADER + Size(frags[k], RECEIVE_BUFFER) + auth <= buffer <= mtu - LLC_HEADER
  {
    var budget := buffer - LSP_HEADER - auth;
    assert WithinBudget(frags[k], fixed, budget);
    if Size(frags[k], RECEIVE_BUFFER) > budget {
      var t := frags[k][0];
      assert frags[k] == [t];
      if k != 0 || fixed == [] {
        LoneItemIsVariable(fixed, variable, frags, k);
      }
    }
  }

  /** An item alone in a fragment is one of the variable TLVs, unless it is what was fixed. */
  lemma LoneItemIsVariable(fixed: seq<Item>, variable: seq<Item>, frags: seq<seq<Item>>, k: nat)
    requires Flatten(frags) == fixed + variable && k < |frags| && fixed <= frags[0] && |frags[k]| == 1
    requires k == 0 ==> fixed == []
    ensures frags[k][0] in variable
  {
    FlattenFirst(frags);
    if k == 0 {
      assert frags[0][0] == (fixed + variable)[0];
    } else {
      InFlatten(frags[1..], k - 1);
      assert Flatten(frags[1..]) == (fixed + variable)[|frags[0]|..];
      assert Flatten(frags[1..]) == variable[|frags[0]| - |fixed|..];
    }
  }

  lemma {:induction false} InFlatten<T>(lists: seq<seq<T>>, k: nat)
    requires k < |lists| && lists[k] != []
    ensures lists[k][0] in Flatten(lists)
  {
    if k > 0 {
      InFlatten(lists[1..], k - 1);
    }
  }
}
