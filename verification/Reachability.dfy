/** The entry lists of the reachability and SRv6 locator TLVs, and whole TLV areas made of them. */
module Reachability {
  import opened Types
  import opened Wire
  import opened SubTlv
  import PlainTlv

  // ---------- SRv6 End SIDs ----------

  const END_SID: Octet := 5
  const END_SID_FIXED: nat := 20

  datatype EndSid = EndSid(flags: Octet, behavior: nat, sid: Bytes, parts: SidParts)

  function DecodeEndSid(v: Bytes): Option<EndSid> {
    if |v| < END_SID_FIXED then None
    else
      var n := v[19] as int;
      if |v| < END_SID_FIXED + n then None
      else
        match DecodeParts(v[END_SID_FIXED..END_SID_FIXED + n])
        case None => None
        case Some(p) => Some(EndSid(v[0], Be16(v[1], v[2]), v[3..19], p))
  }

  function EndSidOctets(e: EndSid, sub: Bytes): Bytes
    requires e.behavior < 0x1_0000 && |sub| < 256
  {
    Pack([e.flags], Octets16(e.behavior), e.sid, [|sub|], sub)
  }

  /** One End SID as the sub-TLV of a locator. */
  function EncodeEndSid(e: EndSid): Option<Raw> {
    if e.behavior >= 0x1_0000 || |e.sid| != 16 then None
    else
      match EncodeParts(e.parts, 255 - END_SID_FIXED)
      case None => None
      case Some(sub) => Limit(END_SID, EndSidOctets(e, sub))
  }

  lemma EndSidLayout(e: EndSid, sub: Bytes)
    requires e.behavior < 0x1_0000 && |sub| < 256 && |e.sid| == 16
    ensures var w := EndSidOctets(e, sub);
      && |w| == END_SID_FIXED + |sub| && w[0] == e.flags && Be16(w[1], w[2]) == e.behavior && w[3..19] == e.sid
      && w[19] as int == |sub| && w[END_SID_FIXED..END_SID_FIXED + |sub|] == sub
  {
    var b, w := Octets16(e.behavior), EndSidOctets(e, sub);
    Sections([e.flags], b, e.sid, [|sub|], sub, []);
    hide Be16; hide Octets16; hide Pack;
    assert w + [] == w;
    assert w[..1][0] == e.flags && w[1..3][0] == b[0] && w[1..3][1] == b[1] && w[19..20][0] as int == |sub|;
  }

  lemma EndSidIsFixed(v: Bytes)
    requires DecodeEndSid(v).Some? && |v| <= 255
    ensures var e := DecodeEndSid(v).value;
      && EncodeEndSid(e).Some? && EncodeEndSid(e).value.typ == END_SID && |EncodeEndSid(e).value.value| <= |v|
      && DecodeEndSid(EncodeEndSid(e).value.value) == Some(e)
  {
    hide DecodeParts; hide EncodeParts;
    var e, n := DecodeEndSid(v).value, v[19] as int;
    PartsAreFixed(v[END_SID_FIXED..END_SID_FIXED + n], 255 - END_SID_FIXED);
    EndSidLayout(e, EncodeParts(e.parts, 255 - END_SID_FIXED).value);
  }

  // ---------- The sub-TLVs of a locator ----------

  /** End SIDs and everything else, each in the order it came. */
  datatype LocatorSubs = LocatorSubs(endSids: seq<EndSid>, unknown: seq<Raw>)

  /** A bad End SID fails the locator; a sub-TLV of another type is kept as it is. */
  function LocatorParts(items: seq<Raw>): Option<LocatorSubs> {
    if items == [] then Some(LocatorSubs([], []))
    else
      var last := items[|items| - 1];
      match LocatorParts(items[..|items| - 1])
      case None => None
      case Some(p) =>
        if last.typ != END_SID then Some(p.(unknown := p.unknown + [last]))
        else
          match DecodeEndSid(last.value)
          case None => None
          case Some(e) => Some(p.(endSids := p.endSids + [e]))
  }

  function EncodeEndSids(sids: seq<EndSid>): Option<seq<Raw>> {
    if sids == [] then Some([])
    else
      match EncodeEndSids(sids[..|sids| - 1])
      case None => None
      case Some(items) =>
        match EncodeEndSid(sids[|sids| - 1])
        case None => None
        case Some(r) => Some(items + [r])
  }

  /** On the way out the End SIDs come first. */
  function EncodeLocatorSubs(p: LocatorSubs): Option<seq<Raw>> {
    match EncodeEndSids(p.endSids)
    case None => None
    case Some(items) => if Framed(p.unknown) then Some(items + p.unknown) else None
  }

  predicate NoneIsEndSid(items: seq<Raw>) {
    forall i :: 0 <= i < |items| ==> items[i].typ != END_SID
  }

  /** The End SIDs of a decoded list encode, and decode to themselves. */
  ghost predicate SidsFixed(sids: seq<EndSid>) {
    && EncodeEndSids(sids).Some? && Framed(EncodeEndSids(sids).value)
    && LocatorParts(EncodeEndSids(sids).value) == Some(LocatorSubs(sids, []))
  }

  ghost predicate PartsGood(items: seq<Raw>, p: LocatorSubs) {
    && SidsFixed(p.endSids) && NoneIsEndSid(p.unknown) && Framed(p.unknown)
    && AreaSize(EncodeEndSids(p.endSids).value) + AreaSize(p.unknown) <= AreaSize(items)
  }

  lemma {:induction false} LocatorPartsOk(items: seq<Raw>)
    requires Framed(items) && LocatorParts(items).Some?
    ensures PartsGood(items, LocatorParts(items).value)
  {
    hide PartsGood; hide DecodeEndSid;
    if items == [] {
      NoParts();
    } else {
      var k := |items| - 1;
      var p := LocatorParts(items[..k]).value;
      LocatorPartsOk(items[..k]);
      assert items == items[..k] + [items[k]];
      if items[k].typ == END_SID {
        GoodSid(items[..k], p, items[k]);
      } else {
        GoodUnknown(items[..k], p, items[k]);
      }
    }
  }

  lemma NoParts()
    ensures PartsGood([], LocatorSubs([], []))
  {
  }

  lemma GoodSid(items: seq<Raw>, p: LocatorSubs, r: Raw)
    requires PartsGood(items, p) && r.typ == END_SID && |r.value| <= 255 && DecodeEndSid(r.value).Some?
    ensures PartsGood(items + [r], p.(endSids := p.endSids + [DecodeEndSid(r.value).value]))
  {
    hide SidsFixed; hide DecodeEndSid; hide EncodeEndSid; hide EncodeEndSids;
    EndSidIsFixed(r.value);
    SidsGrow(p.endSids, DecodeEndSid(r.value).value);
    SizeOfConcat(items, [r]);
  }

  lemma GoodUnknown(items: seq<Raw>, p: LocatorSubs, r: Raw)
    requires PartsGood(items, p) && r.typ != END_SID && |r.value| <= 255
    ensures PartsGood(items + [r], p.(unknown := p.unknown + [r]))
  {
    hide SidsFixed; hide EncodeEndSids;
    SizeOfConcat(items, [r]);
    SizeOfConcat(p.unknown, [r]);
  }

  lemma SidsGrow(sids: seq<EndSid>, e: EndSid)
    requires SidsFixed(sids) && EncodeEndSid(e).Some?
    requires var r := EncodeEndSid(e).value; r.typ == END_SID && |r.value| <= 255 && DecodeEndSid(r.value) == Some(e)
    ensures SidsFixed(sids + [e])
    ensures AreaSize(EncodeEndSids(sids + [e]).value) == AreaSize(EncodeEndSids(sids).value) + 2 + |EncodeEndSid(e).value.value|
  {
    hide EncodeEndSid; hide DecodeEndSid;
    var items, r := EncodeEndSids(sids).value, EncodeEndSid(e).value;
    assert (sids + [e])[..|sids|] == sids && (items + [r])[..|items|] == items;
    SizeOfConcat(items, [r]);
  }

  /** Appending sub-TLVs of other types leaves the End SIDs alone. */
  lemma {:induction false} PartsWithUnknown(items: seq<Raw>, sids: seq<EndSid>, unknown: seq<Raw>)
    requires LocatorParts(items) == Some(LocatorSubs(sids, [])) && NoneIsEndSid(unknown)
    ensures LocatorParts(items + unknown) == Some(LocatorSubs(sids, unknown))
  {
    if unknown == [] {
      assert items + unknown == items;
    } else {
      var k := |unknown| - 1;
      PartsWithUnknown(items, sids, unknown[..k]);
      assert (items + unknown)[..|items| + k] == items + unknown[..k];
      assert unknown[..k] + [unknown[k]] == unknown;
    }
  }

  lemma LocatorSubsAreFixed(b: Bytes)
    requires Split(b).Some? && LocatorParts(Split(b).value).Some?
    ensures var p := LocatorParts(Split(b).value).value;
      && EncodeLocatorSubs(p).Some? && Framed(EncodeLocatorSubs(p).value)
      && |Join(EncodeLocatorSubs(p).value)| <= |b|
      && Split(Join(EncodeLocatorSubs(p).value)) == Some(EncodeLocatorSubs(p).value)
      && LocatorParts(EncodeLocatorSubs(p).value) == Some(p)
  {
    JoinOfSplit(b);
    LocatorPartsOk(Split(b).value);
    var p := LocatorParts(Split(b).value).value;
    var sids := EncodeEndSids(p.endSids).value;
    PartsWithUnknown(sids, p.endSids, p.unknown);
    SizeOfConcat(sids, p.unknown);
    SplitOfJoin(sids + p.unknown);
  }

  // ---------- Prefixes ----------

  function SigLen(bits: nat): nat {
    (bits + 7) / 8
  }

  /** What one octet keeps of its leading bits. */
  function KeepBits(o: Octet, bits: nat): Octet
    requires 1 <= bits <= 7
  {
    var unit := if bits == 1 then 128 else if bits == 2 then 64 else if bits == 3 then 32 else if bits == 4 then 16
                else if bits == 5 then 8 else if bits == 6 then 4 else 2;
    o / unit * unit
  }

  /** The significant octets with the bits past the prefix length cleared. */
  function Masked(sig: Bytes, bits: nat): Bytes
    requires |sig| == SigLen(bits)
  {
    if bits % 8 == 0 then sig else sig[|sig| - 1 := KeepBits(sig[|sig| - 1], bits % 8)]
  }

  lemma MaskedTwice(sig: Bytes, bits: nat)
    requires |sig| == SigLen(bits)
    ensures |Masked(sig, bits)| == |sig| && Masked(Masked(sig, bits), bits) == Masked(sig, bits)
  {
    if bits % 8 != 0 {
      KeepTwice(sig[|sig| - 1], bits % 8);
    }
  }

  lemma KeepTwice(o: Octet, bits: nat)
    requires 1 <= bits <= 7
    ensures KeepBits(KeepBits(o, bits), bits) == KeepBits(o, bits)
  {
  }

  // ---------- Entries ----------

  /** What a list holds: neighbours, prefixes of either family, or locators. */
  datatype Kind = Neighbors | Ipv4 | Ipv6 | Locators

  datatype Entry =
    | Neighbor(id: Bytes, metric: nat, subs: seq<LinkSub>)
    | Reach(cost: nat, down: bool, external: bool, bits: nat, sig: Bytes, opaques: seq<Raw>)
    | Locator(value: nat, flags: Octet, algorithm: Octet, size: nat, prefix: Bytes, parts: LocatorSubs)

  /** An entry and how many octets it took. */
  datatype Read = Read(entry: Entry, used: nat)

  function DecodeNeighbor(b: Bytes): Option<Read> {
    if |b| < 11 || |b| < 11 + b[10] as int then None
    else
      var n := b[10] as int;
      match DecodeArea(b[11..11 + n])
      case None => None
      case Some(subs) => Some(Read(Neighbor(b[..7], Be24(b[7..10]), subs), 11 + n))
  }

  function EncodeNeighbor(e: Entry): Option<Bytes>
    requires e.Neighbor?
  {
    if |e.id| != 7 || e.metric >= 0x100_0000 then None
    else
      match EncodeArea(e.subs)
      case None => None
      case Some(sub) => if |sub| > 255 then None else Some(Pack(e.id, Octets24(e.metric), [|sub|], sub, []))
  }

  lemma NeighborLayout(id: Bytes, metric: nat, sub: Bytes, tail: Bytes)
    requires |id| == 7 && metric < 0x100_0000 && |sub| <= 255
    ensures var w := Pack(id, Octets24(metric), [|sub|], sub, []) + tail;
      && |w| == 11 + |sub| + |tail| && w[..7] == id && w[7..10] == Octets24(metric)
      && w[10] as int == |sub| && w[11..11 + |sub|] == sub
  {
    var b := Octets24(metric);
    hide Octets24; hide Be24;
    Sections(id, b, [|sub|], sub, [], tail);
    hide Pack;
    assert (Pack(id, b, [|sub|], sub, []) + tail)[10..11][0] as int == |sub|;
  }

  /** An encoded entry decodes to itself in front of anything. */
  lemma NeighborRedecodes(e: Entry, sub: Bytes, tail: Bytes)
    requires e.Neighbor? && |e.id| == 7 && e.metric < 0x100_0000
    requires EncodeArea(e.subs) == Some(sub) && DecodeArea(sub) == Some(e.subs) && |sub| <= 255
    ensures EncodeNeighbor(e).Some? && |EncodeNeighbor(e).value| == 11 + |sub|
    ensures DecodeNeighbor(EncodeNeighbor(e).value + tail) == Some(Read(e, 11 + |sub|))
  {
    NeighborLayout(e.id, e.metric, sub, tail);
    hide DecodeArea; hide EncodeArea; hide Octets24; hide Be24; hide Pack;
  }

  lemma NeighborIsFixed(b: Bytes, tail: Bytes)
    requires DecodeNeighbor(b).Some?
    ensures var r := DecodeNeighbor(b).value;
      && r.entry.Neighbor? && EncodeNeighbor(r.entry).Some? && 0 < |EncodeNeighbor(r.entry).value| <= r.used <= |b|
      && DecodeNeighbor(EncodeNeighbor(r.entry).value + tail) == Some(r.(used := |EncodeNeighbor(r.entry).value|))
  {
    hide DecodeArea; hide EncodeArea; hide EncodeNeighbor; hide Be24;
    var r, n := DecodeNeighbor(b).value, b[10] as int;
    AreaIsFixed(b[11..11 + n]);
    NeighborRedecodes(r.entry, EncodeArea(r.entry.subs).value, tail);
    hide DecodeNeighbor;
  }

  /** Flags, prefix length and whether a sub-TLV block follows, by family. */
  datatype Control = Control(down: bool, external: bool, bits: nat, block: bool)

  function Head(v6: bool): nat {
    if v6 then 6 else 5
  }

  function MaxBits(v6: bool): nat {
    if v6 then 128 else 32
  }

  function ReadControl(b: Bytes, v6: bool): Control
    requires |b| >= Head(v6)
  {
    if v6 then Control(b[4] >= 128, b[4] % 128 >= 64, b[5], b[4] % 64 >= 32)
    else Control(b[4] >= 128, false, b[4] % 64, b[4] % 128 >= 64)
  }

  function ControlOctets(c: Control, v6: bool): Bytes
    requires c.bits <= MaxBits(v6)
  {
    var down := if c.down then 128 else 0;
    if v6 then [down + (if c.external then 64 else 0) + (if c.block then 32 else 0), c.bits]
    else [c.bits + down + (if c.block then 64 else 0)]
  }

  /** The sub-TLVs of a prefix and where they end. */
  datatype Tail = Tail(items: seq<Raw>, end: nat)

  function DecodeBlock(b: Bytes, off: nat, block: bool): Option<Tail>
    requires off <= |b|
  {
    if !block then Some(Tail([], off))
    else if |b| < off + 1 || |b| < off + 1 + b[off] as int then None
    else
      match Split(b[off + 1..off + 1 + b[off] as int])
      case None => None
      case Some(items) => Some(Tail(items, off + 1 + b[off] as int))
  }

  function DecodeReach(b: Bytes, v6: bool): Option<Read> {
    if |b| < Head(v6) then None
    else
      var c := ReadControl(b, v6);
      var off := Head(v6) + SigLen(c.bits);
      if c.bits > MaxBits(v6) || |b| < off then None
      else
        match DecodeBlock(b, off, c.block)
        case None => None
        case Some(t) => Some(Read(Reach(Be32(b[..4]), c.down, c.external, c.bits, b[Head(v6)..off], t.items), t.end))
  }

  /** The block's length octet is written only when there is a block. */
  function BlockLength(sub: Bytes): Bytes
    requires |sub| <= 255
  {
    if sub == [] then [] else [|sub|]
  }

  function ReachOctets(e: Entry, sub: Bytes, v6: bool): Bytes
    requires e.Reach? && e.cost < 0x1_0000_0000 && e.bits <= MaxBits(v6) && |sub| <= 255
  {
    Pack(Octets32(e.cost), ControlOctets(Control(e.down, e.external, e.bits, sub != []), v6), e.sig, BlockLength(sub), sub)
  }

  function EncodeReach(e: Entry, v6: bool): Option<Bytes>
    requires e.Reach?
  {
    if e.cost >= 0x1_0000_0000 || e.bits > MaxBits(v6) || |e.sig| != SigLen(e.bits) || !Framed(e.opaques) then None
    else
      var sub := Join(e.opaques);
      if |sub| > 255 then None else Some(ReachOctets(e, sub, v6))
  }

  lemma ControlIsFixed(c: Control, v6: bool, w: Bytes)
    requires c.bits <= MaxBits(v6) && (!v6 ==> !c.external)
    requires |w| >= Head(v6) && w[4..Head(v6)] == ControlOctets(c, v6)
    ensures ReadControl(w, v6) == c
  {
    assert w[4] == w[4..Head(v6)][0];
    if v6 { assert w[5] == w[4..Head(v6)][1]; }
  }

  /** Octets that start with an entry whose sub-TLV block is `sub`. */
  ghost predicate LaidOut(w: Bytes, e: Entry, sub: Bytes, v6: bool)
    requires e.Reach?
  {
    var off := Head(v6) + |e.sig|;
    && off <= |w| && ReadControl(w, v6) == Control(e.down, e.external, e.bits, sub != [])
    && Be32(w[..4]) == e.cost && w[Head(v6)..off] == e.sig && HasBlock(w, off, sub)
  }

  ghost predicate HasBlock(w: Bytes, off: nat, sub: Bytes) {
    sub != [] ==> off + 1 + |sub| <= |w| && w[off] as int == |sub| && w[off + 1..off + 1 + |sub|] == sub
  }

  lemma ReachLayout(e: Entry, sub: Bytes, v6: bool, tail: Bytes)
    requires e.Reach? && e.cost < 0x1_0000_0000 && e.bits <= MaxBits(v6) && (!v6 ==> !e.external)
    requires |sub| <= 255 && |e.sig| == SigLen(e.bits)
    ensures |ReachOctets(e, sub, v6)| == Head(v6) + |e.sig| + (if sub == [] then 0 else 1 + |sub|)
    ensures LaidOut(ReachOctets(e, sub, v6) + tail, e, sub, v6)
  {
    var c := Control(e.down, e.external, e.bits, sub != []);
    var m, k, n := Octets32(e.cost), ControlOctets(c, v6), BlockLength(sub);
    var w := ReachOctets(e, sub, v6) + tail;
    assert |k| == Head(v6) - 4;
    Sections(m, k, e.sig, n, sub, tail);
    hide Pack; hide Octets32; hide Be32; hide ControlOctets; hide SigLen; hide MaxBits;
    ControlIsFixed(c, v6, w);
    hide ReadControl;
    var off := Head(v6) + |e.sig|;
    if sub != [] {
      assert w[off..off + 1][0] == n[0];
    }
  }

  lemma ReachRedecodes(e: Entry, v6: bool, tail: Bytes)
    requires e.Reach? && e.cost < 0x1_0000_0000 && e.bits <= MaxBits(v6) && |e.sig| == SigLen(e.bits) && (!v6 ==> !e.external)
    requires Framed(e.opaques) && |Join(e.opaques)| <= 255
    ensures EncodeReach(e, v6).Some?
    ensures |EncodeReach(e, v6).value| == Head(v6) + |e.sig| + (if e.opaques == [] then 0 else 1 + |Join(e.opaques)|)
    ensures DecodeReach(EncodeReach(e, v6).value + tail, v6) == Some(Read(e, |EncodeReach(e, v6).value|))
  {
    hide ReachOctets; hide SigLen; hide DecodeReach; hide LaidOut; hide MaxBits; hide Head; hide Split;
    var sub := Join(e.opaques);
    ReachLayout(e, sub, v6, tail);
    SplitOfJoin(e.opaques);
    JoinIsEmpty(e.opaques);
    ReadsAs(ReachOctets(e, sub, v6) + tail, e, sub, v6);
  }

  lemma BlockReads(w: Bytes, off: nat, sub: Bytes, items: seq<Raw>)
    requires off <= |w| && HasBlock(w, off, sub) && Split(sub) == Some(items) && (sub == [] ==> items == [])
    ensures DecodeBlock(w, off, sub != []) == Some(Tail(items, off + if sub == [] then 0 else 1 + |sub|))
  {
    hide Split;
  }

  /** Octets laid out like an entry decode to it. */
  lemma ReadsAs(w: Bytes, e: Entry, sub: Bytes, v6: bool)
    requires e.Reach? && e.bits <= MaxBits(v6) && |e.sig| == SigLen(e.bits) && LaidOut(w, e, sub, v6)
    requires Split(sub) == Some(e.opaques) && (sub == [] ==> e.opaques == [])
    ensures DecodeReach(w, v6) == Some(Read(e, Head(v6) + |e.sig| + if sub == [] then 0 else 1 + |sub|))
  {
    hide Be32; hide ReadControl; hide Split; hide SigLen; hide DecodeBlock; hide HasBlock; hide MaxBits; hide Head;
    BlockReads(w, Head(v6) + |e.sig|, sub, e.opaques);
  }

  lemma JoinIsEmpty(items: seq<Raw>)
    requires Framed(items)
    ensures items == [] <==> Join(items) == []
  {
  }

  lemma ReachIsFixed(b: Bytes, v6: bool, tail: Bytes)
    requires DecodeReach(b, v6).Some?
    ensures var r := DecodeReach(b, v6).value;
      && r.entry.Reach? && EncodeReach(r.entry, v6).Some? && 0 < |EncodeReach(r.entry, v6).value| <= r.used <= |b|
      && DecodeReach(EncodeReach(r.entry, v6).value + tail, v6) == Some(r.(used := |EncodeReach(r.entry, v6).value|))
  {
    hide DecodeReach; hide EncodeReach;
    ReachArea(b, v6);
    ReachRedecodes(DecodeReach(b, v6).value.entry, v6, tail);
  }

  /** What a decoded prefix entry carries fits what it was read from. */
  lemma ReachArea(b: Bytes, v6: bool)
    requires DecodeReach(b, v6).Some?
    ensures var r := DecodeReach(b, v6).value; var e := r.entry;
      && e.Reach? && e.cost < 0x1_0000_0000 && e.bits <= MaxBits(v6) && |e.sig| == SigLen(e.bits) && (!v6 ==> !e.external)
      && Framed(e.opaques) && |Join(e.opaques)| <= 255
      && Head(v6) + |e.sig| + (if e.opaques == [] then 0 else 1 + |Join(e.opaques)|) <= r.used <= |b|
  {
    var c := ReadControl(b, v6);
    var off := Head(v6) + SigLen(c.bits);
    if c.block {
      JoinOfSplit(b[off + 1..off + 1 + b[off] as int]);
    }
    NothingToJoin();
    hide Split; hide Join; hide Be32;
  }

  // ---------- Locators ----------

  function DecodeLocator(b: Bytes): Option<Read> {
    if |b| < 8 then None
    else
      var bits := b[6] as int;
      var off := 7 + SigLen(bits);
      if bits > 128 || |b| < off then None
      else
        match Counted(b, off)
        case None => None
        case Some(sub) =>
          match DecodeLocatorSubs(sub)
          case None => None
          case Some(p) => Some(Read(Locator(Be32(b[..4]), b[4], b[5], bits, Masked(b[7..off], bits), p), off + 1 + |sub|))
  }

  /** The octets a length octet at `off` announces. */
  function Counted(b: Bytes, off: nat): (sub: Option<Bytes>)
    ensures sub.Some? ==> off + 1 + |sub.value| <= |b| && |sub.value| <= 255
  {
    if |b| < off + 1 || |b| < off + 1 + b[off] as int then None else Some(b[off + 1..off + 1 + b[off] as int])
  }

  function DecodeLocatorSubs(b: Bytes): Option<LocatorSubs> {
    match Split(b)
    case None => None
    case Some(items) => LocatorParts(items)
  }

  function LocatorOctets(e: Entry, sub: Bytes): Bytes
    requires e.Locator? && e.value < 0x1_0000_0000 && e.size <= 128 && |sub| <= 255
  {
    Pack(Octets32(e.value), [e.flags, e.algorithm, e.size], e.prefix, [|sub|], sub)
  }

  function EncodeLocator(e: Entry): Option<Bytes>
    requires e.Locator?
  {
    if e.value >= 0x1_0000_0000 || e.size > 128 || |e.prefix| != SigLen(e.size) then None
    else
      match EncodeLocatorSubs(e.parts)
      case None => None
      case Some(items) =>
        if !Framed(items) || |Join(items)| > 255 then None else Some(LocatorOctets(e, Join(items)))
  }

  /** Octets that start with a locator whose sub-TLVs are `sub`. */
  ghost predicate LocatorLaidOut(w: Bytes, e: Entry, sub: Bytes)
    requires e.Locator?
  {
    var off := 7 + |e.prefix|;
    && off + 1 + |sub| <= |w| && Be32(w[..4]) == e.value && w[4] == e.flags && w[5] == e.algorithm && w[6] as int == e.size
    && w[7..off] == e.prefix && Counted(w, off) == Some(sub)
  }

  lemma LocatorLayout(e: Entry, sub: Bytes, tail: Bytes)
    requires e.Locator? && e.value < 0x1_0000_0000 && e.size <= 128 && |sub| <= 255
    ensures |LocatorOctets(e, sub)| == 8 + |e.prefix| + |sub|
    ensures LocatorLaidOut(LocatorOctets(e, sub) + tail, e, sub)
  {
    var m, k: Bytes := Octets32(e.value), [e.flags, e.algorithm, e.size];
    Sections(m, k, e.prefix, [|sub|], sub, tail);
    hide Pack; hide Octets32; hide Be32;
    var w, off := LocatorOctets(e, sub) + tail, 7 + |e.prefix|;
    assert w[4..7][0] == k[0] && w[4..7][1] == k[1] && w[4..7][2] == k[2];
    assert w[off..off + 1][0] as int == |sub|;
  }

  lemma LocatorReadsAs(w: Bytes, e: Entry, sub: Bytes)
    requires e.Locator? && e.size <= 128 && |e.prefix| == SigLen(e.size) && Masked(e.prefix, e.size) == e.prefix
    requires LocatorLaidOut(w, e, sub) && DecodeLocatorSubs(sub) == Some(e.parts)
    ensures DecodeLocator(w) == Some(Read(e, 8 + |e.prefix| + |sub|))
  {
    hide Be32; hide SigLen; hide DecodeLocatorSubs; hide Masked; hide Counted;
  }

  lemma LocatorIsFixed(b: Bytes, tail: Bytes)
    requires DecodeLocator(b).Some?
    ensures var r := DecodeLocator(b).value;
      && r.entry.Locator? && EncodeLocator(r.entry).Some? && 0 < |EncodeLocator(r.entry).value| <= r.used <= |b|
      && DecodeLocator(EncodeLocator(r.entry).value + tail) == Some(r.(used := |EncodeLocator(r.entry).value|))
  {
    hide Be32; hide Split; hide LocatorParts; hide Masked; hide LocatorLaidOut; hide Join; hide EncodeLocatorSubs; hide LocatorOctets;
    hide Counted;
    var r := DecodeLocator(b).value;
    var e, off := r.entry, 7 + SigLen(b[6]);
    MaskedTwice(b[7..off], b[6]);
    LocatorSubsAreFixed(Counted(b, off).value);
    var items := EncodeLocatorSubs(e.parts).value;
    hide SigLen;
    LocatorLayout(e, Join(items), tail);
    LocatorReadsAs(LocatorOctets(e, Join(items)) + tail, e, Join(items));
    hide DecodeLocator;
  }

  // ---------- Lists ----------

  function DecodeOne(kind: Kind, b: Bytes): (r: Option<Read>)
    ensures r.Some? ==> 0 < r.value.used <= |b|
  {
    match kind
    case Neighbors => DecodeNeighbor(b)
    case Ipv4 => DecodeReach(b, false)
    case Ipv6 => DecodeReach(b, true)
    case Locators => DecodeLocator(b)
  }

  function EncodeOne(kind: Kind, e: Entry): Option<Bytes> {
    match kind
    case Neighbors => if e.Neighbor? then EncodeNeighbor(e) else None
    case Ipv4 => if e.Reach? then EncodeReach(e, false) else None
    case Ipv6 => if e.Reach? then EncodeReach(e, true) else None
    case Locators => if e.Locator? then EncodeLocator(e) else None
  }

  /** A decoded entry encodes, in no more octets, to what decodes to the same in front of anything. */
  lemma OneIsFixed(kind: Kind, b: Bytes, tail: Bytes)
    requires DecodeOne(kind, b).Some?
    ensures var r := DecodeOne(kind, b).value;
      && EncodeOne(kind, r.entry).Some? && 0 < |EncodeOne(kind, r.entry).value| <= r.used
      && DecodeOne(kind, EncodeOne(kind, r.entry).value + tail) == Some(r.(used := |EncodeOne(kind, r.entry).value|))
  {
    hide DecodeNeighbor; hide EncodeNeighbor; hide DecodeReach; hide EncodeReach; hide DecodeLocator; hide EncodeLocator;
    match kind
    case Neighbors => NeighborIsFixed(b, tail);
    case Ipv4 => ReachIsFixed(b, false, tail);
    case Ipv6 => ReachIsFixed(b, true, tail);
    case Locators => LocatorIsFixed(b, tail);
  }

  function DecodeEntries(kind: Kind, b: Bytes): Option<seq<Entry>>
    decreases |b|
  {
    if b == [] then Some([])
    else
      match DecodeOne(kind, b)
      case None => None
      case Some(r) => Prepend([r.entry], DecodeEntries(kind, b[r.used..]))
  }

  function EncodeEntries(kind: Kind, entries: seq<Entry>): Option<Bytes> {
    if entries == [] then Some([])
    else
      match EncodeOne(kind, entries[0])
      case None => None
      case Some(w) => Prepend(w, EncodeEntries(kind, entries[1..]))
  }

  lemma {:induction false} EntriesAreFixed(kind: Kind, b: Bytes)
    requires DecodeEntries(kind, b).Some?
    ensures var es := DecodeEntries(kind, b).value;
      && EncodeEntries(kind, es).Some? && |EncodeEntries(kind, es).value| <= |b|
      && DecodeEntries(kind, EncodeEntries(kind, es).value) == Some(es)
    decreases |b|
  {
    hide DecodeOne; hide EncodeOne;
    if b != [] {
      var r, es := DecodeOne(kind, b).value, DecodeEntries(kind, b).value;
      EntriesAreFixed(kind, b[r.used..]);
      assert es[0] == r.entry && es[1..] == DecodeEntries(kind, b[r.used..]).value;
      var rest := EncodeEntries(kind, es[1..]).value;
      OneIsFixed(kind, b, rest);
      var w := EncodeOne(kind, r.entry).value;
      assert (w + rest)[|w|..] == rest;
    }
  }

  // ---------- TLVs ----------

  /** A list TLV with its topology, or one that carries no reachability. */
  datatype Tlv = List(typ: Octet, mtid: nat, entries: seq<Entry>) | Other(plain: PlainTlv.Plain)

  /** The lists of the standard topology, and the same lists behind a topology number. */
  function KindOf(typ: Octet): Option<Kind> {
    if typ == 22 || typ == 222 then Some(Neighbors)
    else if typ == 135 || typ == 235 then Some(Ipv4)
    else if typ == 236 || typ == 237 then Some(Ipv6)
    else if typ == 27 then Some(Locators)
    else None
  }

  predicate HasTopology(typ: Octet) {
    typ == 27 || typ == 222 || typ == 235 || typ == 237
  }

  /** The list behind the topology octets, if there are any. */
  function Body(typ: Octet, v: Bytes): Bytes {
    if HasTopology(typ) && |v| >= 2 then v[2..] else v
  }

  function DecodeTlv(r: Raw): Option<Tlv> {
    match KindOf(r.typ)
    case None =>
      (match PlainTlv.Decode(r.typ, r.value)
       case None => None
       case Some(p) => Some(Other(p)))
    case Some(kind) =>
      if HasTopology(r.typ) && |r.value| < 2 then None
      else
        match DecodeEntries(kind, Body(r.typ, r.value))
        case None => None
        case Some(es) => Some(List(r.typ, if HasTopology(r.typ) then Be16(r.value[0] % 16, r.value[1]) else 0, es))
  }

  function EncodeTlv(t: Tlv): Option<Raw> {
    match t
    case Other(p) => PlainTlv.Encode(p)
    case List(typ, mtid, es) =>
      if mtid >= 0x1000 || KindOf(typ).None? then None
      else
        match EncodeEntries(KindOf(typ).value, es)
        case None => None
        case Some(b) => Limit(typ, (if HasTopology(typ) then Octets16(mtid) else []) + b)
  }

  lemma ListIsFixed(r: Raw)
    requires |r.value| <= 255 && KindOf(r.typ).Some? && DecodeTlv(r).Some?
    ensures var t := DecodeTlv(r).value;
      && EncodeTlv(t).Some? && EncodeTlv(t).value.typ == r.typ && |EncodeTlv(t).value.value| <= |r.value|
      && DecodeTlv(EncodeTlv(t).value) == Some(t)
  {
    hide DecodeEntries; hide EncodeEntries;
    var t, kind := DecodeTlv(r).value, KindOf(r.typ).value;
    EntriesAreFixed(kind, Body(r.typ, r.value));
    var b := EncodeEntries(kind, t.entries).value;
    if HasTopology(r.typ) {
      assert t.mtid < 0x1000;
      var w := Octets16(t.mtid) + b;
      assert w[2..] == b && w[0] == Octets16(t.mtid)[0] && w[1] == Octets16(t.mtid)[1];
      assert w[0] % 16 == w[0];
    } else {
      assert [] + b == b;
    }
  }

  /** Every TLV that decodes encodes, as the same type and in no more octets, to what decodes to the same. */
  lemma TlvIsFixed(r: Raw)
    requires |r.value| <= 255 && DecodeTlv(r).Some?
    ensures var t := DecodeTlv(r).value;
      && EncodeTlv(t).Some? && EncodeTlv(t).value.typ == r.typ && |EncodeTlv(t).value.value| <= |r.value|
      && DecodeTlv(EncodeTlv(t).value) == Some(t)
  {
    if KindOf(r.typ).Some? {
      ListIsFixed(r);
    } else {
      hide PlainTlv.Decode; hide PlainTlv.Encode;
      PlainTlv.PlainIsFixed(r.typ, r.value);
    }
  }

  function DecodeTlvs(items: seq<Raw>): Option<seq<Tlv>> {
    if items == [] then Some([])
    else
      match DecodeTlv(items[0])
      case None => None
      case Some(t) => Prepend([t], DecodeTlvs(items[1..]))
  }

  function EncodeTlvs(tlvs: seq<Tlv>): Option<seq<Raw>> {
    if tlvs == [] then Some([])
    else
      match EncodeTlv(tlvs[0])
      case None => None
      case Some(r) => Prepend([r], EncodeTlvs(tlvs[1..]))
  }

  /** A whole TLV area. */
  function DecodeTlvArea(b: Bytes): Option<seq<Tlv>> {
    match Split(b)
    case None => None
    case Some(items) => DecodeTlvs(items)
  }

  function EncodeTlvArea(tlvs: seq<Tlv>): Option<Bytes> {
    match EncodeTlvs(tlvs)
    case None => None
    case Some(items) => if Framed(items) then Some(Join(items)) else None
  }

  lemma {:induction false} TlvsAreFixed(items: seq<Raw>)
    requires Framed(items) && DecodeTlvs(items).Some?
    ensures var tlvs := DecodeTlvs(items).value;
      && EncodeTlvs(tlvs).Some? && Framed(EncodeTlvs(tlvs).value) && AreaSize(EncodeTlvs(tlvs).value) <= AreaSize(items)
      && DecodeTlvs(EncodeTlvs(tlvs).value) == Some(tlvs)
  {
    hide DecodeTlv; hide EncodeTlv;
    if items != [] {
      TlvIsFixed(items[0]);
      TlvsAreFixed(items[1..]);
      var tlvs := DecodeTlvs(items).value;
      assert tlvs[1..] == DecodeTlvs(items[1..]).value;
      var r, rest := EncodeTlv(tlvs[0]).value, EncodeTlvs(tlvs[1..]).value;
      assert ([r] + rest)[1..] == rest;
    }
  }

  /** Every area that decodes serializes again, in no more octets, and decodes to the same value. */
  lemma AreaIsFixedPoint(b: Bytes)
    requires DecodeTlvArea(b).Some?
    ensures var tlvs := DecodeTlvArea(b).value;
      EncodeTlvArea(tlvs).Some? && |EncodeTlvArea(tlvs).value| <= |b| && DecodeTlvArea(EncodeTlvArea(tlvs).value) == Some(tlvs)
  {
    hide DecodeTlvs; hide EncodeTlvs; hide Split; hide Join; hide AreaSize;
    JoinOfSplit(b);
    var items := Split(b).value;
    TlvsAreFixed(items);
    SplitOfJoin(EncodeTlvs(DecodeTlvs(items).value).value);
  }
}
