/** What the octets of each TLV mean: where every field stands, read as a number most significant octet first. */
module Layout {
  import opened Types
  import opened Wire
  import opened SubTlv
  import opened Reachability
  import PlainTlv
  import Snp

  // ---------- Numbers ----------

  ghost function Number(b: Bytes, i: nat, j: nat): nat
    requires i <= j <= |b|
  {
    Snp.Value(b[i..j])
  }

  lemma NumberOfTwo(b: Bytes, i: nat)
    requires i + 2 <= |b|
    ensures Number(b, i, i + 2) == b[i] as int * 256 + b[i + 1]
  {
    var o := b[i..i + 2];
    assert o[..1] == [b[i]] && o[..1][..0] == [];
    assert Snp.Value([b[i]]) == b[i];
  }

  lemma NumberOfThree(b: Bytes, i: nat)
    requires i + 3 <= |b|
    ensures Number(b, i, i + 3) == (b[i] as int * 256 + b[i + 1]) * 256 + b[i + 2]
  {
    NumberOfTwo(b, i);
    assert b[i..i + 3][..2] == b[i..i + 2];
  }

  lemma NumberOfFour(b: Bytes, i: nat)
    requires i + 4 <= |b|
    ensures Number(b, i, i + 4) == ((b[i] as int * 256 + b[i + 1]) * 256 + b[i + 2]) * 256 + b[i + 3]
  {
    NumberOfThree(b, i);
    assert b[i..i + 4][..3] == b[i..i + 3];
  }

  /** The numbers of the codec are what the octets spell. */
  lemma NumbersAreRead(b: Bytes, i: nat)
    ensures i + 2 <= |b| ==> Be16(b[i], b[i + 1]) == Number(b, i, i + 2)
    ensures i + 3 <= |b| ==> Be24(b[i..i + 3]) == Number(b, i, i + 3)
    ensures i + 4 <= |b| ==> Be32(b[i..i + 4]) == Number(b, i, i + 4)
  {
    if i + 2 <= |b| { NumberOfTwo(b, i); }
    if i + 3 <= |b| { NumberOfThree(b, i); }
    if i + 4 <= |b| { NumberOfFour(b, i); }
  }

  // ---------- Areas ----------

  /** Items one after another: a type, a length, and so many octets. */
  ghost predicate SpellsItems(b: Bytes, items: seq<Raw>) {
    if items == [] then b == []
    else
      var r := items[0];
      && 2 + |r.value| <= |b| && b[0] == r.typ && b[1] as int == |r.value| && b[2..2 + |r.value|] == r.value
      && SpellsItems(b[2 + |r.value|..], items[1..])
  }

  lemma {:induction false} ItemsMean(b: Bytes, items: seq<Raw>)
    ensures Split(b) == Some(items) <==> SpellsItems(b, items)
    decreases |items|
  {
    if items != [] && |b| >= 2 && 2 + b[1] as int <= |b| {
      ItemsMean(b[2 + b[1] as int..], items[1..]);
      assert items == [items[0]] + items[1..];
    }
  }

  /** The parts of a SID: the first structure of four octets, and every other item in its place. */
  ghost predicate SpellsParts(items: seq<Raw>, p: SidParts) {
    if p.structure.None? then p.unknown == items && NoStructure(items)
    else exists k: nat :: IsTakenOut(items, k, p)
  }

  ghost predicate NoStructure(items: seq<Raw>) {
    forall i :: 0 <= i < |items| ==> !(items[i].typ == 1 && |items[i].value| == 4)
  }

  ghost predicate IsTakenOut(items: seq<Raw>, k: nat, p: SidParts) {
    && k < |items| && items[k].typ == 1 && |items[k].value| == 4 && NoStructure(items[..k])
    && p.structure == Some(items[k].value) && p.unknown == items[..k] + items[k + 1..]
  }

  lemma StillTakenOut(items: seq<Raw>, k: nat, p: SidParts, last: Raw)
    requires IsTakenOut(items, k, p)
    ensures IsTakenOut(items + [last], k, p.(unknown := p.unknown + [last]))
  {
    var all := items + [last];
    assert all[..k] == items[..k] && all[k + 1..] == items[k + 1..] + [last];
  }

  lemma TakenOutLast(items: seq<Raw>, p: SidParts, last: Raw)
    requires NoStructure(items) && last.typ == 1 && |last.value| == 4 && p == SidParts(Some(last.value), items)
    ensures IsTakenOut(items + [last], |items|, p)
  {
    var all := items + [last];
    assert all[..|items|] == items && all[|items| + 1..] == [];
  }

  lemma {:induction false} PartsMean(items: seq<Raw>)
    ensures SpellsParts(items, Parts(items))
  {
    hide IsTakenOut;
    if items != [] {
      var init, last := items[..|items| - 1], items[|items| - 1];
      PartsMean(init);
      var p := Parts(init);
      assert items == init + [last];
      if p.structure.Some? {
        var k: nat :| IsTakenOut(init, k, p);
        StillTakenOut(init, k, p, last);
      } else if IsStructure(last) {
        TakenOutLast(init, Parts(items), last);
      }
    }
  }

  /** Flags, two octets of behaviour, the SID, and a counted area. */
  ghost predicate SpellsEndSid(v: Bytes, e: EndSid) {
    && |v| >= 20 && 20 + v[19] as int <= |v|
    && e.flags == v[0] && e.behavior == Number(v, 1, 3) && e.sid == v[3..19]
    && DecodeParts(v[20..20 + v[19] as int]) == Some(e.parts)
  }

  lemma EndSidMeans(v: Bytes, e: EndSid)
    ensures DecodeEndSid(v) == Some(e) <==> SpellsEndSid(v, e)
  {
    hide DecodeParts; hide Number; hide Be16;
    NumbersAreRead(v, 1);
  }

  /** The items that are End SIDs, or the ones that are not, in order. */
  ghost function Chosen(items: seq<Raw>, sids: bool): seq<Raw> {
    if items == [] then []
    else
      var last := items[|items| - 1];
      Chosen(items[..|items| - 1], sids) + if (last.typ == 5) == sids then [last] else []
  }

  /** The sub-TLVs of a locator: every End SID in order, and everything else in order. */
  ghost predicate SpellsSids(items: seq<Raw>, p: LocatorSubs) {
    && p.unknown == Chosen(items, false) && |p.endSids| == |Chosen(items, true)|
    && forall i :: 0 <= i < |p.endSids| ==> SpellsEndSid(Chosen(items, true)[i].value, p.endSids[i])
  }

  lemma SidsStep(items: seq<Raw>, p: LocatorSubs)
    requires items != []
    ensures var last, init := items[|items| - 1], items[..|items| - 1];
            SpellsSids(items, p) <==>
              if last.typ == 5 then
                && p.endSids != [] && SpellsEndSid(last.value, p.endSids[|p.endSids| - 1])
                && SpellsSids(init, p.(endSids := p.endSids[..|p.endSids| - 1]))
              else
                p.unknown != [] && p.unknown[|p.unknown| - 1] == last && SpellsSids(init, p.(unknown := p.unknown[..|p.unknown| - 1]))
  {
    hide SpellsEndSid;
    var last, init := items[|items| - 1], items[..|items| - 1];
    if last.typ == 5 {
      assert Chosen(items, true) == Chosen(init, true) + [last] && Chosen(items, false) == Chosen(init, false);
    } else {
      assert Chosen(items, false) == Chosen(init, false) + [last] && Chosen(items, true) == Chosen(init, true);
    }
  }

  lemma {:induction false} SidsMean(items: seq<Raw>, p: LocatorSubs)
    ensures LocatorParts(items) == Some(p) <==> SpellsSids(items, p)
    decreases |items|
  {
    hide SpellsEndSid; hide DecodeEndSid;
    if items != [] {
      var last, init := items[|items| - 1], items[..|items| - 1];
      SidsStep(items, p);
      hide SpellsSids;
      if last.typ == 5 && p.endSids != [] {
        var n := |p.endSids| - 1;
        SidsMean(init, p.(endSids := p.endSids[..n]));
        EndSidMeans(last.value, p.endSids[n]);
        assert p.endSids == p.endSids[..n] + [p.endSids[n]];
      } else if last.typ != 5 && p.unknown != [] {
        var n := |p.unknown| - 1;
        SidsMean(init, p.(unknown := p.unknown[..n]));
        assert p.unknown == p.unknown[..n] + [p.unknown[n]];
      }
    }
  }

  // ---------- Entries ----------

  /** The octets that carry so many bits. */
  ghost predicate Carry(octets: nat, bits: nat) {
    8 * octets >= bits && (octets > 0 ==> 8 * (octets - 1) < bits)
  }

  lemma CarryIsUnique(octets: nat, bits: nat)
    ensures Carry(octets, bits) <==> octets == SigLen(bits)
  {
  }

  /** Seven octets of node, three of metric, and a counted area of sub-TLVs. */
  ghost predicate SpellsNeighbor(b: Bytes, e: Entry, used: nat) {
    && |b| >= 11 && used == 11 + b[10] as int <= |b| && e.Neighbor?
    && e.id == b[..7] && e.metric == Number(b, 7, 10) && DecodeArea(b[11..used]) == Some(e.subs)
  }

  lemma NeighborMeans(b: Bytes, e: Entry, used: nat)
    ensures DecodeNeighbor(b) == Some(Read(e, used)) <==> SpellsNeighbor(b, e, used)
  {
    hide DecodeArea; hide Be24; hide Number;
    NumbersAreRead(b, 7);
  }

  /** The sub-TLVs of a prefix: none without the block flag, else a counted area. */
  ghost predicate SpellsBlock(b: Bytes, off: nat, block: bool, items: seq<Raw>, end: nat) {
    if block then off < |b| && end == off + 1 + b[off] as int <= |b| && Split(b[off + 1..end]) == Some(items)
    else end == off && items == []
  }

  /** Four octets of metric; down, a block flag and six bits of length in one octet; the octets the length takes. */
  ghost predicate SpellsIpv4(b: Bytes, e: Entry, used: nat) {
    && |b| >= 5 && e.Reach? && e.cost == Number(b, 0, 4)
    && (e.down <==> b[4] >= 128) && !e.external && e.bits == (b[4] % 64) as int <= 32
    && Carry(|e.sig|, e.bits) && 5 + |e.sig| <= |b| && e.sig == b[5..5 + |e.sig|]
    && SpellsBlock(b, 5 + |e.sig|, (b[4] / 64) % 2 == 1, e.opaques, used)
  }

  /** Four octets of metric; down, external and a block flag in one octet; the length in the next; its octets. */
  ghost predicate SpellsIpv6(b: Bytes, e: Entry, used: nat) {
    && |b| >= 6 && e.Reach? && e.cost == Number(b, 0, 4)
    && (e.down <==> b[4] >= 128) && (e.external <==> (b[4] / 64) % 2 == 1) && e.bits == b[5] as int <= 128
    && Carry(|e.sig|, e.bits) && 6 + |e.sig| <= |b| && e.sig == b[6..6 + |e.sig|]
    && SpellsBlock(b, 6 + |e.sig|, (b[4] / 32) % 2 == 1, e.opaques, used)
  }

  lemma BlockMeans(b: Bytes, off: nat, block: bool, items: seq<Raw>, end: nat)
    requires off <= |b|
    ensures DecodeBlock(b, off, block) == Some(Tail(items, end)) <==> SpellsBlock(b, off, block, items, end)
  {
    hide Split;
  }

  lemma ControlMeans(b: Bytes, v6: bool)
    requires |b| >= Head(v6)
    ensures var c := ReadControl(b, v6);
            && (c.down <==> b[4] >= 128) && (c.external <==> v6 && (b[4] / 64) % 2 == 1)
            && c.bits == (if v6 then b[5] as int else (b[4] % 64) as int)
            && (c.block <==> if v6 then (b[4] / 32) % 2 == 1 else (b[4] / 64) % 2 == 1)
  {
  }

  lemma ReachMeans(b: Bytes, e: Entry, used: nat)
    ensures DecodeReach(b, false) == Some(Read(e, used)) <==> SpellsIpv4(b, e, used)
    ensures DecodeReach(b, true) == Some(Read(e, used)) <==> SpellsIpv6(b, e, used)
  {
    ReachMeansIn(b, e, used, false);
    ReachMeansIn(b, e, used, true);
  }

  lemma ReachMeansIn(b: Bytes, e: Entry, used: nat, v6: bool)
    ensures DecodeReach(b, v6) == Some(Read(e, used)) <==> if v6 then SpellsIpv6(b, e, used) else SpellsIpv4(b, e, used)
  {
    hide Be32; hide Number; hide ReadControl; hide DecodeBlock; hide SpellsBlock; hide SigLen; hide Carry;
    if |b| >= Head(v6) {
      NumbersAreRead(b, 0);
      ControlMeans(b, v6);
      var c := ReadControl(b, v6);
      var off := Head(v6) + SigLen(c.bits);
      if e.Reach? { CarryIsUnique(|e.sig|, c.bits); }
      CarryIsUnique(SigLen(c.bits), c.bits);
      if off <= |b| {
        assert |b[Head(v6)..off]| == SigLen(c.bits);
        if e.Reach? { BlockMeans(b, off, c.block, e.opaques, used); }
      }
    }
  }

  ghost function Power2(n: nat): (p: nat)
    ensures p > 0
  {
    if n == 0 then 1 else 2 * Power2(n - 1)
  }

  /** The octets of a prefix with every bit past its length cleared. */
  ghost predicate Cleared(p: Bytes, sig: Bytes, bits: nat) {
    && |p| == |sig| && Carry(|sig|, bits)
    && (sig != [] ==> p[..|p| - 1] == sig[..|sig| - 1] && p[|p| - 1] == sig[|sig| - 1] - sig[|sig| - 1] % Power2(8 * |sig| - bits))
  }

  lemma PowersOfTwo()
    ensures Power2(0) == 1 && Power2(1) == 2 && Power2(2) == 4 && Power2(3) == 8
    ensures Power2(4) == 16 && Power2(5) == 32 && Power2(6) == 64 && Power2(7) == 128
  {
  }

  lemma MaskMeans(p: Bytes, sig: Bytes, bits: nat)
    requires |sig| == SigLen(bits)
    ensures p == Masked(sig, bits) <==> Cleared(p, sig, bits)
  {
    PowersOfTwo();
    if bits % 8 != 0 {
      var k := |sig| - 1;
      assert 8 * |sig| - bits == 8 - bits % 8;
      var m := Masked(sig, bits);
      assert m[..k] == sig[..k] && m == m[..k] + [m[k]];
      if |p| == |sig| { assert p == p[..k] + [p[k]]; }
    } else if sig != [] {
      var k := |sig| - 1;
      assert sig == sig[..k] + [sig[k]];
      if |p| == |sig| { assert p == p[..k] + [p[k]]; }
    }
  }

  /** Four octets of metric, the flags, the algorithm, the length, its octets without the bits past it, and the SIDs. */
  ghost predicate SpellsLocator(b: Bytes, e: Entry, used: nat) {
    && e.Locator? && |b| >= 8 && e.value == Number(b, 0, 4) && e.flags == b[4] && e.algorithm == b[5]
    && e.size == b[6] as int <= 128 && 7 + |e.prefix| < |b| && Cleared(e.prefix, b[7..7 + |e.prefix|], e.size)
    && used == 8 + |e.prefix| + b[7 + |e.prefix|] as int <= |b|
    && DecodeLocatorSubs(b[8 + |e.prefix|..used]) == Some(e.parts)
  }

  lemma LocatorMeans(b: Bytes, e: Entry, used: nat)
    ensures DecodeLocator(b) == Some(Read(e, used)) <==> SpellsLocator(b, e, used)
  {
    hide Be32; hide Number; hide SigLen; hide Masked; hide Cleared; hide DecodeLocatorSubs;
    if |b| >= 8 {
      var bits := b[6] as int;
      var off := 7 + SigLen(bits);
      NumbersAreRead(b, 0);
      if off <= |b| {
        var sig := b[7..off];
        MaskedSize(sig, bits);
        if e.Locator? {
          MaskMeans(e.prefix, sig, bits);
          ClearedSize(e.prefix, sig, bits);
        }
      }
      if SpellsLocator(b, e, used) {
        ClearedSize(e.prefix, b[7..7 + |e.prefix|], bits);
      }
    }
  }

  lemma MaskedSize(sig: Bytes, bits: nat)
    requires |sig| == SigLen(bits)
    ensures |Masked(sig, bits)| == |sig|
  {
  }

  lemma ClearedSize(p: Bytes, sig: Bytes, bits: nat)
    ensures Cleared(p, sig, bits) ==> |p| == |sig| == SigLen(bits)
  {
  }

  // ---------- Lists ----------

  /** The entries of a list, one after another, as the octets spell them. */
  ghost predicate SpellsOne(kind: Kind, b: Bytes, e: Entry, used: nat) {
    match kind
    case Neighbors => SpellsNeighbor(b, e, used)
    case Ipv4 => SpellsIpv4(b, e, used)
    case Ipv6 => SpellsIpv6(b, e, used)
    case Locators => SpellsLocator(b, e, used)
  }

  ghost predicate SpellsAll(kind: Kind, b: Bytes, es: seq<Entry>) {
    if es == [] then b == []
    else exists used: nat :: used <= |b| && SpellsOne(kind, b, es[0], used) && SpellsAll(kind, b[used..], es[1..])
  }

  lemma OneMeans(kind: Kind, b: Bytes, e: Entry, used: nat)
    ensures DecodeOne(kind, b) == Some(Read(e, used)) <==> SpellsOne(kind, b, e, used)
  {
    hide SpellsNeighbor; hide SpellsIpv4; hide SpellsIpv6; hide SpellsLocator;
    hide DecodeNeighbor; hide DecodeReach; hide DecodeLocator;
    match kind
    case Neighbors => NeighborMeans(b, e, used);
    case Ipv4 => ReachMeans(b, e, used);
    case Ipv6 => ReachMeans(b, e, used);
    case Locators => LocatorMeans(b, e, used);
  }

  lemma {:induction false} ListMeans(kind: Kind, b: Bytes, es: seq<Entry>)
    ensures DecodeEntries(kind, b) == Some(es) <==> SpellsAll(kind, b, es)
    decreases |es|
  {
    hide SpellsOne; hide DecodeOne;
    if es == [] {
      if b != [] && DecodeOne(kind, b).Some? { assert DecodeEntries(kind, b) != Some([]); }
    } else if b == [] {
      forall used: nat | used <= |b|
        ensures !SpellsOne(kind, b, es[0], used)
      {
        OneMeans(kind, b, es[0], used);
      }
    } else {
      ListMeansStep(kind, b, es);
      forall used: nat | used <= |b|
        ensures SpellsAll(kind, b[used..], es[1..]) <==> DecodeEntries(kind, b[used..]) == Some(es[1..])
        ensures SpellsOne(kind, b, es[0], used) <==> DecodeOne(kind, b) == Some(Read(es[0], used))
      {
        ListMeans(kind, b[used..], es[1..]);
        OneMeans(kind, b, es[0], used);
      }
    }
  }

  lemma ListMeansStep(kind: Kind, b: Bytes, es: seq<Entry>)
    requires b != [] && es != []
    ensures DecodeEntries(kind, b) == Some(es) <==>
            DecodeOne(kind, b).Some? && DecodeOne(kind, b).value.entry == es[0] &&
            DecodeEntries(kind, b[DecodeOne(kind, b).value.used..]) == Some(es[1..])
  {
    hide DecodeOne;
    assert es == [es[0]] + es[1..];
  }

  /** The lists of the standard topology by their types, and the lists behind twelve bits of topology by theirs. */
  ghost predicate SpellsList(r: Raw, mtid: nat, es: seq<Entry>) {
    if r.typ == 22 then mtid == 0 && SpellsAll(Neighbors, r.value, es)
    else if r.typ == 135 then mtid == 0 && SpellsAll(Ipv4, r.value, es)
    else if r.typ == 236 then mtid == 0 && SpellsAll(Ipv6, r.value, es)
    else
      && r.typ in {27, 222, 235, 237} && |r.value| >= 2 && mtid == Number(r.value, 0, 2) % 4096
      && SpellsAll(if r.typ == 27 then Locators else if r.typ == 222 then Neighbors else if r.typ == 235 then Ipv4 else Ipv6,
                   r.value[2..], es)
  }

  /** A list TLV is read exactly as its octets spell it, and no other type is read as one. */
  lemma TlvMeans(r: Raw, mtid: nat, es: seq<Entry>)
    ensures DecodeTlv(r) == Some(List(r.typ, mtid, es)) <==> SpellsList(r, mtid, es)
  {
    hide DecodeEntries; hide SpellsAll; hide PlainTlv.Decode;
    if KindOf(r.typ).Some? {
      ListMeans(KindOf(r.typ).value, Body(r.typ, r.value), es);
    }
    if |r.value| >= 2 { TopologyNumber(r.value); }
    hide Number;
  }

  lemma TopologyNumber(v: Bytes)
    requires |v| >= 2
    ensures Be16(v[0] % 16, v[1]) == Number(v, 0, 2) % 4096
  {
    NumberOfTwo(v, 0);
    assert v[0] == 16 * (v[0] / 16) + v[0] % 16;
    assert v[0] as int * 256 + v[1] == 4096 * (v[0] / 16) as int + ((v[0] % 16) as int * 256 + v[1]);
  }

  // ---------- Sub-TLVs of a neighbour ----------

  lemma {:induction false} WordsMean(b: Bytes, i: nat)
    requires |b| % 4 == 0 && 4 * i < |b|
    ensures 4 * |Words(b)| == |b| && Words(b)[i] == Number(b, 4 * i, 4 * i + 4)
  {
    WordCount(b);
    if i == 0 {
      NumbersAreRead(b, 0);
    } else {
      WordsMean(b[4..], i - 1);
      assert b[4..][4 * (i - 1)..4 * i] == b[4 * i..4 * i + 4];
    }
  }

  /** Flags, algorithm and weight, two octets of behaviour, the SID, and a counted area. */
  ghost predicate SpellsEndX(v: Bytes, e: EndX) {
    && |v| >= 22 && 22 + v[21] as int <= |v|
    && e.flags == v[0] && e.algorithm == v[1] && e.weight == v[2] && e.behavior == Number(v, 3, 5) && e.sid == v[5..21]
    && DecodeParts(v[22..22 + v[21] as int]) == Some(e.parts)
  }

  lemma EndXMeans(v: Bytes, e: EndX)
    ensures DecodeEndX(v) == Some(e) <==> SpellsEndX(v, e)
  {
    hide DecodeParts; hide Number; hide Be16;
    NumbersAreRead(v, 3);
  }

  /** A flag and a length of at most 8 in each of two octets, the masks they count, and an area of attributes. */
  ghost predicate SpellsAsla(v: Bytes, x: LinkSub) {
    && x.Scoped? && |v| >= 2 && |x.sabm| <= 8 && |x.udabm| <= 8
    && (x.legacy <==> v[0] >= 128) && |x.sabm| == (v[0] % 128) as int && |x.udabm| == (v[1] % 128) as int
    && (var s, u := |x.sabm|, |x.udabm|;
        && 2 + s + u <= |v| && x.sabm == v[2..2 + s] && x.udabm == v[2 + s..2 + s + u]
        && Split(v[2 + s + u..]).Some? && x.attrs == DecodeAttrs(Split(v[2 + s + u..]).value))
  }

  lemma AslaMeans(v: Bytes, x: LinkSub)
    ensures DecodeAsla(v) == Some(x) <==> SpellsAsla(v, x)
  {
    hide Split; hide DecodeAttrs;
  }

  /** No decoder reads the sub-TLV: the type is not one of theirs, or the octets are not what it takes. */
  ghost predicate Unread(r: Raw) {
    && (r.typ == 3 ==> |r.value| != 4)
    && (r.typ == 14 ==> |r.value| % 4 != 0)
    && (r.typ == 16 ==> forall x :: !SpellsAsla(r.value, x))
    && (r.typ == 43 ==> forall e :: !SpellsEndX(r.value, e))
    && (r.typ == 44 && |r.value| >= 6 ==> forall e :: !SpellsEndX(r.value[6..], e))
  }

  /** What the types of sub-TLVs stand for; what is not read is kept as it came, and noted as refused if its type is known. */
  ghost predicate SpellsSub(r: Raw, x: LinkSub) {
    match x
    case Plain(Group(extended, words)) =>
      if extended then r.typ == 14 && |r.value| % 4 == 0 && words == Words(r.value)
      else r.typ == 3 && |r.value| == 4 && |words| == 1 && words[0] == Number(r.value, 0, 4)
    case Plain(Opaque(typ, value, refused)) =>
      r == Raw(typ, value) && (refused <==> typ in {3, 14, 16, 43, 44}) && Unread(r)
    case Scoped(_, _, _, _) => r.typ == 16 && SpellsAsla(r.value, x)
    case Adjacent(e) => r.typ == 43 && SpellsEndX(r.value, e)
    case LanAdjacent(neighbor, e) => r.typ == 44 && |r.value| >= 6 && neighbor == r.value[..6] && SpellsEndX(r.value[6..], e)
  }

  lemma UnreadIs(r: Raw)
    ensures Unread(r) <==>
            && (r.typ == 3 ==> |r.value| != 4) && (r.typ == 14 ==> |r.value| % 4 != 0)
            && (r.typ == 16 ==> DecodeAsla(r.value).None?) && (r.typ == 43 ==> DecodeEndX(r.value).None?)
            && (r.typ == 44 && |r.value| >= 6 ==> DecodeEndX(r.value[6..]).None?)
  {
    hide SpellsAsla; hide SpellsEndX; hide DecodeAsla; hide DecodeEndX;
    forall x ensures SpellsAsla(r.value, x) <==> DecodeAsla(r.value) == Some(x) { AslaMeans(r.value, x); }
    forall e ensures SpellsEndX(r.value, e) <==> DecodeEndX(r.value) == Some(e) { EndXMeans(r.value, e); }
    if |r.value| >= 6 {
      forall e ensures SpellsEndX(r.value[6..], e) <==> DecodeEndX(r.value[6..]) == Some(e) { EndXMeans(r.value[6..], e); }
    }
    if DecodeAsla(r.value).Some? { assert SpellsAsla(r.value, DecodeAsla(r.value).value); }
    if DecodeEndX(r.value).Some? { assert SpellsEndX(r.value, DecodeEndX(r.value).value); }
    if |r.value| >= 6 && DecodeEndX(r.value[6..]).Some? { assert SpellsEndX(r.value[6..], DecodeEndX(r.value[6..]).value); }
  }

  /** A sub-TLV is read exactly as its octets spell it. */
  lemma SubMeans(r: Raw, x: LinkSub)
    ensures DecodeLinkSub(r) == x <==> SpellsSub(r, x)
  {
    hide SpellsAsla; hide SpellsEndX; hide DecodeAsla; hide DecodeEndX; hide Unread; hide Words; hide Number; hide Be32;
    UnreadIs(r);
    NumbersAreRead(r.value, 0);
    if |r.value| == 4 { assert r.value[..4] == r.value; }
    if x.Scoped? { AslaMeans(r.value, x); }
    if x.Adjacent? { EndXMeans(r.value, x.endx); }
    if x.LanAdjacent? && |r.value| >= 6 { EndXMeans(r.value[6..], x.lan); }
    if DecodeAsla(r.value).Some? { AslaMeans(r.value, DecodeAsla(r.value).value); ScopedOnly(r.value, DecodeAsla(r.value).value); }
  }

  lemma ScopedOnly(v: Bytes, x: LinkSub)
    requires SpellsAsla(v, x)
    ensures x.Scoped?
  {
  }

  // ---------- TLVs that carry no reachability ----------

  /** Addresses, each behind its length of 1 to 13 octets. */
  ghost predicate SpellsAreas(v: Bytes, areas: seq<Bytes>) {
    if areas == [] then v == []
    else 1 <= |areas[0]| <= 13 && |areas[0]| < |v| && v[0] as int == |areas[0]| && v[1..1 + |areas[0]|] == areas[0] &&
         SpellsAreas(v[1 + |areas[0]|..], areas[1..])
  }

  lemma {:induction false} AreasMean(v: Bytes, areas: seq<Bytes>)
    ensures PlainTlv.ReadAreas(v) == Some(areas) <==> SpellsAreas(v, areas)
    decreases |areas|
  {
    if areas != [] {
      assert areas == [areas[0]] + areas[1..];
      if v != [] && 1 <= v[0] <= 13 && 1 + v[0] as int <= |v| { AreasMean(v[1 + v[0] as int..], areas[1..]); }
    }
  }

  /** Pairs of octets: overload, attached and twelve bits of topology. */
  ghost predicate SpellsTopologies(v: Bytes, ts: seq<PlainTlv.Topology>) {
    |v| == 2 * |ts| && forall i :: 0 <= i < |ts| ==> SpellsTopology(v, 2 * i, ts[i])
  }

  ghost predicate SpellsTopology(v: Bytes, at: nat, t: PlainTlv.Topology) {
    && at + 2 <= |v| && t.mtid == Number(v, at, at + 2) % 4096
    && (t.overload <==> v[at] >= 128) && (t.attached <==> (v[at] / 64) % 2 == 1)
  }

  lemma FirstTopology(v: Bytes, t: PlainTlv.Topology)
    requires |v| >= 2
    ensures SpellsTopology(v, 0, t) <==> t == PlainTlv.Topology(Be16(v[0] % 16, v[1]), PlainTlv.Bit(v[0], 128), PlainTlv.Bit(v[0], 64))
  {
    TopologyNumber(v);
  }

  lemma LaterTopologies(v: Bytes, ts: seq<PlainTlv.Topology>)
    requires |v| >= 2 && ts != []
    ensures SpellsTopologies(v, ts) <==> SpellsTopology(v, 0, ts[0]) && SpellsTopologies(v[2..], ts[1..])
  {
    var w, us := v[2..], ts[1..];
    if |v| == 2 * |ts| {
      forall i | 0 <= i < |us|
        ensures SpellsTopology(w, 2 * i, us[i]) <==> SpellsTopology(v, 2 * (i + 1), ts[i + 1])
      {
        assert w[2 * i..2 * i + 2] == v[2 * i + 2..2 * i + 4];
      }
      if SpellsTopologies(w, us) && SpellsTopology(v, 0, ts[0]) {
        forall i | 0 <= i < |ts|
          ensures SpellsTopology(v, 2 * i, ts[i])
        {
          if i > 0 { assert SpellsTopology(w, 2 * (i - 1), us[i - 1]); }
        }
      }
    }
  }

  lemma {:induction false} TopologiesMean(v: Bytes, ts: seq<PlainTlv.Topology>)
    ensures PlainTlv.ReadTopologies(v) == Some(ts) <==> SpellsTopologies(v, ts)
    decreases |ts|
  {
    hide SpellsTopology; hide Be16; hide PlainTlv.Bit;
    if ts != [] && |v| >= 2 {
      FirstTopology(v, ts[0]);
      LaterTopologies(v, ts);
      TopologiesMean(v[2..], ts[1..]);
      hide SpellsTopologies;
      assert ts == [ts[0]] + ts[1..];
    }
  }

  /** Units of one size. */
  ghost predicate SpellsUnits(v: Bytes, n: nat, units: seq<Bytes>) {
    |v| == n * |units| && forall i :: 0 <= i < |units| ==> IsUnitAt(v, n * i, n, units[i])
  }

  ghost predicate IsUnitAt(v: Bytes, at: int, n: nat, unit: Bytes) {
    0 <= at && at + n <= |v| && unit == v[at..at + n]
  }

  lemma {:induction false} UnitsMean(v: Bytes, n: nat, units: seq<Bytes>)
    requires PlainTlv.IsUnit(n)
    ensures |v| % n == 0 && PlainTlv.Chunks(v, n) == units <==> SpellsUnits(v, n, units)
    decreases |units|
  {
    hide IsUnitAt;
    if units == [] {
      if |v| % n == 0 && |v| >= n { PlainTlv.LessOne(|v|, n); }
      if |v| % n == 0 && |v| < n { PlainTlv.NoneLeft(|v|, n); }
    } else if |v| >= n {
      LaterUnits(v, n, units);
      UnitsMean(v[n..], n, units[1..]);
      OneLess(|v|, n);
      hide SpellsUnits;
      assert units == [units[0]] + units[1..];
    } else {
      assert |v| != n * |units| by { AtLeast(n, |units|); }
    }
  }

  lemma AtLeast(n: nat, k: nat)
    requires k > 0
    ensures n * k >= n
  {
    assert n * k == n + n * (k - 1);
  }

  lemma OneLess(m: nat, n: nat)
    requires PlainTlv.IsUnit(n) && n <= m
    ensures m % n == 0 <==> (m - n) % n == 0
  {
    if n == 4 {
    } else if n == 6 {
    } else {
    }
  }

  lemma LaterUnits(v: Bytes, n: nat, units: seq<Bytes>)
    requires |v| >= n && units != []
    ensures SpellsUnits(v, n, units) <==> units[0] == v[..n] && SpellsUnits(v[n..], n, units[1..])
  {
    var w, us := v[n..], units[1..];
    assert n * |units| == n * |us| + n;
    forall i | 0 <= i < |us|
      ensures IsUnitAt(w, n * i, n, us[i]) <==> IsUnitAt(v, n * (i + 1), n, units[i + 1])
    {
      assert n * (i + 1) == n * i + n;
      if 0 <= n * i && n * i + n <= |w| { assert w[n * i..n * i + n] == v[n * i + n..n * i + n + n]; }
    }
    assert IsUnitAt(v, n * 0, n, units[0]) <==> units[0] == v[..n];
    if SpellsUnits(w, n, us) && units[0] == v[..n] {
      forall i | 0 <= i < |units|
        ensures IsUnitAt(v, n * i, n, units[i])
      {
        if i > 0 { assert IsUnitAt(w, n * (i - 1), n, us[i - 1]); }
      }
    }
  }

  /** Algorithms as a list of octets, SRv6 flags and what follows, a definition's head and its parts; the rest as it came. */
  ghost predicate SpellsCap(r: Raw, c: PlainTlv.CapSub) {
    match c
    case SrAlgorithms(algos) => r.typ == 19 && algos == r.value
    case Srv6Capabilities(flags, more) => r.typ == 25 && |r.value| >= 2 && flags == Number(r.value, 0, 2) && more == r.value[2..]
    case FlexDefinition(head, parts) => r.typ == 26 && |r.value| >= 4 && head == r.value[..4] && Split(r.value[4..]) == Some(parts)
    case Opaque(raw, refused) =>
      && raw == r && r.typ != 19 && (refused <==> r.typ in {25, 26})
      && (r.typ == 25 ==> |r.value| < 2) && (r.typ == 26 && |r.value| >= 4 ==> Split(r.value[4..]) == None)
  }

  lemma CapMeans(r: Raw, c: PlainTlv.CapSub)
    ensures PlainTlv.ReadCap(r) == c <==> SpellsCap(r, c)
  {
    hide Split; hide Number; hide Be16;
    NumbersAreRead(r.value, 0);
  }

  ghost predicate SpellsCaps(items: seq<Raw>, subs: seq<PlainTlv.CapSub>) {
    |items| == |subs| && forall i :: 0 <= i < |items| ==> SpellsCap(items[i], subs[i])
  }

  lemma {:induction false} CapsMean(items: seq<Raw>, subs: seq<PlainTlv.CapSub>)
    ensures PlainTlv.ReadCaps(items) == subs <==> SpellsCaps(items, subs)
    decreases |items|
  {
    hide SpellsCap; hide PlainTlv.ReadCap;
    if items != [] && subs != [] {
      CapMeans(items[0], subs[0]);
      CapsMean(items[1..], subs[1..]);
      assert subs == [subs[0]] + subs[1..];
      if SpellsCaps(items[1..], subs[1..]) && SpellsCap(items[0], subs[0]) {
        forall i | 0 <= i < |items|
          ensures SpellsCap(items[i], subs[i])
        {
          if i > 0 { assert SpellsCap(items[1..][i - 1], subs[1..][i - 1]); }
        }
      }
      if SpellsCaps(items, subs) {
        assert forall i :: 0 <= i < |items[1..]| ==> items[1..][i] == items[i + 1] && subs[1..][i] == subs[i + 1];
      }
    }
  }

  /** What the types without reachability stand for, and the lengths each of them takes. */
  ghost predicate SpellsPlain(typ: Octet, v: Bytes, p: PlainTlv.Plain) {
    match p
    case Areas(areas) => typ == 1 && SpellsAreas(v, areas)
    case Units(t, units) =>
      && t == typ && typ in {6, 9, 132, 232}
      && SpellsUnits(v, if typ == 6 then 6 else if typ == 132 then 4 else 16, units)
    case Padding(length) => typ == 8 && length == |v|
    case Text(t, text) => t == typ && typ in {10, 129, 137} && text == v && (typ != 129 ==> v != [])
    case Restart(request, ack, suppress, more) =>
      && typ == 211 && |v| in {1, 3, 9} && more == v[1..]
      && (request <==> v[0] % 2 == 1) && (ack <==> (v[0] / 2) % 2 == 1) && (suppress <==> (v[0] / 4) % 2 == 1)
    case ThreeWay(fields) => typ == 240 && |v| in {1, 5, 15} && fields == v
    case Topologies(ts) => typ == 229 && SpellsTopologies(v, ts)
    case Capabilities(head, subs) =>
      && typ == 242 && |v| >= 5 && head == v[..5]
      && Split(v[5..]).Some? && SpellsCaps(Split(v[5..]).value, subs)
    case Unknown(t, octets) => t == typ && octets == v && typ !in {1, 6, 8, 9, 10, 129, 132, 137, 211, 229, 232, 240, 242}
  }

  /** A TLV without reachability is read exactly as its octets spell it, and refused when they spell nothing. */
  lemma PlainMeans(typ: Octet, v: Bytes, p: PlainTlv.Plain)
    ensures PlainTlv.Decode(typ, v) == Some(p) <==> SpellsPlain(typ, v, p)
  {
    hide SpellsAreas; hide SpellsUnits; hide SpellsTopologies; hide SpellsCaps; hide Split;
    hide PlainTlv.Chunks; hide PlainTlv.ReadAreas; hide PlainTlv.ReadTopologies; hide PlainTlv.ReadCaps;
    match p
    case Areas(areas) => AreasMean(v, areas);
    case Units(t, units) => if PlainTlv.UnitSize(typ) > 0 { UnitsMean(v, PlainTlv.UnitSize(typ), units); }
    case Topologies(ts) => TopologiesMean(v, ts);
    case Capabilities(_, subs) => if |v| >= 5 && Split(v[5..]).Some? { CapsMean(Split(v[5..]).value, subs); }
    case _ =>
  }

  // ---------- What is written where nothing is said ----------

  lemma PrefixOctets(e: Entry, sub: Bytes)
    requires e.Reach? && e.cost < 0x1_0000_0000 && e.bits <= 128 && |sub| <= 255
    ensures var w := ReachOctets(e, sub, true); |w| >= 6 && w[4] % 32 == 0
  {
    var c := ControlOctets(Control(e.down, e.external, e.bits, sub != []), true);
    var w, metric := ReachOctets(e, sub, true), Octets32(e.cost);
    assert c[0] % 32 == 0;
    hide ControlOctets; hide Octets32;
    Sections(metric, c, e.sig, BlockLength(sub), sub, []);
    hide Pack;
    assert w + [] == w;
    assert w[4..6][0] == c[0];
  }

  /** Colours are written in 63 words at most, and in exactly one unless extended; anything else in 255 octets at most. */
  lemma WritableAttr(a: Attr)
    ensures EncodeAttr(a).Some? <==>
            match a
            case Group(extended, words) => |words| <= 63 && (!extended ==> |words| == 1)
            case Opaque(_, value, _) => |value| <= 255
  {
    if a.Group? { WordsOfOctets(a.words); }
  }

  /**
   * Reserved bits go out as zero: five of an IPv6 prefix, two of a topology, whose number is cut to twelve bits, five of a
   * restart, the first of the second mask length, and all of the padding.
   */
  lemma ReservedBits(e: Entry, p: PlainTlv.Plain, t: PlainTlv.Topology, x: LinkSub)
    ensures e.Reach? && EncodeReach(e, true).Some? ==> var w := EncodeReach(e, true).value; |w| >= 6 && w[4] % 32 == 0
    ensures var w := PlainTlv.WriteTopology(t);
            |w| == 2 && (w[0] / 16) % 4 == 0 && Number(w, 0, 2) % 4096 == t.mtid % 4096
    ensures PlainTlv.Encode(p).Some? ==>
              var v := PlainTlv.Encode(p).value.value;
              && (p.Padding? ==> |v| == p.length && forall i :: 0 <= i < |v| ==> v[i] == 0)
              && (p.Restart? ==> |v| > 0 && v[0] < 8)
    ensures x.Scoped? && EncodeAsla(x).Some? ==> var v := EncodeAsla(x).value; |v| >= 2 && v[1] as int == |x.udabm| <= 8
  {
    if e.Reach? && EncodeReach(e, true).Some? { PrefixOctets(e, Join(e.opaques)); }
    TopologyOctets(t);
    if x.Scoped? && EncodeAsla(x).Some? {
      MaskOctets(x.legacy, x.sabm, x.udabm, Join(EncodeAttrs(x.attrs).value));
    }
  }

  lemma TopologyOctets(t: PlainTlv.Topology)
    ensures var w := PlainTlv.WriteTopology(t);
            |w| == 2 && (w[0] / 16) % 4 == 0 && Number(w, 0, 2) % 4096 == t.mtid % 4096
  {
    var w := PlainTlv.WriteTopology(t);
    TopologyNumber(w);
    var hi := (t.mtid / 256) % 16;
    assert w[0] % 16 == hi;
    assert t.mtid == 4096 * (t.mtid / 4096) + hi * 256 + t.mtid % 256;
  }

  lemma MaskOctets(legacy: bool, sabm: Bytes, udabm: Bytes, attrs: Bytes)
    requires |sabm| <= MAX_MASK && |udabm| <= MAX_MASK
    ensures var w := AslaOctets(legacy, sabm, udabm, attrs); |w| >= 2 && w[1] as int == |udabm|
  {
    var h, w := [|sabm| + (if legacy then 128 else 0), |udabm|], AslaOctets(legacy, sabm, udabm, attrs);
    Sections(h, sabm, udabm, attrs, [], []);
    hide Pack;
    assert w + [] == w;
    assert w[..2][1] == h[1];
  }
}
