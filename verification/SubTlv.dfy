/** Sub-TLVs of a neighbour entry: link attributes, application-specific sets of them, and SRv6 adjacency SIDs. */
module SubTlv {
  import opened Types
  import opened Wire

  const ADMIN_GROUP: Octet := 3
  const EXTENDED_ADMIN_GROUP: Octet := 14
  const ASLA: Octet := 16
  const END_X: Octet := 43
  const LAN_END_X: Octet := 44
  const SID_STRUCTURE: Octet := 1
  const MAX_MASK: nat := 8

  // ---------- Link attributes ----------

  /** A link attribute: colours in 32-bit words, or octets kept as they came; `refused` when a decoder turned them down. */
  datatype Attr =
    | Group(extended: bool, words: seq<Word>)
    | Opaque(typ: Octet, value: Bytes, refused: bool)

  function Words(b: Bytes): seq<Word>
    requires |b| % 4 == 0
  {
    if b == [] then [] else [Be32(b[..4])] + Words(b[4..])
  }

  function WordOctets(words: seq<Word>): Bytes {
    if words == [] then [] else Octets32(words[0]) + WordOctets(words[1..])
  }

  lemma {:induction false} WordsOfOctets(words: seq<Word>)
    ensures |WordOctets(words)| == 4 * |words| && Words(WordOctets(words)) == words
  {
    if words != [] {
      var b := WordOctets(words);
      WordsOfOctets(words[1..]);
      assert b[..4] == Octets32(words[0]) && b[4..] == WordOctets(words[1..]);
    }
  }

  lemma {:induction false} WordCount(b: Bytes)
    requires |b| % 4 == 0
    ensures 4 * |Words(b)| == |b|
  {
    if b != [] { WordCount(b[4..]); }
  }

  function DecodeAttr(r: Raw): Attr {
    if r.typ == ADMIN_GROUP then
      if |r.value| == 4 then Group(false, [Be32(r.value)]) else Opaque(r.typ, r.value, true)
    else if r.typ == EXTENDED_ADMIN_GROUP then
      if |r.value| % 4 == 0 then Group(true, Words(r.value)) else Opaque(r.typ, r.value, true)
    else Opaque(r.typ, r.value, false)
  }

  function Limit(typ: Octet, value: Bytes): Option<Raw> {
    if |value| > 255 then None else Some(Raw(typ, value))
  }

  function EncodeAttr(a: Attr): Option<Raw> {
    match a
    case Group(extended, words) =>
      if !extended && |words| != 1 then None
      else Limit(if extended then EXTENDED_ADMIN_GROUP else ADMIN_GROUP, WordOctets(words))
    case Opaque(typ, value, _) => Limit(typ, value)
  }

  /** What was decoded encodes, in no more octets, to what decodes to the same. */
  lemma AttrIsFixed(r: Raw)
    requires |r.value| <= 255
    ensures EncodeAttr(DecodeAttr(r)).Some?
    ensures var r' := EncodeAttr(DecodeAttr(r)).value;
      r'.typ == r.typ && |r'.value| == |r.value| && DecodeAttr(r') == DecodeAttr(r)
  {
    match DecodeAttr(r)
    case Group(extended, words) =>
      WordsOfOctets(words);
      if extended {
        WordCount(r.value);
      } else {
        var v := WordOctets(words);
        assert words[1..] == [] && v == Octets32(words[0]);
      }
    case Opaque(_, _, _) =>
  }

  // ---------- SRv6 SIDs ----------

  /** The sub-sub-TLVs of a SID: the first well-sized SID Structure, and everything else in order. */
  datatype SidParts = SidParts(structure: Option<Bytes>, unknown: seq<Raw>)

  predicate IsStructure(r: Raw) {
    r.typ == SID_STRUCTURE && |r.value| == 4
  }

  function Parts(items: seq<Raw>): SidParts {
    if items == [] then SidParts(None, [])
    else
      var p, last := Parts(items[..|items| - 1]), items[|items| - 1];
      if IsStructure(last) && p.structure.None? then p.(structure := Some(last.value))
      else p.(unknown := p.unknown + [last])
  }

  /** On the way out the structure comes first. */
  function Reordered(p: SidParts): seq<Raw> {
    (if p.structure.Some? then [Raw(SID_STRUCTURE, p.structure.value)] else []) + p.unknown
  }

  /** Parts come from octets: a structure has four of them, and without one nothing left over is a structure. */
  predicate PartsOk(p: SidParts) {
    && (p.structure.Some? ==> |p.structure.value| == 4)
    && (p.structure.None? ==> forall i :: 0 <= i < |p.unknown| ==> !IsStructure(p.unknown[i]))
  }

  lemma {:induction false} PartsAreOk(items: seq<Raw>)
    requires Framed(items)
    ensures PartsOk(Parts(items)) && Framed(Parts(items).unknown) && AreaSize(Reordered(Parts(items))) == AreaSize(items)
  {
    if items != [] {
      var k := |items| - 1;
      var p := Parts(items[..k]);
      PartsAreOk(items[..k]);
      assert items == items[..k] + [items[k]];
      SizeOfConcat(items[..k], [items[k]]);
      SizeOfConcat(Reordered(p), [items[k]]);
      if IsStructure(items[k]) && p.structure.None? {
        assert Reordered(p) == p.unknown && Reordered(Parts(items)) == [items[k]] + p.unknown;
        SizeOfConcat([items[k]], p.unknown);
      } else {
        assert Reordered(Parts(items)) == Reordered(p) + [items[k]];
      }
    }
  }

  /** Reordering is stable: taken apart again, the parts are the same. */
  lemma {:induction false} PartsOfReordered(p: SidParts, k: nat)
    requires PartsOk(p) && k <= |p.unknown|
    ensures Parts(Reordered(p.(unknown := p.unknown[..k]))) == p.(unknown := p.unknown[..k])
  {
    var q := p.(unknown := p.unknown[..k]);
    var items := Reordered(q);
    if k == 0 {
      if p.structure.Some? {
        assert items[..0] == [] && items == [Raw(SID_STRUCTURE, p.structure.value)];
      }
    } else {
      var before := p.(unknown := p.unknown[..k - 1]);
      PartsOfReordered(p, k - 1);
      assert items[..|items| - 1] == Reordered(before) && items[|items| - 1] == p.unknown[k - 1];
      assert p.unknown[..k - 1] + [p.unknown[k - 1]] == p.unknown[..k];
    }
  }

  /** A SID and what precedes it, for both adjacency forms. */
  datatype EndX = EndX(flags: Octet, algorithm: Octet, weight: Octet, behavior: nat, sid: Bytes, parts: SidParts)

  const END_X_FIXED: nat := 22

  function DecodeParts(v: Bytes): Option<SidParts> {
    match Split(v)
    case None => None
    case Some(items) => Some(Parts(items))
  }

  function EncodeParts(p: SidParts, room: nat): Option<Bytes> {
    if p.structure.Some? && |p.structure.value| != 4 then None
    else if !Framed(p.unknown) then None
    else
      var b := Join(Reordered(p));
      if |b| > room then None else Some(b)
  }

  /** The sub-sub-TLV area of a SID is a fixed point and keeps its size. */
  lemma PartsAreFixed(v: Bytes, room: nat)
    requires DecodeParts(v).Some? && |v| <= room
    ensures var p := DecodeParts(v).value;
      EncodeParts(p, room).Some? && |EncodeParts(p, room).value| == |v| && DecodeParts(EncodeParts(p, room).value) == Some(p)
  {
    var items := Split(v).value;
    var p := Parts(items);
    JoinOfSplit(v);
    PartsAreOk(items);
    SplitOfJoin(Reordered(p));
    PartsOfReordered(p, |p.unknown|);
    assert p.unknown[..|p.unknown|] == p.unknown;
  }

  function DecodeEndX(v: Bytes): Option<EndX> {
    if |v| < END_X_FIXED then None
    else
      var n := v[21] as int;
      if |v| < END_X_FIXED + n then None
      else
        match DecodeParts(v[END_X_FIXED..END_X_FIXED + n])
        case None => None
        case Some(p) => Some(EndX(v[0], v[1], v[2], Be16(v[3], v[4]), v[5..21], p))
  }

  function EncodeEndX(e: EndX): Option<Bytes> {
    if e.behavior >= 0x1_0000 || |e.sid| != 16 then None
    else
      match EncodeParts(e.parts, 255 - END_X_FIXED)
      case None => None
      case Some(sub) => Some(EndXOctets(e, sub))
  }

  lemma EndXIsFixed(v: Bytes)
    requires DecodeEndX(v).Some? && |v| <= 255
    ensures var e := DecodeEndX(v).value;
      EncodeEndX(e).Some? && |EncodeEndX(e).value| <= |v| && DecodeEndX(EncodeEndX(e).value) == Some(e)
  {
    hide DecodeParts; hide EncodeParts;
    var e, n := DecodeEndX(v).value, v[21] as int;
    PartsAreFixed(v[END_X_FIXED..END_X_FIXED + n], 255 - END_X_FIXED);
    var sub := EncodeParts(e.parts, 255 - END_X_FIXED).value;
    EndXLayout(e, sub);
    assert EncodeEndX(e) == Some(EndXOctets(e, sub));
  }

  function EndXOctets(e: EndX, sub: Bytes): Bytes
    requires e.behavior < 0x1_0000 && |sub| < 256
  {
    Pack([e.flags, e.algorithm, e.weight], Octets16(e.behavior), e.sid, [|sub|], sub)
  }

  lemma EndXLayout(e: EndX, sub: Bytes)
    requires e.behavior < 0x1_0000 && |sub| < 256 && |e.sid| == 16
    ensures var w := EndXOctets(e, sub);
      && |w| == END_X_FIXED + |sub| && w[0] == e.flags && w[1] == e.algorithm && w[2] == e.weight
      && Be16(w[3], w[4]) == e.behavior && w[5..21] == e.sid && w[21] as int == |sub| && w[END_X_FIXED..END_X_FIXED + |sub|] == sub
  {
    var h, b, w := [e.flags, e.algorithm, e.weight], Octets16(e.behavior), EndXOctets(e, sub);
    Sections(h, b, e.sid, [|sub|], sub, []);
    hide Be16; hide Octets16; hide Pack;
    assert w + [] == w;
    assert w[..3][0] == h[0] && w[..3][1] == h[1] && w[..3][2] == h[2];
    assert w[3..5][0] == b[0] && w[3..5][1] == b[1] && w[21..22][0] as int == |sub|;
  }

  // ---------- Everything a neighbour entry can carry ----------

  datatype LinkSub =
    | Plain(attr: Attr)
    | Scoped(legacy: bool, sabm: Bytes, udabm: Bytes, attrs: seq<Attr>)
    | Adjacent(endx: EndX)
    | LanAdjacent(neighbor: Bytes, lan: EndX)

  function DecodeAttrs(items: seq<Raw>): seq<Attr> {
    seq(|items|, i requires 0 <= i < |items| => DecodeAttr(items[i]))
  }

  function EncodeAttrs(attrs: seq<Attr>): Option<seq<Raw>> {
    if attrs == [] then Some([])
    else
      match EncodeAttr(attrs[0])
      case None => None
      case Some(r) => Prepend([r], EncodeAttrs(attrs[1..]))
  }

  lemma {:induction false} AttrsAreFixed(items: seq<Raw>)
    requires Framed(items)
    ensures EncodeAttrs(DecodeAttrs(items)).Some?
    ensures var items' := EncodeAttrs(DecodeAttrs(items)).value;
      Framed(items') && AreaSize(items') == AreaSize(items) && DecodeAttrs(items') == DecodeAttrs(items)
  {
    hide DecodeAttr; hide EncodeAttr;
    if items == [] {
      assert DecodeAttrs(items) == [];
    } else {
      AttrIsFixed(items[0]);
      AttrsAreFixed(items[1..]);
      var r := EncodeAttr(DecodeAttr(items[0])).value;
      var rest := EncodeAttrs(DecodeAttrs(items[1..])).value;
      AttrsCons(items[0], items[1..]);
      AttrsCons(r, rest);
      assert items == [items[0]] + items[1..];
      hide DecodeAttrs;
    }
  }

  lemma AttrsCons(r: Raw, rest: seq<Raw>)
    ensures DecodeAttrs([r] + rest) == [DecodeAttr(r)] + DecodeAttrs(rest)
    ensures DecodeAttrs([r] + rest)[1..] == DecodeAttrs(rest)
    ensures AreaSize([r] + rest) == 2 + |r.value| + AreaSize(rest)
  {
    hide DecodeAttr;
    assert ([r] + rest)[1..] == rest;
  }

  /** Two mask lengths, each at most 8 octets once its flag bit is off; then the masks; then the attributes. */
  function DecodeAsla(v: Bytes): Option<LinkSub> {
    if |v| < 2 then None
    else
      var s, u := v[0] % 128, v[1] % 128;
      if s > MAX_MASK || u > MAX_MASK || |v| < 2 + s as int + u as int then None
      else
        match Split(v[2 + s as int + u as int..])
        case None => None
        case Some(items) => Some(Scoped(v[0] >= 128, v[2..2 + s as int], v[2 + s as int..2 + s as int + u as int], DecodeAttrs(items)))
  }

  function EncodeAsla(x: LinkSub): Option<Bytes>
    requires x.Scoped?
  {
    if |x.sabm| > MAX_MASK || |x.udabm| > MAX_MASK then None
    else
      match EncodeAttrs(x.attrs)
      case None => None
      case Some(items) =>
        if !Framed(items) then None
        else Some(AslaOctets(x.legacy, x.sabm, x.udabm, Join(items)))
  }

  lemma AslaIsFixed(v: Bytes)
    requires DecodeAsla(v).Some?
    ensures var x := DecodeAsla(v).value;
      x.Scoped? && EncodeAsla(x).Some? && |EncodeAsla(x).value| == |v| && DecodeAsla(EncodeAsla(x).value) == Some(x)
  {
    hide DecodeAttrs; hide EncodeAttrs; hide Split; hide Join;
    var x := DecodeAsla(v).value;
    var rest := v[2 + |x.sabm| + |x.udabm|..];
    var items := Split(rest).value;
    JoinOfSplit(rest);
    AttrsAreFixed(items);
    var items' := EncodeAttrs(x.attrs).value;
    SplitOfJoin(items');
    AslaLayout(x.legacy, x.sabm, x.udabm, Join(items'));
    hide AslaOctets;
  }

  function AslaOctets(legacy: bool, sabm: Bytes, udabm: Bytes, attrs: Bytes): Bytes
    requires |sabm| <= MAX_MASK && |udabm| <= MAX_MASK
  {
    Pack([|sabm| + (if legacy then 128 else 0), |udabm|], sabm, udabm, attrs, [])
  }

  lemma AslaLayout(legacy: bool, sabm: Bytes, udabm: Bytes, attrs: Bytes)
    requires |sabm| <= MAX_MASK && |udabm| <= MAX_MASK
    ensures var w, s, u := AslaOctets(legacy, sabm, udabm, attrs), |sabm|, |udabm|;
      && |w| == 2 + s + u + |attrs| && (w[0] >= 128 <==> legacy) && (w[0] % 128) as int == s && (w[1] % 128) as int == u
      && w[2..2 + s] == sabm && w[2 + s..2 + s + u] == udabm && w[2 + s + u..] == attrs
  {
    var h, w := [|sabm| + (if legacy then 128 else 0), |udabm|], AslaOctets(legacy, sabm, udabm, attrs);
    Sections(h, sabm, udabm, attrs, [], []);
    hide Pack;
    assert w + [] == w;
    assert w[..2][0] == h[0] && w[..2][1] == h[1];
    assert w[2 + |sabm| + |udabm|..] == w[2 + |sabm| + |udabm|..|w|];
  }

  /** A decoder that refuses leaves the sub-TLV opaque; a code point nobody knows is opaque from the start. */
  function DecodeLinkSub(r: Raw): LinkSub {
    if r.typ == ASLA then
      match DecodeAsla(r.value)
      case Some(x) => x
      case None => Plain(Opaque(r.typ, r.value, true))
    else if r.typ == END_X then
      match DecodeEndX(r.value)
      case Some(e) => Adjacent(e)
      case None => Plain(Opaque(r.typ, r.value, true))
    else if r.typ == LAN_END_X then
      if |r.value| < 6 then Plain(Opaque(r.typ, r.value, true))
      else
        match DecodeEndX(r.value[6..])
        case Some(e) => LanAdjacent(r.value[..6], e)
        case None => Plain(Opaque(r.typ, r.value, true))
    else Plain(DecodeAttr(r))
  }

  function EncodeLinkSub(x: LinkSub): Option<Raw> {
    match x
    case Plain(a) => EncodeAttr(a)
    case Scoped(_, _, _, _) =>
      (match EncodeAsla(x)
       case None => None
       case Some(v) => Limit(ASLA, v))
    case Adjacent(e) =>
      (match EncodeEndX(e)
       case None => None
       case Some(v) => Limit(END_X, v))
    case LanAdjacent(neighbor, e) =>
      (match EncodeEndX(e)
       case None => None
       case Some(v) => Limit(LAN_END_X, neighbor + v))
  }

  lemma LinkSubIsFixed(r: Raw)
    requires |r.value| <= 255
    ensures EncodeLinkSub(DecodeLinkSub(r)).Some?
    ensures var r' := EncodeLinkSub(DecodeLinkSub(r)).value;
      r'.typ == r.typ && |r'.value| <= |r.value| && DecodeLinkSub(r') == DecodeLinkSub(r)
  {
    match DecodeLinkSub(r)
    case Scoped(_, _, _, _) => AslaIsFixed(r.value);
    case Adjacent(_) => EndXIsFixed(r.value);
    case LanAdjacent(neighbor, e) =>
      EndXIsFixed(r.value[6..]);
      var w := neighbor + EncodeEndX(e).value;
      assert w[..6] == neighbor && w[6..] == EncodeEndX(e).value;
    case Plain(_) =>
      if r.typ != ASLA && r.typ != END_X && r.typ != LAN_END_X { AttrIsFixed(r); }
  }

  /** What a decoder refuses goes back out octet for octet. */
  lemma RefusedIsExact(r: Raw)
    requires |r.value| <= 255 && DecodeLinkSub(r).Plain? && DecodeLinkSub(r).attr.Opaque?
    ensures EncodeLinkSub(DecodeLinkSub(r)) == Some(r)
  {
  }

  // ---------- Areas ----------

  function DecodeLinkSubs(items: seq<Raw>): seq<LinkSub> {
    seq(|items|, i requires 0 <= i < |items| => DecodeLinkSub(items[i]))
  }

  /** An area decodes whenever its lengths are right: nothing inside a sub-TLV can fail it. */
  function DecodeArea(b: Bytes): Option<seq<LinkSub>> {
    match Split(b)
    case None => None
    case Some(items) => Some(DecodeLinkSubs(items))
  }

  function EncodeLinkSubs(subs: seq<LinkSub>): Option<seq<Raw>> {
    if subs == [] then Some([])
    else
      match EncodeLinkSub(subs[0])
      case None => None
      case Some(r) => Prepend([r], EncodeLinkSubs(subs[1..]))
  }

  function EncodeArea(subs: seq<LinkSub>): Option<Bytes> {
    match EncodeLinkSubs(subs)
    case None => None
    case Some(items) => if Framed(items) then Some(Join(items)) else None
  }

  lemma LinkSubsCons(r: Raw, rest: seq<Raw>)
    ensures DecodeLinkSubs([r] + rest) == [DecodeLinkSub(r)] + DecodeLinkSubs(rest)
    ensures DecodeLinkSubs([r] + rest)[1..] == DecodeLinkSubs(rest)
    ensures AreaSize([r] + rest) == 2 + |r.value| + AreaSize(rest)
  {
    hide DecodeLinkSub;
    assert ([r] + rest)[1..] == rest;
  }

  lemma {:induction false} LinkSubsAreFixed(items: seq<Raw>)
    requires Framed(items)
    ensures EncodeLinkSubs(DecodeLinkSubs(items)).Some?
    ensures var items' := EncodeLinkSubs(DecodeLinkSubs(items)).value;
      Framed(items') && AreaSize(items') <= AreaSize(items) && DecodeLinkSubs(items') == DecodeLinkSubs(items)
  {
    hide DecodeLinkSub; hide EncodeLinkSub;
    if items == [] {
      assert DecodeLinkSubs(items) == [];
    } else {
      LinkSubIsFixed(items[0]);
      LinkSubsAreFixed(items[1..]);
      var r := EncodeLinkSub(DecodeLinkSub(items[0])).value;
      var rest := EncodeLinkSubs(DecodeLinkSubs(items[1..])).value;
      LinkSubsCons(items[0], items[1..]);
      LinkSubsCons(r, rest);
      assert items == [items[0]] + items[1..];
      hide DecodeLinkSubs;
    }
  }

  /** The area as a whole: it encodes, in no more octets, to what decodes to the same. */
  lemma AreaIsFixed(b: Bytes)
    requires DecodeArea(b).Some?
    ensures var subs := DecodeArea(b).value;
      EncodeArea(subs).Some? && |EncodeArea(subs).value| <= |b| && DecodeArea(EncodeArea(subs).value) == Some(subs)
  {
    var items := Split(b).value;
    JoinOfSplit(b);
    LinkSubsAreFixed(items);
    var items' := EncodeLinkSubs(DecodeLinkSubs(items)).value;
    SplitOfJoin(items');
  }

  // ---------- The loops ----------

  /** A sub-TLV area, one item at a time. */
  method DecodeSubTlvs(b: Bytes) returns (subs: Option<seq<LinkSub>>)
    ensures subs == DecodeArea(b)
  {
    hide DecodeLinkSub;
    var out: seq<LinkSub>, i := [], 0;
    ghost var items: seq<Raw> := [];
    assert b[0..] == b;
    PrependTwice([], items, Split(b));
    while i < |b|
      invariant i <= |b| && Split(b) == Prepend(items, Split(b[i..])) && out == DecodeLinkSubs(items)
    {
      SplitStep(b, i);
      if |b| < i + 2 || |b| < ItemEnd(b, i) { return None; }
      var item := Raw(b[i], b[i + 2..ItemEnd(b, i)]);
      PrependTwice(items, [item], Split(b[ItemEnd(b, i)..]));
      assert DecodeLinkSubs(items + [item]) == DecodeLinkSubs(items) + [DecodeLinkSub(item)];
      out, items, i := out + [DecodeLinkSub(item)], items + [item], ItemEnd(b, i);
    }
    assert b[i..] == [] && items + [] == items;
    return Some(out);
  }

  /** The sub-sub-TLV area of a SID, one item at a time. */
  method DecodeSidParts(b: Bytes) returns (parts: Option<SidParts>)
    ensures parts == DecodeParts(b)
  {
    var structure: Option<Bytes>, unknown: seq<Raw>, i := None, [], 0;
    ghost var items: seq<Raw> := [];
    assert b[0..] == b;
    PrependTwice([], items, Split(b));
    while i < |b|
      invariant i <= |b| && Split(b) == Prepend(items, Split(b[i..])) && SidParts(structure, unknown) == Parts(items)
    {
      SplitStep(b, i);
      if |b| < i + 2 || |b| < ItemEnd(b, i) { return None; }
      var item := Raw(b[i], b[i + 2..ItemEnd(b, i)]);
      PrependTwice(items, [item], Split(b[ItemEnd(b, i)..]));
      assert (items + [item])[..|items|] == items;
      if item.typ == SID_STRUCTURE && |item.value| == 4 && structure.None? {
        structure := Some(item.value);
      } else {
        unknown := unknown + [item];
      }
      items, i := items + [item], ItemEnd(b, i);
    }
    assert b[i..] == [] && items + [] == items;
    return Some(SidParts(structure, unknown));
  }

  /** The words of an extended administrative group. */
  method DecodeWords(b: Bytes) returns (words: seq<Word>)
    requires |b| % 4 == 0
    ensures words == Words(b)
  {
    hide Words; hide Be32;
    words := [];
    var i := 0;
    assert b[0..] == b && words + Words(b) == Words(b);
    while i < |b|
      invariant i <= |b| && (|b| - i) % 4 == 0 && Words(b) == words + Words(b[i..])
    {
      WordsStep(b[i..]);
      assert b[i..][..4] == b[i..i + 4] && b[i..][4..] == b[i + 4..];
      words, i := words + [Be32(b[i..i + 4])], i + 4;
    }
    assert b[i..] == [];
    NoWords();
  }

  lemma NoWords()
    ensures Words([]) == []
  {
  }

  lemma WordsStep(b: Bytes)
    requires |b| % 4 == 0 && b != []
    ensures |b| >= 4 && Words(b) == [Be32(b[..4])] + Words(b[4..])
  {
  }
}
