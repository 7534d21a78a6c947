/** The TLVs that carry no reachability: what each decoder keeps of its octets, and what it writes back. */
module PlainTlv {
  import opened Types
  import opened Wire

  /** A sub-TLV of the Router Capability TLV; one that is unregistered or refused is kept as it came. */
  datatype CapSub =
    | SrAlgorithms(algos: Bytes)
    | Srv6Capabilities(flags: nat, more: Bytes)
    | FlexDefinition(head: Bytes, parts: seq<Raw>)
    | Opaque(raw: Raw, refused: bool)

  datatype Topology = Topology(mtid: nat, overload: bool, attached: bool)

  datatype Plain =
    | Areas(areas: seq<Bytes>)
    | Units(typ: Octet, units: seq<Bytes>)                                        // addresses, neighbours, LSP entries
    | Padding(length: nat)
    | Text(typ: Octet, text: Bytes)                                               // authentication, protocols, hostname
    | Restart(request: bool, ack: bool, suppress: bool, more: Bytes)              // remaining time, then neighbour
    | ThreeWay(fields: Bytes)                                                     // state, then circuit, then neighbour
    | Topologies(topologies: seq<Topology>)
    | Capabilities(head: Bytes, subs: seq<CapSub>)                                // router identifier and flags
    | Unknown(typ: Octet, octets: Bytes)

  const AREA_ADDRESSES: Octet := 1
  const PADDING: Octet := 8
  const RESTART: Octet := 211
  const TOPOLOGIES: Octet := 229
  const THREE_WAY: Octet := 240
  const CAPABILITIES: Octet := 242
  const MAX_AREA: nat := 13

  /** TLVs made of units of one size: neighbour addresses, LSP entries, IPv4 and IPv6 addresses. */
  function UnitSize(typ: Octet): nat {
    if typ == 6 then 6 else if typ == 9 then 16 else if typ == 132 then 4 else if typ == 232 then 16 else 0
  }

  /** TLVs kept whole, and the least they may carry. */
  function TextSize(typ: Octet): Option<nat> {
    if typ == 10 || typ == 137 then Some(1) else if typ == 129 then Some(0) else None
  }

  function Chunks(v: Bytes, n: nat): seq<Bytes>
    requires IsUnit(n) && |v| % n == 0
  {
    if |v| < n then [] else (LessOne(|v|, n); [v[..n]] + Chunks(v[n..], n))
  }

  predicate IsUnit(n: nat) {
    n == 4 || n == 6 || n == 16
  }

  lemma LessOne(m: nat, n: nat)
    requires IsUnit(n) && n <= m && m % n == 0
    ensures (m - n) % n == 0
  {
    if n == 4 {
    } else if n == 6 {
    } else {
    }
  }

  function Flat(units: seq<Bytes>): Bytes {
    if units == [] then [] else units[0] + Flat(units[1..])
  }

  lemma {:induction false} FlatChunks(v: Bytes, n: nat)
    requires IsUnit(n) && |v| % n == 0
    ensures Flat(Chunks(v, n)) == v
    decreases |v|
  {
    if |v| >= n {
      LessOne(|v|, n);
      FlatChunks(v[n..], n);
      assert ([v[..n]] + Chunks(v[n..], n))[1..] == Chunks(v[n..], n);
      assert v == v[..n] + v[n..];
    } else {
      NoneLeft(|v|, n);
    }
  }

  lemma NoneLeft(m: nat, n: nat)
    requires m < n && m % n == 0
    ensures m == 0
  {
  }

  function ReadAreas(v: Bytes): Option<seq<Bytes>> {
    if v == [] then Some([])
    else
      var n := v[0];
      if n == 0 || n > MAX_AREA || |v| < 1 + n then None
      else Prepend([v[1..1 + n]], ReadAreas(v[1 + n..]))
  }

  function WriteAreas(areas: seq<Bytes>): Option<Bytes> {
    if areas == [] then Some([])
    else if areas[0] == [] || |areas[0]| > MAX_AREA then None
    else Prepend([|areas[0]|] + areas[0], WriteAreas(areas[1..]))
  }

  lemma WriteOneArea(a: Bytes, rest: seq<Bytes>)
    requires 0 < |a| <= MAX_AREA
    ensures WriteAreas([a] + rest) == Prepend([|a|] + a, WriteAreas(rest))
  {
    assert ([a] + rest)[1..] == rest;
  }

  lemma ReadOneArea(v: Bytes)
    requires v != [] && ReadAreas(v).Some?
    ensures 0 < v[0] <= MAX_AREA && 1 + v[0] <= |v| && ReadAreas(v[1 + v[0]..]).Some?
    ensures ReadAreas(v).value == [v[1..1 + v[0]]] + ReadAreas(v[1 + v[0]..]).value
  {
  }

  lemma {:induction false} AreasAreExact(v: Bytes)
    requires ReadAreas(v).Some?
    ensures WriteAreas(ReadAreas(v).value) == Some(v)
    decreases |v|
  {
    if v != [] {
      ReadOneArea(v);
      var n, rest := v[0], ReadAreas(v[1 + v[0]..]).value;
      AreasAreExact(v[1 + n..]);
      WriteOneArea(v[1..1 + n], rest);
      hide ReadAreas; hide WriteAreas;
      assert v == [n] + v[1..1 + n] + v[1 + n..];
    }
  }

  function Bit(n: nat, k: nat): bool
    requires k > 0
  {
    (n / k) % 2 == 1
  }

  function Flag(b: bool, k: nat): nat {
    if b then k else 0
  }

  lemma RestartFlags(request: bool, ack: bool, suppress: bool)
    ensures var f := Flag(request, 1) + Flag(ack, 2) + Flag(suppress, 4);
      f < 8 && Bit(f, 1) == request && Bit(f, 2) == ack && Bit(f, 4) == suppress
  {
  }

  function ReadTopologies(v: Bytes): Option<seq<Topology>> {
    if v == [] then Some([])
    else if |v| < 2 then None
    else Prepend([Topology(Be16(v[0] % 16, v[1]), Bit(v[0], 128), Bit(v[0], 64))], ReadTopologies(v[2..]))
  }

  /** The topology number keeps its low twelve bits; the reserved bits go out as zero. */
  function WriteTopology(t: Topology): Bytes {
    [(t.mtid / 256) % 16 + Flag(t.attached, 64) + Flag(t.overload, 128), t.mtid % 256]
  }

  function WriteTopologies(ts: seq<Topology>): Bytes {
    if ts == [] then [] else WriteTopology(ts[0]) + WriteTopologies(ts[1..])
  }

  lemma TopologyIsFixed(hi: Octet, lo: Octet)
    ensures var t := Topology(Be16(hi % 16, lo), Bit(hi, 128), Bit(hi, 64));
      var w := WriteTopology(t); Topology(Be16(w[0] % 16, w[1]), Bit(w[0], 128), Bit(w[0], 64)) == t
  {
    var n, a, o := hi % 16, Bit(hi, 64), Bit(hi, 128);
    assert Be16(hi % 16, lo) / 256 == n && Be16(hi % 16, lo) % 256 == lo;
    var w := n + Flag(a, 64) + Flag(o, 128);
    assert w % 16 == n && Bit(w, 64) == a && Bit(w, 128) == o;
  }

  lemma {:induction false} TopologiesAreFixed(v: Bytes)
    requires ReadTopologies(v).Some?
    ensures var ts := ReadTopologies(v).value; |WriteTopologies(ts)| == |v| && ReadTopologies(WriteTopologies(ts)) == Some(ts)
    decreases |v|
  {
    hide WriteTopology; hide Bit; hide Be16;
    if v != [] {
      TopologiesAreFixed(v[2..]);
      var rest := ReadTopologies(v[2..]).value;
      var t := Topology(Be16(v[0] % 16, v[1]), Bit(v[0], 128), Bit(v[0], 64));
      assert ([t] + rest)[1..] == rest;
      TopologyIsFixed(v[0], v[1]);
      TopologySize(t);
      var w := WriteTopology(t) + WriteTopologies(rest);
      assert w[2..] == WriteTopologies(rest) && w[0] == WriteTopology(t)[0] && w[1] == WriteTopology(t)[1];
    }
  }

  lemma TopologySize(t: Topology)
    ensures |WriteTopology(t)| == 2
  {
  }

  // ---------- Router capabilities ----------

  function ReadCap(r: Raw): CapSub {
    if r.typ == 19 then SrAlgorithms(r.value)
    else if r.typ == 25 then
      if |r.value| < 2 then Opaque(r, true) else Srv6Capabilities(Be16(r.value[0], r.value[1]), r.value[2..])
    else if r.typ == 26 then
      if |r.value| < 4 then Opaque(r, true)
      else
        (match Split(r.value[4..])
         case None => Opaque(r, true)
         case Some(parts) => FlexDefinition(r.value[..4], parts))
    else Opaque(r, false)
  }

  function WriteCap(c: CapSub): Option<Raw> {
    match c
    case SrAlgorithms(algos) => Fits(19, algos)
    case Srv6Capabilities(flags, more) => if flags < 0x1_0000 then Fits(25, Octets16(flags) + more) else None
    case FlexDefinition(head, parts) => if Framed(parts) then Fits(26, head + Join(parts)) else None
    case Opaque(raw, _) => Fits(raw.typ, raw.value)
  }

  function Fits(typ: Octet, value: Bytes): Option<Raw> {
    if |value| <= 255 then Some(Raw(typ, value)) else None
  }

  lemma Srv6IsExact(v: Bytes)
    requires |v| >= 2
    ensures Octets16(Be16(v[0], v[1])) + v[2..] == v
  {
    var w := Octets16(Be16(v[0], v[1]));
    assert w[0] == v[0] && w[1] == v[1];
  }

  lemma DefinitionIsExact(v: Bytes)
    requires |v| >= 4 && Split(v[4..]).Some?
    ensures Framed(Split(v[4..]).value) && v[..4] + Join(Split(v[4..]).value) == v
  {
    hide Split; hide Join;
    JoinOfSplit(v[4..]);
  }

  /** Every capability goes back out octet for octet. */
  lemma CapIsExact(r: Raw)
    requires |r.value| <= 255
    ensures WriteCap(ReadCap(r)) == Some(r)
  {
    if r.typ == 25 && |r.value| >= 2 { Srv6IsExact(r.value); }
    if r.typ == 26 && |r.value| >= 4 && Split(r.value[4..]).Some? { DefinitionIsExact(r.value); }
    hide Split; hide Join; hide Be16; hide Octets16;
  }

  function ReadCaps(items: seq<Raw>): seq<CapSub> {
    if items == [] then [] else [ReadCap(items[0])] + ReadCaps(items[1..])
  }

  function WriteCaps(subs: seq<CapSub>): Option<seq<Raw>> {
    if subs == [] then Some([])
    else
      match WriteCap(subs[0])
      case None => None
      case Some(r) => Prepend([r], WriteCaps(subs[1..]))
  }

  lemma {:induction false} CapsAreExact(items: seq<Raw>)
    requires Framed(items)
    ensures WriteCaps(ReadCaps(items)) == Some(items)
  {
    hide ReadCap; hide WriteCap;
    if items != [] {
      CapsAreExact(items[1..]);
      CapIsExact(items[0]);
      assert ([ReadCap(items[0])] + ReadCaps(items[1..]))[1..] == ReadCaps(items[1..]);
      assert [items[0]] + items[1..] == items;
    }
  }

  // ---------- Decoding and encoding ----------

  function Decode(typ: Octet, v: Bytes): Option<Plain> {
    if UnitSize(typ) > 0 then if |v| % UnitSize(typ) == 0 then Some(Units(typ, Chunks(v, UnitSize(typ)))) else None
    else if TextSize(typ).Some? then if |v| >= TextSize(typ).value then Some(Text(typ, v)) else None
    else if typ == PADDING then Some(Padding(|v|))
    else if typ == RESTART then
      if |v| == 1 || |v| == 3 || |v| == 9 then Some(Restart(Bit(v[0], 1), Bit(v[0], 2), Bit(v[0], 4), v[1..])) else None
    else if typ == THREE_WAY then if |v| == 1 || |v| == 5 || |v| == 15 then Some(ThreeWay(v)) else None
    else if typ == AREA_ADDRESSES then
      (match ReadAreas(v)
       case None => None
       case Some(areas) => Some(Areas(areas)))
    else if typ == TOPOLOGIES then
      (match ReadTopologies(v)
       case None => None
       case Some(ts) => Some(Topologies(ts)))
    else if typ == CAPABILITIES then
      if |v| < 5 then None
      else
        (match Split(v[5..])
         case None => None
         case Some(items) => Some(Capabilities(v[..5], ReadCaps(items))))
    else Some(Unknown(typ, v))
  }

  function Zeros(n: nat): Bytes {
    seq(n, _ => 0)
  }

  function Encode(p: Plain): Option<Raw> {
    match p
    case Units(typ, units) => Fits(typ, Flat(units))
    case Text(typ, text) => if TextSize(typ).Some? && |text| >= TextSize(typ).value then Fits(typ, text) else None
    case Padding(length) => Fits(PADDING, Zeros(length))
    case Restart(request, ack, suppress, more) =>
      Fits(RESTART, [Flag(request, 1) + Flag(ack, 2) + Flag(suppress, 4)] + more)
    case ThreeWay(fields) => Fits(THREE_WAY, fields)
    case Areas(areas) =>
      (match WriteAreas(areas)
       case None => None
       case Some(v) => Fits(AREA_ADDRESSES, v))
    case Topologies(ts) => Fits(TOPOLOGIES, WriteTopologies(ts))
    case Capabilities(head, subs) =>
      (match WriteCaps(subs)
       case None => None
       case Some(items) => if Framed(items) then Fits(CAPABILITIES, head + Join(items)) else None)
    case Unknown(typ, octets) => Fits(typ, octets)
  }

  /** Padding, a restart and the topologies are normalized; everything else goes back out octet for octet. */
  predicate Normalizes(typ: Octet) {
    typ == PADDING || typ == RESTART || typ == TOPOLOGIES
  }

  lemma RestartIsFixed(v: Bytes)
    requires |v| == 1 || |v| == 3 || |v| == 9
    ensures var p := Restart(Bit(v[0], 1), Bit(v[0], 2), Bit(v[0], 4), v[1..]);
      && Decode(RESTART, v) == Some(p) && Encode(p).Some? && |Encode(p).value.value| == |v| && Encode(p).value.typ == RESTART
      && Decode(RESTART, Encode(p).value.value) == Some(p)
  {
    RestartFlags(Bit(v[0], 1), Bit(v[0], 2), Bit(v[0], 4));
    hide Bit;
    var w := [Flag(Bit(v[0], 1), 1) + Flag(Bit(v[0], 2), 2) + Flag(Bit(v[0], 4), 4)] + v[1..];
    assert w[1..] == v[1..];
  }

  lemma CapabilitiesAreExact(v: Bytes)
    requires |v| >= 5 && |v| <= 255 && Split(v[5..]).Some?
    ensures Encode(Capabilities(v[..5], ReadCaps(Split(v[5..]).value))) == Some(Raw(CAPABILITIES, v))
  {
    hide Split; hide Join; hide ReadCaps; hide WriteCaps;
    JoinOfSplit(v[5..]);
    CapsAreExact(Split(v[5..]).value);
    assert v == v[..5] + v[5..];
  }

  /** Whatever decodes encodes, as the same type and in no more octets, to what decodes to the same. */
  lemma PlainIsFixed(typ: Octet, v: Bytes)
    requires |v| <= 255 && Decode(typ, v).Some?
    ensures var p := Decode(typ, v).value;
      && Encode(p).Some? && Encode(p).value.typ == typ && |Encode(p).value.value| <= |v|
      && Decode(typ, Encode(p).value.value) == Some(p)
      && (!Normalizes(typ) ==> Encode(p).value.value == v)
  {
    hide Chunks; hide Flat; hide ReadAreas; hide WriteAreas; hide ReadTopologies; hide WriteTopologies;
    hide ReadCaps; hide WriteCaps; hide Split; hide Join; hide Bit;
    if UnitSize(typ) > 0 {
      FlatChunks(v, UnitSize(typ));
    } else if typ == RESTART {
      RestartIsFixed(v);
    } else if typ == AREA_ADDRESSES {
      AreasAreExact(v);
    } else if typ == TOPOLOGIES {
      TopologiesAreFixed(v);
    } else if typ == CAPABILITIES {
      CapabilitiesAreExact(v);
    }
  }
}
