/** The codec as the packet package runs it: loops that consume a buffer and append to a list, or the other way round. */
module Codec {
  import opened Types
  import opened Wire
  import opened SubTlv
  import opened Reachability
  import PlainTlv

  /** Entries of one kind until the value is used up. */
  method ReadEntries(kind: Kind, value: Bytes) returns (entries: Option<seq<Entry>>)
    ensures entries == DecodeEntries(kind, value)
  {
    hide DecodeOne;
    var out: seq<Entry>, left := [], value;
    PrependTwice([], out, DecodeEntries(kind, value));
    while left != []
      invariant DecodeEntries(kind, value) == Prepend(out, DecodeEntries(kind, left))
      decreases |left|
    {
      var r := DecodeOne(kind, left);
      if r.None? { return None; }
      PrependTwice(out, [r.value.entry], DecodeEntries(kind, left[r.value.used..]));
      out, left := out + [r.value.entry], left[r.value.used..];
    }
    assert out + [] == out;
    return Some(out);
  }

  /** Area addresses until the value is used up. */
  method ReadAreaAddresses(value: Bytes) returns (areas: Option<seq<Bytes>>)
    ensures areas == PlainTlv.ReadAreas(value)
  {
    var out: seq<Bytes>, left := [], value;
    PrependTwice([], out, PlainTlv.ReadAreas(value));
    while left != []
      invariant PlainTlv.ReadAreas(value) == Prepend(out, PlainTlv.ReadAreas(left))
      decreases |left|
    {
      var n := left[0];
      if n == 0 || n > PlainTlv.MAX_AREA || |left| < 1 + n { return None; }
      PrependTwice(out, [left[1..1 + n]], PlainTlv.ReadAreas(left[1 + n..]));
      out, left := out + [left[1..1 + n]], left[1 + n..];
    }
    assert out + [] == out;
    return Some(out);
  }

  /** Topology numbers with their flags until the value is used up. */
  method ReadTopologyList(value: Bytes) returns (topologies: Option<seq<PlainTlv.Topology>>)
    ensures topologies == PlainTlv.ReadTopologies(value)
  {
    hide Be16; hide PlainTlv.Bit;
    var out: seq<PlainTlv.Topology>, left := [], value;
    PrependTwice([], out, PlainTlv.ReadTopologies(value));
    while left != []
      invariant PlainTlv.ReadTopologies(value) == Prepend(out, PlainTlv.ReadTopologies(left))
      decreases |left|
    {
      if |left| < 2 { return None; }
      var t := PlainTlv.Topology(Be16(left[0] % 16, left[1]), PlainTlv.Bit(left[0], 128), PlainTlv.Bit(left[0], 64));
      PrependTwice(out, [t], PlainTlv.ReadTopologies(left[2..]));
      out, left := out + [t], left[2..];
    }
    assert out + [] == out;
    return Some(out);
  }

  /** The sub-TLVs of a locator, told apart as they come. */
  method ReadLocatorSubs(b: Bytes) returns (subs: Option<LocatorSubs>)
    ensures subs == DecodeLocatorSubs(b)
  {
    hide DecodeEndSid;
    var endSids: seq<EndSid>, unknown: seq<Raw>, i := [], [], 0;
    ghost var items: seq<Raw> := [];
    assert b[0..] == b;
    PrependTwice([], items, Split(b));
    while i < |b|
      invariant i <= |b| && Split(b) == Prepend(items, Split(b[i..]))
      invariant LocatorParts(items) == Some(LocatorSubs(endSids, unknown))
    {
      SplitStep(b, i);
      if |b| < i + 2 || |b| < ItemEnd(b, i) { return None; }
      var item := Raw(b[i], b[i + 2..ItemEnd(b, i)]);
      ghost var rest := Split(b[ItemEnd(b, i)..]);
      PrependTwice(items, [item], rest);
      assert (items + [item])[..|items|] == items;
      if item.typ == END_SID {
        var e := DecodeEndSid(item.value);
        if e.None? {
          if rest.Some? { FailedPart(items + [item], rest.value); }
          return None;
        }
        endSids := endSids + [e.value];
      } else {
        unknown := unknown + [item];
      }
      items, i := items + [item], ItemEnd(b, i);
    }
    assert b[i..] == [] && items + [] == items;
    return Some(LocatorSubs(endSids, unknown));
  }

  /** Once a part fails, nothing after it can mend that. */
  lemma {:induction false} FailedPart(items: seq<Raw>, more: seq<Raw>)
    requires LocatorParts(items).None?
    ensures LocatorParts(items + more).None?
  {
    if more == [] {
      assert items + more == items;
    } else {
      var k := |more| - 1;
      FailedPart(items, more[..k]);
      assert (items + more)[..|items| + k] == items + more[..k];
    }
  }

  /** A TLV area: unknown types are kept, a bad known one fails the whole. */
  method ReadTlvs(b: Bytes) returns (tlvs: Option<seq<Tlv>>)
    ensures tlvs == DecodeTlvArea(b)
  {
    hide DecodeTlv; hide DecodeTlvs; hide Split;
    NoTlvs();
    var out: seq<Tlv>, i := [], 0;
    ghost var items: seq<Raw> := [];
    assert b[0..] == b;
    PrependTwice([], items, Split(b));
    while i < |b|
      invariant i <= |b| && Split(b) == Prepend(items, Split(b[i..])) && DecodeTlvs(items) == Some(out)
    {
      SplitStep(b, i);
      if |b| < i + 2 || |b| < ItemEnd(b, i) { return None; }
      var item := Raw(b[i], b[i + 2..ItemEnd(b, i)]);
      ghost var rest := Split(b[ItemEnd(b, i)..]);
      PrependTwice(items, [item], rest);
      var t := DecodeTlv(item);
      TlvsSnoc(items, out, item, if rest.Some? then rest.value else []);
      if t.None? { return None; }
      out, items, i := out + [t.value], items + [item], ItemEnd(b, i);
    }
    assert b[i..] == [] && items + [] == items;
    return Some(out);
  }

  lemma NoTlvs()
    ensures DecodeTlvs([]) == Some([]) && Split([]) == Some([])
  {
  }

  /** One more TLV is decoded, or the whole area fails. */
  lemma TlvsSnoc(items: seq<Raw>, out: seq<Tlv>, item: Raw, rest: seq<Raw>)
    requires DecodeTlvs(items) == Some(out)
    ensures DecodeTlv(item).Some? ==> DecodeTlvs(items + [item]) == Some(out + [DecodeTlv(item).value])
    ensures DecodeTlv(item).None? ==> DecodeTlvs(items + [item] + rest).None?
  {
    hide DecodeTlv;
    TlvsOfConcat(items, [item]);
    TlvsOfConcat(items + [item], rest);
    NoTlvs();
    assert [item][1..] == [];
    if DecodeTlv(item).Some? {
      var t := DecodeTlv(item).value;
      assert [t] + [] == [t];
      assert DecodeTlvs([item]) == Some([t]);
    }
  }

  /** An area decodes exactly when both its halves do. */
  lemma {:induction false} TlvsOfConcat(a: seq<Raw>, b: seq<Raw>)
    ensures DecodeTlvs(a + b) ==
      match DecodeTlvs(a)
      case None => None
      case Some(ts) => Prepend(ts, DecodeTlvs(b))
  {
    if a == [] {
      assert a + b == b;
      PrependTwice([], [], DecodeTlvs(b));
    } else {
      TlvsOfConcat(a[1..], b);
      assert (a + b)[1..] == a[1..] + b;
      if DecodeTlv(a[0]).Some? && DecodeTlvs(a[1..]).Some? {
        PrependTwice([DecodeTlv(a[0]).value], DecodeTlvs(a[1..]).value, DecodeTlvs(b));
      }
    }
  }

  /** TLVs rendered in order, or nothing when one does not fit its length octet. */
  method WriteTlvs(tlvs: seq<Tlv>) returns (b: Option<Bytes>)
    ensures b == EncodeTlvArea(tlvs)
  {
    hide EncodeTlv;
    var out: Bytes := [];
    ghost var items: seq<Raw> := [];
    PrependTwice([], items, EncodeTlvs(tlvs));
    NothingToJoin();
    for i := 0 to |tlvs|
      invariant Framed(items) && out == Join(items) && EncodeTlvs(tlvs) == Prepend(items, EncodeTlvs(tlvs[i..]))
    {
      assert tlvs[i..][1..] == tlvs[i + 1..];
      var r := EncodeTlv(tlvs[i]);
      if r.None? { return None; }
      TlvIsFramed(tlvs[i]);
      PrependTwice(items, [r.value], EncodeTlvs(tlvs[i + 1..]));
      JoinSnoc(items, r.value);
      out, items := out + Framing(r.value), items + [r.value];
    }
    assert items + [] == items;
    return Some(out);
  }

  lemma TlvIsFramed(t: Tlv)
    requires EncodeTlv(t).Some?
    ensures |EncodeTlv(t).value.value| <= 255
  {
  }

  lemma {:induction false} JoinSnoc(items: seq<Raw>, r: Raw)
    requires Framed(items) && |r.value| <= 255
    ensures Framed(items + [r]) && Join(items + [r]) == Join(items) + Framing(r)
  {
    hide Framing;
    if items == [] {
      assert items + [r] == [r] && [r][1..] == [] && Framing(r) + [] == Framing(r);
    } else {
      assert (items + [r])[1..] == items[1..] + [r];
      JoinSnoc(items[1..], r);
      assert Framing(items[0]) + (Join(items[1..]) + Framing(r)) == Framing(items[0]) + Join(items[1..]) + Framing(r);
    }
  }
}
