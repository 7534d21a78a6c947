/** Type-length-value framing and big-endian integers, shared by TLVs, sub-TLVs and sub-sub-TLVs. */
module Wire {
  import opened Types

  /** One framed item: a type octet and a value. */
  datatype Raw = Raw(typ: Octet, value: Bytes)

  /** The items so far in front of what the rest gives. */
  function Prepend<T>(out: seq<T>, rest: Option<seq<T>>): Option<seq<T>> {
    match rest
    case None => None
    case Some(more) => Some(out + more)
  }

  lemma PrependTwice<T>(a: seq<T>, b: seq<T>, rest: Option<seq<T>>)
    ensures Prepend(a, Prepend(b, rest)) == Prepend(a + b, rest) && Prepend([], rest) == rest
  {
    if rest.Some? {
      assert a + (b + rest.value) == a + b + rest.value;
      assert [] + rest.value == rest.value;
    }
  }

  /** Where the item that starts at `i` ends, by its length octet. */
  function ItemEnd(b: Bytes, i: nat): nat
    requires i + 1 < |b|
  {
    i + 2 + b[i + 1] as int
  }

  /** The items of an area, or nothing when a header or a value runs past the end. */
  function Split(b: Bytes): Option<seq<Raw>> {
    if b == [] then Some([])
    else if |b| < 2 || |b| < ItemEnd(b, 0) then None
    else Prepend([Raw(b[0], b[2..ItemEnd(b, 0)])], Split(b[ItemEnd(b, 0)..]))
  }

  predicate Framed(items: seq<Raw>) {
    forall i :: 0 <= i < |items| ==> |items[i].value| <= 255
  }

  /** The octets of a list of items. */
  function Join(items: seq<Raw>): Bytes
    requires Framed(items)
  {
    if items == [] then [] else Framing(items[0]) + Join(items[1..])
  }

  function Framing(r: Raw): Bytes
    requires |r.value| <= 255
  {
    [r.typ, |r.value|] + r.value
  }

  function AreaSize(items: seq<Raw>): nat {
    if items == [] then 0 else 2 + |items[0].value| + AreaSize(items[1..])
  }

  /** Splitting what was joined gives the items back. */
  lemma {:induction false} SplitOfJoin(items: seq<Raw>)
    requires Framed(items)
    ensures Split(Join(items)) == Some(items) && |Join(items)| == AreaSize(items)
  {
    hide Split; hide Join; hide AreaSize; hide Framing;
    if items == [] {
      NothingToJoin();
    } else {
      SplitOfJoin(items[1..]);
      assert items == [items[0]] + items[1..];
      JoinCons(items[0], items[1..]);
      SplitCons(items[0], Join(items[1..]));
    }
  }

  lemma SplitCons(r: Raw, tail: Bytes)
    requires |r.value| <= 255
    ensures Split(Framing(r) + tail) == Prepend([r], Split(tail)) && |Framing(r)| == 2 + |r.value|
  {
    var b := Framing(r) + tail;
    assert ItemEnd(b, 0) == 2 + |r.value| && b[2..ItemEnd(b, 0)] == r.value && b[ItemEnd(b, 0)..] == tail;
  }

  /** Joining what was split gives the octets back. */
  lemma {:induction false} JoinOfSplit(b: Bytes)
    requires Split(b).Some?
    ensures Framed(Split(b).value) && Join(Split(b).value) == b && AreaSize(Split(b).value) == |b|
  {
    hide Split; hide Join; hide AreaSize; hide Framing;
    if b == [] {
      NothingToJoin();
    } else {
      var end, rest := SplitFirst(b);
      JoinOfSplit(b[end..]);
      JoinCons(Raw(b[0], b[2..end]), rest);
      FirstFraming(b, end);
    }
  }

  lemma NothingToJoin()
    ensures Split([]) == Some([]) && Join([]) == [] && AreaSize([]) == 0
  {
  }

  lemma SplitFirst(b: Bytes) returns (end: nat, rest: seq<Raw>)
    requires b != [] && Split(b).Some?
    ensures 2 <= end <= |b| && end == ItemEnd(b, 0) && Split(b[end..]) == Some(rest) && Split(b).value == [Raw(b[0], b[2..end])] + rest
  {
    end := ItemEnd(b, 0);
    rest := Split(b[end..]).value;
  }

  lemma FirstFraming(b: Bytes, end: nat)
    requires 2 <= |b| && end == ItemEnd(b, 0) <= |b|
    ensures b == Framing(Raw(b[0], b[2..end])) + b[end..]
  {
  }

  lemma JoinCons(r: Raw, rest: seq<Raw>)
    requires |r.value| <= 255 && Framed(rest)
    ensures Framed([r] + rest) && Join([r] + rest) == Framing(r) + Join(rest)
    ensures AreaSize([r] + rest) == 2 + |r.value| + AreaSize(rest)
  {
    assert ([r] + rest)[1..] == rest;
  }

  lemma SplitStep(b: Bytes, i: nat)
    requires i < |b|
    ensures |b| < i + 2 || |b| < ItemEnd(b, i) ==> Split(b[i..]).None?
    ensures i + 2 <= |b| && ItemEnd(b, i) <= |b| ==>
      Split(b[i..]) == Prepend([Raw(b[i], b[i + 2..ItemEnd(b, i)])], Split(b[ItemEnd(b, i)..]))
  {
    if i + 2 <= |b| && ItemEnd(b, i) <= |b| {
      var c, n := b[i..], ItemEnd(b, i) - i;
      assert ItemEnd(c, 0) == n && c[n..] == b[i + n..] && c[2..n] == b[i + 2..i + n];
    }
  }

  lemma {:induction false} SizeOfConcat(a: seq<Raw>, b: seq<Raw>)
    ensures AreaSize(a + b) == AreaSize(a) + AreaSize(b)
  {
    if a == [] {
      assert a + b == b;
    } else {
      assert (a + b)[1..] == a[1..] + b;
      SizeOfConcat(a[1..], b);
    }
  }

  // ---------- Layouts ----------

  /** Five sections in a row. */
  function Pack(a: Bytes, b: Bytes, c: Bytes, d: Bytes, e: Bytes): Bytes {
    a + b + c + d + e
  }

  /** Each section is found where the lengths before it say. */
  lemma Sections(a: Bytes, b: Bytes, c: Bytes, d: Bytes, e: Bytes, tail: Bytes)
    ensures var w := Pack(a, b, c, d, e) + tail;
      var i, j, k, l := |a|, |a| + |b|, |a| + |b| + |c|, |a| + |b| + |c| + |d|;
      && |Pack(a, b, c, d, e)| == l + |e| && |w| == l + |e| + |tail|
      && w[..i] == a && w[i..j] == b && w[j..k] == c && w[k..l] == d && w[l..l + |e|] == e
  {
    var p := a + b;
    var q := p + c;
    var r := q + d;
    var v := r + e;
    var w := v + tail;
    Append(a, b);
    Append(p, c);
    Append(q, d);
    Append(r, e);
    Append(v, tail);
    Within(w, v, |r|, |v|);
    Within(w, v, 0, |r|);
    Within(w, r, |q|, |r|);
    Within(w, r, 0, |q|);
    Within(w, q, |p|, |q|);
    Within(w, q, 0, |p|);
    Within(w, p, |a|, |p|);
    Within(w, p, 0, |a|);
  }

  lemma Append(u: Bytes, v: Bytes)
    ensures (u + v)[0..|u|] == u && (u + v)[|u|..|u + v|] == v
  {
  }

  /** Where a sequence starts like another, it has the other's slices. */
  lemma Within(w: Bytes, u: Bytes, i: nat, j: nat)
    requires |u| <= |w| && w[0..|u|] == u && i <= j <= |u|
    ensures w[i..j] == u[i..j]
  {
    var x := w[0..|u|];
    assert |w[i..j]| == |x[i..j]| && forall k :: 0 <= k < j - i ==> w[i..j][k] == x[i..j][k];
  }

  // ---------- Integers ----------

  type Word = n: nat | n < 0x1_0000_0000

  function Be16(a: Octet, b: Octet): (n: nat)
    ensures n < 0x1_0000
  {
    a * 256 + b
  }

  function Octets16(n: nat): (b: Bytes)
    requires n < 0x1_0000
    ensures |b| == 2 && Be16(b[0], b[1]) == n
  {
    [n / 256, n % 256]
  }

  function Be24(b: Bytes): (n: nat)
    requires |b| == 3
    ensures n < 0x100_0000
  {
    Be16(b[0], b[1]) * 256 + b[2]
  }

  function Octets24(n: nat): (b: Bytes)
    requires n < 0x100_0000
    ensures |b| == 3 && Be24(b) == n
  {
    Octets16(n / 256) + [n % 256]
  }

  function Be32(b: Bytes): (n: Word)
    requires |b| == 4
  {
    Be16(b[0], b[1]) * 0x1_0000 + Be16(b[2], b[3])
  }

  function Octets32(n: Word): (b: Bytes)
    ensures |b| == 4 && Be32(b) == n
  {
    Octets16(n / 0x1_0000) + Octets16(n % 0x1_0000)
  }

  // ---------- The loops ----------

  /** The area walk every decoder shares, as a consuming loop. */
  method SplitArea(b: Bytes) returns (items: Option<seq<Raw>>)
    ensures items == Split(b)
  {
    var out: seq<Raw>, i := [], 0;
    assert b[0..] == b;
    PrependTwice([], out, Split(b));
    while i < |b|
      invariant i <= |b| && Split(b) == Prepend(out, Split(b[i..]))
    {
      SplitStep(b, i);
      if |b| < i + 2 || |b| < ItemEnd(b, i) { return None; }
      var item := Raw(b[i], b[i + 2..ItemEnd(b, i)]);
      PrependTwice(out, [item], Split(b[ItemEnd(b, i)..]));
      out, i := out + [item], ItemEnd(b, i);
    }
    assert b[i..] == [] && out + [] == out;
    return Some(out);
  }
}
