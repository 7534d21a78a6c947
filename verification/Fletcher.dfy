/** The ISO 8473 Fletcher checksum that covers an LSP from its identifier to its end. */
module Fletcher {
  import opened Types

  /** The plain sum of the octets. */
  function Sum0(s: seq<Octet>): nat {
    if s == [] then 0 else Sum0(s[..|s| - 1]) + s[|s| - 1]
  }

  /** The sum of all the running sums. */
  function Sum1(s: seq<Octet>): nat {
    if s == [] then 0 else Sum1(s[..|s| - 1]) + Sum0(s)
  }

  /** Both sums vanish modulo 255. */
  predicate Valid(s: seq<Octet>) {
    Sum0(s) % 255 == 0 && Sum1(s) % 255 == 0
  }

  /** Replacing one octet moves the sums by its difference, once and weighted by its distance from the end. */
  lemma {:induction false} SumsOfUpdate(s: seq<Octet>, i: nat, v: Octet)
    requires i < |s|
    ensures Sum0(s[i := v]) == Sum0(s) + v - s[i]
    ensures Sum1(s[i := v]) == Sum1(s) + (|s| - i) * (v - s[i])
  {
    var n := |s| - 1;
    if i == n {
      assert s[i := v][..n] == s[..n];
    } else {
      assert s[i := v][..n] == s[..n][i := v];
      SumsOfUpdate(s[..n], i, v);
      assert (n - i) * (v - s[i]) + (v - s[i]) == (|s| - i) * (v - s[i]);
    }
  }

  /** The remainder as Go computes it: truncated towards zero, with the sign of the dividend. */
  function TruncRem(a: int, m: int): int
    requires m > 0
  {
    if a >= 0 then a % m else -((-a) % m)
  }

  /** Raised into 1..255, the truncated remainder is congruent to the dividend. */
  lemma Truncated(z: int)
    ensures var a := TruncRem(z, 255);
            -255 < a < 255 && (a - z) % 255 == 0 && (a + 255 - z) % 255 == 0
  {
    var q := if z >= 0 then z / 255 else -((-z) / 255);
    assert TruncRem(z, 255) == z - 255 * q;
    PlusMultiple(-q, 0);
    PlusMultiple(1 - q, 0);
  }

  /** The most the second sum can reach within `k` octets of a reduction. */
  function Crest(k: nat): nat {
    if k == 0 then 254 else Crest(k - 1) + 254 + 255 * k
  }

  lemma {:induction false} CrestGrows(k: nat, m: nat)
    requires k <= m
    ensures Crest(k) <= Crest(m)
    decreases m - k
  {
    if k < m { CrestGrows(k, m - 1); }
  }

  lemma {:induction false} CrestInClosedForm(k: nat)
    ensures 2 * Crest(k) == 508 + 508 * k + 255 * (k * (k + 1))
  {
    if k > 0 {
      CrestInClosedForm(k - 1);
      assert k * (k + 1) == (k - 1) * k + 2 * k;
    }
  }

  /** With a reduction every 4096 octets the second sum stays below 2^31. */
  lemma CrestFits(k: nat)
    requires k <= 4096
    ensures Crest(k) < 0x8000_0000
  {
    CrestGrows(k, 4096);
    CrestInClosedForm(4096);
  }

  lemma Position(i: nat, m: nat, k: nat)
    requires i == 4096 * m + k && k < 4096
    ensures i % 4096 == k
  {
  }

  lemma Reduced(c: nat)
    ensures c % 255 <= 254 && (c % 255) % 255 == c % 255
  {
  }

  /** One octet more keeps both running sums congruent. */
  lemma SameRemainders(c0: int, c1: int, s0: int, s1: int, d: int)
    requires c0 % 255 == s0 % 255 && c1 % 255 == s1 % 255
    ensures (c0 + d) % 255 == (s0 + d) % 255
    ensures (c1 + (c0 + d)) % 255 == (s1 + (s0 + d)) % 255
  {
    var q0, q1 := c0 / 255 - s0 / 255, c1 / 255 - s1 / 255;
    PlusMultiple(q0, s0 + d);
    PlusMultiple(q1 + q0, s1 + (s0 + d));
  }

  lemma {:induction false} SumsOfOneMore(data: seq<Octet>, i: nat)
    requires i < |data|
    ensures Sum0(data[..i + 1]) == Sum0(data[..i]) + data[i]
    ensures Sum1(data[..i + 1]) == Sum1(data[..i]) + Sum0(data[..i + 1])
  {
    assert data[..i + 1][..i] == data[..i];
  }

  /** The running sums stay congruent to the true ones, and below 2^31, under a reduction every 4096 octets. */
  method Sums(data: seq<Octet>) returns (c0: nat, c1: nat)
    ensures c0 < 255 && c1 < 255
    ensures c0 == Sum0(data) % 255 && c1 == Sum1(data) % 255
  {
    c0, c1 := 0, 0;
    ghost var m: nat, k: nat := 0, 0;
    for i := 0 to |data|
      invariant c0 % 255 == Sum0(data[..i]) % 255 && c1 % 255 == Sum1(data[..i]) % 255
      invariant i == 4096 * m + k && k < 4096 && c0 <= 254 + 255 * k && c1 <= Crest(k)
    {
      hide Sum0; hide Sum1;
      Position(i, m, k);
      SumsOfOneMore(data, i);
      SameRemainders(c0, c1, Sum0(data[..i]), Sum1(data[..i]), data[i]);
      c0 := c0 + data[i];
      c1 := c1 + c0;
      k := k + 1;
      CrestFits(k);
      assert c0 < 0x8000_0000 && c1 < 0x8000_0000;
      if i % 4096 == 4095 {
        Reduced(c0);
        Reduced(c1);
        c0 := c0 % 255;
        c1 := c1 % 255;
        m, k := m + 1, 0;
      }
    }
    assert data[..|data|] == data;
    c0 := c0 % 255;
    c1 := c1 % 255;
  }

  /** The two check octets for data whose check octets are zero. */
  method Checksum(data: seq<Octet>, offset: nat) returns (x: Octet, y: Octet)
    requires offset + 1 < |data|
    requires data[offset] == 0 && data[offset + 1] == 0
    ensures 1 <= x <= 255 && 1 <= y <= 255
    ensures Valid(data[offset := x][offset + 1 := y])
  {
    var c0, c1 := Sums(data);
    var z := (|data| - offset - 1) * c0 - c1;
    var a := TruncRem(z, 255);
    Truncated(z);
    if a <= 0 {
      a := a + 255;
    }
    var b := 510 - c0 - a;
    if b > 255 {
      b := b - 255;
    }
    x, y := a, b;
    CheckOctetsCancel(data, offset, x, y, c0, c1);
  }

  /** Octets chosen by the two congruences make both sums vanish. */
  lemma CheckOctetsCancel(data: seq<Octet>, offset: nat, x: Octet, y: Octet, c0: nat, c1: nat)
    requires offset + 1 < |data| && data[offset] == 0 && data[offset + 1] == 0
    requires c0 == Sum0(data) % 255 && c1 == Sum1(data) % 255
    requires (x - ((|data| - offset - 1) * c0 - c1)) % 255 == 0
    requires (c0 + x + y) % 255 == 0
    ensures Valid(data[offset := x][offset + 1 := y])
  {
    var n := |data| - offset;
    SumsOfUpdate(data, offset, x);
    SumsOfUpdate(data[offset := x], offset + 1, y);
    Cancels(n, x, y, c0, c1, Sum0(data), Sum1(data));
  }

  lemma Cancels(n: int, x: int, y: int, c0: int, c1: int, s0: int, s1: int)
    requires c0 == s0 % 255 && c1 == s1 % 255
    requires (x - ((n - 1) * c0 - c1)) % 255 == 0
    requires (c0 + x + y) % 255 == 0
    ensures (s0 + x + y) % 255 == 0
    ensures (s1 + n * x + (n - 1) * y) % 255 == 0
  {
    var q0, q1 := s0 / 255, s1 / 255;
    var k1, k2 := (x - ((n - 1) * c0 - c1)) / 255, (c0 + x + y) / 255;
    assert s0 + x + y == 255 * (q0 + k2);
    calc {
      s1 + n * x + (n - 1) * y;
      s1 + (n - 1) * (x + y) + x;
      { assert x + y == 255 * k2 - c0; }
      s1 + (n - 1) * (255 * k2 - c0) + x;
      { assert (n - 1) * (255 * k2 - c0) == 255 * ((n - 1) * k2) - (n - 1) * c0; }
      s1 + 255 * ((n - 1) * k2) - (n - 1) * c0 + x;
      255 * q1 + 255 * ((n - 1) * k2) + 255 * k1;
      255 * (q1 + (n - 1) * k2 + k1);
    }
  }

  /** A changed octet is noticed unless it changed by a multiple of 255, that is between 0 and 255. */
  lemma OneOctetCorruption(s: seq<Octet>, i: nat, v: Octet)
    requires i < |s| && Valid(s)
    ensures Valid(s[i := v]) <==> v == s[i] || {v, s[i]} == {0, 255}
  {
    SumsOfUpdate(s, i, v);
    hide Sum0; hide Sum1;
    ShiftedSums(Sum0(s), Sum1(s), v - s[i], |s| - i);
    assert v - s[i] == 0 || v - s[i] == 255 || v - s[i] == -255 <==> v == s[i] || {v, s[i]} == {0, 255};
  }

  lemma PlusMultiple(q: int, d: int)
    ensures (255 * q + d) % 255 == d % 255
  {
  }

  lemma SmallMultiple(d: int)
    requires -255 <= d <= 255
    ensures d % 255 == 0 <==> d == 0 || d == 255 || d == -255
  {
  }

  lemma ShiftedSums(s0: int, s1: int, d: int, w: int)
    requires s0 % 255 == 0 && s1 % 255 == 0 && -255 <= d <= 255
    ensures (s0 + d) % 255 == 0 <==> d == 0 || d == 255 || d == -255
    ensures (s0 + d) % 255 == 0 ==> (s1 + w * d) % 255 == 0
  {
    PlusMultiple(s0 / 255, d);
    SmallMultiple(d);
    var t := if d == 0 then 0 else if d > 0 then w else -w;
    if (s0 + d) % 255 == 0 {
      assert w * d == 255 * t;
      PlusMultiple(s1 / 255 + t, 0);
    }
  }

  method IsValid(data: seq<Octet>) returns (ok: bool)
    ensures ok <==> Valid(data)
  {
    var c0, c1 := Sums(data);
    ok := c0 == 0 && c1 == 0;
  }

  // ---------- Which check octets are right ----------

  lemma {:induction false} SumsOfJoin(a: seq<Octet>, b: seq<Octet>)
    ensures Sum0(a + b) == Sum0(a) + Sum0(b)
    ensures Sum1(a + b) == Sum1(a) + Sum1(b) + |b| * Sum0(a)
  {
    if b == [] {
      assert a + b == a;
    } else {
      var init := b[..|b| - 1];
      assert (a + b)[..|a + b| - 1] == a + init;
      SumsOfJoin(a, init);
      assert |b| * Sum0(a) == |init| * Sum0(a) + Sum0(a);
    }
  }

  /** Only one pair of octets other than zero checks. */
  lemma CheckOctetsAreUnique(s: seq<Octet>, i: nat, x: Octet, y: Octet, u: Octet, v: Octet)
    requires i + 1 < |s| && x >= 1 && y >= 1 && u >= 1 && v >= 1
    requires Valid(s[i := x][i + 1 := y]) && Valid(s[i := u][i + 1 := v])
    ensures x == u && y == v
  {
    hide Sum0; hide Sum1;
    var t := s[i := x][i + 1 := y];
    SumsOfTwo(t, i, u, v);
    assert t[i := u][i + 1 := v] == s[i := u][i + 1 := v];
    SameShift(Sum0(t), Sum1(t), u - x, v - y, |s| - i - 1);
  }

  lemma SumsOfTwo(t: seq<Octet>, i: nat, u: Octet, v: Octet)
    requires i + 1 < |t|
    ensures var r := t[i := u][i + 1 := v];
      && Sum0(r) == Sum0(t) + (u - t[i]) + (v - t[i + 1])
      && Sum1(r) == Sum1(t) + (|t| - i - 1 + 1) * (u - t[i]) + (|t| - i - 1) * (v - t[i + 1])
  {
    hide Sum0; hide Sum1;
    SumsOfUpdate(t, i, u);
    SumsOfUpdate(t[i := u], i + 1, v);
  }

  lemma SameShift(s0: int, s1: int, d: int, e: int, w: int)
    requires s0 % 255 == 0 && s1 % 255 == 0 && -255 < d < 255 && -255 < e < 255
    requires (s0 + d + e) % 255 == 0 && (s1 + (w + 1) * d + w * e) % 255 == 0
    ensures d == 0 && e == 0
  {
    var q, r, p, z := s0 / 255, (s0 + d + e) / 255, s1 / 255, (s1 + (w + 1) * d + w * e) / 255;
    assert d + e == 255 * (r - q);
    assert (w + 1) * d + w * e == w * (d + e) + d;
    assert w * (d + e) == 255 * (w * (r - q)) by { Scaled(w, r - q); }
    assert d == 255 * (z - p - w * (r - q));
  }

  lemma Scaled(w: int, k: int)
    ensures w * (255 * k) == 255 * (w * k)
  {
  }

  /** Filling a run of zeros in valid data keeps it valid exactly when what is filled in is itself valid. */
  lemma FillIsValid(s: seq<Octet>, at: nat, part: seq<Octet>)
    requires at + |part| <= |s| && Valid(s) && forall k :: at <= k < at + |part| ==> s[k] == 0
    ensures Valid(s[..at] + part + s[at + |part|..]) <==> Valid(part)
  {
    hide Sum0; hide Sum1;
    var head, zeros, tail := s[..at], s[at..at + |part|], s[at + |part|..];
    assert s == head + (zeros + tail) && s[..at] + part + s[at + |part|..] == head + (part + tail);
    SumsOfThree(head, zeros, tail);
    SumsOfThree(head, part, tail);
    SumsOfZeros(zeros);
    FillShift(Sum0(s), Sum1(s), Sum0(part), Sum1(part), |tail|);
  }

  lemma SumsOfThree(a: seq<Octet>, b: seq<Octet>, c: seq<Octet>)
    ensures Sum0(a + (b + c)) == Sum0(a) + Sum0(b) + Sum0(c)
    ensures Sum1(a + (b + c)) == Sum1(a) + Sum1(b) + Sum1(c) + |c| * Sum0(b) + (|b| + |c|) * Sum0(a)
  {
    hide Sum0; hide Sum1;
    SumsOfJoin(b, c);
    SumsOfJoin(a, b + c);
  }

  lemma {:induction false} SumsOfZeros(s: seq<Octet>)
    requires forall k :: 0 <= k < |s| ==> s[k] == 0
    ensures Sum0(s) == 0 && Sum1(s) == 0
  {
    if s != [] { SumsOfZeros(s[..|s| - 1]); }
  }

  lemma FillShift(s0: int, s1: int, p0: int, p1: int, w: int)
    requires s0 % 255 == 0 && s1 % 255 == 0
    ensures (s0 + p0) % 255 == 0 && (s1 + p1 + w * p0) % 255 == 0 <==> p0 % 255 == 0 && p1 % 255 == 0
  {
    PlusMultiple(s0 / 255, p0);
    PlusMultiple(s1 / 255, p1 + w * p0);
    if p0 % 255 == 0 {
      Scaled(w, p0 / 255);
      PlusMultiple(w * (p0 / 255), p1);
    }
  }
}
