/** An own LSP that comes back: whether the checksum it was sent with is the one the database kept. */
module Echo {
  import opened Types
  import opened Lsdb
  import opened Authentication
  import Fletcher
  import Sequencing

  /** The placeholder the digest is filled into is all zeros. */
  ghost predicate Placeholder(body: Bytes, key: Spec) {
    var at := DigestAt(body, LSP_HEADER_LEN, key.algo, key.keyId);
    at.Some? && at.value + DigestLen(key.algo) <= |body| && forall k :: at.value <= k < at.value + DigestLen(key.algo) ==> body[k] == 0
  }

  /** The digest of an LSP under a key. */
  function DigestOf(hmac: Hmac, body: Bytes, key: Spec): Bytes
    requires |body| >= LSP_HEADER_LEN
  {
    var at := DigestAt(body, LSP_HEADER_LEN, key.algo, key.keyId);
    if at.Some? && at.value + DigestLen(key.algo) <= |body| then Digest(hmac, body, at.value, key, true) else []
  }

  /** The checksum has no part in the digest. */
  lemma SummedDigest(hmac: Hmac, body: Bytes, key: Spec, x: Octet, y: Octet)
    requires |body| >= LSP_HEADER_LEN && Placeholder(body, key)
    ensures DigestAt(Summed(body, x, y), LSP_HEADER_LEN, key.algo, key.keyId) == DigestAt(body, LSP_HEADER_LEN, key.algo, key.keyId)
    ensures DigestAt(body, LSP_HEADER_LEN, key.algo, key.keyId).value >= LSP_HEADER_LEN + 3
    ensures DigestOf(hmac, Summed(body, x, y), key) == DigestOf(hmac, body, key)
  {
    hide AuthTlvs;
    DigestStays(body, Summed(body, x, y), LSP_HEADER_LEN, key.algo, key.keyId);
    HashedAlike(body, Summed(body, x, y), DigestAt(body, LSP_HEADER_LEN, key.algo, key.keyId).value, DigestLen(key.algo));
  }

  /** What is signed checks with the checksum it had before exactly when the digest is itself valid. */
  lemma SignedChecks(sealed: Bytes, at: nat, digest: Bytes)
    requires LSP_HEADER_LEN <= at && at + |digest| <= |sealed| && Fletcher.Valid(sealed[12..])
    requires forall k :: at <= k < at + |digest| ==> sealed[k] == 0
    ensures Fletcher.Valid(Spliced(sealed, at, digest)[12..]) <==> Fletcher.Valid(digest)
  {
    var s := sealed[12..];
    assert forall k :: at - 12 <= k < at - 12 + |digest| ==> s[k] == sealed[k + 12];
    assert Spliced(sealed, at, digest)[12..] == s[..at - 12] + digest + s[at - 12 + |digest|..];
    Fletcher.FillIsValid(s, at - 12, digest);
  }

  /** The octets that check are those already there, or none. */
  lemma SameOctets(signed: Bytes, x: Octet, y: Octet, u: Octet, v: Octet)
    requires |signed| >= LSP_HEADER_LEN && signed[24] == x && signed[25] == y && x >= 1 && y >= 1 && u >= 1 && v >= 1
    requires Fletcher.Valid(Summed(signed, u, v)[12..])
    ensures u == x && v == y <==> Fletcher.Valid(signed[12..])
  {
    var s: Bytes := signed[12..];
    assert Summed(signed, u, v)[12..] == s[12 := u][13 := v];
    assert s == s[12 := x][13 := y];
    if Fletcher.Valid(s) {
      Fletcher.CheckOctetsAreUnique(s, 12, x, y, u, v);
    }
  }

  /**
   * The checksum an own LSP is sent with is the stored one on a level without a key; on a keyed level it is exactly
   * when both checksum sums of the digest vanish modulo 255.
   */
  lemma SentChecksum(hmac: Hmac, body: Bytes, spec: Option<Spec>, raw: Bytes, x: Octet, y: Octet)
    requires FixedLength(hmac) && |body| >= LSP_HEADER_LEN && IsSerialized(hmac, body, spec, raw, x, y)
    requires spec.Some? ==> Placeholder(body, spec.value)
    ensures |raw| >= LSP_HEADER_LEN
    ensures raw[24] == x && raw[25] == y <==> spec.None? || Fletcher.Valid(DigestOf(hmac, body, spec.value))
  {
    if spec.Some? {
      var key := spec.value;
      SummedDigest(hmac, body, key, x, y);
      hide DigestAt; hide Fletcher.Valid; hide Hashed;
      var sealed := Summed(body, x, y);
      var at, digest := DigestAt(body, LSP_HEADER_LEN, key.algo, key.keyId).value, DigestOf(hmac, body, key);
      assert |digest| == DigestLen(key.algo);
      var signed := Spliced(sealed, at, digest);
      assert Signed(hmac, sealed, LSP_HEADER_LEN, key, true) == signed;
      assert signed[24] == x && signed[25] == y;
      SameOctets(signed, x, y, raw[24], raw[25]);
      SignedChecks(sealed, at, digest);
    }
  }

  function Pair(x: nat, y: nat): nat {
    x * 256 + y
  }

  lemma PairsDiffer(x: Octet, y: Octet, u: Octet, v: Octet)
    ensures Pair(x, y) == Pair(u, v) <==> x == u && y == v
  {
  }

  /** `m` is the own LSP `id` as it was sent, carrying `remaining` seconds. */
  ghost predicate ComesBack(n: Node, m: Lsp, hmac: Hmac, body: Bytes, spec: Option<Spec>, raw: Bytes, now: nat)
    requires |body| >= LSP_HEADER_LEN
  {
    && FixedLength(hmac) && (spec.Some? ==> Placeholder(body, spec.value))
    && 0 < m.remaining <= 0xffff && |Wire(raw, m.remaining)| >= LSP_HEADER_LEN
    && m.checksum == Pair(Wire(raw, m.remaining)[24], Wire(raw, m.remaining)[25])
    && m.id in n.db && n.db[m.id].own && Remaining(n.db[m.id], now) != 0 && n.db[m.id].seqno == m.seqno
    && exists x: Octet, y: Octet :: IsSerialized(hmac, body, spec, raw, x, y) && n.db[m.id].checksum == Pair(x, y)
  }

  /** The echo of an own LSP leaves the database alone without a key, and with one exactly when its digest is itself valid. */
  lemma EchoOfOwn(n: Node, c: CircuitId, m: Lsp, hmac: Hmac, body: Bytes, spec: Option<Spec>, raw: Bytes, now: nat, deadline: nat)
    requires c in n.circuits && |body| >= LSP_HEADER_LEN && ComesBack(n, m, hmac, body, spec, raw, now)
    ensures ReceiveLsp(n, c, m, true, now, deadline).db == n.db <==> spec.None? || Fletcher.Valid(DigestOf(hmac, body, spec.value))
  {
    hide ReceiveLsp; hide IsSerialized; hide DigestOf; hide Remaining; hide FixedLength; hide Placeholder;
    var x: Octet, y: Octet :| IsSerialized(hmac, body, spec, raw, x, y) && n.db[m.id].checksum == Pair(x, y);
    SentChecksum(hmac, body, spec, raw, x, y);
    PairsDiffer(x, y, raw[24], raw[25]);
    Sequencing.EchoIsIdle(n, c, m, now, deadline);
  }

  // ---------- An input at which it does not ----------

  /** A hash whose every digest is a one followed by zeros. */
  const UNIT: Hmac := (algo, _, _) => [1] + Zeros(DigestLen(algo) - 1)
  const KEY: Spec := Spec(MD5, 0, [])
  /** Number 1 of an LSP of otherwise zero header, with an empty HMAC-MD5 placeholder. */
  const LSP: Bytes := Zeros(23) + [1, 0, 0, 0, TLV_AUTHENTICATION, 17, 54] + Zeros(16)

  lemma LspHasPlaceholder()
    ensures |LSP| == 46 && Placeholder(LSP, KEY) && LSP[24] == 0 && LSP[25] == 0
  {
    assert TlvAt(LSP, 27) && LSP[27] == TLV_AUTHENTICATION && LSP[28] == 17 && LSP[29] == 54;
    assert AuthTlvs(LSP, 46) == [];
    assert AuthTlvs(LSP, 27) == [27] + AuthTlvs(LSP, 46);
    assert AuthTlvs(LSP, 27) == [27];
  }

  lemma UnitDigest()
    ensures FixedLength(UNIT) && !Fletcher.Valid(DigestOf(UNIT, LSP, KEY))
  {
    LspHasPlaceholder();
    var d := DigestOf(UNIT, LSP, KEY);
    assert d == [1] + Zeros(15);
    Fletcher.SumsOfJoin([1], Zeros(15));
    Fletcher.SumsOfZeros(Zeros(15));
    assert Fletcher.Sum0([1]) == 1 by { assert [1][..0] == []; }
  }

  /** What it is sent as: the check octets differ from the 30 and 143 stored before the digest was filled in. */
  const RAW: Bytes := Zeros(23) + [1, 35, 137, 0, TLV_AUTHENTICATION, 17, 54, 1] + Zeros(15)

  lemma Checks(x: Octet, y: Octet, digest: Octet)
    ensures var s := Zeros(11) + ([1, x, y, 0, TLV_AUTHENTICATION, 17, 54, digest] + Zeros(15));
      Fletcher.Sum0(s) == 82 + x + y + digest && Fletcher.Sum1(s) == 23 + 22 * x + 21 * y + 190 + 306 + 918 + 16 * digest
  {
    Fletcher.SumsOfThree(Zeros(11), [1, x, y, 0, TLV_AUTHENTICATION, 17, 54, digest], Zeros(15));
    Fletcher.SumsOfZeros(Zeros(11));
    Fletcher.SumsOfZeros(Zeros(15));
    MiddleSums(x, y, digest);
  }

  lemma MiddleSums(x: Octet, y: Octet, digest: Octet)
    ensures var m := [1, x, y, 0, TLV_AUTHENTICATION, 17, 54, digest];
      Fletcher.Sum0(m) == 82 + x + y + digest && Fletcher.Sum1(m) == 8 + 7 * x + 6 * y + 40 + 51 + 108 + digest
  {
    var m := [1, x, y, 0, TLV_AUTHENTICATION, 17, 54, digest];
    OneMore(m, 1); OneMore(m, 2); OneMore(m, 3); OneMore(m, 4); OneMore(m, 5); OneMore(m, 6); OneMore(m, 7); OneMore(m, 8);
    assert m[..0] == [] && m[..8] == m;
  }

  lemma OneMore(m: Bytes, k: nat)
    requires 0 < k <= |m|
    ensures Fletcher.Sum0(m[..k]) == Fletcher.Sum0(m[..k - 1]) + m[k - 1]
    ensures Fletcher.Sum1(m[..k]) == Fletcher.Sum1(m[..k - 1]) + Fletcher.Sum0(m[..k])
  {
    assert m[..k][..k - 1] == m[..k - 1];
  }

  /** Where the digest goes, and what goes there. */
  lemma LspIsSigned()
    ensures Signed(UNIT, Summed(LSP, 30, 143), LSP_HEADER_LEN, KEY, true) == Spliced(Summed(LSP, 30, 143), 30, [1] + Zeros(15))
    ensures DigestAt(Summed(LSP, 30, 143), LSP_HEADER_LEN, KEY.algo, KEY.keyId).Some?
  {
    LspHasPlaceholder();
    SummedDigest(UNIT, LSP, KEY, 30, 143);
    assert DigestAt(LSP, LSP_HEADER_LEN, MD5, 0) == Some(30);
    hide DigestAt; hide Hashed;
  }

  lemma SealedOctets()
    ensures |LSP| == 46 && Summed(LSP, 30, 143)[12..] == Zeros(11) + ([1, 30, 143, 0, TLV_AUTHENTICATION, 17, 54, 0] + Zeros(15))
  {
    var a, b := Summed(LSP, 30, 143)[12..], Zeros(11) + ([1, 30, 143, 0, TLV_AUTHENTICATION, 17, 54, 0] + Zeros(15));
    assert |a| == |b| == 34;
  }

  lemma RawOctets()
    ensures |RAW| == 46 && RAW[24] == 35 && RAW[25] == 137
    ensures RAW[12..] == Zeros(11) + ([1, 35, 137, 0, TLV_AUTHENTICATION, 17, 54, 1] + Zeros(15))
    ensures |LSP| == 46 && RAW == Summed(Spliced(Summed(LSP, 30, 143), 30, [1] + Zeros(15)), 35, 137)
  {
  }

  lemma SealedChecks()
    ensures |LSP| == 46 && Fletcher.Valid(Summed(LSP, 30, 143)[12..])
  {
    hide Fletcher.Sum0; hide Fletcher.Sum1; hide Summed;
    SealedOctets();
    Checks(30, 143, 0);
  }

  lemma RawChecks()
    ensures |RAW| == 46 && Fletcher.Valid(RAW[12..])
  {
    hide Fletcher.Sum0; hide Fletcher.Sum1;
    RawOctets();
    Checks(35, 137, 1);
  }

  lemma LspIsSerialized()
    ensures |LSP| == 46 && IsSerialized(UNIT, LSP, Some(KEY), RAW, 30, 143)
  {
    hide Fletcher.Valid; hide Signed; hide DigestAt; hide Summed; hide Zeros; hide Spliced;
    LspIsSigned();
    RawOctets();
    SealedChecks();
    RawChecks();
  }

  const ID: LspId := LspId(NodeId(0, 0), 0)

  /** A node that holds this LSP as its own, and the LSP as it comes back over its one circuit. */
  const HOLDER: Node := Node(
    Config(0, 0, 27, (_, _, _) => 0),
    map[ID := Entry(1, 30 * 256 + 143, Content(0), 46, 0, MAX_AGE, true, None, 0)],
    map[0 := Circuit(true, true, 1492, 1, false, map[], {}, map[], 0, false, map[])],
    map[])
  const BACK: Lsp := Lsp(ID, 1, 1199, 35 * 256 + 137, Content(0), 46)

  /** It is issued again at a higher number, although nothing changed. */
  lemma KeyedEchoReissues(deadline: nat)
    ensures ComesBack(HOLDER, BACK, UNIT, LSP, Some(KEY), RAW, 0)
    ensures ReceiveLsp(HOLDER, 0, BACK, true, 0, deadline).db != HOLDER.db
  {
    UnitDigest();
    LspHasPlaceholder();
    LspIsSerialized();
    hide IsSerialized; hide DigestOf; hide Fletcher.Valid; hide Placeholder; hide FixedLength;
    RawOctets();
    var x: Octet, y: Octet := 30, 143;
    assert IsSerialized(UNIT, LSP, Some(KEY), RAW, x, y) && HOLDER.db[ID].checksum == Pair(x, y);
    EchoOfOwn(HOLDER, 0, BACK, UNIT, LSP, Some(KEY), RAW, 0, deadline);
  }
}
