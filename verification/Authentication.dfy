/**
 * HMAC authentication of serialized PDUs (RFC 5304, RFC 5310), and why an authenticated LSP still verifies after its
 * remaining lifetime has been patched for sending.  The hash itself is an uninterpreted function.
 */
module Authentication {
  import opened Types
  import Fletcher
  import Framing = Wire

  datatype Algorithm = MD5 | SHA1 | SHA256 | SHA384 | SHA512

  function DigestLen(algo: Algorithm): nat {
    match algo
    case MD5 => 16
    case SHA1 => 20
    case SHA256 => 32
    case SHA384 => 48
    case SHA512 => 64
  }

  /** 54 for HMAC-MD5, 3 for generic cryptographic authentication. */
  function AuthType(algo: Algorithm): Octet {
    if algo == MD5 then 54 else 3
  }

  const TLV_AUTHENTICATION: Octet := 10
  const LSP_HEADER_LEN: nat := 27

  /** Which algorithm, key identifier and key a scope signs with. */
  datatype Spec = Spec(algo: Algorithm, keyId: nat, key: Bytes)

  /** The keyed hash of each algorithm: a fixed output length is all that is known of it. */
  type Hmac = (Algorithm, Bytes, Bytes) -> Bytes

  ghost predicate FixedLength(hmac: Hmac) {
    forall algo, key, text :: |hmac(algo, key, text)| == DigestLen(algo)
  }

  /** A whole TLV starts at `i`. */
  predicate TlvAt(pdu: Bytes, i: nat) {
    i + 2 <= |pdu| && i + 2 + pdu[i + 1] <= |pdu|
  }

  /** Where the Authentication TLVs of the area from `i` on start; a truncated TLV ends the area. */
  function AuthTlvs(pdu: Bytes, i: nat): seq<nat>
    decreases |pdu| - i
  {
    if !TlvAt(pdu, i) then []
    else (if pdu[i] == TLV_AUTHENTICATION then [i] else []) + AuthTlvs(pdu, i + 2 + pdu[i + 1])
  }

  /** Octets of an Authentication TLV in front of the digest: header, type and, for the SHA family, the key identifier. */
  function Lead(algo: Algorithm): nat {
    if algo == MD5 then 3 else 5
  }

  /** The Authentication TLV at `i` is of the kind `spec` signs with. */
  predicate Matches(pdu: Bytes, i: nat, algo: Algorithm, keyId: nat)
    requires TlvAt(pdu, i)
  {
    && pdu[i + 1] == Lead(algo) - 2 + DigestLen(algo)
    && pdu[i + 2] == AuthType(algo)
    && (algo != MD5 ==> (pdu[i + 3] as int) * 256 + pdu[i + 4] == keyId)
  }

  lemma {:induction false} AuthTlvsAreTlvs(pdu: Bytes, i: nat, k: nat)
    requires k < |AuthTlvs(pdu, i)|
    ensures TlvAt(pdu, AuthTlvs(pdu, i)[k]) && i <= AuthTlvs(pdu, i)[k]
    decreases |pdu| - i
  {
    var rest := AuthTlvs(pdu, i + 2 + pdu[i + 1]);
    if pdu[i] == TLV_AUTHENTICATION {
      if k > 0 { AuthTlvsAreTlvs(pdu, i + 2 + pdu[i + 1], k - 1); }
    } else {
      AuthTlvsAreTlvs(pdu, i + 2 + pdu[i + 1], k);
    }
  }

  /** Where the digest starts: in the one Authentication TLV, if there is exactly one and it matches. */
  function DigestAt(pdu: Bytes, offset: nat, algo: Algorithm, keyId: nat): Option<nat> {
    var found := AuthTlvs(pdu, offset);
    if |found| == 1 && (AuthTlvsAreTlvs(pdu, offset, 0); Matches(pdu, found[0], algo, keyId)) then Some(found[0] + Lead(algo)) else None
  }

  /** Octets of a digest, and of the value of the Authentication TLV that carries it. */
  predicate Sizes(algo: Algorithm, digest: nat, value: nat) {
    match algo
    case MD5 => digest == 16 && value == 17
    case SHA1 => digest == 20 && value == 23
    case SHA256 => digest == 32 && value == 35
    case SHA384 => digest == 48 && value == 51
    case SHA512 => digest == 64 && value == 67
  }

  /**
   * Where the digest is: behind the lead of the one Authentication TLV, which is type 10 and of the exact length, carries
   * type 54 for MD5, and otherwise type 3 and the key identifier.
   */
  lemma DigestPlace(pdu: Bytes, offset: nat, algo: Algorithm, keyId: nat, at: nat)
    ensures DigestAt(pdu, offset, algo, keyId) == Some(at) <==>
            exists i: nat :: AuthTlvs(pdu, offset) == [i] && i + 2 < |pdu| && Sizes(algo, DigestLen(algo), pdu[i + 1])
                             && (if algo == MD5 then at == i + 3 && pdu[i + 2] == 54
                                 else at == i + 5 && i + 4 < |pdu| && pdu[i + 2] == 3 && (pdu[i + 3] as int) * 256 + pdu[i + 4] == keyId)
  {
    var found := AuthTlvs(pdu, offset);
    if |found| == 1 {
      AuthTlvsAreTlvs(pdu, offset, 0);
      assert found == [found[0]];
    }
  }

  lemma FirstItem(pdu: Bytes, i: nat) returns (next: nat, rest: seq<Framing.Raw>)
    requires i < |pdu| && Framing.Split(pdu[i..]).Some?
    ensures TlvAt(pdu, i) && next == i + 2 + pdu[i + 1] && Framing.Split(pdu[next..]) == Some(rest)
    ensures exists v :: Framing.Split(pdu[i..]).value == [Framing.Raw(pdu[i], v)] + rest
  {
    hide Framing.Split;
    var end: nat;
    end, rest := Framing.SplitFirst(pdu[i..]);
    next := i + end;
    assert pdu[i..][end..] == pdu[next..];
  }

  /** The area holds as many Authentication TLVs as its items do, where it frames at all. */
  lemma {:induction false} AuthTlvsAreItems(pdu: Bytes, i: nat)
    requires i <= |pdu| && Framing.Split(pdu[i..]).Some?
    ensures |AuthTlvs(pdu, i)| == |Typed(Framing.Split(pdu[i..]).value)|
    decreases |pdu| - i
  {
    if i < |pdu| {
      var next, rest := FirstItem(pdu, i);
      AuthTlvsAreItems(pdu, next);
      AuthTlvsStep(pdu, i);
      hide AuthTlvs; hide Framing.Split;
      var v :| Framing.Split(pdu[i..]).value == [Framing.Raw(pdu[i], v)] + rest;
      assert ([Framing.Raw(pdu[i], v)] + rest)[1..] == rest;
    }
  }

  function Typed(items: seq<Framing.Raw>): seq<Framing.Raw> {
    if items == [] then [] else (if items[0].typ == TLV_AUTHENTICATION then [items[0]] else []) + Typed(items[1..])
  }

  /** The digest of one Authentication TLV, if it is of the kind looked for. */
  method MatchTlv(pdu: Bytes, i: nat, algo: Algorithm, keyId: nat) returns (start: nat, end: nat, ok: bool)
    requires TlvAt(pdu, i)
    ensures ok <==> Matches(pdu, i, algo, keyId)
    ensures ok ==> start == i + Lead(algo) && end == start + DigestLen(algo) <= |pdu|
  {
    start, end, ok := 0, 0, false;
    var l, v := pdu[i + 1], i + 2;
    if l < 1 || pdu[v] != AuthType(algo) {
    } else if algo == MD5 && l == 1 + DigestLen(algo) {
      start, end, ok := v + 1, v + 1 + DigestLen(algo), true;
    } else if algo != MD5 && l == 3 + DigestLen(algo) && (pdu[v + 1] as int) * 256 + pdu[v + 2] == keyId {
      start, end, ok := v + 3, v + 3 + DigestLen(algo), true;
    }
  }

  /** The scanning loop: it goes on after a match, so that a duplicate later in the area is still refused. */
  method DigestRange(pdu: Bytes, offset: nat, algo: Algorithm, keyId: nat) returns (start: nat, end: nat, ok: bool)
    ensures ok <==> DigestAt(pdu, offset, algo, keyId).Some?
    ensures ok ==> start == DigestAt(pdu, offset, algo, keyId).value && end == start + DigestLen(algo) <= |pdu|
  {
    hide Matches; hide DigestLen; hide Lead; hide AuthTlvs;
    start, end, ok := 0, 0, false;
    var seen := false;
    ghost var first: nat := 0;
    var i := offset;
    while i + 2 <= |pdu|
      invariant AuthTlvs(pdu, offset) == (if seen then [first] else []) + AuthTlvs(pdu, i)
      invariant seen ==> TlvAt(pdu, first)
      invariant ok <==> seen && Matches(pdu, first, algo, keyId)
      invariant ok ==> start == first + Lead(algo) && end == start + DigestLen(algo) <= |pdu|
      decreases |pdu| - i
    {
      AuthTlvsStep(pdu, i);
      var next := i + 2 + pdu[i + 1];
      if next > |pdu| {
        break;
      }
      if pdu[i] == TLV_AUTHENTICATION {
        if seen {
          assert |AuthTlvs(pdu, offset)| >= 2;
          return 0, 0, false;
        }
        seen, first := true, i;
        start, end, ok := MatchTlv(pdu, i, algo, keyId);
      }
      i := next;
    }
    AuthTlvsStep(pdu, i);
  }

  lemma AuthTlvsStep(pdu: Bytes, i: nat)
    ensures !TlvAt(pdu, i) ==> AuthTlvs(pdu, i) == []
    ensures TlvAt(pdu, i) ==> AuthTlvs(pdu, i) == (if pdu[i] == TLV_AUTHENTICATION then [i] else []) + AuthTlvs(pdu, i + 2 + pdu[i + 1])
  {
  }

  /** `pdu` with the octets of [start, end) replaced. */
  function Spliced(pdu: Bytes, start: nat, part: Bytes): Bytes
    requires start + |part| <= |pdu|
  {
    pdu[..start] + part + pdu[start + |part|..]
  }

  function Zeros(n: nat): Bytes {
    seq(n, _ => 0)
  }

  /** What is hashed: the digest field zeroed and, for an LSP, the remaining lifetime and the checksum. */
  function Hashed(pdu: Bytes, start: nat, len: nat, isLsp: bool): Bytes
    requires start + len <= |pdu| && (isLsp ==> |pdu| >= LSP_HEADER_LEN)
  {
    var zeroed := Spliced(pdu, start, Zeros(len));
    if isLsp then zeroed[10 := 0][11 := 0][24 := 0][25 := 0] else zeroed
  }

  /** The digest of `pdu` under `spec` verifies. */
  predicate Verifies(hmac: Hmac, pdu: Bytes, offset: nat, spec: Spec, isLsp: bool)
    requires isLsp ==> |pdu| >= LSP_HEADER_LEN
  {
    var at := DigestAt(pdu, offset, spec.algo, spec.keyId);
    var len := DigestLen(spec.algo);
    at.Some? && at.value + len <= |pdu| &&
    pdu[at.value..at.value + len] == hmac(spec.algo, spec.key, Hashed(pdu, at.value, len, isLsp))
  }

  /** What is hashed, octet by octet: the whole PDU, with nothing zeroed but the digest and, of an LSP, lifetime and checksum. */
  lemma HashedOctets(pdu: Bytes, start: nat, len: nat, isLsp: bool)
    requires start + len <= |pdu| && (isLsp ==> |pdu| >= LSP_HEADER_LEN)
    ensures |Hashed(pdu, start, len, isLsp)| == |pdu|
    ensures forall k :: 0 <= k < |pdu| ==>
              Hashed(pdu, start, len, isLsp)[k] ==
                if start <= k < start + len || (isLsp && (k == 10 || k == 11 || k == 24 || k == 25)) then 0 else pdu[k]
  {
  }

  /**
   * A digest stands for every octet it covers: two PDUs that carry the same digest in the same place and both verify under
   * one key agree outside the digest and, for LSPs, outside lifetime and checksum, or their texts are a collision.
   */
  lemma DigestCovers(hmac: Hmac, a: Bytes, b: Bytes, offset: nat, spec: Spec, isLsp: bool, at: nat)
    requires |a| == |b| && (isLsp ==> |a| >= LSP_HEADER_LEN)
    requires Verifies(hmac, a, offset, spec, isLsp) && Verifies(hmac, b, offset, spec, isLsp)
    requires DigestAt(a, offset, spec.algo, spec.keyId) == Some(at) && DigestAt(b, offset, spec.algo, spec.keyId) == Some(at)
    requires a[at..at + DigestLen(spec.algo)] == b[at..at + DigestLen(spec.algo)]
    ensures
      || (forall k :: 0 <= k < |a| && !(isLsp && (k == 10 || k == 11 || k == 24 || k == 25)) ==> a[k] == b[k])
      || exists s, t :: s != t && hmac(spec.algo, spec.key, s) == hmac(spec.algo, spec.key, t)
  {
    var len := DigestLen(spec.algo);
    var s, t := Hashed(a, at, len, isLsp), Hashed(b, at, len, isLsp);
    assert hmac(spec.algo, spec.key, s) == hmac(spec.algo, spec.key, t);
    if s == t {
      HashedOctets(a, at, len, isLsp);
      HashedOctets(b, at, len, isLsp);
      forall k | 0 <= k < |a| && !(isLsp && (k == 10 || k == 11 || k == 24 || k == 25))
        ensures a[k] == b[k]
      {
        if at <= k < at + len {
          assert a[k] == a[at..at + len][k - at] == b[at..at + len][k - at];
        } else {
          assert s[k] == a[k] && t[k] == b[k];
        }
      }
    }
  }

  /** The digest that belongs in the place `at`. */
  function Digest(hmac: Hmac, pdu: Bytes, at: nat, spec: Spec, isLsp: bool): Bytes
    requires at + DigestLen(spec.algo) <= |pdu| && (isLsp ==> |pdu| >= LSP_HEADER_LEN)
  {
    hmac(spec.algo, spec.key, Hashed(pdu, at, DigestLen(spec.algo), isLsp))
  }

  /** `pdu` with that digest in its one matching Authentication TLV, and nothing else changed. */
  function Signed(hmac: Hmac, pdu: Bytes, offset: nat, spec: Spec, isLsp: bool): Bytes
    requires isLsp ==> |pdu| >= LSP_HEADER_LEN
  {
    var at := DigestAt(pdu, offset, spec.algo, spec.keyId);
    if at.Some? && at.value + DigestLen(spec.algo) <= |pdu| && at.value + |Digest(hmac, pdu, at.value, spec, isLsp)| <= |pdu|
    then Spliced(pdu, at.value, Digest(hmac, pdu, at.value, spec, isLsp))
    else pdu
  }

  /** Two PDUs of one length that agree on every octet from `offset` on, save those of [start, end). */
  predicate AgreeBut(a: Bytes, b: Bytes, offset: nat, start: nat, end: nat) {
    |a| == |b| && forall k :: offset <= k < |a| && !(start <= k < end) ==> a[k] == b[k]
  }

  /** Past the octets that differ, the areas are framed alike. */
  lemma {:induction false} SameFraming(a: Bytes, b: Bytes, i: nat)
    requires AgreeBut(a, b, i, 0, 0)
    ensures AuthTlvs(a, i) == AuthTlvs(b, i)
    decreases |a| - i
  {
    if TlvAt(a, i) { SameFraming(a, b, i + 2 + a[i + 1]); }
  }

  /** Rewriting the digest inside the only Authentication TLV leaves the framing alone. */
  lemma {:induction false} DigestIsNotFraming(a: Bytes, b: Bytes, i: nat, at: nat, start: nat, end: nat)
    requires AuthTlvs(a, i) == [at] && TlvAt(a, at)
    requires at + 3 <= start <= end <= at + 2 + a[at + 1]
    requires AgreeBut(a, b, i, start, end)
    ensures AuthTlvs(b, i) == [at]
    decreases |a| - i
  {
    var next := i + 2 + a[i + 1];
    if a[i] == TLV_AUTHENTICATION {
      assert AuthTlvs(a, i) == [i] + AuthTlvs(a, next);
      assert AuthTlvs(a, i)[0] == i;
      SameFraming(a, b, next);
      assert AuthTlvs(b, i) == [i] + AuthTlvs(b, next);
      assert AuthTlvs(a, next) == AuthTlvs(a, i)[1..] == [];
    } else {
      assert AuthTlvs(a, i) == AuthTlvs(a, next);
      AuthTlvsAreTlvs(a, next, 0);
      DigestIsNotFraming(a, b, next, at, start, end);
      assert AuthTlvs(b, i) == AuthTlvs(b, next);
    }
  }

  /** So the digest is found in the same place afterwards. */
  lemma DigestStays(a: Bytes, b: Bytes, offset: nat, algo: Algorithm, keyId: nat)
    requires DigestAt(a, offset, algo, keyId).Some?
    requires var at := DigestAt(a, offset, algo, keyId).value; AgreeBut(a, b, offset, at, at + DigestLen(algo))
    ensures DigestAt(b, offset, algo, keyId) == DigestAt(a, offset, algo, keyId)
    ensures DigestAt(a, offset, algo, keyId).value >= offset + 3
    ensures DigestAt(a, offset, algo, keyId).value + DigestLen(algo) <= |a|
  {
    var i := AuthTlvs(a, offset)[0];
    AuthTlvsAreTlvs(a, offset, 0);
    assert AuthTlvs(a, offset) == [i];
    DigestIsNotFraming(a, b, offset, i, i + Lead(algo), i + Lead(algo) + DigestLen(algo));
  }

  /** Two LSPs that agree outside the digest, the remaining lifetime and the checksum are hashed alike. */
  lemma HashedAlike(a: Bytes, b: Bytes, start: nat, len: nat)
    requires |a| == |b| && LSP_HEADER_LEN <= start && start + len <= |a|
    requires forall k :: 0 <= k < |a| && k != 10 && k != 11 && k != 24 && k != 25 && !(start <= k < start + len) ==> a[k] == b[k]
    ensures Hashed(a, start, len, true) == Hashed(b, start, len, true)
  {
  }

  /** Filling in the digest makes the PDU verify. */
  lemma PatchedVerifies(hmac: Hmac, pdu: Bytes, offset: nat, spec: Spec, isLsp: bool)
    requires FixedLength(hmac) && (isLsp ==> offset >= LSP_HEADER_LEN && |pdu| >= LSP_HEADER_LEN)
    requires DigestAt(pdu, offset, spec.algo, spec.keyId).Some?
    ensures var at, len := DigestAt(pdu, offset, spec.algo, spec.keyId).value, DigestLen(spec.algo);
            at + len <= |pdu| && Verifies(hmac, Spliced(pdu, at, hmac(spec.algo, spec.key, Hashed(pdu, at, len, isLsp))), offset, spec, isLsp)
  {
    var at, len := DigestAt(pdu, offset, spec.algo, spec.keyId).value, DigestLen(spec.algo);
    DigestStays(pdu, pdu, offset, spec.algo, spec.keyId);
    var digest := hmac(spec.algo, spec.key, Hashed(pdu, at, len, isLsp));
    assert |digest| == len;
    var signed := Spliced(pdu, at, digest);
    SplicedAgain(pdu, at, digest, Zeros(len));
    assert AgreeBut(pdu, signed, offset, at, at + len);
    hide DigestAt; hide AgreeBut; hide Spliced;
    DigestStays(pdu, signed, offset, spec.algo, spec.keyId);
  }

  /** A second splice over the first leaves only the second. */
  lemma SplicedAgain(pdu: Bytes, at: nat, a: Bytes, b: Bytes)
    requires at + |a| <= |pdu| && |a| == |b|
    ensures |Spliced(pdu, at, a)| == |pdu| && Spliced(pdu, at, a)[at..at + |a|] == a
    ensures Spliced(Spliced(pdu, at, a), at, b) == Spliced(pdu, at, b)
  {
  }

  method VerifyAuth(hmac: Hmac, pdu: Bytes, offset: nat, spec: Spec, isLsp: bool) returns (ok: bool)
    requires isLsp ==> |pdu| >= LSP_HEADER_LEN
    ensures ok <==> Verifies(hmac, pdu, offset, spec, isLsp)
  {
    var start, end, found := DigestRange(pdu, offset, spec.algo, spec.keyId);
    if !found {
      return false;
    }
    ok := pdu[start..end] == hmac(spec.algo, spec.key, Hashed(pdu, start, end - start, isLsp));
  }

  /** Fill in the digest of a serialized PDU, in place; a PDU without a matching placeholder is refused untouched. */
  method PatchAuth(hmac: Hmac, pdu: array<Octet>, offset: nat, spec: Spec, isLsp: bool) returns (ok: bool)
    requires FixedLength(hmac) && (isLsp ==> offset >= LSP_HEADER_LEN && pdu.Length >= LSP_HEADER_LEN)
    modifies pdu
    ensures ok <==> old(DigestAt(pdu[..], offset, spec.algo, spec.keyId)).Some?
    ensures !ok ==> pdu[..] == old(pdu[..])
    ensures ok ==> Verifies(hmac, pdu[..], offset, spec, isLsp)
    ensures ok ==> pdu[..] == Signed(hmac, old(pdu[..]), offset, spec, isLsp)
  {
    var was := pdu[..];
    var start, end, found := DigestRange(was, offset, spec.algo, spec.keyId);
    if !found {
      return false;
    }
    DigestStays(was, was, offset, spec.algo, spec.keyId);
    var digest := hmac(spec.algo, spec.key, Hashed(was, start, end - start, isLsp));
    PatchedVerifies(hmac, was, offset, spec, isLsp);
    for i := 0 to |digest|
      invariant forall k :: 0 <= k < pdu.Length ==> pdu[k] == if start <= k < start + i then digest[k - start] else was[k]
    {
      pdu[start + i] := digest[i];
    }
    assert pdu[..] == Spliced(was, start, digest);
    ok := true;
  }

  /** A change confined to the remaining lifetime and the checksum of an LSP leaves its digest valid. */
  lemma DigestIgnoresHeader(hmac: Hmac, a: Bytes, b: Bytes, spec: Spec)
    requires |a| == |b| >= LSP_HEADER_LEN && Verifies(hmac, a, LSP_HEADER_LEN, spec, true)
    requires forall k :: 0 <= k < |a| && k != 10 && k != 11 && k != 24 && k != 25 ==> a[k] == b[k]
    ensures Verifies(hmac, b, LSP_HEADER_LEN, spec, true)
  {
    var at, len := DigestAt(a, LSP_HEADER_LEN, spec.algo, spec.keyId).value, DigestLen(spec.algo);
    DigestStays(a, b, LSP_HEADER_LEN, spec.algo, spec.keyId);
    HashedAlike(a, b, at, len);
    assert a[at..at + len] == b[at..at + len];
  }

  /** An LSP with the two checksum octets put in place. */
  function Summed(pdu: Bytes, x: Octet, y: Octet): Bytes
    requires |pdu| >= LSP_HEADER_LEN
  {
    pdu[24 := x][25 := y]
  }

  /** Sign a serialized LSP: the digest first, then the checksum, which covers it. */
  method FinalizeLspAuth(hmac: Hmac, pdu: array<Octet>, spec: Spec) returns (ok: bool)
    requires FixedLength(hmac) && pdu.Length >= LSP_HEADER_LEN
    modifies pdu
    ensures ok <==> old(DigestAt(pdu[..], LSP_HEADER_LEN, spec.algo, spec.keyId)).Some?
    ensures !ok ==> pdu[..] == old(pdu[..])
    ensures ok ==> Verifies(hmac, pdu[..], LSP_HEADER_LEN, spec, true) && Fletcher.Valid(pdu[12..])
    ensures ok ==> 1 <= pdu[24] && 1 <= pdu[25] &&
                   pdu[..] == Summed(Signed(hmac, old(pdu[..]), LSP_HEADER_LEN, spec, true), pdu[24], pdu[25])
  {
    ok := PatchAuth(hmac, pdu, LSP_HEADER_LEN, spec, true);
    hide Verifies; hide Signed; hide DigestAt; hide Fletcher.Valid; hide FixedLength;
    if ok {
      ghost var patched: Bytes := pdu[..];
      pdu[24], pdu[25] := 0, 0;
      assert pdu[..] == Summed(patched, 0, 0);
      assert pdu[12..] == pdu[..][12..];
      var x, y := Fletcher.Checksum(pdu[12..], 12);
      pdu[24], pdu[25] := x, y;
      assert pdu[..] == Summed(patched, x, y);
      assert pdu[12..] == pdu[..][12..];
      Resummed(hmac, patched, spec, x, y);
    }
  }

  /** Check octets computed over a cleared field check in place, and leave the digest valid. */
  lemma Resummed(hmac: Hmac, pdu: Bytes, spec: Spec, x: Octet, y: Octet)
    requires |pdu| >= LSP_HEADER_LEN && Verifies(hmac, pdu, LSP_HEADER_LEN, spec, true)
    requires Fletcher.Valid(Summed(pdu, 0, 0)[12..][12 := x][13 := y])
    ensures Verifies(hmac, Summed(pdu, x, y), LSP_HEADER_LEN, spec, true) && Fletcher.Valid(Summed(pdu, x, y)[12..])
  {
    assert Summed(pdu, 0, 0)[12..][12 := x][13 := y] == Summed(pdu, x, y)[12..];
    DigestIgnoresHeader(hmac, pdu, Summed(pdu, x, y), spec);
  }

  /** `raw` is what `body` is sent as on a level keyed by `spec`, or on one without a key; `x` and `y` are its stored checksum. */
  ghost predicate IsSerialized(hmac: Hmac, body: Bytes, spec: Option<Spec>, raw: Bytes, x: Octet, y: Octet)
    requires |body| >= LSP_HEADER_LEN
  {
    && 1 <= x && 1 <= y && Fletcher.Valid(Summed(body, x, y)[12..])
    && match spec
       case None => raw == Summed(body, x, y)
       case Some(key) =>
         && |raw| >= LSP_HEADER_LEN && 1 <= raw[24] && 1 <= raw[25] && Fletcher.Valid(raw[12..])
         && DigestAt(Summed(body, x, y), LSP_HEADER_LEN, key.algo, key.keyId).Some?
         && raw == Summed(Signed(hmac, Summed(body, x, y), LSP_HEADER_LEN, key, true), raw[24], raw[25])
  }

  /**
   * Serialize an own LSP whose header and TLVs are in place: the checksum the database keeps is the one computed here,
   * before a keyed level fills in the digest and computes another.
   */
  method SerializeLsp(hmac: Hmac, pdu: array<Octet>, spec: Option<Spec>) returns (ok: bool, x: Octet, y: Octet)
    requires FixedLength(hmac) && pdu.Length >= LSP_HEADER_LEN && pdu[24] == 0 && pdu[25] == 0
    modifies pdu
    ensures spec.None? ==> ok
    ensures spec.Some? ==> (ok <==> DigestAt(Summed(old(pdu[..]), x, y), LSP_HEADER_LEN, spec.value.algo, spec.value.keyId).Some?)
    ensures ok ==> IsSerialized(hmac, old(pdu[..]), spec, pdu[..], x, y)
  {
    ghost var was: Bytes := pdu[..];
    ghost var cleared: Bytes := pdu[12..];
    x, y := Fletcher.Checksum(pdu[12..], 12);
    pdu[24], pdu[25] := x, y;
    assert pdu[12..] == cleared[12 := x][13 := y];
    assert pdu[..] == Summed(was, x, y) && Summed(was, x, y)[12..] == pdu[12..];
    ok := true;
    if spec.Some? {
      hide Signed; hide DigestAt; hide Verifies;
      ok := FinalizeLspAuth(hmac, pdu, spec.value);
    }
  }

  /** The octets sent for a stored LSP: the remaining lifetime brought up to date. */
  function Wire(raw: Bytes, remaining: nat): Bytes
    requires remaining <= 0xffff
  {
    if |raw| >= 12 then raw[10 := remaining / 256][11 := remaining % 256] else raw
  }

  /** Octets 10 and 11 spell the lifetime, most significant first, and every other octet is as stored. */
  lemma WireOctets(raw: Bytes, remaining: nat)
    requires remaining <= 0xffff
    ensures var w := Wire(raw, remaining);
            && |w| == |raw| && (forall k :: 0 <= k < |w| && k != 10 && k != 11 ==> w[k] == raw[k])
            && (|w| >= 12 ==> w[10] as int * 256 + w[11] == remaining) && (|w| < 12 ==> w == raw)
  {
    assert remaining / 256 * 256 + remaining % 256 == remaining;
  }

  /** An LSP signed and checked once verifies and checks whenever it is sent, whatever lifetime it then carries. */
  lemma SurvivesAgeing(hmac: Hmac, raw: Bytes, spec: Spec, remaining: nat)
    requires |raw| >= LSP_HEADER_LEN && remaining <= 0xffff
    requires Verifies(hmac, raw, LSP_HEADER_LEN, spec, true) && Fletcher.Valid(raw[12..])
    ensures Verifies(hmac, Wire(raw, remaining), LSP_HEADER_LEN, spec, true) && Fletcher.Valid(Wire(raw, remaining)[12..])
  {
    DigestIgnoresHeader(hmac, raw, Wire(raw, remaining), spec);
    assert Wire(raw, remaining)[12..] == raw[12..];
  }
}
