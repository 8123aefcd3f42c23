/**
 Certificates, private keys and the chain check of src/autocert/autocert.go.

 Parsing a DER certificate list and matching a host name are the only X.509 facts the
 manager depends on; they are the two functions of `X509`, about which nothing is
 assumed except that no certificate is found in zero bytes.
 */
module Pki {
  import opened Wrappers

  newtype byte = x: int | 0 <= x < 256

  type Bytes = seq<byte>

  /** The key by which certificates are tracked in state, renewal and cache. */
  datatype CertKey = CertKey(domain: string, isRSA: bool, isToken: bool)

  datatype PublicKey = RsaPublic(n: nat) | EcPublic(x: int, y: int) | OtherPublic

  datatype PrivateKey = RsaPrivate(n: nat, d: nat) | EcPrivate(x: int, y: int, d: nat) | OtherPrivate

  datatype Leaf = Leaf(notBefore: int, notAfter: int, publicKey: PublicKey, dnsNames: seq<string>)

  datatype X509 = X509(parse: Bytes -> Option<seq<Leaf>>, verifyHostname: (Leaf, string) -> bool)

  ghost predicate Lawful(x509: X509) {
    match x509.parse([])
    case None => true
    case Some(certs) => certs == []
  }

  datatype TlsCert = TlsCert(key: PrivateKey, chain: seq<Bytes>, leaf: Leaf)

  datatype CertError =
    | NoPublicKey
    | NotValidYet
    | Expired
    | WrongHost
    | KeyTypeMismatch
    | KeyMismatch
    | UnexpectedKeyType
    | UnknownAlgorithm

  /** The DER blocks one after the other. */
  function Flatten(chain: seq<Bytes>): Bytes {
    if chain == [] then [] else chain[0] + Flatten(chain[1..])
  }

  /** The private key is the one whose public half is `pub`. */
  predicate KeyMatches(pub: PublicKey, key: PrivateKey) {
    match (pub, key)
    case (RsaPublic(n), RsaPrivate(n', _)) => n == n'
    case (EcPublic(x, y), EcPrivate(x', y', _)) => x == x' && y == y'
    case _ => false
  }

  /** What a served certificate has to satisfy, whatever its validity period. */
  predicate Coherent(x509: X509, ck: CertKey, key: PrivateKey, leaf: Leaf) {
    && x509.verifyHostname(leaf, ck.domain)
    && KeyMatches(leaf.publicKey, key)
    && (!ck.isToken ==> (ck.isRSA <==> leaf.publicKey.RsaPublic?))
  }

  /** `leaf` heads the chain, is in its validity period at `now` and fits the key and the certKey. */
  predicate Accepts(x509: X509, ck: CertKey, chain: seq<Bytes>, key: PrivateKey, now: int, leaf: Leaf) {
    var certs := x509.parse(Flatten(chain));
    && certs.Some?
    && certs.value != []
    && leaf == certs.value[0]
    && leaf.notBefore <= now <= leaf.notAfter
    && Coherent(x509, ck, key, leaf)
  }

  ghost predicate Acceptable(x509: X509, ck: CertKey, chain: seq<Bytes>, key: PrivateKey, now: int) {
    exists leaf :: Accepts(x509, ck, chain, key, now, leaf)
  }

  /** The check as a decision: the first parsed certificate is accepted. */
  predicate Passes(x509: X509, ck: CertKey, chain: seq<Bytes>, key: PrivateKey, now: int) {
    var certs := x509.parse(Flatten(chain));
    certs.Some? && certs.value != [] && Accepts(x509, ck, chain, key, now, certs.value[0])
  }

  lemma PassesIsAcceptable(x509: X509, ck: CertKey, chain: seq<Bytes>, key: PrivateKey, now: int)
    ensures Passes(x509, ck, chain, key, now) <==> Acceptable(x509, ck, chain, key, now)
  {
  }

  lemma FlattenAppend(a: seq<Bytes>, b: Bytes)
    ensures Flatten(a + [b]) == Flatten(a) + b
  {
    if a == [] {
      assert a + [b] == [b];
    } else {
      assert (a + [b])[1..] == a[1..] + [b];
      FlattenAppend(a[1..], b);
    }
  }

  lemma FlattenPrefixLength(chain: seq<Bytes>, i: nat)
    requires i <= |chain|
    ensures |Flatten(chain[..i])| <= |Flatten(chain)|
    decreases |chain| - i
  {
    if i < |chain| {
      assert chain[..i + 1] == chain[..i] + [chain[i]];
      FlattenAppend(chain[..i], chain[i]);
      FlattenPrefixLength(chain, i + 1);
    } else {
      assert chain[..i] == chain;
    }
  }

  lemma {:induction false} FlattenEmptyBlocks(chain: seq<Bytes>)
    requires forall i :: 0 <= i < |chain| ==> chain[i] == []
    ensures Flatten(chain) == []
  {
    if chain != [] {
      FlattenEmptyBlocks(chain[1..]);
    }
  }

  /** An accepted chain has at least one nonempty block. */
  lemma AcceptedChainNonempty(x509: X509, ck: CertKey, chain: seq<Bytes>, key: PrivateKey, now: int)
    requires Lawful(x509) && Acceptable(x509, ck, chain, key, now)
    ensures exists i :: 0 <= i < |chain| && chain[i] != []
  {
    if forall i :: 0 <= i < |chain| ==> chain[i] == [] {
      FlattenEmptyBlocks(chain);
    }
  }

  /** Copies `src` into `dst` at `offset`. */
  method CopyInto(dst: array<byte>, offset: nat, src: Bytes)
    requires offset + |src| <= dst.Length
    modifies dst
    ensures dst[..offset] == old(dst[..offset])
    ensures dst[offset..offset + |src|] == src
  {
    var i := 0;
    while i < |src|
      invariant 0 <= i <= |src|
      invariant dst[..offset] == old(dst[..offset])
      invariant dst[offset..offset + i] == src[..i]
    {
      dst[offset + i] := src[i];
      i := i + 1;
    }
  }

  /** The two passes of validCert: the length is summed first, then each block is copied. */
  method Concatenate(chain: seq<Bytes>) returns (pub: array<byte>)
    ensures fresh(pub) && pub[..] == Flatten(chain)
  {
    var n := 0;
    for i := 0 to |chain|
      invariant n == |Flatten(chain[..i])|
    {
      assert chain[..i + 1] == chain[..i] + [chain[i]];
      FlattenAppend(chain[..i], chain[i]);
      n := n + |chain[i]|;
    }
    assert chain[..|chain|] == chain;
    pub := new byte[n];
    n := 0;
    for i := 0 to |chain|
      invariant n == |Flatten(chain[..i])| <= pub.Length == |Flatten(chain)|
      invariant pub[..n] == Flatten(chain[..i])
    {
      assert chain[..i + 1] == chain[..i] + [chain[i]];
      FlattenAppend(chain[..i], chain[i]);
      FlattenPrefixLength(chain, i + 1);
      CopyInto(pub, n, chain[i]);
      assert pub[..n + |chain[i]|] == pub[..n] + pub[n..n + |chain[i]|];
      n := n + |chain[i]|;
    }
    assert pub[..] == pub[..n];
  }

  method ValidCert(x509: X509, ck: CertKey, chain: seq<Bytes>, key: PrivateKey, now: int)
    returns (r: Result<Leaf, CertError>)
    ensures r.Success? ==> Accepts(x509, ck, chain, key, now, r.value)
    ensures r.Failure? ==> !Acceptable(x509, ck, chain, key, now)
    ensures var certs := x509.parse(Flatten(chain));
            && (r == Failure(NoPublicKey) <==> certs.None? || certs.value == [])
            && (r == Failure(NotValidYet) <==> certs.Some? && certs.value != [] && now < certs.value[0].notBefore)
            && (r.Success? <==>
                  && certs.Some? && certs.value != []
                  && var leaf := certs.value[0];
                  && leaf.notBefore <= now <= leaf.notAfter && x509.verifyHostname(leaf, ck.domain)
                  && match (leaf.publicKey, key)
                     case (RsaPublic(n), RsaPrivate(m, _)) => n == m && (ck.isRSA || ck.isToken)
                     case (EcPublic(x, y), EcPrivate(u, v, _)) => x == u && y == v && (!ck.isRSA || ck.isToken)
                     case _ => false)
            && (r.Success? ==> r.value == certs.value[0])
  {
    var pub := Concatenate(chain);
    var certs := x509.parse(pub[..]);
    if certs.None? || certs.value == [] {
      return Failure(NoPublicKey);
    }
    var leaf := certs.value[0];
    if now < leaf.notBefore {
      return Failure(NotValidYet);
    }
    if now > leaf.notAfter {
      return Failure(Expired);
    }
    if !x509.verifyHostname(leaf, ck.domain) {
      return Failure(WrongHost);
    }
    match leaf.publicKey {
      case RsaPublic(n) =>
        if !key.RsaPrivate? {
          return Failure(KeyTypeMismatch);
        }
        if n != key.n {
          return Failure(KeyMismatch);
        }
        if !ck.isRSA && !ck.isToken {
          return Failure(UnexpectedKeyType);
        }
      case EcPublic(x, y) =>
        if !key.EcPrivate? {
          return Failure(KeyTypeMismatch);
        }
        if x != key.x || y != key.y {
          return Failure(KeyMismatch);
        }
        if ck.isRSA && !ck.isToken {
          return Failure(UnexpectedKeyType);
        }
      case OtherPublic =>
        return Failure(UnknownAlgorithm);
    }
    return Success(leaf);
  }
}
