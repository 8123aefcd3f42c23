/**
 The shared certificate cache: its key names, and the PEM form of a private key followed
 by its chain (src/autocert/autocert.go, cacheGet and cachePut).
 */
module CertCache {
  import opened Wrappers
  import opened Pki

  datatype Block = Block(kind: string, bytes: Bytes)

  /** PEM framing and private key encodings, kept abstract. */
  datatype Codec = Codec(
    pemEncode: Block -> Bytes,
    pemDecode: Bytes -> (Option<Block>, Bytes),
    marshalPKCS1: PrivateKey -> Bytes,
    marshalEC: PrivateKey -> Option<Bytes>,
    parsePKCS1: Bytes -> Option<PrivateKey>,
    parsePKCS8: Bytes -> Option<PrivateKey>,
    parseEC: Bytes -> Option<PrivateKey>)

  /** Decoding takes off one encoded block and leaves the rest; it never returns more than it was given. */
  ghost predicate LawfulPem(c: Codec) {
    && (forall b: Block, rest: Bytes :: c.pemDecode(c.pemEncode(b) + rest) == (Some(b), rest))
    && (forall data: Bytes :: c.pemDecode(data).0.Some? ==> |c.pemDecode(data).1| < |data|)
    && (forall data: Bytes :: c.pemDecode(data).0.None? ==> c.pemDecode(data).1 == data)
  }

  /** Parsing undoes marshalling, and EC key bytes are neither PKCS#1 nor PKCS#8. */
  ghost predicate LawfulKeys(c: Codec) {
    && (forall k: PrivateKey :: k.RsaPrivate? ==> c.parsePKCS1(c.marshalPKCS1(k)) == Some(k))
    && (forall k: PrivateKey :: k.EcPrivate? && c.marshalEC(k).Some? ==>
          var b := c.marshalEC(k).value;
          c.parsePKCS1(b).None? && c.parsePKCS8(b).None? && c.parseEC(b) == Some(k))
  }

  ghost predicate Lawful(c: Codec) {
    LawfulPem(c) && LawfulKeys(c)
  }

  // ---- key names ----

  /** Everything the manager stores in the cache. */
  datatype Slot =
    | CertSlot(domain: string, isRSA: bool)
    | TokenSlot(domain: string)
    | HttpSlot(base: string)
    | AccountSlot

  function KeyName(ck: CertKey): string {
    if ck.isToken then ck.domain + "+token"
    else if ck.isRSA then ck.domain + "+rsa"
    else ck.domain
  }

  function SlotOf(ck: CertKey): Slot {
    if ck.isToken then TokenSlot(ck.domain) else CertSlot(ck.domain, ck.isRSA)
  }

  function SlotName(s: Slot): string {
    match s
    case CertSlot(d, rsa) => KeyName(CertKey(d, rsa, false))
    case TokenSlot(d) => KeyName(CertKey(d, false, true))
    case HttpSlot(base) => base + "+http-01"
    case AccountSlot => "acme_account+key"
  }

  /** Names that came out of IDNA, and URL-safe tokens, have no plus sign. */
  predicate Clean(s: Slot) {
    match s
    case CertSlot(d, _) => '+' !in d
    case TokenSlot(d) => '+' !in d
    case HttpSlot(base) => '+' !in base
    case AccountSlot => true
  }

  function BeforePlus(s: string): string {
    if s == [] || s[0] == '+' then [] else [s[0]] + BeforePlus(s[1..])
  }

  function FromPlus(s: string): string {
    if s == [] || s[0] == '+' then s else FromPlus(s[1..])
  }

  lemma {:induction false} SplitAtPlus(d: string, suffix: string)
    requires '+' !in d
    requires suffix == [] || suffix[0] == '+'
    ensures BeforePlus(d + suffix) == d && FromPlus(d + suffix) == suffix
  {
    if d == [] {
      assert d + suffix == suffix;
    } else {
      assert (d + suffix)[1..] == d[1..] + suffix;
      SplitAtPlus(d[1..], suffix);
    }
  }

  function Stem(s: Slot): string {
    match s
    case CertSlot(d, _) => d
    case TokenSlot(d) => d
    case HttpSlot(base) => base
    case AccountSlot => "acme_account"
  }

  function Suffix(s: Slot): string {
    match s
    case CertSlot(_, rsa) => if rsa then "+rsa" else ""
    case TokenSlot(_) => "+token"
    case HttpSlot(_) => "+http-01"
    case AccountSlot => "+key"
  }

  lemma SlotNameSplits(s: Slot)
    requires Clean(s)
    ensures BeforePlus(SlotName(s)) == Stem(s) && FromPlus(SlotName(s)) == Suffix(s)
  {
    assert SlotName(s) == Stem(s) + Suffix(s) by {
      if s.CertSlot? && !s.isRSA {
        assert s.domain + "" == s.domain;
      } else if s.AccountSlot? {
        assert "acme_account+key" == "acme_account" + "+key";
      }
    }
    SplitAtPlus(Stem(s), Suffix(s));
  }

  /** Cache keys of different things are different strings. */
  lemma SlotNamesDistinct(a: Slot, b: Slot)
    requires Clean(a) && Clean(b)
    ensures SlotName(a) == SlotName(b) <==> a == b
  {
    if SlotName(a) == SlotName(b) {
      SlotNameSplits(a);
      SlotNameSplits(b);
      assert |Suffix(a)| == |Suffix(b)|;
      assert "+rsa"[1] == 'r' && "+key"[1] == 'k';
    }
  }

  /** Without that restriction two slots share a name. */
  lemma SlotNamesCollide()
    ensures SlotName(CertSlot("a+rsa", false)) == SlotName(CertSlot("a", true))
  {
  }

  // ---- contents ----

  datatype CacheError = Miss | Corrupt | Unavailable

  /** The encoding of the private key written by cachePut: none for an unknown key type or a marshalling error. */
  function KeyBlock(c: Codec, key: PrivateKey): Option<Block> {
    match key
    case EcPrivate(_, _, _) =>
      var b := c.marshalEC(key);
      if b.Some? then Some(Block("EC PRIVATE KEY", b.value)) else None
    case RsaPrivate(_, _) => Some(Block("RSA PRIVATE KEY", c.marshalPKCS1(key)))
    case OtherPrivate => None
  }

  function EncodeChain(c: Codec, chain: seq<Bytes>): Bytes {
    if chain == [] then [] else c.pemEncode(Block("CERTIFICATE", chain[0])) + EncodeChain(c, chain[1..])
  }

  predicate MentionsPrivate(kind: string) {
    "PRIVATE" <= kind || (kind != [] && MentionsPrivate(kind[1..]))
  }

  function ParsePrivateKey(c: Codec, der: Bytes): Option<PrivateKey> {
    if c.parsePKCS1(der).Some? then c.parsePKCS1(der)
    else if c.parsePKCS8(der).Some? then
      var k := c.parsePKCS8(der).value;
      if k.OtherPrivate? then None else Some(k)
    else c.parseEC(der)
  }

  lemma KeyKindsMentionPrivate()
    ensures MentionsPrivate("EC PRIVATE KEY") && MentionsPrivate("RSA PRIVATE KEY")
  {
    var ec, rsa := "EC PRIVATE KEY", "RSA PRIVATE KEY";
    assert ec[1..][1..][1..] == "PRIVATE KEY";
    assert MentionsPrivate(ec[1..][1..]);
    assert rsa[1..][1..][1..][1..] == "PRIVATE KEY";
    assert MentionsPrivate(rsa[1..][1..]);
  }

  lemma ParseKeyBlock(c: Codec, key: PrivateKey)
    requires LawfulKeys(c) && KeyBlock(c, key).Some?
    ensures ParsePrivateKey(c, KeyBlock(c, key).value.bytes) == Some(key)
    ensures MentionsPrivate(KeyBlock(c, key).value.kind)
  {
    KeyKindsMentionPrivate();
  }

  lemma EncodeChainAppend(c: Codec, a: seq<Bytes>, b: Bytes)
    ensures EncodeChain(c, a + [b]) == EncodeChain(c, a) + c.pemEncode(Block("CERTIFICATE", b))
  {
    var last := c.pemEncode(Block("CERTIFICATE", b));
    if a == [] {
      assert a + [b] == [b];
      assert EncodeChain(c, [b]) == last + EncodeChain(c, [b][1..]) == last;
      assert [] + last == last;
    } else {
      assert (a + [b])[1..] == a[1..] + [b];
      EncodeChainAppend(c, a[1..], b);
      var first := c.pemEncode(Block("CERTIFICATE", a[0]));
      assert first + (EncodeChain(c, a[1..]) + last) == (first + EncodeChain(c, a[1..])) + last;
    }
  }

  /** The cache contents for a key and chain: the key block, then one block per certificate. */
  function Encoded(c: Codec, tls: TlsCert): Option<Bytes> {
    var kb := KeyBlock(c, tls.key);
    if kb.None? then None else Some(c.pemEncode(kb.value) + EncodeChain(c, tls.chain))
  }

  method Encode(c: Codec, tls: TlsCert) returns (data: Option<Bytes>)
    ensures data == Encoded(c, tls)
    ensures data.None? <==> tls.key.OtherPrivate? || (tls.key.EcPrivate? && c.marshalEC(tls.key).None?)
  {
    var kb := KeyBlock(c, tls.key);
    if kb.None? {
      return None;
    }
    var key := c.pemEncode(kb.value);
    var buf := key;
    for i := 0 to |tls.chain|
      invariant buf == key + EncodeChain(c, tls.chain[..i])
    {
      assert tls.chain[..i + 1] == tls.chain[..i] + [tls.chain[i]];
      EncodeChainAppend(c, tls.chain[..i], tls.chain[i]);
      buf := buf + c.pemEncode(Block("CERTIFICATE", tls.chain[i]));
    }
    assert tls.chain[..|tls.chain|] == tls.chain;
    return Some(buf);
  }

  /**
   The bytes `data` are exactly the certificate blocks `chain` in order, up to a remainder
   in which no further block is found.
   */
  ghost predicate Splits(c: Codec, data: Bytes, chain: seq<Bytes>, rest: Bytes)
    decreases |chain|
  {
    if chain == [] then
      rest == data && (data == [] || c.pemDecode(data).0.None?)
    else
      && data != []
      && c.pemDecode(data).0.Some?
      && c.pemDecode(data).0.value.bytes == chain[0]
      && Splits(c, c.pemDecode(data).1, chain[1..], rest)
  }

  lemma {:induction false} SplitsUnique(c: Codec, data: Bytes, a: seq<Bytes>, ra: Bytes, b: seq<Bytes>, rb: Bytes)
    requires Splits(c, data, a, ra) && Splits(c, data, b, rb)
    ensures a == b && ra == rb
    decreases |a|
  {
    if a != [] {
      assert b != [];
      SplitsUnique(c, c.pemDecode(data).1, a[1..], ra, b[1..], rb);
      assert a == [a[0]] + a[1..] && b == [b[0]] + b[1..];
    }
  }

  lemma {:induction false} EncodedChainSplits(c: Codec, chain: seq<Bytes>)
    requires LawfulPem(c)
    ensures Splits(c, EncodeChain(c, chain), chain, [])
  {
    if chain != [] {
      var b := Block("CERTIFICATE", chain[0]);
      var rest := EncodeChain(c, chain[1..]);
      assert c.pemDecode(c.pemEncode(b) + rest) == (Some(b), rest);
      EncodedChainSplits(c, chain[1..]);
    }
  }

  lemma {:induction false} SplitsMore(c: Codec, data: Bytes, chain: seq<Bytes>, mid: Bytes, more: seq<Bytes>, rest: Bytes)
    requires Reads(c, data, chain, mid) && Splits(c, mid, more, rest)
    ensures Splits(c, data, chain + more, rest)
    decreases |chain|
  {
    if chain == [] {
      assert chain + more == more;
    } else {
      assert (chain + more)[1..] == chain[1..] + more;
      SplitsMore(c, c.pemDecode(data).1, chain[1..], mid, more, rest);
    }
  }

  /** The blocks `chain` were taken off the front of `data`, leaving `mid`. */
  ghost predicate Reads(c: Codec, data: Bytes, chain: seq<Bytes>, mid: Bytes)
    decreases |chain|
  {
    if chain == [] then mid == data
    else
      && data != []
      && c.pemDecode(data).0.Some?
      && c.pemDecode(data).0.value.bytes == chain[0]
      && Reads(c, c.pemDecode(data).1, chain[1..], mid)
  }

  lemma {:induction false} ReadsMore(c: Codec, data: Bytes, chain: seq<Bytes>, mid: Bytes)
    requires Reads(c, data, chain, mid) && mid != [] && c.pemDecode(mid).0.Some?
    ensures Reads(c, data, chain + [c.pemDecode(mid).0.value.bytes], c.pemDecode(mid).1)
    decreases |chain|
  {
    var b := c.pemDecode(mid).0.value.bytes;
    if chain == [] {
      assert chain + [b] == [b];
    } else {
      assert (chain + [b])[1..] == chain[1..] + [b];
      ReadsMore(c, c.pemDecode(data).1, chain[1..], mid);
    }
  }

  method DecodeChain(c: Codec, data: Bytes) returns (chain: seq<Bytes>, rest: Bytes)
    requires LawfulPem(c)
    ensures Splits(c, data, chain, rest)
  {
    chain, rest := [], data;
    while rest != []
      invariant Reads(c, data, chain, rest)
      decreases |rest|
    {
      var (b, after) := c.pemDecode(rest);
      if b.None? {
        break;
      }
      ReadsMore(c, data, chain, rest);
      chain := chain + [b.value.bytes];
      rest := after;
    }
    SplitsMore(c, data, chain, rest, [], rest);
    assert chain + [] == chain;
  }

  /** The blob store behind the Cache interface, with the error a lookup may report. */
  class BlobStore {
    var entries: map<string, Bytes>
    var broken: bool

    constructor ()
      ensures entries == map[] && !broken
    {
      entries, broken := map[], false;
    }

    method Get(name: string) returns (r: Result<Bytes, CacheError>)
      ensures broken ==> r == Failure(Unavailable)
      ensures !broken && name in entries ==> r == Success(entries[name])
      ensures !broken && name !in entries ==> r == Failure(Miss)
    {
      if broken {
        return Failure(Unavailable);
      }
      return if name in entries then Success(entries[name]) else Failure(Miss);
    }

    method Put(name: string, data: Bytes) returns (ok: bool)
      modifies this`entries
      ensures ok == !broken
      ensures entries == if ok then old(entries)[name := data] else old(entries)
    {
      if broken {
        return false;
      }
      entries := entries[name := data];
      return true;
    }

    method Delete(name: string) returns (ok: bool)
      modifies this`entries
      ensures ok == !broken
      ensures entries == if ok then old(entries) - {name} else old(entries)
    {
      if broken {
        return false;
      }
      entries := entries - {name};
      return true;
    }
  }

  /** `tls` is what `data` decodes to, and its chain is accepted for `ck` at `now`. */
  ghost predicate Decodes(c: Codec, x509: X509, ck: CertKey, data: Bytes, now: int, tls: TlsCert) {
    var (priv, pub) := c.pemDecode(data);
    && priv.Some?
    && MentionsPrivate(priv.value.kind)
    && ParsePrivateKey(c, priv.value.bytes) == Some(tls.key)
    && Splits(c, pub, tls.chain, [])
    && Accepts(x509, ck, tls.chain, tls.key, now, tls.leaf)
  }

  /** The first block is marked as a private key. */
  predicate HasPrivateBlock(c: Codec, data: Bytes) {
    c.pemDecode(data).0.Some? && MentionsPrivate(c.pemDecode(data).0.value.kind)
  }

  /** There is a private key block and it cannot be parsed: the one error of cacheGet that is neither a miss nor the cache's. */
  predicate UnreadableKey(c: Codec, data: Bytes) {
    HasPrivateBlock(c, data) && ParsePrivateKey(c, c.pemDecode(data).0.value.bytes).None?
  }

  /** Contents without a private key block, with something left after the last block, or with an unacceptable chain, decode to nothing. */
  lemma NotDecoded(c: Codec, x509: X509, ck: CertKey, data: Bytes, now: int, tls: TlsCert, chain: seq<Bytes>, rest: Bytes)
    requires Splits(c, c.pemDecode(data).1, chain, rest)
    ensures c.pemDecode(data).0.None? || !MentionsPrivate(c.pemDecode(data).0.value.kind) ==> !Decodes(c, x509, ck, data, now, tls)
    ensures rest != [] ==> !Decodes(c, x509, ck, data, now, tls)
    ensures !Acceptable(x509, ck, chain, tls.key, now) ==> !Decodes(c, x509, ck, data, now, tls)
  {
    if Decodes(c, x509, ck, data, now, tls) {
      SplitsUnique(c, c.pemDecode(data).1, tls.chain, [], chain, rest);
      assert Accepts(x509, ck, tls.chain, tls.key, now, tls.leaf);
    }
  }

  /** Data decodes to one certificate at most. */
  lemma DecodedOnce(c: Codec, x509: X509, ck: CertKey, data: Bytes, now: int, a: TlsCert, b: TlsCert)
    requires Decodes(c, x509, ck, data, now, a) && Decodes(c, x509, ck, data, now, b)
    ensures a == b
  {
    SplitsUnique(c, c.pemDecode(data).1, a.chain, [], b.chain, []);
  }

  /** cacheGet after the blob was fetched: anything that is not a usable certificate is a miss, but for an unreadable key. */
  method Decode(c: Codec, x509: X509, ck: CertKey, data: Bytes, now: int) returns (r: Result<TlsCert, CacheError>)
    requires LawfulPem(c)
    ensures r.Success? ==> Decodes(c, x509, ck, data, now, r.value)
    ensures r.Failure? ==> forall tls :: !Decodes(c, x509, ck, data, now, tls)
    ensures r == Failure(Corrupt) <==> UnreadableKey(c, data)
    ensures r.Failure? ==> r == Failure(Corrupt) || r == Failure(Miss)
  {
    var (priv, pub) := c.pemDecode(data);
    if priv.None? || !MentionsPrivate(priv.value.kind) {
      return Failure(Miss);
    }
    var key := ParsePrivateKey(c, priv.value.bytes);
    if key.None? {
      return Failure(Corrupt);
    }
    var chain, rest := DecodeChain(c, pub);
    forall tls | Decodes(c, x509, ck, data, now, tls)
      ensures tls.chain == chain && rest == []
    {
      SplitsUnique(c, pub, tls.chain, [], chain, rest);
    }
    if rest != [] {
      return Failure(Miss);
    }
    var leaf := ValidCert(x509, ck, chain, key.value, now);
    if leaf.Failure? {
      return Failure(Miss);
    }
    return Success(TlsCert(key.value, chain, leaf.value));
  }

  method CacheGet(c: Codec, x509: X509, store: BlobStore, ck: CertKey, now: int) returns (r: Result<TlsCert, CacheError>)
    requires LawfulPem(c)
    ensures r.Success? ==>
              !store.broken && KeyName(ck) in store.entries && Decodes(c, x509, ck, store.entries[KeyName(ck)], now, r.value)
    ensures r.Failure? ==>
              || store.broken
              || KeyName(ck) !in store.entries
              || forall tls :: !Decodes(c, x509, ck, store.entries[KeyName(ck)], now, tls)
    ensures store.broken ==> r == Failure(Unavailable)
    ensures !store.broken && KeyName(ck) !in store.entries ==> r == Failure(Miss)
    ensures !store.broken && KeyName(ck) in store.entries ==>
              (r == Failure(Corrupt) <==> UnreadableKey(c, store.entries[KeyName(ck)])) && r != Failure(Unavailable)
  {
    var data := store.Get(KeyName(ck));
    if data.Failure? {
      return Failure(data.error);
    }
    r := Decode(c, x509, ck, data.value, now);
  }

  method CachePut(c: Codec, store: BlobStore, ck: CertKey, tls: TlsCert) returns (ok: bool)
    modifies store`entries
    ensures ok == (Encoded(c, tls).Some? && !store.broken)
    ensures store.entries ==
            if ok then old(store.entries)[KeyName(ck) := Encoded(c, tls).value] else old(store.entries)
  {
    var data := Encode(c, tls);
    if data.None? {
      return false;
    }
    ok := store.Put(KeyName(ck), data.value);
  }

  // ---- round trip with frame ----

  /** Decoding what was encoded gives back the key and the whole chain, and nothing else. */
  lemma EncodedDecodes(c: Codec, x509: X509, ck: CertKey, tls: TlsCert, now: int, got: TlsCert)
    requires Lawful(c)
    requires Encoded(c, tls).Some? && Accepts(x509, ck, tls.chain, tls.key, now, tls.leaf)
    ensures Decodes(c, x509, ck, Encoded(c, tls).value, now, got) <==> got == tls
  {
    var kb := KeyBlock(c, tls.key).value;
    var pub := EncodeChain(c, tls.chain);
    assert c.pemDecode(c.pemEncode(kb) + pub) == (Some(kb), pub);
    ParseKeyBlock(c, tls.key);
    EncodedChainSplits(c, tls.chain);
    if Decodes(c, x509, ck, Encoded(c, tls).value, now, got) {
      SplitsUnique(c, pub, got.chain, [], tls.chain, []);
    }
  }

  /** Any write the manager makes: a certificate, a token or the account key, or the removal of one. */
  datatype Write = Store(slot: Slot, data: Bytes) | Remove(slot: Slot)

  function ApplyWrites(entries: map<string, Bytes>, ws: seq<Write>): map<string, Bytes> {
    if ws == [] then entries
    else
      var before := ApplyWrites(entries, ws[..|ws| - 1]);
      match ws[|ws| - 1]
      case Store(slot, data) => before[SlotName(slot) := data]
      case Remove(slot) => before - {SlotName(slot)}
  }

  lemma {:induction false} OtherWritesKeep(entries: map<string, Bytes>, ws: seq<Write>, slot: Slot)
    requires Clean(slot) && SlotName(slot) in entries
    requires forall i :: 0 <= i < |ws| ==> Clean(ws[i].slot) && ws[i].slot != slot
    ensures SlotName(slot) in ApplyWrites(entries, ws)
    ensures ApplyWrites(entries, ws)[SlotName(slot)] == entries[SlotName(slot)]
  {
    if ws != [] {
      var last := ws[|ws| - 1];
      OtherWritesKeep(entries, ws[..|ws| - 1], slot);
      SlotNamesDistinct(slot, last.slot);
    }
  }

  lemma NameOfSlot(ck: CertKey)
    ensures SlotName(SlotOf(ck)) == KeyName(ck)
  {
  }

  /**
   The round trip: after a certificate accepted for `ck` is put, and any number of writes
   under other slots, every lookup at a time the chain is still accepted decodes to the
   same key, chain and leaf, and to nothing else.
   */
  lemma {:induction false} RoundTrip(c: Codec, x509: X509, entries: map<string, Bytes>, ck: CertKey, tls: TlsCert,
                  others: seq<Write>, now: int, got: TlsCert)
    requires Lawful(c)
    requires Encoded(c, tls).Some? && Accepts(x509, ck, tls.chain, tls.key, now, tls.leaf)
    requires Clean(SlotOf(ck))
    requires forall i :: 0 <= i < |others| ==> Clean(others[i].slot) && others[i].slot != SlotOf(ck)
    ensures var after := ApplyWrites(entries[KeyName(ck) := Encoded(c, tls).value], others);
            && KeyName(ck) in after
            && (Decodes(c, x509, ck, after[KeyName(ck)], now, got) <==> got == tls)
  {
    NameOfSlot(ck);
    OtherWritesKeep(entries[KeyName(ck) := Encoded(c, tls).value], others, SlotOf(ck));
    EncodedDecodes(c, x509, ck, tls, now, got);
  }
}
