/**
 What a TLS ClientHello asks the manager for: a challenge token certificate or a regular
 certificate under a certKey (src/autocert/autocert.go, GetCertificate and supportsECDSA).
 IDNA normalisation is a parameter.
 */
module Hello {
  import opened Wrappers
  import opened Pki

  const ALPN_PROTO := "acme-tls/1"
  const CURVE_P256 := 23
  const ECDSA_SCHEMES := {0x0203, 0x0403, 0x0503, 0x0603}
  const ECDSA_SUITES := {0xc007, 0xc009, 0xc00a, 0xc023, 0xc02b, 0xc02c, 0xcca9}

  /** A missing extension is None; an extension with no entry is Some([]). */
  datatype ClientHello = ClientHello(
    serverName: string,
    protos: seq<string>,
    schemes: Option<seq<int>>,
    curves: Option<seq<int>>,
    suites: seq<int>)

  datatype Request = Rejected | Token(name: string) | Regular(name: string, ck: CertKey)

  predicate SupportsECDSA(hello: ClientHello) {
    && (hello.schemes.Some? ==> exists s :: s in hello.schemes.value && s in ECDSA_SCHEMES)
    && (hello.curves.Some? ==> CURVE_P256 in hello.curves.value)
    && exists s :: s in hello.suites && s in ECDSA_SUITES
  }

  method SupportsECDSALoop(hello: ClientHello) returns (ok: bool)
    ensures ok == SupportsECDSA(hello)
    ensures ok <==>
            && (hello.schemes.Some? ==> exists s :: s in hello.schemes.value && s in {0x0203, 0x0403, 0x0503, 0x0603})
            && (hello.curves.Some? ==> 23 in hello.curves.value)
            && (exists s :: s in hello.suites && s in {0xc007, 0xc009, 0xc00a, 0xc023, 0xc02b, 0xc02c, 0xcca9})
  {
    if hello.schemes.Some? {
      var ecdsaOK := false;
      for i := 0 to |hello.schemes.value|
        invariant !ecdsaOK
        invariant forall j :: 0 <= j < i ==> hello.schemes.value[j] !in ECDSA_SCHEMES
      {
        if hello.schemes.value[i] in ECDSA_SCHEMES {
          ecdsaOK := true;
          break;
        }
      }
      if !ecdsaOK {
        return false;
      }
    }
    if hello.curves.Some? {
      var ecdsaOK := false;
      for i := 0 to |hello.curves.value|
        invariant !ecdsaOK
        invariant forall j :: 0 <= j < i ==> hello.curves.value[j] != CURVE_P256
      {
        if hello.curves.value[i] == CURVE_P256 {
          ecdsaOK := true;
          break;
        }
      }
      if !ecdsaOK {
        return false;
      }
    }
    for i := 0 to |hello.suites|
      invariant forall j :: 0 <= j < i ==> hello.suites[j] !in ECDSA_SUITES
    {
      if hello.suites[i] in ECDSA_SUITES {
        return true;
      }
    }
    return false;
  }

  function TrimLeft(s: string): string {
    if s != [] && s[0] == '.' then TrimLeft(s[1..]) else s
  }

  function TrimRight(s: string): string {
    if s != [] && s[|s| - 1] == '.' then TrimRight(s[..|s| - 1]) else s
  }

  function TrimDots(s: string): string {
    TrimRight(TrimLeft(s))
  }

  /** At least two components: a dot with something other than dots on either side. */
  ghost predicate HasInnerDot(s: string) {
    exists i, j, k :: 0 <= i < j < k < |s| && s[i] != '.' && s[j] == '.' && s[k] != '.'
  }

  lemma {:induction false} TrimLeftKeepsInnerDot(s: string)
    ensures HasInnerDot(TrimLeft(s)) <==> HasInnerDot(s)
    ensures TrimLeft(s) == [] || TrimLeft(s)[0] != '.'
  {
    if s != [] && s[0] == '.' {
      TrimLeftKeepsInnerDot(s[1..]);
      if HasInnerDot(s[1..]) {
        var i, j, k :| 0 <= i < j < k < |s[1..]| && s[1..][i] != '.' && s[1..][j] == '.' && s[1..][k] != '.';
        assert s[i + 1] != '.' && s[j + 1] == '.' && s[k + 1] != '.';
      }
      if HasInnerDot(s) {
        var i, j, k :| 0 <= i < j < k < |s| && s[i] != '.' && s[j] == '.' && s[k] != '.';
        assert s[1..][i - 1] != '.' && s[1..][j - 1] == '.' && s[1..][k - 1] != '.';
      }
    }
  }

  lemma {:induction false} TrimRightKeepsInnerDot(s: string)
    ensures HasInnerDot(TrimRight(s)) <==> HasInnerDot(s)
    ensures TrimRight(s) <= s
    ensures TrimRight(s) == [] || TrimRight(s)[|TrimRight(s)| - 1] != '.'
  {
    if s != [] && s[|s| - 1] == '.' {
      var t := s[..|s| - 1];
      TrimRightKeepsInnerDot(t);
      if HasInnerDot(t) {
        var i, j, k :| 0 <= i < j < k < |t| && t[i] != '.' && t[j] == '.' && t[k] != '.';
        assert s[i] != '.' && s[j] == '.' && s[k] != '.';
      }
      if HasInnerDot(s) {
        var i, j, k :| 0 <= i < j < k < |s| && s[i] != '.' && s[j] == '.' && s[k] != '.';
        assert t[i] != '.' && t[j] == '.' && t[k] != '.';
      }
    }
  }

  /** Looking for a dot in the trimmed name counts components. */
  lemma TrimmedDotIsInner(s: string)
    ensures '.' in TrimDots(s) <==> HasInnerDot(s)
  {
    var left := TrimLeft(s);
    var both := TrimDots(s);
    TrimLeftKeepsInnerDot(s);
    TrimRightKeepsInnerDot(left);
    if '.' in both {
      var j :| 0 <= j < |both| && both[j] == '.';
      assert both[0] == left[0] != '.';
      assert both[|both| - 1] != '.';
    }
  }

  function TrimSuffixDot(s: string): (r: string)
    ensures if s != [] && s[|s| - 1] == '.' then s == r + "." else r == s
  {
    if s != [] && s[|s| - 1] == '.' then s[..|s| - 1] else s
  }

  ghost predicate WellNamed(name: string) {
    name != "" && HasInnerDot(name)
  }

  ghost predicate WantsToken(hello: ClientHello) {
    hello.protos == [ALPN_PROTO]
  }

  /** The certKey a regular handshake is served under. */
  function KeyFor(idna: string -> Option<string>, hello: ClientHello): Option<CertKey> {
    var n := idna(hello.serverName);
    if n.None? then None
    else Some(CertKey(TrimSuffixDot(n.value), !SupportsECDSA(hello), false))
  }

  method Classify(idna: string -> Option<string>, promptSet: bool, hello: ClientHello) returns (r: Request)
    ensures r.Rejected? <==> !promptSet || !WellNamed(hello.serverName) || idna(hello.serverName).None?
    ensures r.Token? ==> WantsToken(hello) && Some(r.name) == idna(hello.serverName)
    ensures r.Regular? ==> !WantsToken(hello) && Some(r.name) == idna(hello.serverName) && Some(r.ck) == KeyFor(idna, hello)
    ensures r.Regular? ==> (r.name == r.ck.domain || r.name == r.ck.domain + ".") && !r.ck.isToken
    ensures r.Regular? ==> (r.ck.isRSA <==> !SupportsECDSA(hello))
  {
    if !promptSet {
      return Rejected;
    }
    var name := hello.serverName;
    if name == "" {
      return Rejected;
    }
    TrimmedDotIsInner(name);
    if '.' !in TrimDots(name) {
      return Rejected;
    }
    var ascii := idna(name);
    if ascii.None? {
      return Rejected;
    }
    if |hello.protos| == 1 && hello.protos[0] == ALPN_PROTO {
      return Token(ascii.value);
    }
    var ecdsa := SupportsECDSALoop(hello);
    return Regular(ascii.value, CertKey(TrimSuffixDot(ascii.value), !ecdsa, false));
  }

  /** A hello carrying only a server name, as the HTTP API builds it, is served an RSA certificate. */
  lemma BareHelloIsRsa(idna: string -> Option<string>, name: string)
    requires idna(name).Some?
    ensures KeyFor(idna, ClientHello(name, [], None, None, [])) == Some(CertKey(TrimSuffixDot(idna(name).value), true, false))
  {
  }
}
