/**
 Managers sharing a cache, together with the ACME server that validates their challenges:
 why a certificate is never issued for a name no manager provisioned a challenge for
 (src/autocert/autocert.go, src/autocert/internal/acmetest/ca.go; tls-alpn-01 is section 3
 of RFC 8737). Clients may send the server any requests in any order; every dial reaches a
 modelled manager.
 */
module Issuance {
  import opened Wrappers
  import CertCache
  import Hello
  import CA = CAServer

  type ManagerId = nat
  type ValidatorId = nat

  datatype Config = Config(ca: CA.Config, idna: string -> Option<string>)

  /** IDNA output has no plus sign. */
  ghost predicate Lawful(c: Config) {
    forall s :: c.idna(s).Some? ==> '+' !in c.idna(s).value
  }

  /** A running validateChallenge: the identifier, and how the dial ended once it has. */
  datatype Validator = Validator(domain: string, dialled: Option<bool>)

  /**
   `tokens` are the names in each manager's certTokens and `cache` the keys present in the
   shared cache; an entry that is present may or may not decode when it is read. `landing` are the
   names of token puts that returned cancelled and may still take effect.
   */
  datatype World = World(
    ca: CA.State,
    validators: map<ValidatorId, Validator>,
    tokens: map<ManagerId, set<string>>,
    cache: set<string>,
    landing: set<string>)

  const START := World(CA.State(map[], [], 0), map[], map[], {}, {})

  datatype Step =
    | Request(r: CA.Request)
    | Accept(v: ValidatorId, domain: string)
    | Dial(v: ValidatorId, m: ManagerId, ok: bool)
    | Settle(v: ValidatorId)
    | Boot(m: ManagerId)
    | Provision(m: ManagerId, name: string, cached: bool, cancelled: bool)
    | Land(name: string)
    | Withdraw(m: ManagerId, name: string, uncached: bool)
    | StoreOther(slot: CertCache.Slot)
    | RemoveOther(slot: CertCache.Slot)

  function TokenKey(name: string): string {
    CertCache.SlotName(CertCache.TokenSlot(name))
  }

  /** The manager can answer a token handshake for the domain, from memory or from the shared cache. */
  ghost predicate Holds(c: Config, w: World, m: ManagerId, domain: string) {
    && m in w.tokens && Hello.WellNamed(domain) && c.idna(domain).Some?
    && (c.idna(domain).value in w.tokens[m] || TokenKey(c.idna(domain).value) in w.cache)
  }

  ghost predicate Enabled(c: Config, w: World, s: Step) {
    match s
    case Request(r) => !r.Validate?
    case Accept(v, d) => v !in w.validators && d in w.ca.authorizations
    case Dial(v, m, ok) =>
      && v in w.validators && w.validators[v].dialled.None?
      && (ok ==> Holds(c, w, m, w.validators[v].domain))
    case Settle(v) => v in w.validators && w.validators[v].dialled.Some?
    case Boot(m) => m !in w.tokens
    case Provision(m, name, _, _) => m in w.tokens && '+' !in name
    case Land(name) => name in w.landing
    case Withdraw(m, _, _) => m in w.tokens
    case StoreOther(slot) => CertCache.Clean(slot) && !slot.TokenSlot?
    case RemoveOther(_) => true
  }

  ghost function Apply(c: Config, w: World, s: Step): World
    requires Enabled(c, w, s)
  {
    match s
    case Request(r) => w.(ca := CA.Handle(c.ca, w.ca, r))
    case Accept(v, d) => w.(validators := w.validators[v := Validator(d, None)])
    case Dial(v, m, ok) => w.(validators := w.validators[v := w.validators[v].(dialled := Some(ok))])
    case Settle(v) =>
      var val := w.validators[v];
      w.(ca := CA.Handle(c.ca, w.ca, CA.Validate(val.domain, val.dialled.value)), validators := w.validators - {v})
    case Boot(m) => w.(tokens := w.tokens[m := {}])
    case Provision(m, name, cached, cancelled) =>
      w.(tokens := w.tokens[m := w.tokens[m] + {name}],
         cache := if cached then w.cache + {TokenKey(name)} else w.cache,
         landing := if cancelled then w.landing + {name} else w.landing)
    case Land(name) => w.(cache := w.cache + {TokenKey(name)})
    case Withdraw(m, name, uncached) =>
      w.(tokens := w.tokens[m := w.tokens[m] - {name}],
         cache := if uncached then w.cache - {TokenKey(name)} else w.cache)
    case StoreOther(slot) => w.(cache := w.cache + {CertCache.SlotName(slot)})
    case RemoveOther(slot) => w.(cache := w.cache - {CertCache.SlotName(slot)})
  }

  ghost predicate IsRun(c: Config, ws: seq<World>, ss: seq<Step>) {
    && |ws| == |ss| + 1 && ws[0] == START
    && forall i :: 0 <= i < |ss| ==> Enabled(c, ws[i], ss[i]) && ws[i + 1] == Apply(c, ws[i], ss[i])
  }

  /** Before step k, `fulfill` provisioned a token under the name. */
  ghost predicate Provisioned(ss: seq<Step>, k: nat, name: string)
    requires k <= |ss|
  {
    exists i :: 0 <= i < k && ss[i].Provision? && ss[i].name == name
  }

  /** Step j is a successful dial for the domain at a manager holding a token that was provisioned before. */
  ghost predicate DialHeld(c: Config, ws: seq<World>, ss: seq<Step>, j: nat, domain: string)
    requires j < |ss| < |ws|
  {
    && ss[j].Dial? && ss[j].ok
    && ss[j].v in ws[j].validators && ws[j].validators[ss[j].v].domain == domain
    && Holds(c, ws[j], ss[j].m, domain)
    && Provisioned(ss, j, c.idna(domain).value)
  }

  ghost predicate Evidence(c: Config, ws: seq<World>, ss: seq<Step>, k: nat, domain: string)
    requires k <= |ss| < |ws|
  {
    exists j :: 0 <= j < k && DialHeld(c, ws, ss, j, domain)
  }

  // ---- tokens are there because they were provisioned ----

  ghost predicate TokensExplained(ws: seq<World>, ss: seq<Step>, k: nat)
    requires k <= |ss| < |ws|
  {
    && (forall m, n :: m in ws[k].tokens && n in ws[k].tokens[m] ==> Provisioned(ss, k, n))
    && (forall n :: '+' !in n && TokenKey(n) in ws[k].cache ==> Provisioned(ss, k, n))
    && (forall n :: n in ws[k].landing ==> '+' !in n && Provisioned(ss, k, n))
  }

  lemma ProvisionedLater(ss: seq<Step>, k: nat, name: string)
    requires k < |ss| && Provisioned(ss, k, name)
    ensures Provisioned(ss, k + 1, name)
  {
  }

  lemma TokenKeysApart(n: string, slot: CertCache.Slot)
    requires '+' !in n && CertCache.Clean(slot)
    ensures TokenKey(n) == CertCache.SlotName(slot) <==> slot == CertCache.TokenSlot(n)
  {
    CertCache.SlotNamesDistinct(CertCache.TokenSlot(n), slot);
  }

  lemma TokensStep(c: Config, ws: seq<World>, ss: seq<Step>, k: nat)
    requires IsRun(c, ws, ss) && k < |ss| && TokensExplained(ws, ss, k)
    ensures TokensExplained(ws, ss, k + 1)
  {
    var w, w', s := ws[k], ws[k + 1], ss[k];
    forall m, n | m in w'.tokens && n in w'.tokens[m]
      ensures Provisioned(ss, k + 1, n)
    {
      if m in w.tokens && n in w.tokens[m] {
        ProvisionedLater(ss, k, n);
      } else {
        assert s.Provision? && s.name == n;
      }
    }
    forall n | '+' !in n && TokenKey(n) in w'.cache
      ensures Provisioned(ss, k + 1, n)
    {
      if TokenKey(n) in w.cache {
        ProvisionedLater(ss, k, n);
      } else if s.Provision? || s.Land? {
        TokenKeysApart(n, CertCache.TokenSlot(s.name));
        if s.Land? {
          ProvisionedLater(ss, k, n);
        }
      } else {
        TokenKeysApart(n, s.slot);
      }
    }
    forall n | n in w'.landing
      ensures '+' !in n && Provisioned(ss, k + 1, n)
    {
      if n in w.landing {
        ProvisionedLater(ss, k, n);
      } else {
        assert s.Provision? && s.name == n;
      }
    }
  }

  lemma {:induction false} TokensOfRun(c: Config, ws: seq<World>, ss: seq<Step>, k: nat)
    requires IsRun(c, ws, ss) && k <= |ss|
    ensures TokensExplained(ws, ss, k)
  {
    if k > 0 {
      TokensOfRun(c, ws, ss, k - 1);
      TokensStep(c, ws, ss, k - 1);
    }
  }

  // ---- authorizations are valid because a dial succeeded ----

  ghost predicate ValidityExplained(c: Config, ws: seq<World>, ss: seq<Step>, k: nat)
    requires k <= |ss| < |ws|
  {
    && (forall v :: v in ws[k].validators && ws[k].validators[v].dialled == Some(true) ==>
          Evidence(c, ws, ss, k, ws[k].validators[v].domain))
    && (forall d :: d in ws[k].ca.authorizations && ws[k].ca.authorizations[d] == CA.Valid ==> Evidence(c, ws, ss, k, d))
  }

  lemma EvidenceLater(c: Config, ws: seq<World>, ss: seq<Step>, k: nat, domain: string)
    requires k < |ss| < |ws| && Evidence(c, ws, ss, k, domain)
    ensures Evidence(c, ws, ss, k + 1, domain)
  {
    var j :| 0 <= j < k && DialHeld(c, ws, ss, j, domain);
    assert DialHeld(c, ws, ss, j, domain);
  }

  /** A successful dial found a token some manager provisioned. */
  lemma DialIsEvidence(c: Config, ws: seq<World>, ss: seq<Step>, k: nat)
    requires Lawful(c) && IsRun(c, ws, ss) && k < |ss| && ss[k].Dial? && ss[k].ok
    ensures Evidence(c, ws, ss, k + 1, ws[k].validators[ss[k].v].domain)
  {
    TokensOfRun(c, ws, ss, k);
    assert DialHeld(c, ws, ss, k, ws[k].validators[ss[k].v].domain);
  }

  /** Only a validation can make an authorization valid. */
  lemma OtherRequestsValidateNothing(c: CA.Config, st: CA.State, r: CA.Request, d: string)
    requires !r.Validate? || r.domain != d || !r.ok
    requires d in CA.Handle(c, st, r).authorizations && CA.Handle(c, st, r).authorizations[d] == CA.Valid
    ensures d in st.authorizations && st.authorizations[d] == CA.Valid
  {
    match r {
      case NewOrder(ids) => CA.WithAuthzGrows(st.authorizations, ids);
      case NewAuthz(id) => CA.WithAuthzGrows(st.authorizations, [id]);
      case _ =>
    }
  }

  lemma ValidityStep(c: Config, ws: seq<World>, ss: seq<Step>, k: nat)
    requires Lawful(c) && IsRun(c, ws, ss) && k < |ss| && ValidityExplained(c, ws, ss, k)
    ensures ValidityExplained(c, ws, ss, k + 1)
  {
    var w, w', s := ws[k], ws[k + 1], ss[k];
    forall v | v in w'.validators && w'.validators[v].dialled == Some(true)
      ensures Evidence(c, ws, ss, k + 1, w'.validators[v].domain)
    {
      if v in w.validators && w.validators[v] == w'.validators[v] {
        EvidenceLater(c, ws, ss, k, w.validators[v].domain);
      } else {
        DialIsEvidence(c, ws, ss, k);
      }
    }
    forall d | d in w'.ca.authorizations && w'.ca.authorizations[d] == CA.Valid
      ensures Evidence(c, ws, ss, k + 1, d)
    {
      if s.Settle? && w.validators[s.v] == Validator(d, Some(true)) {
        EvidenceLater(c, ws, ss, k, d);
      } else {
        if s.Request? {
          OtherRequestsValidateNothing(c.ca, w.ca, s.r, d);
        } else if s.Settle? {
          OtherRequestsValidateNothing(c.ca, w.ca, CA.Validate(w.validators[s.v].domain, w.validators[s.v].dialled.value), d);
        }
        EvidenceLater(c, ws, ss, k, d);
      }
    }
  }

  lemma {:induction false} ValidityOfRun(c: Config, ws: seq<World>, ss: seq<Step>, k: nat)
    requires Lawful(c) && IsRun(c, ws, ss) && k <= |ss|
    ensures ValidityExplained(c, ws, ss, k)
  {
    if k > 0 {
      ValidityOfRun(c, ws, ss, k - 1);
      ValidityStep(c, ws, ss, k - 1);
    }
  }

  lemma {:induction false} OrdersOfRun(c: Config, ws: seq<World>, ss: seq<Step>, k: nat)
    requires IsRun(c, ws, ss) && k <= |ss|
    ensures CA.WellFormed(ws[k].ca)
  {
    if k > 0 {
      OrdersOfRun(c, ws, ss, k - 1);
      var w, s := ws[k - 1], ss[k - 1];
      if s.Request? {
        CA.HandleKeepsWellFormed(c.ca, w.ca, s.r);
      } else if s.Settle? {
        CA.HandleKeepsWellFormed(c.ca, w.ca, CA.Validate(w.validators[s.v].domain, w.validators[s.v].dialled.value));
      }
    }
  }

  /**
   Whenever the server issues a certificate naming d, it had dialled for d at an earlier step
   and the manager it reached held, in memory or through the shared cache, a tls-alpn-01 token
   for d that `fulfill` had provisioned before that.
   */
  lemma IssuedOnlyIfProvisioned(c: Config, ws: seq<World>, ss: seq<Step>, k: nat, o: nat, d: string)
    requires Lawful(c) && IsRun(c, ws, ss) && k < |ss|
    requires o < |ws[k].ca.orders| && ws[k].ca.orders[o].leaf.None?
    requires o < |ws[k + 1].ca.orders| && ws[k + 1].ca.orders[o].leaf.Some?
    requires d != "" && d in ws[k + 1].ca.orders[o].leaf.value.dnsNames
    ensures exists j :: 0 <= j < k && DialHeld(c, ws, ss, j, d)
  {
    OrdersOfRun(c, ws, ss, k);
    ValidityOfRun(c, ws, ss, k);
    assert ss[k].Request? by {
      if ss[k].Settle? {
        assert CA.OrderWellFormed(ws[k].ca.orders[o], o, ws[k].ca.certCount);
      }
    }
    CA.IssuedNamesAuthorized(c.ca, ws[k].ca, ss[k].r, o, d);
    assert Evidence(c, ws, ss, k, d);
  }

  // ---- what is held, and what validations decide ----

  predicate TouchesToken(s: Step, m: ManagerId, name: string) {
    (s.Provision? || s.Withdraw?) && s.m == m && s.name == name
  }

  lemma TokenStep(c: Config, w: World, s: Step, w': World, m: ManagerId, name: string)
    requires Enabled(c, w, s) && w' == Apply(c, w, s) && m in w'.tokens
    ensures name in w'.tokens[m] <==>
            if TouchesToken(s, m, name) then s.Provision? else m in w.tokens && name in w.tokens[m]
  {
  }

  /** A manager holds a token in memory exactly if it provisioned it and did not withdraw it since. */
  lemma {:induction false} TokensExactly(c: Config, ws: seq<World>, ss: seq<Step>, m: ManagerId, name: string, i: nat, k: nat)
    requires IsRun(c, ws, ss) && i <= k <= |ss| && m in ws[k].tokens
    requires i == 0 || TouchesToken(ss[i - 1], m, name)
    requires forall j :: i <= j < k ==> !TouchesToken(ss[j], m, name)
    ensures name in ws[k].tokens[m] <==> i > 0 && ss[i - 1].Provision?
  {
    if k > 0 {
      TokenStep(c, ws[k - 1], ss[k - 1], ws[k], m, name);
      if i < k && m in ws[k - 1].tokens {
        TokensExactly(c, ws, ss, m, name, i, k - 1);
      } else if i < k {
        NotBooted(c, ws, ss, m, name, i, k - 1);
      }
    }
  }

  lemma {:induction false} NotBooted(c: Config, ws: seq<World>, ss: seq<Step>, m: ManagerId, name: string, i: nat, k: nat)
    requires IsRun(c, ws, ss) && i <= k <= |ss| && m !in ws[k].tokens
    ensures i == 0 || !TouchesToken(ss[i - 1], m, name)
  {
    if i < k {
      StaysBooted(c, ws[k - 1], ss[k - 1], ws[k], m);
      NotBooted(c, ws, ss, m, name, i, k - 1);
    } else if k > 0 {
      StaysBooted(c, ws[k - 1], ss[k - 1], ws[k], m);
    }
  }

  lemma StaysBooted(c: Config, w: World, s: Step, w': World, m: ManagerId)
    requires Enabled(c, w, s) && w' == Apply(c, w, s)
    ensures m in w.tokens || ((s.Provision? || s.Withdraw?) && s.m == m) ==> m in w'.tokens
  {
  }

  /** The step ends a validation of the domain. */
  predicate Settles(w: World, s: Step, domain: string) {
    s.Settle? && s.v in w.validators && w.validators[s.v].domain == domain && w.validators[s.v].dialled.Some?
  }

  predicate SettledAt(ws: seq<World>, ss: seq<Step>, i: nat, domain: string)
    requires i < |ss| < |ws|
  {
    Settles(ws[i], ss[i], domain)
  }

  lemma RequestKeepsAuthorizations(c: CA.Config, st: CA.State, r: CA.Request, d: string)
    requires !r.Validate? && d in st.authorizations
    ensures d in CA.Handle(c, st, r).authorizations && CA.Handle(c, st, r).authorizations[d] == st.authorizations[d]
  {
    match r {
      case NewOrder(ids) => CA.WithAuthzGrows(st.authorizations, ids);
      case NewAuthz(id) => CA.WithAuthzGrows(st.authorizations, [id]);
      case _ =>
    }
  }

  lemma AuthorizationStep(c: Config, w: World, s: Step, w': World, d: string)
    requires Enabled(c, w, s) && w' == Apply(c, w, s) && d in w.ca.authorizations
    ensures d in w'.ca.authorizations
    ensures w'.ca.authorizations[d] ==
            if Settles(w, s, d) then (if w.validators[s.v].dialled.value then CA.Valid else CA.Invalid)
            else w.ca.authorizations[d]
  {
    if s.Request? {
      RequestKeepsAuthorizations(c.ca, w.ca, s.r, d);
    }
  }

  /** An authorization has the outcome of the validation that ended last. */
  lemma {:induction false} LastValidationDecides(c: Config, ws: seq<World>, ss: seq<Step>, d: string, i: nat, k: nat)
    requires IsRun(c, ws, ss) && i < k <= |ss| && SettledAt(ws, ss, i, d) && d in ws[i].ca.authorizations
    requires forall j :: i < j < k ==> !SettledAt(ws, ss, j, d)
    ensures d in ws[k].ca.authorizations
    ensures ws[k].ca.authorizations[d] == if ws[i].validators[ss[i].v].dialled.value then CA.Valid else CA.Invalid
  {
    if i < k - 1 {
      LastValidationDecides(c, ws, ss, d, i, k - 1);
      assert !SettledAt(ws, ss, k - 1, d);
    }
    AuthorizationStep(c, ws[k - 1], ss[k - 1], ws[k], d);
  }

  // ---- a run that issues ----

  lemma RunExtends(c: Config, ws: seq<World>, ss: seq<Step>, s: Step)
    requires IsRun(c, ws, ss) && Enabled(c, ws[|ss|], s)
    ensures IsRun(c, ws + [Apply(c, ws[|ss|], s)], ss + [s])
  {
    var ws', ss' := ws + [Apply(c, ws[|ss|], s)], ss + [s];
    forall i | 0 <= i < |ss'|
      ensures Enabled(c, ws'[i], ss'[i]) && ws'[i + 1] == Apply(c, ws'[i], ss'[i])
    {
      if i < |ss| {
        assert ws'[i] == ws[i] && ws'[i + 1] == ws[i + 1] && ss'[i] == ss[i];
      }
    }
  }

  /** The CA has one order, for d alone. */
  ghost predicate OneOrder(c: Config, w: World, d: string, status: CA.OrderStatus) {
    && |w.ca.orders| == 1 && w.ca.orders[0].status == status
    && w.ca.orders[0].authzURLs == [CA.AuthzURL(c.ca.base, d)] && d in w.ca.authorizations
  }

  lemma Ordered(c: Config, d: string) returns (ws: seq<World>, ss: seq<Step>)
    ensures IsRun(c, ws, ss) && OneOrder(c, ws[|ss|], d, CA.OrderPending)
    ensures ws[|ss|].validators == map[] && ws[|ss|].tokens == map[]
  {
    ws, ss := [START], [];
    var r := CA.NewOrder([d]);
    CA.NewOrderOpens(c.ca, START.ca, [d]);
    RunExtends(c, ws, ss, Request(r));
    ws, ss := ws + [Apply(c, START, Request(r))], ss + [Request(r)];
  }

  lemma Dialled(c: Config, d: string) returns (ws: seq<World>, ss: seq<Step>)
    requires Hello.WellNamed(d) && c.idna(d).Some? && '+' !in c.idna(d).value
    ensures IsRun(c, ws, ss) && OneOrder(c, ws[|ss|], d, CA.OrderPending)
    ensures ws[|ss|].validators == map[0 := Validator(d, Some(true))]
  {
    ws, ss := Ordered(c, d);
    var n := c.idna(d).value;
    var w1 := Apply(c, ws[|ss|], Boot(0));
    RunExtends(c, ws, ss, Boot(0));
    ws, ss := ws + [w1], ss + [Boot(0)];
    var w2 := Apply(c, w1, Provision(0, n, false, false));
    RunExtends(c, ws, ss, Provision(0, n, false, false));
    ws, ss := ws + [w2], ss + [Provision(0, n, false, false)];
    var w3 := Apply(c, w2, Accept(0, d));
    RunExtends(c, ws, ss, Accept(0, d));
    ws, ss := ws + [w3], ss + [Accept(0, d)];
    assert Holds(c, w3, 0, d);
    var w4 := Apply(c, w3, Dial(0, 0, true));
    RunExtends(c, ws, ss, Dial(0, 0, true));
    ws, ss := ws + [w4], ss + [Dial(0, 0, true)];
  }

  lemma Validated(c: Config, d: string) returns (ws: seq<World>, ss: seq<Step>)
    requires Hello.WellNamed(d) && c.idna(d).Some? && '+' !in c.idna(d).value && CA.Segment(d)
    ensures IsRun(c, ws, ss) && OneOrder(c, ws[|ss|], d, CA.OrderReady) && ws[|ss|].ca.authorizations[d] == CA.Valid
  {
    ws, ss := Dialled(c, d);
    var w := ws[|ss|];
    CA.ValidationSettles(c.ca, w.ca, d, true, 0);
    CA.AuthzURLBase(c.ca.base, d);
    RunExtends(c, ws, ss, Settle(0));
    ws, ss := ws + [Apply(c, w, Settle(0))], ss + [Settle(0)];
  }

  /**
   The way the manager itself goes does lead to a certificate: it orders one for the domain,
   provisions the token, has the challenge validated and asks with the domain as common name.
   */
  lemma IssuanceHappens(c: Config, d: string) returns (ws: seq<World>, ss: seq<Step>)
    requires Lawful(c) && Hello.WellNamed(d) && c.idna(d).Some? && CA.Segment(d)
    requires c.ca.whitelist == [] || d in c.ca.whitelist
    ensures IsRun(c, ws, ss) && |ws[|ss|].ca.orders| == 1 && ws[|ss|].ca.orders[0].status == CA.OrderValid
    ensures ws[|ss|].ca.orders[0].leaf.Some? && ws[|ss|].ca.orders[0].leaf.value.dnsNames == [d]
  {
    ws, ss := Validated(c, d);
    var w := ws[|ss|];
    var r := CA.NewCert(Some(0), Some(CA.Csr(d, [])), true);
    CA.IssuedExactly(c.ca, w.ca, Some(0), Some(CA.Csr(d, [])), true);
    assert CA.Entitled(c.ca.whitelist, w.ca.authorizations, CA.Csr(d, []));
    RunExtends(c, ws, ss, Request(r));
    ws, ss := ws + [Apply(c, w, Request(r))], ss + [Request(r)];
  }
}
