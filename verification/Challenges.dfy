/**
 The two authorization loops, verify and verifyRFC of src/autocert/autocert.go. The CA's
 answers are given in advance, round by round; a run yields the requests and token writes it
 makes in order (`body`) and what its deferred calls spawn when it returns (`epilogue`).
 */
module Challenges {
  import opened Wrappers

  datatype Status = Pending | Ready | Valid | Invalid | Unknown

  datatype Challenge = Challenge(typ: string, token: string)

  datatype Authz = Authz(uri: string, status: Status, challenges: seq<Challenge>)

  datatype Order = Order(uri: string, status: Status, authzURLs: seq<string>)

  /** Where a challenge response is provisioned. */
  datatype Token = CertToken(domain: string) | HttpToken(path: string) | TxtToken(name: string)

  datatype Event =
    | Authorized(authz: Authz)
    | Ordered(order: Order)
    | Provisioned(token: Token)
    | Accepting(challenge: Challenge)
    | Awaiting(uri: string)
    | AwaitingOrder(uri: string)
    | Cleanup(token: Token)
    | Deactivate(uris: seq<string>)

  function SupportedTypes(tryHTTP01: bool, tryDNS01: bool): seq<string> {
    ["tls-alpn-01"] + (if tryHTTP01 then ["http-01"] else []) + (if tryDNS01 then ["dns-01"] else [])
  }

  /** The place fulfill writes to; None for a challenge type it does not know. */
  function TokenFor(c: Challenge, domain: string): Option<Token> {
    if c.typ == "tls-alpn-01" then Some(CertToken(domain))
    else if c.typ == "http-01" then Some(HttpToken("/.well-known/acme-challenge/" + c.token))
    else if c.typ == "dns-01" then Some(TxtToken("_acme-challenge." + domain))
    else None
  }

  /** The response to a challenge lies where the CA looks for it: which place that is depends on its type alone. */
  predicate Placed(c: Challenge, domain: string, tok: Token) {
    && (c.typ == "tls-alpn-01" || c.typ == "http-01" || c.typ == "dns-01")
    && (c.typ == "tls-alpn-01" ==> tok == CertToken(domain))
    && (c.typ == "http-01" ==> tok == HttpToken("/.well-known/acme-challenge/" + c.token))
    && (c.typ == "dns-01" ==> tok == TxtToken("_acme-challenge." + domain))
  }

  predicate Known(typ: string) {
    typ in SupportedTypes(true, true)
  }

  /**
   fulfill knows every type the loops can choose, so its last branch is never taken. The types
   are listed once: tls-alpn-01 always, first, then http-01 and dns-01 if they may be tried.
   */
  lemma FulfillKnowsSupportedTypes(tryHTTP01: bool, tryDNS01: bool, c: Challenge, domain: string)
    ensures Known(c.typ) <==> TokenFor(c, domain).Some?
    ensures c.typ in SupportedTypes(tryHTTP01, tryDNS01) ==> Known(c.typ)
    ensures TokenFor(c, domain).Some? ==> Placed(c, domain, TokenFor(c, domain).value)
    ensures var types := SupportedTypes(tryHTTP01, tryDNS01);
            && 1 <= |types| <= 3 && types[0] == "tls-alpn-01"
            && ("http-01" in types <==> tryHTTP01) && (tryHTTP01 ==> types[1] == "http-01")
            && ("dns-01" in types <==> tryDNS01) && (tryDNS01 ==> types[|types| - 1] == "dns-01")
            && forall i, j :: 0 <= i < j < |types| ==> types[i] != types[j]
  {
    assert "tls-alpn-01"[0] == 't' && "http-01"[0] == 'h' && "dns-01"[0] == 'd';
    assert SupportedTypes(true, true) == ["tls-alpn-01", "http-01", "dns-01"];
  }

  predicate Offers(z: Authz, typ: string) {
    exists i :: 0 <= i < |z.challenges| && z.challenges[i].typ == typ
  }

  /** The first challenge of the given type. */
  ghost predicate FirstOffer(z: Authz, typ: string, c: Challenge) {
    exists i :: 0 <= i < |z.challenges| && z.challenges[i] == c && c.typ == typ
                && forall j :: 0 <= j < i ==> z.challenges[j].typ != typ
  }

  function FirstOf(cs: seq<Challenge>, typ: string): Option<Challenge> {
    if cs == [] then None else if cs[0].typ == typ then Some(cs[0]) else FirstOf(cs[1..], typ)
  }

  lemma {:induction false} FirstOfExists(cs: seq<Challenge>, typ: string)
    ensures match FirstOf(cs, typ)
            case Some(c) => exists i :: 0 <= i < |cs| && cs[i] == c && c.typ == typ && forall j :: 0 <= j < i ==> cs[j].typ != typ
            case None => forall i :: 0 <= i < |cs| ==> cs[i].typ != typ
  {
    if cs != [] && cs[0].typ != typ {
      FirstOfExists(cs[1..], typ);
      if FirstOf(cs, typ).Some? {
        var c := FirstOf(cs, typ).value;
        var i :| 0 <= i < |cs[1..]| && cs[1..][i] == c && c.typ == typ && forall j :: 0 <= j < i ==> cs[1..][j].typ != typ;
        assert cs[i + 1] == c && forall j :: 0 < j < i + 1 ==> cs[j] == cs[1..][j - 1];
      } else {
        assert forall j :: 0 < j < |cs| ==> cs[j] == cs[1..][j - 1];
      }
    }
  }

  /** There is only one first challenge of a type. */
  lemma FirstOfUnique(z: Authz, typ: string, c: Challenge)
    ensures FirstOf(z.challenges, typ) == Some(c) <==> FirstOffer(z, typ, c)
    ensures FirstOf(z.challenges, typ).Some? <==> Offers(z, typ)
  {
    FirstOfExists(z.challenges, typ);
  }

  method PickChallenge(typ: string, z: Authz) returns (c: Option<Challenge>)
    ensures c.Some? <==> Offers(z, typ)
    ensures c.Some? ==> FirstOffer(z, typ, c.value)
  {
    for i := 0 to |z.challenges|
      invariant forall j :: 0 <= j < i ==> z.challenges[j].typ != typ
    {
      if z.challenges[i].typ == typ {
        return Some(z.challenges[i]);
      }
    }
    return None;
  }

  /** What fulfill, Accept and WaitAuthorization answer for a challenge: whether each succeeds. */
  datatype Trial = Trial(fulfilled: bool, accepted: bool, validated: bool)

  /**
   One choice of a challenge type: the round it was made in, the authorization examined, the first
   preference index considered and the index chosen, or the number of types when none was
   offered, and what the requests for the challenge chosen are answered.
   */
  datatype Pick = Pick(round: nat, authz: Authz, from: nat, to: nat, outcome: Trial)

  /** A challenge was chosen and every step of responding to it succeeded. */
  predicate Worked(types: seq<string>, p: Pick) {
    p.to < |types| && Known(types[p.to]) && p.outcome.fulfilled && p.outcome.accepted && p.outcome.validated
  }

  /** Every type passed over was not offered by the authorization examined; the chosen one was. */
  ghost predicate PickFair(types: seq<string>, p: Pick) {
    && p.from <= p.to <= |types|
    && (forall k :: p.from <= k < p.to ==> !Offers(p.authz, types[k]))
    && (p.to < |types| ==> Offers(p.authz, types[p.to]))
  }

  predicate JustAfter(picks: seq<Pick>, i: nat)
    requires 0 < i < |picks|
  {
    picks[i].from == picks[i - 1].to + 1
  }

  /** Choices follow the preference order without a gap: each starts just after the one before it. */
  ghost predicate PicksInOrder(types: seq<string>, picks: seq<Pick>) {
    && (forall i :: 0 <= i < |picks| ==> PickFair(types, picks[i]))
    && (|picks| > 0 ==> picks[0].from == 0)
    && (forall i :: 0 < i < |picks| ==> JustAfter(picks, i))
  }

  /** `picks` so far, with `next` the preference index to go on from. */
  ghost predicate Chained(types: seq<string>, picks: seq<Pick>, next: nat) {
    && PicksInOrder(types, picks)
    && next == if picks == [] then 0 else picks[|picks| - 1].to + 1
  }

  lemma ChainGrows(types: seq<string>, picks: seq<Pick>, next: nat, pick: Pick)
    requires Chained(types, picks, next) && PickFair(types, pick) && pick.from == next
    ensures Chained(types, picks + [pick], pick.to + 1)
  {
    var all := picks + [pick];
    forall i | 0 <= i < |all|
      ensures PickFair(types, all[i]) && (i > 0 ==> JustAfter(all, i))
    {
      if i < |picks| {
        assert PickFair(types, picks[i]) && (i > 0 ==> JustAfter(picks, i));
      }
    }
  }

  lemma {:induction false} PicksIncrease(types: seq<string>, picks: seq<Pick>, i: nat, j: nat)
    requires PicksInOrder(types, picks) && i < j < |picks|
    ensures picks[i].to < picks[j].to
  {
    if i + 1 < j {
      PicksIncrease(types, picks, i, j - 1);
    }
    assert JustAfter(picks, j) && PickFair(types, picks[j]);
  }

  /** When the last choice found nothing, every type was either tried or not offered when its turn came. */
  lemma {:induction false} EveryTypeConsidered(types: seq<string>, picks: seq<Pick>, n: nat, k: nat)
    requires PicksInOrder(types, picks) && 0 < n <= |picks| && k <= picks[n - 1].to && k < |types|
    ensures exists i :: 0 <= i < n && picks[i].from <= k <= picks[i].to
                        && (if k == picks[i].to then Offers(picks[i].authz, types[k]) else !Offers(picks[i].authz, types[k]))
  {
    assert PickFair(types, picks[n - 1]);
    if k < picks[n - 1].from {
      assert n - 1 > 0 && JustAfter(picks, n - 1);
      EveryTypeConsidered(types, picks, n - 1, k);
    }
  }

  method NextChallenge(types: seq<string>, z: Authz, from: nat) returns (c: Option<Challenge>, next: nat)
    requires from <= |types|
    ensures from <= next <= |types|
    ensures c.Some? ==> from < next && FirstOffer(z, types[next - 1], c.value)
    ensures c.None? ==> next == |types|
    ensures forall k :: from <= k < (if c.Some? then next - 1 else |types|) ==> !Offers(z, types[k])
  {
    c, next := None, from;
    while c.None? && next < |types|
      invariant from <= next <= |types|
      invariant forall k :: from <= k < (if c.Some? then next - 1 else next) ==> !Offers(z, types[k])
      invariant c.Some? ==> from < next && FirstOffer(z, types[next - 1], c.value)
      decreases |types| - next, c.None?
    {
      c := PickChallenge(types[next], z);
      next := next + 1;
    }
  }

  // ---- deferred calls ----

  /**
   A deferred call of verify or verifyRFC. `DeactivateObtained` is the closure over authzURLs,
   which sees the list as it is when the function returns.
   */
  datatype Deferred = RemoveToken(token: Token) | DeactivateObtained | DeactivateList(uris: seq<string>)

  /** What an event of the run has to leave on the list of deferred calls. */
  function DeferOf(e: Event): seq<Deferred> {
    match e
    case Provisioned(tok) => [RemoveToken(tok)]
    case Ordered(o) => [DeactivateList(o.authzURLs)]
    case _ => []
  }

  function DeferredBy(body: seq<Event>): seq<Deferred> {
    if body == [] then [] else DeferredBy(body[..|body| - 1]) + DeferOf(body[|body| - 1])
  }

  function Call(d: Deferred, authzURLs: seq<string>): Event {
    match d
    case RemoveToken(tok) => Cleanup(tok)
    case DeactivateObtained => Deactivate(authzURLs)
    case DeactivateList(uris) => Deactivate(uris)
  }

  /** The deferred calls run when the function returns, last one first. */
  function Unwind(deferred: seq<Deferred>, authzURLs: seq<string>): seq<Event> {
    if deferred == [] then []
    else [Call(deferred[|deferred| - 1], authzURLs)] + Unwind(deferred[..|deferred| - 1], authzURLs)
  }

  function AuthzURIs(body: seq<Event>): seq<string> {
    if body == [] then []
    else
      var before := AuthzURIs(body[..|body| - 1]);
      match body[|body| - 1]
      case Authorized(z) => before + [z.uri]
      case _ => before
  }

  lemma BodyStep(body: seq<Event>, e: Event)
    ensures DeferredBy(body + [e]) == DeferredBy(body) + DeferOf(e)
    ensures AuthzURIs(body + [e]) == AuthzURIs(body) + if e.Authorized? then [e.authz.uri] else []
  {
    assert (body + [e])[..|body + [e]| - 1] == body;
  }

  lemma Regroup<T>(a: seq<T>, b: seq<T>, c: seq<T>)
    ensures (a + b) + c == a + (b + c)
  {
  }

  lemma {:induction false} DeferredAppend(a: seq<Event>, b: seq<Event>)
    ensures DeferredBy(a + b) == DeferredBy(a) + DeferredBy(b)
  {
    if b == [] {
      assert a + b == a;
    } else {
      var init := b[..|b| - 1];
      var last := b[|b| - 1];
      DeferredAppend(a, init);
      assert a + b == (a + init) + [last];
      BodyStep(a + init, last);
      Regroup(DeferredBy(a), DeferredBy(init), DeferOf(last));
    }
  }

  lemma {:induction false} AuthzAppend(a: seq<Event>, b: seq<Event>)
    ensures AuthzURIs(a + b) == AuthzURIs(a) + AuthzURIs(b)
  {
    if b == [] {
      assert a + b == a;
    } else {
      var init := b[..|b| - 1];
      var last := b[|b| - 1];
      AuthzAppend(a, init);
      assert a + b == (a + init) + [last];
      BodyStep(a + init, last);
      Regroup(AuthzURIs(a), AuthzURIs(init), if last.Authorized? then [last.authz.uri] else []);
    }
  }

  /** Deferring for one stretch of a run and then for the next is deferring for both. */
  lemma DeferredGrow(first: seq<Deferred>, a: seq<Event>, b: seq<Event>)
    ensures first + DeferredBy(a) + DeferredBy(b) == first + DeferredBy(a + b)
  {
    DeferredAppend(a, b);
    Regroup(first, DeferredBy(a), DeferredBy(b));
  }

  /** The orders the CA handed out. */
  function Orders(body: seq<Event>): seq<Order> {
    if body == [] then []
    else
      var before := Orders(body[..|body| - 1]);
      match body[|body| - 1]
      case Ordered(o) => before + [o]
      case _ => before
  }

  lemma OrdersStep(body: seq<Event>, e: Event)
    ensures Orders(body + [e]) == Orders(body) + if e.Ordered? then [e.order] else []
  {
    assert (body + [e])[..|body + [e]| - 1] == body;
  }

  lemma {:induction false} OrdersOfEfforts(body: seq<Event>, es: seq<Event>)
    requires OnlyEfforts(es)
    ensures Orders(body + es) == Orders(body)
  {
    if es == [] {
      assert body + es == body;
    } else {
      var init := es[..|es| - 1];
      OrdersOfEfforts(body, init);
      assert body + es == (body + init) + [es[|es| - 1]];
      OrdersStep(body + init, es[|es| - 1]);
    }
  }

  /** The response is one for the domain: its certificate token and its TXT record are named after it. */
  predicate TokenOf(tok: Token, domain: string) {
    match tok
    case CertToken(d) => d == domain
    case TxtToken(name) => name == "_acme-challenge." + domain
    case HttpToken(_) => true
  }

  /**
   A response is provisioned only for the domain asked about and right before its challenge is
   accepted, which never happens otherwise, and a challenge is awaited only right after that.
   */
  predicate InStepAt(domain: string, body: seq<Event>, i: nat)
    requires i < |body|
  {
    && (body[i].Accepting? ==>
          i > 0 && body[i - 1].Provisioned? && Placed(body[i].challenge, domain, body[i - 1].token))
    && (body[i].Awaiting? ==> i > 0 && body[i - 1].Accepting?)
    && (body[i].Provisioned? ==> i + 1 < |body| && body[i + 1].Accepting? && TokenOf(body[i].token, domain))
  }

  ghost predicate InStep(domain: string, body: seq<Event>) {
    forall i :: 0 <= i < |body| ==> InStepAt(domain, body, i)
  }

  lemma InStepAppend(domain: string, a: seq<Event>, b: seq<Event>)
    requires InStep(domain, a) && InStep(domain, b)
    ensures InStep(domain, a + b)
  {
    var all := a + b;
    forall i | 0 <= i < |all|
      ensures InStepAt(domain, all, i)
    {
      if i < |a| {
        assert InStepAt(domain, a, i);
      } else {
        assert InStepAt(domain, b, i - |a|);
      }
    }
  }

  lemma AcceptedInPlace(domain: string, body: seq<Event>)
    requires InStep(domain, body)
    ensures forall i :: 0 <= i < |body| && body[i].Accepting? ==>
              i > 0 && body[i - 1].Provisioned? && Placed(body[i].challenge, domain, body[i - 1].token)
  {
    forall i | 0 <= i < |body| && body[i].Accepting?
      ensures i > 0 && body[i - 1].Provisioned? && Placed(body[i].challenge, domain, body[i - 1].token)
    {
      assert InStepAt(domain, body, i);
    }
  }

  /** A run that ends well either found the domain authorized or saw a challenge through. */
  ghost predicate EndsWell(types: seq<string>, domain: string, picks: seq<Pick>, body: seq<Event>) {
    var n := |body|;
    || (n > 0 && body[n - 1].Authorized? && body[n - 1].authz.status == Valid)
    || (&& n >= 3 && |picks| > 0
        && body[n - 1] == Awaiting(picks[|picks| - 1].authz.uri)
        && body[n - 2].Accepting? && picks[|picks| - 1].to < |types|
        && FirstOffer(picks[|picks| - 1].authz, types[picks[|picks| - 1].to], body[n - 2].challenge)
        && body[n - 3].Provisioned? && Placed(body[n - 2].challenge, domain, body[n - 3].token))
  }

  /** The requests made for one challenge: none after the first that fails, and accepting a challenge is one that may. */
  function Attempt(c: Challenge, domain: string, uri: string, out: Trial): seq<Event> {
    match TokenFor(c, domain)
    case None => []
    case Some(token) =>
      if !out.fulfilled then []
      else if !out.accepted then [Provisioned(token), Accepting(c)]
      else [Provisioned(token), Accepting(c), Awaiting(uri)]
  }

  lemma AttemptFits(c: Challenge, domain: string, uri: string, out: Trial)
    ensures var es := Attempt(c, domain, uri, out);
            && OnlyEfforts(es) && InStep(domain, es) && AuthzURIs(es) == []
            && DeferredBy(es) == if es == [] then [] else [RemoveToken(es[0].token)]
  {
    var es := Attempt(c, domain, uri, out);
    FulfillKnowsSupportedTypes(true, true, c, domain);
    if es != [] {
      BodyStep([], es[0]);
      BodyStep([es[0]], es[1]);
      assert [] + [es[0]] == [es[0]] && [es[0]] + [es[1]] == es[..2];
      if |es| == 3 {
        BodyStep(es[..2], es[2]);
        assert es[..2] + [es[2]] == es;
      }
    }
  }

  /** The requests a choice leads to. */
  function AttemptOf(types: seq<string>, domain: string, p: Pick): seq<Event> {
    if p.to < |types| && FirstOf(p.authz.challenges, types[p.to]).Some?
    then Attempt(FirstOf(p.authz.challenges, types[p.to]).value, domain, p.authz.uri, p.outcome)
    else []
  }

  function AttemptsOf(types: seq<string>, domain: string, picks: seq<Pick>): seq<Event> {
    if picks == [] then []
    else AttemptsOf(types, domain, picks[..|picks| - 1]) + AttemptOf(types, domain, picks[|picks| - 1])
  }

  lemma AttemptsStep(types: seq<string>, domain: string, picks: seq<Pick>, p: Pick)
    ensures AttemptsOf(types, domain, picks + [p]) == AttemptsOf(types, domain, picks) + AttemptOf(types, domain, p)
  {
    assert (picks + [p])[..|picks + [p]| - 1] == picks;
  }

  predicate IsEffort(e: Event) {
    e.Provisioned? || e.Accepting? || e.Awaiting?
  }

  /** The requests made for challenges, in order. */
  function Efforts(body: seq<Event>): seq<Event> {
    if body == [] then []
    else Efforts(body[..|body| - 1]) + if IsEffort(body[|body| - 1]) then [body[|body| - 1]] else []
  }

  lemma EffortsStep(body: seq<Event>, e: Event)
    ensures Efforts(body + [e]) == Efforts(body) + if IsEffort(e) then [e] else []
  {
    assert (body + [e])[..|body + [e]| - 1] == body;
  }

  lemma EffortsGlue(body: seq<Event>, init: seq<Event>, last: Event)
    requires IsEffort(last) && Efforts(body + init) == Efforts(body) + init
    ensures Efforts(body + (init + [last])) == Efforts(body) + (init + [last])
  {
    EffortsStep(body + init, last);
    Regroup(body, init, [last]);
    Regroup(Efforts(body), init, [last]);
  }

  lemma {:induction false} EffortsAppend(body: seq<Event>, es: seq<Event>)
    requires OnlyEfforts(es)
    ensures Efforts(body + es) == Efforts(body) + es
  {
    if es == [] {
      assert body + es == body;
    } else {
      var init := es[..|es| - 1];
      EffortsAppend(body, init);
      EffortsGlue(body, init, es[|es| - 1]);
      assert init + [es[|es| - 1]] == es;
    }
  }

  lemma {:induction false} EffortInBody(body: seq<Event>, e: Event)
    requires e in Efforts(body)
    ensures e in body
  {
    if e != body[|body| - 1] {
      EffortInBody(body[..|body| - 1], e);
    }
  }

  lemma {:induction false} AttemptIncluded(types: seq<string>, domain: string, picks: seq<Pick>, k: nat, e: Event)
    requires k < |picks| && e in AttemptOf(types, domain, picks[k])
    ensures e in AttemptsOf(types, domain, picks)
  {
    if k < |picks| - 1 {
      AttemptIncluded(types, domain, picks[..|picks| - 1], k, e);
    }
  }

  /**
   The requests of the run are those its choices lead to, in order and without others. So a
   challenge that was chosen and whose response could be made is accepted, and awaited unless
   that failed.
   */
  lemma ChosenIsTried(types: seq<string>, domain: string, picks: seq<Pick>, body: seq<Event>, k: nat, c: Challenge)
    requires Efforts(body) == AttemptsOf(types, domain, picks) && k < |picks| && picks[k].to < |types|
    requires FirstOffer(picks[k].authz, types[picks[k].to], c)
    ensures Known(c.typ) && picks[k].outcome.fulfilled ==> Accepting(c) in body
    ensures Known(c.typ) && picks[k].outcome.fulfilled && picks[k].outcome.accepted ==> Awaiting(picks[k].authz.uri) in body
  {
    var p := picks[k];
    FirstOfUnique(p.authz, types[p.to], c);
    FulfillKnowsSupportedTypes(true, true, c, domain);
    if Known(c.typ) && p.outcome.fulfilled {
      var es := AttemptOf(types, domain, p);
      assert es[1] == Accepting(c);
      AttemptIncluded(types, domain, picks, k, es[1]);
      EffortInBody(body, es[1]);
      if p.outcome.accepted {
        assert es[2] == Awaiting(p.authz.uri);
        AttemptIncluded(types, domain, picks, k, es[2]);
        EffortInBody(body, es[2]);
      }
    }
  }

  lemma EndsWellSuffix(types: seq<string>, domain: string, picks: seq<Pick>, body: seq<Event>, efforts: seq<Event>)
    requires |efforts| == 3 && EndsWell(types, domain, picks, efforts) && OnlyEfforts(efforts)
    ensures EndsWell(types, domain, picks, body + efforts)
  {
    assert IsEffort(efforts[2]);
    var n := |body| + 3;
    assert (body + efforts)[n - 1] == efforts[2] && (body + efforts)[n - 2] == efforts[1] && (body + efforts)[n - 3] == efforts[0];
  }

  /**
   fulfill, Accept and WaitAuthorization for one challenge. It succeeds only with the whole
   exchange made; a failure leaves out its end. The removal of the response is deferred as soon as
   it is provisioned, whatever becomes of the rest.
   */
  method TryChallenge(domain: string, c: Challenge, uri: string, out: Trial, deferred: seq<Deferred>)
    returns (ok: bool, efforts: seq<Event>, deferred': seq<Deferred>)
    ensures ok <==> Known(c.typ) && out.fulfilled && out.accepted && out.validated
    ensures efforts == [] <==> !Known(c.typ) || !out.fulfilled
    ensures efforts != [] ==> |efforts| == (if out.accepted then 3 else 2) && efforts[0].Provisioned?
                              && Placed(c, domain, efforts[0].token) && efforts[1] == Accepting(c)
    ensures efforts != [] && out.accepted ==> efforts[2] == Awaiting(uri)
    ensures efforts == Attempt(c, domain, uri, out)
    ensures deferred' == deferred + if efforts == [] then [] else [RemoveToken(efforts[0].token)]
  {
    efforts, deferred' := [], deferred;
    FulfillKnowsSupportedTypes(true, true, c, domain);
    var token := TokenFor(c, domain);
    if token.None? || !out.fulfilled {
      return false, efforts, deferred';
    }
    efforts := efforts + [Provisioned(token.value)];
    deferred' := deferred' + [RemoveToken(token.value)];
    efforts := efforts + [Accepting(c)];
    if !out.accepted {
      return false, efforts, deferred';
    }
    efforts := efforts + [Awaiting(uri)];
    return out.validated, efforts, deferred';
  }

  /** A challenge of the authorization was provisioned, accepted and awaited, in that order. */
  ghost predicate SeenThrough(domain: string, z: Authz, es: seq<Event>) {
    exists p :: 2 <= p < |es| && es[p] == Awaiting(z.uri)
                && es[p - 1].Accepting? && es[p - 1].challenge in z.challenges
                && es[p - 2].Provisioned? && Placed(es[p - 1].challenge, domain, es[p - 2].token)
  }

  lemma SeenThroughWithin(domain: string, z: Authz, a: seq<Event>, es: seq<Event>, b: seq<Event>)
    requires SeenThrough(domain, z, es)
    ensures SeenThrough(domain, z, a + es + b)
  {
    var all := a + es + b;
    var p :| 2 <= p < |es| && es[p] == Awaiting(z.uri)
             && es[p - 1].Accepting? && es[p - 1].challenge in z.challenges
             && es[p - 2].Provisioned? && Placed(es[p - 1].challenge, domain, es[p - 2].token);
    assert all[|a| + p] == es[p] && all[|a| + p - 1] == es[p - 1] && all[|a| + p - 2] == es[p - 2];
  }

  datatype RoundEnd = Proceed | Retry | Fail

  /** What the requests made for one authorization look like, the last of `picks` being the choice made on it. */
  ghost predicate EffortsFit(types: seq<string>, domain: string, picks: seq<Pick>, z: Authz, done: bool, es: seq<Event>) {
    && OnlyEfforts(es) && InStep(domain, es) && AuthzURIs(es) == []
    && (done ==> |es| == 3 && EndsWell(types, domain, picks, es) && SeenThrough(domain, z, es))
  }

  lemma TriedWell(types: seq<string>, domain: string, picks: seq<Pick>, c: Challenge, es: seq<Event>)
    requires |picks| > 0 && Worked(types, picks[|picks| - 1])
    requires var p := picks[|picks| - 1]; FirstOffer(p.authz, types[p.to], c) && es == Attempt(c, domain, p.authz.uri, p.outcome)
    ensures EffortsFit(types, domain, picks, picks[|picks| - 1].authz, true, es)
  {
    var p := picks[|picks| - 1];
    FulfillKnowsSupportedTypes(true, true, c, domain);
    AttemptFits(c, domain, p.authz.uri, p.outcome);
    assert es[2] == Awaiting(p.authz.uri) && es[1] == Accepting(c) && es[0].Provisioned?;
    assert SeenThrough(domain, p.authz, es);
  }

  /**
   The next challenge for the authorization `z`, tried: Fail when no type is left, Proceed when
   the CA validated it, Retry otherwise.
   */
  method TryNext(types: seq<string>, domain: string, round: nat, z: Authz, nextTyp: nat, picks: seq<Pick>, out: Trial,
                 deferred: seq<Deferred>)
    returns (end: RoundEnd, nextTyp': nat, picks': seq<Pick>, efforts: seq<Event>, deferred': seq<Deferred>)
    requires nextTyp <= |types| && Chained(types, picks, nextTyp)
    ensures |picks'| == |picks| + 1 && picks' == picks + [picks'[|picks|]]
    ensures var p := picks'[|picks|]; p == Pick(round, z, nextTyp, p.to, out) && PickFair(types, p)
    ensures PicksInOrder(types, picks') && EffortsFit(types, domain, picks', z, end.Proceed?, efforts)
    ensures efforts == AttemptOf(types, domain, picks'[|picks|])
    ensures end.Fail? <==> picks'[|picks|].to == |types|
    ensures end.Proceed? <==> Worked(types, picks'[|picks|])
    ensures nextTyp' <= |types|
    ensures !end.Fail? ==> nextTyp < nextTyp' && Chained(types, picks', nextTyp')
    ensures deferred' == deferred + DeferredBy(efforts)
  {
    var chal, next := NextChallenge(types, z, nextTyp);
    var pick := Pick(round, z, nextTyp, if chal.Some? then next - 1 else |types|, out);
    if chal.Some? {
      FirstOfUnique(z, types[next - 1], chal.value);
      FulfillKnowsSupportedTypes(true, true, chal.value, domain);
    }
    ChainGrows(types, picks, nextTyp, pick);
    picks', nextTyp', efforts, deferred' := picks + [pick], next, [], deferred;
    if chal.None? {
      return Fail, nextTyp', picks', efforts, deferred';
    }
    var done;
    done, efforts, deferred' := TryChallenge(domain, chal.value, z.uri, out, deferred);
    AttemptFits(chal.value, domain, z.uri, out);
    end := if done then Proceed else Retry;
    if done {
      TriedWell(types, domain, picks', chal.value, efforts);
    }
  }

  // ---- verify ----

  /** The answers to one round of verify: Authorize, fulfill, Accept and WaitAuthorization. */
  datatype Round = Round(authz: Option<Authz>, outcome: Trial)

  /** The URIs of the authorizations obtained in the first n rounds. */
  function Obtained(answers: nat -> Round, n: nat): seq<string> {
    if n == 0 then []
    else
      Obtained(answers, n - 1) + if answers(n - 1).authz.Some? then [answers(n - 1).authz.value.uri] else []
  }

  /** The body lists every authorization obtained, and its requests are in step. */
  ghost predicate Recorded(domain: string, answers: nat -> Round, calls: nat, body: seq<Event>) {
    InStep(domain, body) && AuthzURIs(body) == Obtained(answers, calls) && Orders(body) == []
  }

  /** The i-th choice was made on the authorization of the i-th round, and its requests were answered as in that round. */
  ghost predicate PicksFrom(answers: nat -> Round, picks: seq<Pick>) {
    forall i :: 0 <= i < |picks| ==> picks[i].round == i && answers(i) == Round(Some(picks[i].authz), picks[i].outcome)
  }

  lemma PicksFromGrow(answers: nat -> Round, picks: seq<Pick>, pick: Pick)
    requires PicksFrom(answers, picks) && pick.round == |picks|
    requires answers(|picks|) == Round(Some(pick.authz), pick.outcome)
    ensures PicksFrom(answers, picks + [pick])
  {
  }

  /** The requests for challenges are those the choices lead to. */
  ghost predicate Tried(types: seq<string>, domain: string, picks: seq<Pick>, body: seq<Event>) {
    Efforts(body) == AttemptsOf(types, domain, picks)
  }

  lemma TriedMore(types: seq<string>, domain: string, picks: seq<Pick>, body: seq<Event>, p: Pick, es: seq<Event>)
    requires Tried(types, domain, picks, body) && OnlyEfforts(es) && es == AttemptOf(types, domain, p)
    ensures Tried(types, domain, picks + [p], body + es)
  {
    EffortsAppend(body, es);
    AttemptsStep(types, domain, picks, p);
  }

  /** Another round follows: the authorization was open, and the challenge chosen did not work out. */
  predicate GoesOn(types: seq<string>, p: Pick) {
    p.authz.status != Valid && p.authz.status != Invalid && p.to < |types| && !Worked(types, p)
  }

  /**
   How the last round decides: at once if Authorize failed or the authorization was settled, and
   otherwise by whether the challenge chosen worked out or none was left to choose.
   */
  predicate Decided(types: seq<string>, authz: Option<Authz>, calls: nat, picks: seq<Pick>, ok: bool) {
    if authz.None? || authz.value.status == Valid || authz.value.status == Invalid
    then |picks| + 1 == calls && (ok <==> authz.Some? && authz.value.status == Valid)
    else
      && |picks| == calls > 0
      && (if ok then Worked(types, picks[calls - 1]) else picks[calls - 1].to == |types|)
  }

  lemma RoundRecorded(domain: string, answers: nat -> Round, calls: nat, body: seq<Event>, z: Authz)
    requires Recorded(domain, answers, calls, body) && answers(calls).authz == Some(z)
    ensures Recorded(domain, answers, calls + 1, body + [Authorized(z)])
    ensures DeferredBy(body + [Authorized(z)]) == DeferredBy(body)
  {
    BodyStep(body, Authorized(z));
    OrdersStep(body, Authorized(z));
    assert InStepAt(domain, [Authorized(z)], 0);
    InStepAppend(domain, body, [Authorized(z)]);
  }

  lemma EffortsRecorded(domain: string, answers: nat -> Round, calls: nat, body: seq<Event>, efforts: seq<Event>)
    requires Recorded(domain, answers, calls, body) && InStep(domain, efforts) && AuthzURIs(efforts) == []
    requires OnlyEfforts(efforts)
    ensures Recorded(domain, answers, calls, body + efforts)
  {
    AuthzAppend(body, efforts);
    OrdersOfEfforts(body, efforts);
    InStepAppend(domain, body, efforts);
  }

  lemma RoundGoesOn(types: seq<string>, domain: string, answers: nat -> Round, n: nat, nextTyp: nat, picks: seq<Pick>,
                    body: seq<Event>, nextTyp': nat, pick: Pick, body': seq<Event>)
    requires Underway(types, domain, answers, n, nextTyp, picks, body) && nextTyp < nextTyp' <= |types|
    requires Chained(types, picks + [pick], nextTyp') && PicksFrom(answers, picks + [pick]) && GoesOn(types, pick)
    requires Recorded(domain, answers, n + 1, body') && Tried(types, domain, picks + [pick], body')
    ensures Underway(types, domain, answers, n + 1, nextTyp', picks + [pick], body')
  {
  }

  lemma RoundDecides(types: seq<string>, domain: string, answers: nat -> Round, n: nat, nextTyp: nat, picks: seq<Pick>,
                     body: seq<Event>, ok: bool, picks': seq<Pick>, body': seq<Event>)
    requires Underway(types, domain, answers, n, nextTyp, picks, body) && picks <= picks'
    requires PicksInOrder(types, picks') && PicksFrom(answers, picks') && Recorded(domain, answers, n + 1, body')
    requires Tried(types, domain, picks', body') && Decided(types, answers(n).authz, n + 1, picks', ok)
    requires ok ==> EndsWell(types, domain, picks', body')
    ensures Over(types, domain, answers, n + 1, ok, picks', body')
  {
    forall k | 0 <= k < n
      ensures GoesOn(types, picks'[k])
    {
      assert picks'[k] == picks[k];
    }
  }

  ghost predicate Underway(types: seq<string>, domain: string, answers: nat -> Round, calls: nat, nextTyp: nat,
                           picks: seq<Pick>, body: seq<Event>) {
    && calls == |picks| && calls <= nextTyp <= |types|
    && Chained(types, picks, nextTyp) && PicksFrom(answers, picks) && Recorded(domain, answers, calls, body)
    && Tried(types, domain, picks, body) && forall k :: 0 <= k < calls ==> GoesOn(types, picks[k])
  }

  /**
   The run is over after `calls` rounds: each of the others was left with a challenge that did not
   work out, and the last one decided.
   */
  ghost predicate Over(types: seq<string>, domain: string, answers: nat -> Round, calls: nat, ok: bool,
                       picks: seq<Pick>, body: seq<Event>) {
    && 0 < calls <= |types| + 1 && calls - 1 <= |picks| <= calls
    && PicksInOrder(types, picks) && PicksFrom(answers, picks) && Recorded(domain, answers, calls, body)
    && Tried(types, domain, picks, body) && (forall k :: 0 <= k < calls - 1 ==> GoesOn(types, picks[k]))
    && Decided(types, answers(calls - 1).authz, calls, picks, ok)
    && (ok ==> EndsWell(types, domain, picks, body))
  }

  /** One round of verify in which Authorize succeeded. */
  method OneRound(types: seq<string>, domain: string, answers: nat -> Round, n: nat, nextTyp: nat,
                  picks: seq<Pick>, body: seq<Event>, deferred: seq<Deferred>)
    returns (more: bool, ok: bool, nextTyp': nat, picks': seq<Pick>, body': seq<Event>, deferred': seq<Deferred>)
    requires Underway(types, domain, answers, n, nextTyp, picks, body) && answers(n).authz.Some?
    requires deferred == [DeactivateObtained] + DeferredBy(body)
    ensures nextTyp' <= |types|
    ensures more ==> !ok && nextTyp < nextTyp' && Underway(types, domain, answers, n + 1, nextTyp', picks', body')
    ensures !more ==> Over(types, domain, answers, n + 1, ok, picks', body')
    ensures deferred' == [DeactivateObtained] + DeferredBy(body')
  {
    var r := answers(n);
    var z := r.authz.value;
    RoundRecorded(domain, answers, n, body, z);
    EffortsStep(body, Authorized(z));
    more, ok, nextTyp', picks', body', deferred' := false, false, nextTyp, picks, body + [Authorized(z)], deferred;
    if z.status == Valid || z.status == Invalid {
      ok := z.status == Valid;
      RoundDecides(types, domain, answers, n, nextTyp, picks, body, ok, picks', body');
      return;
    }
    var end, next, all, efforts, later := TryNext(types, domain, n, z, nextTyp, picks, r.outcome, deferred);
    EffortsRecorded(domain, answers, n + 1, body', efforts);
    DeferredGrow([DeactivateObtained], body', efforts);
    PicksFromGrow(answers, picks, all[n]);
    TriedMore(types, domain, picks, body', all[n], efforts);
    if end.Proceed? {
      EndsWellSuffix(types, domain, all, body', efforts);
    }
    more, ok, nextTyp', picks', body', deferred' := end.Retry?, end.Proceed?, next, all, body' + efforts, later;
    if more {
      RoundGoesOn(types, domain, answers, n, nextTyp, picks, body, nextTyp', all[n], body');
    } else {
      RoundDecides(types, domain, answers, n, nextTyp, picks, body, ok, picks', body');
    }
  }

  lemma Begins(types: seq<string>, domain: string, answers: nat -> Round)
    ensures Underway(types, domain, answers, 0, 0, [], [])
  {
  }

  lemma EndsUnanswered(types: seq<string>, domain: string, answers: nat -> Round, calls: nat, nextTyp: nat,
                       picks: seq<Pick>, body: seq<Event>)
    requires Underway(types, domain, answers, calls, nextTyp, picks, body) && answers(calls).authz.None?
    ensures Over(types, domain, answers, calls + 1, false, picks, body)
  {
  }

  /** One round of verify, with the list of the authorizations obtained so far. */
  method AskAgain(types: seq<string>, domain: string, answers: nat -> Round, n: nat, nextTyp: nat, picks: seq<Pick>,
                  body: seq<Event>, deferred: seq<Deferred>, authzURLs: seq<string>)
    returns (more: bool, ok: bool, nextTyp': nat, picks': seq<Pick>, body': seq<Event>, deferred': seq<Deferred>,
             authzURLs': seq<string>)
    requires Underway(types, domain, answers, n, nextTyp, picks, body)
    requires deferred == [DeactivateObtained] + DeferredBy(body) && authzURLs == Obtained(answers, n)
    ensures nextTyp' <= |types|
    ensures more ==> !ok && nextTyp < nextTyp' && Underway(types, domain, answers, n + 1, nextTyp', picks', body')
    ensures !more ==> Over(types, domain, answers, n + 1, ok, picks', body')
    ensures deferred' == [DeactivateObtained] + DeferredBy(body') && authzURLs' == Obtained(answers, n + 1)
  {
    var authz := answers(n).authz;
    if authz.None? {
      EndsUnanswered(types, domain, answers, n, nextTyp, picks, body);
      return false, false, nextTyp, picks, body, deferred, authzURLs;
    }
    authzURLs' := authzURLs + [authz.value.uri];
    more, ok, nextTyp', picks', body', deferred' := OneRound(types, domain, answers, n, nextTyp, picks, body, deferred);
  }

  lemma VerifyEnds(types: seq<string>, domain: string, answers: nat -> Round, calls: nat, ok: bool, picks: seq<Pick>,
                   body: seq<Event>, epilogue: seq<Event>)
    requires Over(types, domain, answers, calls, ok, picks, body)
    requires epilogue == Unwind([DeactivateObtained] + DeferredBy(body), Obtained(answers, calls))
    ensures forall i :: 0 <= i < |body| && body[i].Accepting? ==>
              i > 0 && body[i - 1].Provisioned? && Placed(body[i].challenge, domain, body[i - 1].token)
    ensures CleansUp(body, epilogue) && Balanced(body + epilogue)
    ensures Deactivated(epilogue) == [Obtained(answers, calls)]
  {
    AcceptedInPlace(domain, body);
    UnwindCleansUp([DeactivateObtained], body, Obtained(answers, calls));
  }

  /**
   verify: at most one Authorize call more than there are challenge types, and on every exit
   path the authorizations obtained are deactivated, in one list, and each provisioned response
   is removed once.
   */
  method Verify(types: seq<string>, domain: string, answers: nat -> Round)
    returns (ok: bool, calls: nat, picks: seq<Pick>, body: seq<Event>, epilogue: seq<Event>)
    ensures Over(types, domain, answers, calls, ok, picks, body)
    ensures forall i :: 0 <= i < |body| && body[i].Accepting? ==>
              i > 0 && body[i - 1].Provisioned? && Placed(body[i].challenge, domain, body[i - 1].token)
    ensures CleansUp(body, epilogue) && Balanced(body + epilogue)
    ensures Deactivated(epilogue) == [Obtained(answers, calls)]
  {
    ok, calls, picks, body := false, 0, [], [];
    var authzURLs: seq<string> := [];
    var deferred := [DeactivateObtained];
    var nextTyp: nat := 0;
    var more := true;
    Begins(types, domain, answers);
    while more
      invariant more ==> !ok && Underway(types, domain, answers, calls, nextTyp, picks, body)
      invariant !more ==> Over(types, domain, answers, calls, ok, picks, body)
      invariant nextTyp <= |types|
      invariant authzURLs == Obtained(answers, calls)
      invariant deferred == [DeactivateObtained] + DeferredBy(body)
      decreases more, |types| - nextTyp
    {
      more, ok, nextTyp, picks, body, deferred, authzURLs :=
        AskAgain(types, domain, answers, calls, nextTyp, picks, body, deferred, authzURLs);
      calls := calls + 1;
    }
    epilogue := Unwind(deferred, authzURLs);
    VerifyEnds(types, domain, answers, calls, ok, picks, body, epilogue);
  }

  // ---- verifyRFC ----

  /** The answers to one round of verifyRFC; those about the i-th authorization of the order are functions of i. */
  datatype OrderRound = OrderRound(
    order: Option<Order>,
    authz: nat -> Option<Authz>,
    outcome: nat -> Trial,
    final: Option<Order>)

  /** A round that examined no pending authorization and whose order did not become ready. */
  predicate Idle(r: OrderRound) {
    && r.order.Some? && r.order.value.status == Pending && r.final.None?
    && NothingPending(r, r.order.value)
  }

  function ObtainedOrders(answers: nat -> OrderRound, n: nat): seq<Order> {
    if n == 0 then []
    else ObtainedOrders(answers, n - 1) + if answers(n - 1).order.Some? then [answers(n - 1).order.value] else []
  }

  function IdleCount(answers: nat -> OrderRound, n: nat): nat {
    if n == 0 then 0 else IdleCount(answers, n - 1) + if Idle(answers(n - 1)) then 1 else 0
  }

  /** The i-th authorization of the order was settled already, or is by the requests made. */
  ghost predicate AuthzSatisfied(domain: string, r: OrderRound, i: nat, es: seq<Event>) {
    && r.authz(i).Some?
    && (r.authz(i).value.status == Pending ==>
          && r.outcome(i).fulfilled && r.outcome(i).accepted && r.outcome(i).validated
          && SeenThrough(domain, r.authz(i).value, es))
  }

  ghost predicate OrderSatisfied(domain: string, r: OrderRound, o: Order, es: seq<Event>) {
    forall i :: 0 <= i < |o.authzURLs| ==> AuthzSatisfied(domain, r, i, es)
  }

  lemma OrderStaysSatisfied(domain: string, r: OrderRound, n: nat, a: seq<Event>, es: seq<Event>, b: seq<Event>)
    requires forall i :: 0 <= i < n ==> AuthzSatisfied(domain, r, i, es)
    ensures forall i :: 0 <= i < n ==> AuthzSatisfied(domain, r, i, a + es + b)
  {
    forall i | 0 <= i < n
      ensures AuthzSatisfied(domain, r, i, a + es + b)
    {
      assert AuthzSatisfied(domain, r, i, es);
      if r.authz(i).value.status == Pending {
        SeenThroughWithin(domain, r.authz(i).value, a, es, b);
      }
    }
  }

  /** The choice was made on a pending authorization of the round's order, and its requests were answered as in the round. */
  ghost predicate FromRound(r: OrderRound, p: Pick) {
    && p.authz.status == Pending && r.order.Some?
    && exists i :: 0 <= i < |r.order.value.authzURLs| && r.authz(i) == Some(p.authz) && r.outcome(i) == p.outcome
  }

  /** The further choices were made in round n. */
  ghost predicate NewPicksFrom(r: OrderRound, n: nat, picks: seq<Pick>, picks': seq<Pick>) {
    && picks <= picks'
    && forall k :: |picks| <= k < |picks'| ==> picks'[k].round == n && FromRound(r, picks'[k])
  }

  predicate InTurn(types: seq<string>, p: Pick, q: Pick) {
    p.round < q.round || (p.round == q.round && Worked(types, p))
  }

  /** No choice follows in the same round on one that did not work out. */
  ghost predicate StopsAtFailure(types: seq<string>, picks: seq<Pick>) {
    forall j, k :: 0 <= j < k < |picks| ==> InTurn(types, picks[j], picks[k])
  }

  /** What is known of the choices and requests made so far in round `round`, which began with `picks`. */
  ghost predicate Part(types: seq<string>, domain: string, r: OrderRound, round: nat, picks: seq<Pick>, picks': seq<Pick>,
                       efforts: seq<Event>) {
    && NewPicksFrom(r, round, picks, picks') && StopsAtFailure(types, picks')
    && OnlyEfforts(efforts) && InStep(domain, efforts)
    && AttemptsOf(types, domain, picks') == AttemptsOf(types, domain, picks) + efforts
  }

  /** The first n authorizations of the order have been dealt with. */
  ghost predicate PartSatisfied(types: seq<string>, domain: string, r: OrderRound, round: nat, n: nat, nextTyp: nat,
                                picks: seq<Pick>, nextTyp': nat, picks': seq<Pick>, efforts: seq<Event>) {
    && nextTyp <= nextTyp' <= |types| && Chained(types, picks', nextTyp')
    && Part(types, domain, r, round, picks, picks', efforts)
    && (forall k :: |picks| <= k < |picks'| ==> Worked(types, picks'[k]))
    && (forall j :: 0 <= j < n ==> AuthzSatisfied(domain, r, j, efforts))
    && (nextTyp' == nextTyp ==> forall j :: 0 <= j < n ==> r.authz(j).Some? && r.authz(j).value.status != Pending)
  }

  /** The choices before the round were made in earlier ones. */
  ghost predicate Before(round: nat, picks: seq<Pick>) {
    forall k :: 0 <= k < |picks| ==> picks[k].round < round
  }

  lemma PartBegins(types: seq<string>, domain: string, r: OrderRound, round: nat, nextTyp: nat, picks: seq<Pick>)
    requires nextTyp <= |types| && Chained(types, picks, nextTyp) && StopsAtFailure(types, picks)
    ensures PartSatisfied(types, domain, r, round, 0, nextTyp, picks, nextTyp, picks, [])
  {
  }

  /** One more choice, made on the n-th authorization. */
  lemma PartTries(types: seq<string>, domain: string, r: OrderRound, round: nat, n: nat, nextTyp: nat, picks: seq<Pick>,
                  next: nat, more: seq<Pick>, efforts: seq<Event>, p: Pick, es: seq<Event>)
    requires PartSatisfied(types, domain, r, round, n, nextTyp, picks, next, more, efforts) && Before(round, picks)
    requires p.round == round && FromRound(r, p) && es == AttemptOf(types, domain, p)
    requires OnlyEfforts(es) && InStep(domain, es)
    ensures Part(types, domain, r, round, picks, more + [p], efforts + es)
  {
    InStepAppend(domain, efforts, es);
    AttemptsStep(types, domain, more, p);
    Regroup(AttemptsOf(types, domain, picks), efforts, es);
    var all := more + [p];
    forall j, k | 0 <= j < k < |all|
      ensures InTurn(types, all[j], all[k])
    {
      assert all[j] == more[j];
      if k < |more| {
        assert InTurn(types, more[j], more[k]);
      } else if j < |picks| {
        assert more[j] == picks[j];
      }
    }
  }

  lemma OneMoreSatisfied(domain: string, r: OrderRound, n: nat, efforts: seq<Event>, p: Pick, es: seq<Event>)
    requires forall j :: 0 <= j < n ==> AuthzSatisfied(domain, r, j, efforts)
    requires r.authz(n) == Some(p.authz) && r.outcome(n) == p.outcome && SeenThrough(domain, p.authz, es)
    requires p.outcome == Trial(true, true, true)
    ensures forall j :: 0 <= j < n + 1 ==> AuthzSatisfied(domain, r, j, efforts + es)
  {
    OrderStaysSatisfied(domain, r, n, [], efforts, es);
    assert [] + efforts + es == efforts + es;
    SeenThroughWithin(domain, p.authz, efforts, es, []);
    assert efforts + es + [] == efforts + es;
  }

  lemma PartGrows(types: seq<string>, domain: string, r: OrderRound, round: nat, n: nat, nextTyp: nat, picks: seq<Pick>,
                  next: nat, more: seq<Pick>, efforts: seq<Event>, next': nat, p: Pick, es: seq<Event>)
    requires PartSatisfied(types, domain, r, round, n, nextTyp, picks, next, more, efforts)
    requires r.authz(n) == Some(p.authz) && p.authz.status == Pending && r.outcome(n) == p.outcome
    requires next < next' <= |types| && Chained(types, more + [p], next') && Worked(types, p)
    requires Part(types, domain, r, round, picks, more + [p], efforts + es) && SeenThrough(domain, p.authz, es)
    ensures PartSatisfied(types, domain, r, round, n + 1, nextTyp, picks, next', more + [p], efforts + es)
  {
    OneMoreSatisfied(domain, r, n, efforts, p, es);
  }

  lemma PartSkips(types: seq<string>, domain: string, r: OrderRound, round: nat, n: nat, nextTyp: nat, picks: seq<Pick>,
                  next: nat, more: seq<Pick>, efforts: seq<Event>)
    requires PartSatisfied(types, domain, r, round, n, nextTyp, picks, next, more, efforts)
    requires r.authz(n).Some? && r.authz(n).value.status != Pending
    ensures PartSatisfied(types, domain, r, round, n + 1, nextTyp, picks, next, more, efforts)
  {
  }

  lemma PartEnds(types: seq<string>, domain: string, r: OrderRound, round: nat, o: Order, nextTyp: nat, picks: seq<Pick>,
                 next: nat, more: seq<Pick>, efforts: seq<Event>)
    requires PartSatisfied(types, domain, r, round, |o.authzURLs|, nextTyp, picks, next, more, efforts)
    ensures OrderSatisfied(domain, r, o, efforts) && (next == nextTyp ==> NothingPending(r, o))
  {
  }

  /**
   All authorizations before the i-th were dealt with, and that one could not be read, or is
   pending with no type left to choose.
   */
  ghost predicate StuckAt(types: seq<string>, domain: string, r: OrderRound, round: nat, i: nat, picks: seq<Pick>,
                          es: seq<Event>) {
    && (forall j :: 0 <= j < i ==> AuthzSatisfied(domain, r, j, es))
    && match r.authz(i)
       case None => true
       case Some(z) =>
         && z.status == Pending && |picks| > 0
         && var p := picks[|picks| - 1]; p.round == round && p.authz == z && p.to == |types|
  }

  ghost predicate Stuck(types: seq<string>, domain: string, r: OrderRound, round: nat, o: Order, picks: seq<Pick>,
                        es: seq<Event>) {
    exists i :: 0 <= i < |o.authzURLs| && StuckAt(types, domain, r, round, i, picks, es)
  }

  lemma StaysStuck(types: seq<string>, domain: string, r: OrderRound, round: nat, o: Order, picks: seq<Pick>,
                   a: seq<Event>, es: seq<Event>)
    requires Stuck(types, domain, r, round, o, picks, es)
    ensures Stuck(types, domain, r, round, o, picks, a + es)
  {
    var i :| 0 <= i < |o.authzURLs| && StuckAt(types, domain, r, round, i, picks, es);
    OrderStaysSatisfied(domain, r, i, a, es, []);
    assert a + es + [] == a + es;
    assert StuckAt(types, domain, r, round, i, picks, a + es);
  }

  lemma StuckNow(types: seq<string>, domain: string, r: OrderRound, round: nat, o: Order, n: nat, nextTyp: nat,
                 picks: seq<Pick>, next: nat, more: seq<Pick>, efforts: seq<Event>, picks': seq<Pick>, es: seq<Event>)
    requires PartSatisfied(types, domain, r, round, n, nextTyp, picks, next, more, efforts) && n < |o.authzURLs|
    requires match r.authz(n)
             case None => true
             case Some(z) =>
               && z.status == Pending && |picks'| > 0
               && var p := picks'[|picks'| - 1]; p.round == round && p.authz == z && p.to == |types|
    ensures Stuck(types, domain, r, round, o, picks', efforts + es)
  {
    OrderStaysSatisfied(domain, r, n, [], efforts, es);
    assert [] + efforts + es == efforts + es;
    assert StuckAt(types, domain, r, round, n, picks', efforts + es);
  }

  /** The last choice, made in the round, did not work out. */
  predicate LastFailed(types: seq<string>, round: nat, picks: seq<Pick>) {
    && |picks| > 0
    && var p := picks[|picks| - 1]; p.round == round && p.to < |types| && !Worked(types, p)
  }

  /** One pending authorization of the order. */
  method TryPending(types: seq<string>, domain: string, r: OrderRound, round: nat, o: Order, i: nat, nextTyp: nat,
                    picks: seq<Pick>, next: nat, more: seq<Pick>, efforts: seq<Event>, deferred: seq<Deferred>)
    returns (end: RoundEnd, next': nat, more': seq<Pick>, efforts': seq<Event>, deferred': seq<Deferred>)
    requires PartSatisfied(types, domain, r, round, i, nextTyp, picks, next, more, efforts) && Before(round, picks)
    requires r.order == Some(o) && i < |o.authzURLs| && r.authz(i).Some? && r.authz(i).value.status == Pending
    ensures PicksInOrder(types, more') && Part(types, domain, r, round, picks, more', efforts')
    ensures end.Proceed? ==> PartSatisfied(types, domain, r, round, i + 1, nextTyp, picks, next', more', efforts')
    ensures end.Retry? ==> next < next' <= |types| && Chained(types, more', next') && LastFailed(types, round, more')
    ensures end.Fail? ==> Stuck(types, domain, r, round, o, more', efforts')
    ensures exists es :: efforts' == efforts + es && deferred' == deferred + DeferredBy(es)
  {
    var z := r.authz(i).value;
    var es;
    end, next', more', es, deferred' := TryNext(types, domain, round, z, next, more, r.outcome(i), deferred);
    efforts' := efforts + es;
    var p := more'[|more|];
    assert FromRound(r, p);
    PartTries(types, domain, r, round, i, nextTyp, picks, next, more, efforts, p, es);
    if end.Fail? {
      StuckNow(types, domain, r, round, o, i, nextTyp, picks, next, more, efforts, more', es);
    } else if end.Proceed? {
      PartGrows(types, domain, r, round, i, nextTyp, picks, next, more, efforts, next', p, es);
    }
  }

  /**
   The loop over one order's authorizations. It fails when an authorization cannot be read or no
   type is left for a pending one, and asks for a new order when a challenge does not work out.
   */
  method SatisfyOrder(types: seq<string>, domain: string, r: OrderRound, round: nat, o: Order, nextTyp: nat,
                      picks: seq<Pick>, deferred: seq<Deferred>)
    returns (end: RoundEnd, nextTyp': nat, picks': seq<Pick>, efforts: seq<Event>, deferred': seq<Deferred>)
    requires nextTyp <= |types| && Chained(types, picks, nextTyp) && r.order == Some(o)
    requires Before(round, picks) && StopsAtFailure(types, picks)
    ensures PicksInOrder(types, picks') && Part(types, domain, r, round, picks, picks', efforts)
    ensures !end.Fail? ==> nextTyp <= nextTyp' <= |types| && Chained(types, picks', nextTyp')
    ensures end.Retry? ==> nextTyp < nextTyp' && LastFailed(types, round, picks')
    ensures end.Proceed? ==> OrderSatisfied(domain, r, o, efforts)
    ensures end.Proceed? && nextTyp' == nextTyp ==> NothingPending(r, o)
    ensures end.Fail? ==> Stuck(types, domain, r, round, o, picks', efforts)
    ensures deferred' == deferred + DeferredBy(efforts)
  {
    end, nextTyp', picks', efforts, deferred' := Proceed, nextTyp, picks, [], deferred;
    PartBegins(types, domain, r, round, nextTyp, picks);
    for i := 0 to |o.authzURLs|
      invariant end.Proceed?
      invariant PartSatisfied(types, domain, r, round, i, nextTyp, picks, nextTyp', picks', efforts)
      invariant deferred' == deferred + DeferredBy(efforts)
    {
      if r.authz(i).None? {
        StuckNow(types, domain, r, round, o, i, nextTyp, picks, nextTyp', picks', efforts, picks', []);
        assert efforts + [] == efforts;
        return Fail, nextTyp', picks', efforts, deferred';
      }
      if r.authz(i).value.status != Pending {
        PartSkips(types, domain, r, round, i, nextTyp, picks, nextTyp', picks', efforts);
        continue;
      }
      ghost var before := efforts;
      end, nextTyp', picks', efforts, deferred' :=
        TryPending(types, domain, r, round, o, i, nextTyp, picks, nextTyp', picks', efforts, deferred');
      ghost var es :| efforts == before + es && deferred' == deferred + DeferredBy(before) + DeferredBy(es);
      DeferredGrow(deferred, before, es);
      if !end.Proceed? {
        return;
      }
    }
    PartEnds(types, domain, r, round, o, nextTyp, picks, nextTyp', picks', efforts);
  }

  ghost predicate RecordedOrders(domain: string, answers: nat -> OrderRound, calls: nat, body: seq<Event>) {
    InStep(domain, body) && Orders(body) == ObtainedOrders(answers, calls)
  }

  lemma OrderRecorded(domain: string, answers: nat -> OrderRound, calls: nat, body: seq<Event>, o: Order)
    requires RecordedOrders(domain, answers, calls, body) && answers(calls).order == Some(o)
    ensures RecordedOrders(domain, answers, calls + 1, body + [Ordered(o)])
    ensures DeferredBy(body + [Ordered(o)]) == DeferredBy(body) + [DeactivateList(o.authzURLs)]
  {
    BodyStep(body, Ordered(o));
    OrdersStep(body, Ordered(o));
    assert InStepAt(domain, [Ordered(o)], 0);
    InStepAppend(domain, body, [Ordered(o)]);
  }

  lemma OrderEffortsRecorded(domain: string, answers: nat -> OrderRound, calls: nat, body: seq<Event>, efforts: seq<Event>,
                             uri: string)
    requires RecordedOrders(domain, answers, calls, body) && OnlyEfforts(efforts) && InStep(domain, efforts)
    ensures RecordedOrders(domain, answers, calls, body + efforts)
    ensures RecordedOrders(domain, answers, calls, body + efforts + [AwaitingOrder(uri)])
  {
    OrdersOfEfforts(body, efforts);
    InStepAppend(domain, body, efforts);
    OrdersStep(body + efforts, AwaitingOrder(uri));
    assert InStepAt(domain, [AwaitingOrder(uri)], 0);
    InStepAppend(domain, body + efforts, [AwaitingOrder(uri)]);
  }

  /** Every choice of a challenge type was made on a pending authorization of its round's order. */
  ghost predicate PicksFromOrders(answers: nat -> OrderRound, calls: nat, picks: seq<Pick>) {
    forall k :: 0 <= k < |picks| ==> picks[k].round < calls && FromRound(answers(picks[k].round), picks[k])
  }

  lemma PicksFromOrdersGrow(answers: nat -> OrderRound, calls: nat, picks: seq<Pick>, picks': seq<Pick>)
    requires PicksFromOrders(answers, calls, picks) && NewPicksFrom(answers(calls), calls, picks, picks')
    ensures PicksFromOrders(answers, calls + 1, picks')
  {
    forall k | 0 <= k < |picks'|
      ensures picks'[k].round < calls + 1 && FromRound(answers(picks'[k].round), picks'[k])
    {
      assert k < |picks| ==> picks'[k] == picks[k];
    }
  }

  /**
   Why another order is asked for after the n-th: the order was pending, and a challenge chosen
   for it did not work out, or all it asks for was done and it did not become ready.
   */
  ghost predicate AsksAgain(types: seq<string>, domain: string, r: OrderRound, n: nat, picks: seq<Pick>, body: seq<Event>) {
    && r.order.Some? && r.order.value.status == Pending
    && (|| (exists k :: 0 <= k < |picks| && picks[k].round == n && picks[k].to < |types| && !Worked(types, picks[k]))
        || (r.final.None? && OrderSatisfied(domain, r, r.order.value, body)))
  }

  lemma StillAsksAgain(types: seq<string>, domain: string, r: OrderRound, n: nat, picks: seq<Pick>, body: seq<Event>,
                       picks': seq<Pick>, body': seq<Event>)
    requires AsksAgain(types, domain, r, n, picks, body) && picks <= picks' && body <= body'
    ensures AsksAgain(types, domain, r, n, picks', body')
  {
    if k :| 0 <= k < |picks| && picks[k].round == n && picks[k].to < |types| && !Worked(types, picks[k]) {
      assert picks'[k] == picks[k];
    } else {
      OrderStaysSatisfied(domain, r, |r.order.value.authzURLs|, [], body, body'[|body|..]);
      assert [] + body + body'[|body|..] == body';
    }
  }

  /** Each of the first n orders was followed by another. */
  ghost predicate AllAsked(types: seq<string>, domain: string, answers: nat -> OrderRound, n: nat, picks: seq<Pick>,
                           body: seq<Event>) {
    forall m :: 0 <= m < n ==> AsksAgain(types, domain, answers(m), m, picks, body)
  }

  lemma StillAsked(types: seq<string>, domain: string, answers: nat -> OrderRound, n: nat, picks: seq<Pick>,
                   body: seq<Event>, picks': seq<Pick>, body': seq<Event>)
    requires AllAsked(types, domain, answers, n, picks, body) && picks <= picks' && body <= body'
    ensures AllAsked(types, domain, answers, n, picks', body')
  {
    forall m | 0 <= m < n
      ensures AsksAgain(types, domain, answers(m), m, picks', body')
    {
      StillAsksAgain(types, domain, answers(m), m, picks, body, picks', body');
    }
  }

  /** Why a run without result gave up in its last round. */
  ghost predicate GaveUpOnOrders(types: seq<string>, domain: string, r: OrderRound, n: nat, picks: seq<Pick>,
                                 body: seq<Event>) {
    match r.order
    case None => true
    case Some(o) => if o.status == Pending then Stuck(types, domain, r, n, o, picks, body) else o.status != Ready
  }

  predicate NothingPending(r: OrderRound, o: Order) {
    forall i :: 0 <= i < |o.authzURLs| ==> r.authz(i).Some? && r.authz(i).value.status != Pending
  }

  ghost predicate OnlyEfforts(es: seq<Event>) {
    forall i :: 0 <= i < |es| ==> IsEffort(es[i])
  }

  /**
   An order that verifyRFC returns in a round was ready at once, or became ready when it was
   waited for in the end, once all it asks for was done.
   */
  ghost predicate ResultFits(domain: string, r: OrderRound, result: Order, body: seq<Event>) {
    && r.order.Some? && |body| > 0
    && var last := body[|body| - 1];
    && (|| (r.order.value.status == Ready && r.order == Some(result) && last == Ordered(result))
        || (&& r.order.value.status == Pending && r.final == Some(result) && last == AwaitingOrder(r.order.value.uri)
            && OrderSatisfied(domain, r, r.order.value, body)))
  }

  /** What holds of the choices and requests of the first `calls` rounds. */
  ghost predicate OrdersTried(types: seq<string>, domain: string, answers: nat -> OrderRound, calls: nat, picks: seq<Pick>,
                              body: seq<Event>) {
    && PicksInOrder(types, picks) && PicksFromOrders(answers, calls, picks) && StopsAtFailure(types, picks)
    && RecordedOrders(domain, answers, calls, body) && Tried(types, domain, picks, body)
  }

  ghost predicate OrdersUnderway(types: seq<string>, domain: string, answers: nat -> OrderRound, calls: nat, nextTyp: nat,
                                 picks: seq<Pick>, body: seq<Event>) {
    && nextTyp <= |types| && calls <= nextTyp + IdleCount(answers, calls)
    && Chained(types, picks, nextTyp) && OrdersTried(types, domain, answers, calls, picks, body)
    && AllAsked(types, domain, answers, calls, picks, body)
  }

  /** The run is over after `calls` rounds: after each of the others it asked again, and the last one decided. */
  ghost predicate OrdersOver(types: seq<string>, domain: string, answers: nat -> OrderRound, calls: nat, result: Option<Order>,
                             picks: seq<Pick>, body: seq<Event>) {
    && 0 < calls <= |types| + 1 + IdleCount(answers, calls - 1)
    && OrdersTried(types, domain, answers, calls, picks, body)
    && AllAsked(types, domain, answers, calls - 1, picks, body)
    && if result.Some? then ResultFits(domain, answers(calls - 1), result.value, body)
       else GaveUpOnOrders(types, domain, answers(calls - 1), calls - 1, picks, body)
  }

  lemma OrderDecides(types: seq<string>, domain: string, answers: nat -> OrderRound, n: nat, nextTyp: nat, picks: seq<Pick>,
                     body: seq<Event>, result: Option<Order>, picks': seq<Pick>, body': seq<Event>)
    requires nextTyp <= |types| && n <= nextTyp + IdleCount(answers, n)
    requires AllAsked(types, domain, answers, n, picks, body) && picks <= picks' && body <= body'
    requires OrdersTried(types, domain, answers, n + 1, picks', body')
    requires if result.Some? then ResultFits(domain, answers(n), result.value, body')
             else GaveUpOnOrders(types, domain, answers(n), n, picks', body')
    ensures OrdersOver(types, domain, answers, n + 1, result, picks', body')
  {
    StillAsked(types, domain, answers, n, picks, body, picks', body');
  }

  lemma AskedMore(types: seq<string>, domain: string, answers: nat -> OrderRound, n: nat, picks: seq<Pick>, body: seq<Event>)
    requires AllAsked(types, domain, answers, n, picks, body) && AsksAgain(types, domain, answers(n), n, picks, body)
    ensures AllAsked(types, domain, answers, n + 1, picks, body)
  {
  }

  lemma IdleBound(answers: nat -> OrderRound, n: nat, nextTyp: nat, nextTyp': nat)
    requires n <= nextTyp + IdleCount(answers, n) && nextTyp <= nextTyp' && (nextTyp == nextTyp' ==> Idle(answers(n)))
    ensures n + 1 <= nextTyp' + IdleCount(answers, n + 1)
  {
  }

  lemma OrderGoesOn(types: seq<string>, domain: string, answers: nat -> OrderRound, n: nat, nextTyp: nat, picks: seq<Pick>,
                    body: seq<Event>, nextTyp': nat, picks': seq<Pick>, body': seq<Event>)
    requires n <= nextTyp + IdleCount(answers, n)
    requires AllAsked(types, domain, answers, n, picks, body) && picks <= picks' && body <= body'
    requires nextTyp <= nextTyp' <= |types| && Chained(types, picks', nextTyp')
    requires OrdersTried(types, domain, answers, n + 1, picks', body')
    requires AsksAgain(types, domain, answers(n), n, picks', body') && (nextTyp == nextTyp' ==> Idle(answers(n)))
    ensures OrdersUnderway(types, domain, answers, n + 1, nextTyp', picks', body')
  {
    StillAsked(types, domain, answers, n, picks, body, picks', body');
    AskedMore(types, domain, answers, n, picks', body');
    IdleBound(answers, n, nextTyp, nextTyp');
  }

  lemma OrderTried(types: seq<string>, domain: string, answers: nat -> OrderRound, n: nat, picks: seq<Pick>,
                   body: seq<Event>, o: Order)
    requires OrdersTried(types, domain, answers, n, picks, body) && answers(n).order == Some(o)
    ensures OrdersTried(types, domain, answers, n + 1, picks, body + [Ordered(o)])
  {
    OrderRecorded(domain, answers, n, body, o);
    EffortsStep(body, Ordered(o));
    PicksFromOrdersGrow(answers, n, picks, picks);
  }

  lemma PartTried(types: seq<string>, domain: string, answers: nat -> OrderRound, n: nat, picks: seq<Pick>,
                  before: seq<Event>, body: seq<Event>, picks': seq<Pick>, efforts: seq<Event>, uri: string)
    requires OrdersTried(types, domain, answers, n, picks, before)
    requires OrdersTried(types, domain, answers, n + 1, picks, body)
    requires PicksInOrder(types, picks') && Part(types, domain, answers(n), n, picks, picks', efforts)
    ensures OrdersTried(types, domain, answers, n + 1, picks', body + efforts)
    ensures OrdersTried(types, domain, answers, n + 1, picks', body + efforts + [AwaitingOrder(uri)])
  {
    OrderEffortsRecorded(domain, answers, n + 1, body, efforts, uri);
    EffortsAppend(body, efforts);
    EffortsStep(body + efforts, AwaitingOrder(uri));
    PicksFromOrdersGrow(answers, n, picks, picks');
  }

  lemma OrderRetried(types: seq<string>, domain: string, answers: nat -> OrderRound, n: nat, nextTyp: nat, picks: seq<Pick>,
                     body: seq<Event>, nextTyp': nat, picks': seq<Pick>, body': seq<Event>)
    requires n <= nextTyp + IdleCount(answers, n)
    requires AllAsked(types, domain, answers, n, picks, body) && picks <= picks' && body <= body'
    requires answers(n).order.Some? && answers(n).order.value.status == Pending && LastFailed(types, n, picks')
    requires nextTyp < nextTyp' <= |types| && Chained(types, picks', nextTyp')
    requires OrdersTried(types, domain, answers, n + 1, picks', body')
    ensures OrdersUnderway(types, domain, answers, n + 1, nextTyp', picks', body')
  {
    assert AsksAgain(types, domain, answers(n), n, picks', body');
    OrderGoesOn(types, domain, answers, n, nextTyp, picks, body, nextTyp', picks', body');
  }

  lemma OrderSettled(types: seq<string>, domain: string, answers: nat -> OrderRound, n: nat, nextTyp: nat, picks: seq<Pick>,
                     body: seq<Event>, o: Order, nextTyp': nat, picks': seq<Pick>, body': seq<Event>)
    requires n <= nextTyp + IdleCount(answers, n)
    requires AllAsked(types, domain, answers, n, picks, body) && picks <= picks' && body <= body'
    requires answers(n).order == Some(o) && o.status == Pending && OrderSatisfied(domain, answers(n), o, body')
    requires nextTyp <= nextTyp' <= |types| && Chained(types, picks', nextTyp')
    requires nextTyp == nextTyp' ==> NothingPending(answers(n), o)
    requires OrdersTried(types, domain, answers, n + 1, picks', body')
    requires |body'| > 0 && body'[|body'| - 1] == AwaitingOrder(o.uri)
    ensures answers(n).final.None? ==> OrdersUnderway(types, domain, answers, n + 1, nextTyp', picks', body')
    ensures answers(n).final.Some? ==> OrdersOver(types, domain, answers, n + 1, answers(n).final, picks', body')
  {
    if answers(n).final.None? {
      OrderGoesOn(types, domain, answers, n, nextTyp, picks, body, nextTyp', picks', body');
    } else {
      OrderDecides(types, domain, answers, n, nextTyp, picks, body, answers(n).final, picks', body');
    }
  }

  lemma OrderStuck(types: seq<string>, domain: string, answers: nat -> OrderRound, n: nat, nextTyp: nat, picks: seq<Pick>,
                   body: seq<Event>, o: Order, picks': seq<Pick>, before: seq<Event>, efforts: seq<Event>)
    requires nextTyp <= |types| && n <= nextTyp + IdleCount(answers, n)
    requires AllAsked(types, domain, answers, n, picks, body) && picks <= picks' && body <= before + efforts
    requires answers(n).order == Some(o) && o.status == Pending
    requires Stuck(types, domain, answers(n), n, o, picks', efforts)
    requires OrdersTried(types, domain, answers, n + 1, picks', before + efforts)
    ensures OrdersOver(types, domain, answers, n + 1, None, picks', before + efforts)
  {
    StaysStuck(types, domain, answers(n), n, o, picks', before, efforts);
    OrderDecides(types, domain, answers, n, nextTyp, picks, body, None, picks', before + efforts);
  }

  lemma RoundExtends(domain: string, r: OrderRound, body: seq<Event>, o: Order, started: seq<Event>, efforts: seq<Event>)
    requires body <= started
    ensures body <= started + efforts <= started + efforts + [AwaitingOrder(o.uri)]
    ensures OrderSatisfied(domain, r, o, efforts) ==>
              OrderSatisfied(domain, r, o, started + efforts + [AwaitingOrder(o.uri)])
  {
    if OrderSatisfied(domain, r, o, efforts) {
      OrderStaysSatisfied(domain, r, |o.authzURLs|, started, efforts, [AwaitingOrder(o.uri)]);
    }
  }

  lemma DeferredOfRound(started: seq<Event>, efforts: seq<Event>, uri: string)
    ensures DeferredBy(started + efforts) == DeferredBy(started) + DeferredBy(efforts)
    ensures DeferredBy(started + efforts + [AwaitingOrder(uri)]) == DeferredBy(started) + DeferredBy(efforts)
  {
    DeferredAppend(started, efforts);
    BodyStep(started + efforts, AwaitingOrder(uri));
  }

  lemma PendingDecided(types: seq<string>, domain: string, answers: nat -> OrderRound, n: nat, o: Order, nextTyp: nat,
                       picks: seq<Pick>, body: seq<Event>, started: seq<Event>, end: RoundEnd, nextTyp': nat, picks': seq<Pick>,
                       efforts: seq<Event>)
    requires nextTyp <= |types| && n <= nextTyp + IdleCount(answers, n)
    requires AllAsked(types, domain, answers, n, picks, body) && picks <= picks' && body <= started
    requires answers(n).order == Some(o) && o.status == Pending
    requires OrdersTried(types, domain, answers, n + 1, picks', started + efforts)
    requires OrdersTried(types, domain, answers, n + 1, picks', started + efforts + [AwaitingOrder(o.uri)])
    requires !end.Fail? ==> nextTyp <= nextTyp' <= |types| && Chained(types, picks', nextTyp')
    requires end.Retry? ==> nextTyp < nextTyp' && LastFailed(types, n, picks')
    requires end.Proceed? ==> OrderSatisfied(domain, answers(n), o, efforts)
    requires end.Proceed? && nextTyp' == nextTyp ==> NothingPending(answers(n), o)
    requires end.Fail? ==> Stuck(types, domain, answers(n), n, o, picks', efforts)
    ensures end.Retry? ==> OrdersUnderway(types, domain, answers, n + 1, nextTyp', picks', started + efforts)
    ensures end.Fail? ==> OrdersOver(types, domain, answers, n + 1, None, picks', started + efforts)
    ensures var body' := started + efforts + [AwaitingOrder(o.uri)];
            end.Proceed? ==>
              if answers(n).final.None? then OrdersUnderway(types, domain, answers, n + 1, nextTyp', picks', body')
              else OrdersOver(types, domain, answers, n + 1, answers(n).final, picks', body')
  {
    RoundExtends(domain, answers(n), body, o, started, efforts);
    match end {
      case Retry => OrderRetried(types, domain, answers, n, nextTyp, picks, body, nextTyp', picks', started + efforts);
      case Fail => OrderStuck(types, domain, answers, n, nextTyp, picks, body, o, picks', started, efforts);
      case Proceed =>
        OrderSettled(types, domain, answers, n, nextTyp, picks, body, o, nextTyp', picks',
                     started + efforts + [AwaitingOrder(o.uri)]);
    }
  }

  /** The rest of a round whose order is pending: its authorizations and, once they are satisfied, the order itself. */
  method PendingOrder(types: seq<string>, domain: string, answers: nat -> OrderRound, n: nat, o: Order, nextTyp: nat,
                      picks: seq<Pick>, body: seq<Event>, started: seq<Event>, deferred: seq<Deferred>)
    returns (again: bool, result: Option<Order>, nextTyp': nat, picks': seq<Pick>, body': seq<Event>,
             deferred': seq<Deferred>)
    requires OrdersUnderway(types, domain, answers, n, nextTyp, picks, body)
    requires answers(n).order == Some(o) && o.status == Pending && body <= started
    requires OrdersTried(types, domain, answers, n + 1, picks, started) && deferred == DeferredBy(started)
    ensures again ==> result.None? && OrdersUnderway(types, domain, answers, n + 1, nextTyp', picks', body')
    ensures !again ==> OrdersOver(types, domain, answers, n + 1, result, picks', body')
    ensures deferred' == DeferredBy(body')
  {
    var r := answers(n);
    var end, efforts;
    end, nextTyp', picks', efforts, deferred' := SatisfyOrder(types, domain, r, n, o, nextTyp, picks, deferred);
    DeferredOfRound(started, efforts, o.uri);
    PartTried(types, domain, answers, n, picks, body, started, picks', efforts, o.uri);
    PendingDecided(types, domain, answers, n, o, nextTyp, picks, body, started, end, nextTyp', picks', efforts);
    again, result, body' := end.Retry?, None, started + efforts;
    if end.Proceed? {
      body' := body' + [AwaitingOrder(o.uri)];
      again, result := r.final.None?, r.final;
    }
  }

  /** One round of verifyRFC in which AuthorizeOrder succeeded: either it decides or another order is asked for. */
  method OneOrder(types: seq<string>, domain: string, answers: nat -> OrderRound, n: nat, nextTyp: nat,
                  picks: seq<Pick>, body: seq<Event>, deferred: seq<Deferred>)
    returns (again: bool, result: Option<Order>, nextTyp': nat, picks': seq<Pick>, body': seq<Event>,
             deferred': seq<Deferred>)
    requires OrdersUnderway(types, domain, answers, n, nextTyp, picks, body) && answers(n).order.Some?
    requires deferred == DeferredBy(body)
    ensures again ==> result.None? && OrdersUnderway(types, domain, answers, n + 1, nextTyp', picks', body')
    ensures !again ==> OrdersOver(types, domain, answers, n + 1, result, picks', body')
    ensures deferred' == DeferredBy(body')
  {
    var o := answers(n).order.value;
    OrderRecorded(domain, answers, n, body, o);
    OrderTried(types, domain, answers, n, picks, body, o);
    body', deferred' := body + [Ordered(o)], deferred + [DeactivateList(o.authzURLs)];
    if o.status == Pending {
      again, result, nextTyp', picks', body', deferred' :=
        PendingOrder(types, domain, answers, n, o, nextTyp, picks, body, body', deferred');
    } else {
      again, result, nextTyp', picks' := false, if o.status == Ready then Some(o) else None, nextTyp, picks;
      OrderDecides(types, domain, answers, n, nextTyp, picks, body, result, picks', body');
    }
  }

  lemma OrdersBegin(types: seq<string>, domain: string, answers: nat -> OrderRound)
    ensures OrdersUnderway(types, domain, answers, 0, 0, [], [])
  {
  }

  lemma OrdersEndUnanswered(types: seq<string>, domain: string, answers: nat -> OrderRound, calls: nat, nextTyp: nat,
                            picks: seq<Pick>, body: seq<Event>)
    requires OrdersUnderway(types, domain, answers, calls, nextTyp, picks, body) && answers(calls).order.None?
    ensures OrdersOver(types, domain, answers, calls + 1, None, picks, body)
  {
    PicksFromOrdersGrow(answers, calls, picks, picks);
    assert OrdersTried(types, domain, answers, calls + 1, picks, body);
  }

  lemma VerifyRFCEnds(types: seq<string>, domain: string, answers: nat -> OrderRound, calls: nat, result: Option<Order>,
                      picks: seq<Pick>, body: seq<Event>, epilogue: seq<Event>)
    requires OrdersOver(types, domain, answers, calls, result, picks, body) && epilogue == Unwind(DeferredBy(body), [])
    ensures forall i :: 0 <= i < |body| && body[i].Accepting? ==>
              i > 0 && body[i - 1].Provisioned? && Placed(body[i].challenge, domain, body[i - 1].token)
    ensures CleansUp(body, epilogue) && Balanced(body + epilogue)
    ensures Deactivated(epilogue) == Reverse(URLLists(ObtainedOrders(answers, calls)))
  {
    AcceptedInPlace(domain, body);
    UnwindCleansUp([], body, []);
    assert [] + DeferredBy(body) == DeferredBy(body);
  }

  /**
   verifyRFC. The context's deadline makes AuthorizeOrder fail from round `deadline` on, which
   is what bounds a CA that keeps handing out orders with nothing to do that never become ready.
   On every exit path the authorization list of each order obtained is handed to deactivation once
   and each provisioned response is removed once.
   */
  method VerifyRFC(types: seq<string>, domain: string, answers: nat -> OrderRound, deadline: nat)
    returns (result: Option<Order>, calls: nat, picks: seq<Pick>, body: seq<Event>, epilogue: seq<Event>)
    requires forall n :: deadline <= n ==> answers(n).order.None?
    ensures OrdersOver(types, domain, answers, calls, result, picks, body)
    ensures forall i :: 0 <= i < |body| && body[i].Accepting? ==>
              i > 0 && body[i - 1].Provisioned? && Placed(body[i].challenge, domain, body[i - 1].token)
    ensures CleansUp(body, epilogue) && Balanced(body + epilogue)
    ensures Deactivated(epilogue) == Reverse(URLLists(ObtainedOrders(answers, calls)))
  {
    result, calls, picks, body := None, 0, [], [];
    var deferred: seq<Deferred> := [];
    var nextTyp: nat := 0;
    var again := true;
    OrdersBegin(types, domain, answers);
    while again
      invariant again ==> calls <= deadline && result.None? && OrdersUnderway(types, domain, answers, calls, nextTyp, picks, body)
      invariant !again ==> OrdersOver(types, domain, answers, calls, result, picks, body)
      invariant deferred == DeferredBy(body)
      decreases again, deadline - calls
    {
      if answers(calls).order.None? {
        OrdersEndUnanswered(types, domain, answers, calls, nextTyp, picks, body);
        calls, again := calls + 1, false;
      } else {
        again, result, nextTyp, picks, body, deferred :=
          OneOrder(types, domain, answers, calls, nextTyp, picks, body, deferred);
        calls := calls + 1;
      }
    }
    epilogue := Unwind(deferred, []);
    VerifyRFCEnds(types, domain, answers, calls, result, picks, body, epilogue);
  }

  // ---- what a run leaves behind ----

  /** Every provisioned response is removed later in the sequence. */
  ghost predicate Balanced(es: seq<Event>) {
    forall i :: 0 <= i < |es| && es[i].Provisioned? ==> Cleanup(es[i].token) in es[i + 1..]
  }

  function Reverse<T>(s: seq<T>): seq<T> {
    if s == [] then [] else [s[|s| - 1]] + Reverse(s[..|s| - 1])
  }

  /** The responses provisioned, in order. */
  function Provided(body: seq<Event>): seq<Token> {
    if body == [] then []
    else Provided(body[..|body| - 1]) + if body[|body| - 1].Provisioned? then [body[|body| - 1].token] else []
  }

  /** The responses removed, in order. */
  function CleanedUp(es: seq<Event>): seq<Token> {
    if es == [] then [] else (if es[0].Cleanup? then [es[0].token] else []) + CleanedUp(es[1..])
  }

  /** The lists handed to deactivation, in order. */
  function Deactivated(es: seq<Event>): seq<seq<string>> {
    if es == [] then [] else (if es[0].Deactivate? then [es[0].uris] else []) + Deactivated(es[1..])
  }

  /** Each provisioned response is removed exactly once, the last one first, and none is provisioned any more. */
  ghost predicate CleansUp(body: seq<Event>, epilogue: seq<Event>) {
    && CleanedUp(epilogue) == Reverse(Provided(body))
    && forall i :: 0 <= i < |epilogue| ==> epilogue[i].Cleanup? || epilogue[i].Deactivate?
  }

  function URLLists(orders: seq<Order>): seq<seq<string>> {
    if orders == [] then [] else URLLists(orders[..|orders| - 1]) + [orders[|orders| - 1].authzURLs]
  }

  function TokensOf(deferred: seq<Deferred>): seq<Token> {
    if deferred == [] then []
    else
      var last := deferred[|deferred| - 1];
      TokensOf(deferred[..|deferred| - 1]) + if last.RemoveToken? then [last.token] else []
  }

  function ListsOf(deferred: seq<Deferred>, authzURLs: seq<string>): seq<seq<string>> {
    if deferred == [] then []
    else
      var before := ListsOf(deferred[..|deferred| - 1], authzURLs);
      match deferred[|deferred| - 1]
      case RemoveToken(_) => before
      case DeactivateObtained => before + [authzURLs]
      case DeactivateList(uris) => before + [uris]
  }

  lemma {:induction false} UnwindReverses(deferred: seq<Deferred>, authzURLs: seq<string>)
    ensures var es := Unwind(deferred, authzURLs);
            && CleanedUp(es) == Reverse(TokensOf(deferred))
            && Deactivated(es) == Reverse(ListsOf(deferred, authzURLs))
            && forall i :: 0 <= i < |es| ==> es[i].Cleanup? || es[i].Deactivate?
  {
    if deferred != [] {
      var init := deferred[..|deferred| - 1];
      var last := deferred[|deferred| - 1];
      UnwindReverses(init, authzURLs);
      assert Unwind(deferred, authzURLs)[1..] == Unwind(init, authzURLs);
      ReverseStep(TokensOf(init), if last.RemoveToken? then [last.token] else []);
      ReverseStep(ListsOf(init, authzURLs), if last.RemoveToken? then [] else [Call(last, authzURLs).uris]);
    }
  }

  lemma ReverseStep<T>(s: seq<T>, t: seq<T>)
    requires |t| <= 1
    ensures Reverse(s + t) == t + Reverse(s)
  {
    if t == [] {
      assert s + t == s;
    } else {
      assert (s + t)[..|s + t| - 1] == s;
    }
  }

  lemma TokensStep(deferred: seq<Deferred>, d: Deferred)
    ensures TokensOf(deferred + [d]) == TokensOf(deferred) + if d.RemoveToken? then [d.token] else []
  {
    assert (deferred + [d])[..|deferred|] == deferred;
  }

  lemma ListsStep(deferred: seq<Deferred>, d: Deferred, authzURLs: seq<string>)
    ensures ListsOf(deferred + [d], authzURLs) ==
            ListsOf(deferred, authzURLs) + if d.RemoveToken? then [] else [Call(d, authzURLs).uris]
  {
    assert (deferred + [d])[..|deferred|] == deferred;
  }

  lemma {:induction false} DeferredTokens(first: seq<Deferred>, body: seq<Event>)
    ensures TokensOf(first + DeferredBy(body)) == TokensOf(first) + Provided(body)
  {
    if body == [] {
      assert first + DeferredBy(body) == first;
    } else {
      var init := body[..|body| - 1];
      var last := body[|body| - 1];
      DeferredTokens(first, init);
      Regroup(first, DeferredBy(init), DeferOf(last));
      TokensMore(first + DeferredBy(init), last);
    }
  }

  lemma TokensMore(before: seq<Deferred>, e: Event)
    ensures TokensOf(before + DeferOf(e)) == TokensOf(before) + if e.Provisioned? then [e.token] else []
  {
    if e.Provisioned? {
      TokensStep(before, RemoveToken(e.token));
    } else if e.Ordered? {
      TokensStep(before, DeactivateList(e.order.authzURLs));
    } else {
      assert before + DeferOf(e) == before;
    }
  }

  lemma {:induction false} DeferredLists(first: seq<Deferred>, body: seq<Event>, authzURLs: seq<string>)
    ensures ListsOf(first + DeferredBy(body), authzURLs) == ListsOf(first, authzURLs) + URLLists(Orders(body))
  {
    if body == [] {
      assert first + DeferredBy(body) == first;
    } else {
      var init := body[..|body| - 1];
      var last := body[|body| - 1];
      DeferredLists(first, init, authzURLs);
      Regroup(first, DeferredBy(init), DeferOf(last));
      ListsMore(first + DeferredBy(init), last, authzURLs);
      if last.Ordered? {
        assert Orders(body)[..|Orders(body)| - 1] == Orders(init);
        Regroup(ListsOf(first, authzURLs), URLLists(Orders(init)), [last.order.authzURLs]);
      }
    }
  }

  lemma ListsMore(before: seq<Deferred>, e: Event, authzURLs: seq<string>)
    ensures ListsOf(before + DeferOf(e), authzURLs) ==
            ListsOf(before, authzURLs) + if e.Ordered? then [e.order.authzURLs] else []
  {
    if e.Provisioned? {
      ListsStep(before, RemoveToken(e.token), authzURLs);
    } else if e.Ordered? {
      ListsStep(before, DeactivateList(e.order.authzURLs), authzURLs);
    } else {
      assert before + DeferOf(e) == before;
    }
  }

  lemma {:induction false} ReverseHas<T>(s: seq<T>, x: T)
    ensures x in Reverse(s) <==> x in s
  {
    if s != [] {
      ReverseHas(s[..|s| - 1], x);
      assert s == s[..|s| - 1] + [s[|s| - 1]];
    }
  }

  lemma {:induction false} ProvidedHas(body: seq<Event>, i: nat)
    requires i < |body| && body[i].Provisioned?
    ensures body[i].token in Provided(body)
  {
    if i < |body| - 1 {
      ProvidedHas(body[..|body| - 1], i);
    }
  }

  lemma {:induction false} CleanedUpHas(es: seq<Event>, tok: Token)
    requires tok in CleanedUp(es)
    ensures Cleanup(tok) in es
  {
    if es[0] != Cleanup(tok) {
      CleanedUpHas(es[1..], tok);
    }
  }

  /** A run that removes what it provisioned is balanced. */
  lemma CleansUpBalances(body: seq<Event>, epilogue: seq<Event>)
    requires CleansUp(body, epilogue)
    ensures Balanced(body + epilogue)
  {
    var all := body + epilogue;
    forall i | 0 <= i < |all| && all[i].Provisioned?
      ensures Cleanup(all[i].token) in all[i + 1..]
    {
      ProvidedHas(body, i);
      ReverseHas(Provided(body), body[i].token);
      CleanedUpHas(epilogue, body[i].token);
      var j :| 0 <= j < |epilogue| && epilogue[j] == Cleanup(all[i].token);
      assert all[i + 1..][|body| + j - (i + 1)] == epilogue[j];
    }
  }

  /** What the deferred calls do, when they are what the events of the run ask for. */
  lemma UnwindCleansUp(first: seq<Deferred>, body: seq<Event>, authzURLs: seq<string>)
    requires first == [] || (first == [DeactivateObtained] && Orders(body) == [])
    ensures var epilogue := Unwind(first + DeferredBy(body), authzURLs);
            && CleansUp(body, epilogue) && Balanced(body + epilogue)
            && Deactivated(epilogue) == if first == [] then Reverse(URLLists(Orders(body))) else [authzURLs]
  {
    var epilogue := Unwind(first + DeferredBy(body), authzURLs);
    UnwindReverses(first + DeferredBy(body), authzURLs);
    DeferredTokens(first, body);
    DeferredLists(first, body, authzURLs);
    if first == [] {
      assert [] + Provided(body) == Provided(body);
      assert [] + URLLists(Orders(body)) == URLLists(Orders(body));
    } else {
      assert first[..0] == [];
      assert TokensOf(first) == [] && [] + Provided(body) == Provided(body);
      assert ListsOf(first, authzURLs) == [authzURLs] && [authzURLs] + [] == [authzURLs];
      assert [authzURLs][..0] == [];
    }
    CleansUpBalances(body, epilogue);
  }
}
