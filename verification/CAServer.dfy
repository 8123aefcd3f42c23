/** The ACME server's orders and authorizations (src/autocert/internal/acmetest/ca.go). */
module CAServer {
  import opened Wrappers

  datatype AuthzStatus = Pending | Valid | Invalid

  datatype OrderStatus = OrderPending | OrderReady | OrderValid | OrderInvalid

  datatype Leaf = Leaf(serial: nat, dnsNames: seq<string>)

  /** An order; its finalize and certificate URLs are represented by the order number they end in. */
  datatype Order = Order(
    status: OrderStatus,
    authzURLs: seq<string>,
    finalize: Option<nat>,
    certURL: Option<nat>,
    leaf: Option<Leaf>)

  datatype Csr = Csr(commonName: string, dnsNames: seq<string>)

  datatype State = State(authorizations: map<string, AuthzStatus>, orders: seq<Order>, certCount: nat)

  // ---- URLs ----

  function AuthzURL(base: string, domain: string): string {
    base + "/authz/" + domain
  }

  function StripSlashes(s: string): string {
    if s != [] && s[|s| - 1] == '/' then StripSlashes(s[..|s| - 1]) else s
  }

  function AfterLastSlash(s: string): string {
    if s == [] || s[|s| - 1] == '/' then [] else AfterLastSlash(s[..|s| - 1]) + [s[|s| - 1]]
  }

  /** path.Base */
  function PathBase(s: string): string {
    if s == "" then "."
    else
      var t := StripSlashes(s);
      if t == "" then "/" else AfterLastSlash(t)
  }

  lemma {:induction false} LastSegment(prefix: string, d: string)
    requires '/' !in d && prefix != [] && prefix[|prefix| - 1] == '/'
    ensures AfterLastSlash(prefix + d) == d
  {
    if d == [] {
      assert prefix + d == prefix;
    } else {
      var init := d[..|d| - 1];
      assert (prefix + d)[..|prefix + d| - 1] == prefix + init;
      assert d == init + [d[|d| - 1]];
      LastSegment(prefix, init);
    }
  }

  /** A domain that can be a path segment. */
  predicate Segment(d: string) {
    d != "" && '/' !in d
  }

  lemma {:induction false} AfterLastSlashHasNone(s: string)
    ensures '/' !in AfterLastSlash(s)
  {
    if s != [] && s[|s| - 1] != '/' {
      AfterLastSlashHasNone(s[..|s| - 1]);
    }
  }

  lemma {:induction false} StripSlashesEnds(s: string)
    ensures StripSlashes(s) <= s && (StripSlashes(s) == "" || StripSlashes(s)[|StripSlashes(s)| - 1] != '/')
    ensures forall i :: |StripSlashes(s)| <= i < |s| ==> s[i] == '/'
  {
    if s != [] && s[|s| - 1] == '/' {
      StripSlashesEnds(s[..|s| - 1]);
    }
  }

  /** Reading the domain back from an authorization URL works exactly for path segments. */
  lemma AuthzURLBase(base: string, d: string)
    ensures PathBase(AuthzURL(base, d)) == d <==> Segment(d)
  {
    var url := AuthzURL(base, d);
    var prefix := base + "/authz/";
    assert url == prefix + d;
    var t := StripSlashes(url);
    StripSlashesEnds(url);
    assert url[|base| + 1] == 'a';
    assert |t| > |base| + 1;
    AfterLastSlashHasNone(t);
    if Segment(d) {
      assert url[|url| - 1] == d[|d| - 1];
      LastSegment(prefix, d);
    } else if d == "" {
      assert url[|url| - 2] == 'z';
      assert t == base + "/authz" == (base + "/") + "authz";
      LastSegment(base + "/", "authz");
    }
  }

  // ---- authorizations and orders ----

  datatype Verdict = Missing | Refused | AllValid | Undecided

  /** One pass over an order's authorizations: the first one that is missing or invalid decides. */
  function Scan(auths: map<string, AuthzStatus>, urls: seq<string>): Verdict {
    if urls == [] then AllValid
    else
      var d := PathBase(urls[0]);
      if d !in auths then Missing
      else if auths[d] == Invalid then Refused
      else
        var rest := Scan(auths, urls[1..]);
        if rest == AllValid && auths[d] != Valid then Undecided else rest
  }

  ghost predicate EveryValid(auths: map<string, AuthzStatus>, urls: seq<string>) {
    forall i :: 0 <= i < |urls| ==> PathBase(urls[i]) in auths && auths[PathBase(urls[i])] == Valid
  }

  ghost predicate SomeInvalid(auths: map<string, AuthzStatus>, urls: seq<string>) {
    exists i :: 0 <= i < |urls| && PathBase(urls[i]) in auths && auths[PathBase(urls[i])] == Invalid
  }

  lemma {:induction false} ScanAllValid(auths: map<string, AuthzStatus>, urls: seq<string>)
    ensures Scan(auths, urls) == AllValid <==> EveryValid(auths, urls)
    ensures Scan(auths, urls) == Refused ==> SomeInvalid(auths, urls)
    ensures (forall i :: 0 <= i < |urls| ==> PathBase(urls[i]) in auths) ==>
              (Scan(auths, urls) == Refused <==> SomeInvalid(auths, urls))
  {
    if urls != [] {
      var rest := urls[1..];
      ScanAllValid(auths, rest);
      if i :| 0 <= i < |rest| && PathBase(rest[i]) in auths && auths[PathBase(rest[i])] == Invalid {
        assert urls[i + 1] == rest[i];
      }
      if EveryValid(auths, urls) {
        assert forall i :: 0 <= i < |rest| ==> rest[i] == urls[i + 1];
      }
      if i :| 0 <= i < |urls| && PathBase(urls[i]) in auths && auths[PathBase(urls[i])] == Invalid {
        assert i > 0 ==> rest[i - 1] == urls[i];
      }
      assert (forall i :: 0 <= i < |urls| ==> PathBase(urls[i]) in auths) ==>
          (forall i :: 0 <= i < |rest| ==> PathBase(urls[i + 1]) in auths && rest[i] == urls[i + 1]);
    }
  }

  function UpdateOrder(auths: map<string, AuthzStatus>, o: Order, i: nat): Order {
    if o.status != OrderPending then o
    else
      match Scan(auths, o.authzURLs)
      case Refused => o.(status := OrderInvalid)
      case AllValid => o.(status := OrderReady, finalize := Some(i))
      case _ => o
  }

  function UpdateOrders(auths: map<string, AuthzStatus>, orders: seq<Order>): seq<Order> {
    seq(|orders|, i requires 0 <= i < |orders| => UpdateOrder(auths, orders[i], i))
  }

  /** Existing authorizations are kept; the others start out pending. */
  function WithAuthz(auths: map<string, AuthzStatus>, ids: seq<string>): map<string, AuthzStatus> {
    if ids == [] then auths
    else
      var before := WithAuthz(auths, ids[..|ids| - 1]);
      var d := ids[|ids| - 1];
      if d in before then before else before[d := Pending]
  }

  function AuthzURLs(base: string, ids: seq<string>): seq<string> {
    seq(|ids|, i requires 0 <= i < |ids| => AuthzURL(base, ids[i]))
  }

  function EmptyOrder(urls: seq<string>): Order {
    Order(OrderPending, urls, None, None, None)
  }

  /** The names a certificate request asks for. */
  function RequestedNames(csr: Csr): seq<string> {
    csr.dnsNames + [csr.commonName]
  }

  /** The names of the certificate issued for a request. */
  function LeafNames(csr: Csr): seq<string> {
    if csr.dnsNames == [] then [csr.commonName] else csr.dnsNames
  }

  predicate NamesAllowed(whitelist: seq<string>, names: seq<string>) {
    whitelist == [] || forall i :: 0 <= i < |names| && names[i] != "" ==> names[i] in whitelist
  }

  predicate NamesAuthorized(auths: map<string, AuthzStatus>, names: seq<string>) {
    forall i :: 0 <= i < |names| && names[i] != "" ==> names[i] in auths && auths[names[i]] == Valid
  }

  datatype Request =
    | NewOrder(ids: seq<string>)
    | NewAuthz(id: string)
    | Validate(domain: string, ok: bool)
    | NewCert(order: Option<int>, csr: Option<Csr>, signed: bool)

  datatype Config = Config(base: string, whitelist: seq<string>)

  predicate Stored(st: State, id: Option<int>) {
    id.Some? && 0 <= id.value < |st.orders|
  }

  /** All that has to hold for a certificate to be issued, apart from the signing itself. */
  predicate MayIssue(c: Config, st: State, id: Option<int>, csr: Option<Csr>) {
    && Stored(st, id) && st.orders[id.value].status == OrderReady && csr.Some?
    && NamesAllowed(c.whitelist, RequestedNames(csr.value))
    && NamesAuthorized(st.authorizations, RequestedNames(csr.value))
  }

  function Issue(st: State, i: nat, csr: Csr): State
    requires i < |st.orders|
  {
    var serial := st.certCount + 1;
    var o := st.orders[i].(leaf := Some(Leaf(serial, LeafNames(csr))), certURL := Some(i), status := OrderValid);
    st.(certCount := serial, orders := st.orders[i := o])
  }

  function Handle(c: Config, st: State, r: Request): State {
    match r
    case NewOrder(ids) =>
      st.(authorizations := WithAuthz(st.authorizations, ids), orders := st.orders + [EmptyOrder(AuthzURLs(c.base, ids))])
    case NewAuthz(id) => st.(authorizations := WithAuthz(st.authorizations, [id]))
    case Validate(d, ok) =>
      if d !in st.authorizations then st
      else
        var auths := st.authorizations[d := if ok then Valid else Invalid];
        st.(authorizations := auths, orders := UpdateOrders(auths, st.orders))
    case NewCert(id, csr, signed) =>
      if !MayIssue(c, st, id, csr) then st
      else if !signed then st.(certCount := st.certCount + 1)
      else Issue(st, id.value, csr.value)
  }

  // ---- what the requests do ----

  /** A name the certificate request asks for. */
  predicate AsksFor(csr: Csr, d: string) {
    d != "" && (d in csr.dnsNames || d == csr.commonName)
  }

  /** Every name asked for is allowed and has a valid authorization. */
  ghost predicate Entitled(whitelist: seq<string>, auths: map<string, AuthzStatus>, csr: Csr) {
    forall d :: AsksFor(csr, d) ==> (whitelist == [] || d in whitelist) && d in auths && auths[d] == Valid
  }

  /**
   The names of a certificate issued for the request: all the alternative names of the request,
   or the common name if it lists none, and no name it did not ask for.
   */
  ghost predicate NamedAfter(names: seq<string>, csr: Csr) {
    && (forall d :: d in csr.dnsNames && d != "" ==> d in names)
    && (csr.dnsNames == [] ==> names == [csr.commonName])
    && (csr.dnsNames != [] ==> names == csr.dnsNames)
    && (forall d :: d in names && d != "" ==> AsksFor(csr, d))
  }

  lemma EntitledExactly(whitelist: seq<string>, auths: map<string, AuthzStatus>, csr: Csr)
    ensures Entitled(whitelist, auths, csr) <==>
            NamesAllowed(whitelist, RequestedNames(csr)) && NamesAuthorized(auths, RequestedNames(csr))
  {
    var names := RequestedNames(csr);
    assert forall i :: 0 <= i < |names| && names[i] != "" ==> AsksFor(csr, names[i]);
    forall d | AsksFor(csr, d)
      ensures exists i :: 0 <= i < |names| && names[i] == d
    {
      if d in csr.dnsNames {
        var k :| 0 <= k < |csr.dnsNames| && csr.dnsNames[k] == d;
        assert names[k] == d;
      } else {
        assert names[|names| - 1] == d;
      }
    }
  }

  /**
   A certificate request: the order gets its certificate exactly if it is stored and ready, the
   request can be read, every name it asks for is allowed and authorized, and signing works. A
   serial number is used up even if signing fails, and nothing else changes.
   */
  lemma IssuedExactly(c: Config, st: State, id: Option<int>, csr: Option<Csr>, signed: bool)
    ensures var st' := Handle(c, st, NewCert(id, csr, signed));
            var due := id.Some? && 0 <= id.value < |st.orders| && st.orders[id.value].status == OrderReady
                       && csr.Some? && Entitled(c.whitelist, st.authorizations, csr.value);
            && st'.authorizations == st.authorizations && |st'.orders| == |st.orders|
            && st'.certCount == st.certCount + (if due then 1 else 0)
            && (!(due && signed) ==> st'.orders == st.orders)
            && (due && signed ==>
                  var o' := st'.orders[id.value];
                  && o'.status == OrderValid && o'.leaf.Some? && o'.leaf.value.serial == st.certCount + 1
                  && NamedAfter(o'.leaf.value.dnsNames, csr.value) && o'.certURL == Some(id.value)
                  && st'.orders == st.orders[id.value := st.orders[id.value].(
                                     leaf := o'.leaf, certURL := o'.certURL, status := OrderValid)])
  {
    if csr.Some? {
      EntitledExactly(c.whitelist, st.authorizations, csr.value);
    }
  }

  /** An invalid authorization is listed, and none before it is missing. */
  ghost predicate InvalidFirst(auths: map<string, AuthzStatus>, urls: seq<string>) {
    exists k :: 0 <= k < |urls| && PathBase(urls[k]) in auths && auths[PathBase(urls[k])] == Invalid
                && forall j :: 0 <= j < k ==> PathBase(urls[j]) in auths
  }

  lemma {:induction false} ScanRefused(auths: map<string, AuthzStatus>, urls: seq<string>)
    ensures Scan(auths, urls) == Refused <==> InvalidFirst(auths, urls)
  {
    if urls != [] {
      var rest := urls[1..];
      ScanRefused(auths, rest);
      if InvalidFirst(auths, rest) && PathBase(urls[0]) in auths {
        var k :| 0 <= k < |rest| && PathBase(rest[k]) in auths && auths[PathBase(rest[k])] == Invalid
                 && forall j :: 0 <= j < k ==> PathBase(rest[j]) in auths;
        assert urls[k + 1] == rest[k] && forall j :: 0 < j < k + 1 ==> urls[j] == rest[j - 1];
      }
      if InvalidFirst(auths, urls) {
        var k :| 0 <= k < |urls| && PathBase(urls[k]) in auths && auths[PathBase(urls[k])] == Invalid
                 && forall j :: 0 <= j < k ==> PathBase(urls[j]) in auths;
        if k > 0 {
          assert rest[k - 1] == urls[k] && forall j :: 0 <= j < k - 1 ==> rest[j] == urls[j + 1];
        }
      }
    }
  }

  /**
   A validation sets the one authorization and settles the pending orders: an order becomes ready
   exactly if all it lists is now valid, and invalid exactly if one it lists is invalid and none
   before that is missing. An unknown authorization changes nothing.
   */
  lemma ValidationSettles(c: Config, st: State, d: string, ok: bool, i: nat)
    requires i < |st.orders|
    ensures var st' := Handle(c, st, Validate(d, ok));
            var o, auths := st.orders[i], st'.authorizations;
            && |st'.orders| == |st.orders| && st'.certCount == st.certCount
            && (d !in st.authorizations ==> st' == st)
            && (d in st.authorizations ==>
                  && auths == st.authorizations[d := if ok then Valid else Invalid]
                  && (o.status != OrderPending ==> st'.orders[i] == o)
                  && (o.status == OrderPending ==>
                        && (st'.orders[i].status == OrderReady <==> EveryValid(auths, o.authzURLs))
                        && (st'.orders[i].status == OrderInvalid <==> InvalidFirst(auths, o.authzURLs))
                        && (EveryValid(auths, o.authzURLs) ==>
                              st'.orders[i] == o.(status := OrderReady, finalize := Some(i)))
                        && (InvalidFirst(auths, o.authzURLs) ==> st'.orders[i] == o.(status := OrderInvalid))
                        && (!EveryValid(auths, o.authzURLs) && !InvalidFirst(auths, o.authzURLs) ==>
                              st'.orders[i] == o)))
  {
    if d in st.authorizations {
      var auths := st.authorizations[d := if ok then Valid else Invalid];
      ScanAllValid(auths, st.orders[i].authzURLs);
      ScanRefused(auths, st.orders[i].authzURLs);
    }
  }

  /**
   A new order is put after the others: it is pending and lists an authorization for each of its
   identifiers, in order. Identifiers not seen before get a pending authorization, nothing else
   changes.
   */
  lemma NewOrderOpens(c: Config, st: State, ids: seq<string>)
    ensures var st' := Handle(c, st, NewOrder(ids));
            var n := |st.orders|;
            && |st'.orders| == n + 1 && st'.orders[..n] == st.orders && st'.certCount == st.certCount
            && st'.orders[n].status == OrderPending && st'.orders[n].leaf.None?
            && st'.orders[n].finalize.None? && st'.orders[n].certURL.None? && |st'.orders[n].authzURLs| == |ids|
            && (forall k :: 0 <= k < |ids| ==> st'.orders[n].authzURLs[k] == c.base + "/authz/" + ids[k])
            && (forall d :: d in st'.authorizations <==> d in st.authorizations || d in ids)
            && (forall d :: d in st'.authorizations ==>
                  st'.authorizations[d] == if d in st.authorizations then st.authorizations[d] else Pending)
  {
    WithAuthzGrows(st.authorizations, ids);
  }

  // ---- the server ----

  /** Strings compared byte by byte. */
  predicate Less(a: string, b: string) {
    if b == [] then false
    else if a == [] then true
    else a[0] < b[0] || (a[0] == b[0] && Less(a[1..], b[1..]))
  }

  ghost predicate SortedStrings(a: seq<string>) {
    forall i, j :: 0 <= i < j < |a| ==> !Less(a[j], a[i])
  }

  lemma {:induction false} LessTrichotomy(a: string, b: string)
    ensures a != b ==> (Less(a, b) <==> !Less(b, a))
    ensures a == b ==> !Less(a, b)
  {
    if a != [] && b != [] {
      LessTrichotomy(a[1..], b[1..]);
      assert a == [a[0]] + a[1..] && b == [b[0]] + b[1..];
    }
  }

  lemma {:induction false} LessTransitive(a: string, b: string, c: string)
    requires Less(a, b) && !Less(c, b)
    ensures Less(a, c)
  {
    if a != [] && c != [] && a[0] == b[0] == c[0] {
      LessTransitive(a[1..], b[1..], c[1..]);
    }
  }

  /** sort.SearchStrings: the smallest index whose string is not less than x. */
  method SearchStrings(a: seq<string>, x: string) returns (i: nat)
    requires SortedStrings(a)
    ensures i <= |a|
    ensures i < |a| && a[i] == x <==> x in a
  {
    i := 0;
    var j := |a|;
    while i < j
      invariant 0 <= i <= j <= |a|
      invariant forall k :: 0 <= k < i ==> Less(a[k], x)
      invariant forall k :: j <= k < |a| ==> !Less(a[k], x)
    {
      var h := (i + j) / 2;
      if Less(a[h], x) {
        forall k | 0 <= k <= h
          ensures Less(a[k], x)
        {
          LessTrichotomy(x, a[k]);
          if x != a[k] && !Less(a[k], x) {
            LessTransitive(a[h], x, a[k]);
          }
        }
        i := h + 1;
      } else {
        forall k | h <= k < |a|
          ensures !Less(a[k], x)
        {
          if Less(a[k], x) {
            LessTransitive(a[k], x, a[h]);
          }
        }
        j := h;
      }
    }
    LessTrichotomy(x, x);
    if i < |a| {
      LessTrichotomy(a[i], x);
    }
  }

  method Unique(a: seq<string>) returns (res: seq<string>)
    ensures forall s :: s in res <==> s in a && s != ""
    ensures forall i, j :: 0 <= i < j < |res| ==> res[i] != res[j]
  {
    res := [];
    var seen: set<string> := {};
    for i := 0 to |a|
      invariant forall s :: s in seen <==> s in res
      invariant forall s :: s in res <==> s in a[..i] && s != ""
      invariant forall j, k :: 0 <= j < k < |res| ==> res[j] != res[k]
    {
      assert a[..i + 1] == a[..i] + [a[i]];
      if a[i] != "" && a[i] !in seen {
        seen := seen + {a[i]};
        res := res + [a[i]];
      }
    }
    assert a[..|a|] == a;
  }

  datatype Response = Created(urls: seq<string>) | Ok | BadRequest | Forbidden | Unauthorized | Issued(leaf: Leaf)

  class Server {
    const base: string
    const whitelist: seq<string>
    var authorizations: map<string, AuthzStatus>
    var orders: seq<Order>
    var certCount: nat

    ghost predicate Valid() {
      SortedStrings(whitelist)
    }

    ghost function View(): State
      reads this
    {
      State(authorizations, orders, certCount)
    }

    ghost function Conf(): Config {
      Config(base, whitelist)
    }

    constructor (base: string, whitelist: seq<string>)
      requires SortedStrings(whitelist)
      ensures Valid() && Conf() == Config(base, whitelist) && View() == State(map[], [], 0)
    {
      this.base, this.whitelist := base, whitelist;
      authorizations, orders, certCount := map[], [], 0;
    }

    /** authz: the existing authorization for the identifier, or a new pending one. */
    method Authz(id: string)
      modifies this`authorizations
      ensures View() == Handle(Conf(), old(View()), NewAuthz(id))
      ensures authorizations == if id in old(authorizations) then old(authorizations) else old(authorizations)[id := Pending]
    {
      assert [id][..0] == [];
      assert WithAuthz(old(authorizations), []) == old(authorizations);
      if id !in authorizations {
        authorizations := authorizations[id := Pending];
      }
    }

    method CreateOrder(ids: seq<string>) returns (r: Response)
      modifies this`authorizations, this`orders
      ensures View() == Handle(Conf(), old(View()), NewOrder(ids))
      ensures r.Created? && |r.urls| == |ids| && forall k :: 0 <= k < |ids| ==> r.urls[k] == base + "/authz/" + ids[k]
      ensures |orders| > 0 && orders[|orders| - 1].authzURLs == r.urls
    {
      var urls := [];
      for i := 0 to |ids|
        invariant authorizations == WithAuthz(old(authorizations), ids[..i])
        invariant urls == AuthzURLs(base, ids[..i])
        invariant orders == old(orders)
      {
        assert ids[..i + 1][..i] == ids[..i];
        Authz(ids[i]);
        ghost var before := WithAuthz(old(authorizations), ids[..i]);
        assert [ids[i]][..0] == [] && WithAuthz(before, []) == before;
        urls := urls + [AuthzURL(base, ids[i])];
      }
      assert ids[..|ids|] == ids;
      orders := orders + [Order(OrderPending, urls, None, None, None)];
      return Created(urls);
    }

    /** The part of validateChallenge under the lock, given whether the dial succeeded. */
    method ValidateChallenge(domain: string, ok: bool)
      requires domain in authorizations
      modifies this`authorizations, this`orders
      ensures View() == Handle(Conf(), old(View()), Validate(domain, ok))
    {
      authorizations := authorizations[domain := if ok then AuthzStatus.Valid else Invalid];
      for i := 0 to |orders|
        invariant |orders| == |old(orders)|
        invariant forall k :: 0 <= k < i ==> orders[k] == UpdateOrder(authorizations, old(orders)[k], k)
        invariant forall k :: i <= k < |orders| ==> orders[k] == old(orders)[k]
        invariant authorizations == old(authorizations)[domain := if ok then AuthzStatus.Valid else Invalid]
      {
        var o := orders[i];
        if o.status != OrderPending {
          continue;
        }
        var verdict := CountValid(o.authzURLs);
        if verdict == Refused {
          orders := orders[i := o.(status := OrderInvalid)];
        } else if verdict == AllValid {
          orders := orders[i := o.(status := OrderReady, finalize := Some(i))];
        }
      }
    }

    /** The inner loop of validateChallenge: it stops at the first missing or invalid authorization. */
    method CountValid(urls: seq<string>) returns (v: Verdict)
      ensures v == Scan(authorizations, urls)
    {
      var countValid := 0;
      for i := 0 to |urls|
        invariant 0 <= countValid <= i
        invariant countValid == i ==> Scan(authorizations, urls) == Scan(authorizations, urls[i..])
        invariant countValid < i ==>
                    var rest := Scan(authorizations, urls[i..]);
                    Scan(authorizations, urls) == if rest == AllValid then Undecided else rest
      {
        var d := PathBase(urls[i]);
        assert urls[i..][1..] == urls[i + 1..];
        if d !in authorizations {
          return Missing;
        }
        if authorizations[d] == Invalid {
          return Refused;
        }
        if authorizations[d] == AuthzStatus.Valid {
          countValid := countValid + 1;
        }
      }
      return if countValid == |urls| then AllValid else Undecided;
    }

    method MatchWhitelist(names: seq<string>) returns (ok: bool)
      requires Valid()
      ensures ok <==> whitelist == [] || forall i :: 0 <= i < |names| ==> names[i] in whitelist
    {
      if |whitelist| == 0 {
        return true;
      }
      var nomatch := [];
      for i := 0 to |names|
        invariant nomatch == [] <==> forall j :: 0 <= j < i ==> names[j] in whitelist
      {
        var at := SearchStrings(whitelist, names[i]);
        if at == |whitelist| || whitelist[at] != names[i] {
          nomatch := nomatch + [names[i]];
        }
      }
      return nomatch == [];
    }

    method Authorized(names: seq<string>) returns (ok: bool)
      ensures ok <==> forall i :: 0 <= i < |names| ==>
                        names[i] in authorizations && authorizations[names[i]] == AuthzStatus.Valid
    {
      var noauthz := [];
      for i := 0 to |names|
        invariant noauthz == [] <==>
                    forall j :: 0 <= j < i ==> names[j] in authorizations && authorizations[names[j]] == AuthzStatus.Valid
      {
        if names[i] !in authorizations || authorizations[names[i]] != AuthzStatus.Valid {
          noauthz := noauthz + [names[i]];
        }
      }
      return noauthz == [];
    }

    /** The /new-cert/ request; `signed` is whether x509.CreateCertificate succeeded. */
    method FinalizeOrder(id: Option<int>, csr: Option<Csr>, signed: bool) returns (r: Response)
      requires Valid()
      modifies this`orders, this`certCount
      ensures View() == Handle(Conf(), old(View()), NewCert(id, csr, signed))
      ensures var stored := id.Some? && 0 <= id.value < |old(orders)|;
              var ready := stored && old(orders)[id.value].status == OrderReady;
              && (r == Forbidden <==> stored && !ready)
              && (r == Unauthorized <==> ready && csr.Some? && !Entitled(whitelist, authorizations, csr.value))
              && (r.Issued? <==> ready && csr.Some? && Entitled(whitelist, authorizations, csr.value) && signed)
              && (r.Issued? || r == Forbidden || r == Unauthorized || r == BadRequest)
      ensures r.Issued? ==> r.leaf.serial == old(certCount) + 1 && NamedAfter(r.leaf.dnsNames, csr.value)
                            && orders[id.value].leaf == Some(r.leaf)
      ensures !r.Issued? ==> orders == old(orders)
    {
      if id.None? || id.value < 0 || id.value > |orders| - 1 {
        return BadRequest;
      }
      var o := orders[id.value];
      if o.status != OrderReady {
        return Forbidden;
      }
      if csr.None? {
        return BadRequest;
      }
      var all := csr.value.dnsNames + [csr.value.commonName];
      var names := Unique(all);
      UniqueCovers(names, all, whitelist, authorizations);
      EntitledExactly(whitelist, authorizations, csr.value);
      var match' := MatchWhitelist(names);
      if !match' {
        return Unauthorized;
      }
      var authorized := Authorized(names);
      if !authorized {
        return Unauthorized;
      }
      certCount := certCount + 1;
      if !signed {
        return BadRequest;
      }
      var leaf := Leaf(certCount, if |csr.value.dnsNames| == 0 then [csr.value.commonName] else csr.value.dnsNames);
      orders := orders[id.value := o.(leaf := Some(leaf), certURL := Some(id.value), status := OrderValid)];
      return Issued(leaf);
    }
  }

  lemma UniqueCovers(names: seq<string>, all: seq<string>, whitelist: seq<string>, auths: map<string, AuthzStatus>)
    requires forall s :: s in names <==> s in all && s != ""
    ensures NamesAllowed(whitelist, all) <==> whitelist == [] || forall i :: 0 <= i < |names| ==> names[i] in whitelist
    ensures NamesAuthorized(auths, all) <==> forall i :: 0 <= i < |names| ==> names[i] in auths && auths[names[i]] == Valid
  {
    assert forall i :: 0 <= i < |names| ==> names[i] in names;
    assert forall i :: 0 <= i < |all| && all[i] != "" ==> all[i] in names;
  }

  // ---- the life of an order ----

  /** The statuses an order may pass through (a subset of section 7.1.6 of RFC 8555). */
  predicate Follows(a: OrderStatus, b: OrderStatus) {
    a == b || a == OrderPending || (a == OrderReady && b == OrderValid)
  }

  predicate OrderWellFormed(o: Order, i: nat, certCount: nat) {
    && o.finalize == (if o.status == OrderReady || o.status == OrderValid then Some(i) else None)
    && o.certURL == (if o.status == OrderValid then Some(i) else None)
    && (o.leaf.Some? <==> o.status == OrderValid)
    && (o.leaf.Some? ==> 0 < o.leaf.value.serial <= certCount)
  }

  ghost predicate WellFormed(st: State) {
    && (forall i :: 0 <= i < |st.orders| ==> OrderWellFormed(st.orders[i], i, st.certCount))
    && (forall i, j :: 0 <= i < j < |st.orders| && st.orders[i].leaf.Some? && st.orders[j].leaf.Some? ==>
          st.orders[i].leaf.value.serial != st.orders[j].leaf.value.serial)
  }

  lemma HandleKeepsWellFormed(c: Config, st: State, r: Request)
    requires WellFormed(st)
    ensures WellFormed(Handle(c, st, r))
  {
    var st' := Handle(c, st, r);
    forall i | 0 <= i < |st'.orders|
      ensures OrderWellFormed(st'.orders[i], i, st'.certCount)
    {
      if i < |st.orders| {
        assert OrderWellFormed(st.orders[i], i, st.certCount);
      }
    }
  }

  /** One request: no order disappears, and each one moves forward or stays as it is. */
  ghost predicate Advances(st: State, st': State) {
    && |st.orders| <= |st'.orders|
    && st.certCount <= st'.certCount
    && st.authorizations.Keys <= st'.authorizations.Keys
    && forall i :: 0 <= i < |st.orders| ==> OrderAdvances(st.orders[i], st'.orders[i])
  }

  predicate OrderAdvances(o: Order, o': Order) {
    && Follows(o.status, o'.status)
    && o'.authzURLs == o.authzURLs
    && (o.leaf.Some? ==> o'.leaf == o.leaf)
  }

  lemma {:induction false} WithAuthzGrows(auths: map<string, AuthzStatus>, ids: seq<string>)
    ensures WithAuthz(auths, ids).Keys == auths.Keys + (set d | d in ids)
    ensures forall d :: d in auths ==> WithAuthz(auths, ids)[d] == auths[d]
    ensures forall d :: d in ids && d !in auths ==> WithAuthz(auths, ids)[d] == Pending
  {
    if ids != [] {
      var init := ids[..|ids| - 1];
      WithAuthzGrows(auths, init);
      assert ids == init + [ids[|ids| - 1]];
    }
  }

  /** What one request can do to a status. */
  predicate Moves(a: OrderStatus, b: OrderStatus) {
    || a == b
    || (a == OrderPending && (b == OrderReady || b == OrderInvalid))
    || (a == OrderReady && b == OrderValid)
  }

  /** One request moves every order along one edge at most, and a new order starts out pending. */
  lemma HandleAdvances(c: Config, st: State, r: Request)
    requires WellFormed(st)
    ensures Advances(st, Handle(c, st, r))
    ensures forall i :: 0 <= i < |st.orders| ==> Moves(st.orders[i].status, Handle(c, st, r).orders[i].status)
    ensures forall i :: |st.orders| <= i < |Handle(c, st, r).orders| ==> Handle(c, st, r).orders[i].status == OrderPending
  {
    var st' := Handle(c, st, r);
    match r {
      case NewOrder(ids) => WithAuthzGrows(st.authorizations, ids);
      case NewAuthz(d) => WithAuthzGrows(st.authorizations, [d]);
      case _ =>
    }
    forall i | 0 <= i < |st.orders|
      ensures OrderAdvances(st.orders[i], st'.orders[i]) && Moves(st.orders[i].status, st'.orders[i].status)
    {
      assert OrderWellFormed(st.orders[i], i, st.certCount);
    }
  }

  /** An order becomes ready only when all the authorizations it lists are valid at that moment. */
  lemma ReadyMeansAllValid(c: Config, st: State, r: Request, i: nat)
    requires i < |st.orders| && st.orders[i].status == OrderPending
    requires i < |Handle(c, st, r).orders| && Handle(c, st, r).orders[i].status != OrderPending
    ensures r.Validate? && r.domain in st.authorizations
    ensures var st' := Handle(c, st, r);
            if st'.orders[i].status == OrderReady then EveryValid(st'.authorizations, st.orders[i].authzURLs)
            else st'.orders[i].status == OrderInvalid && SomeInvalid(st'.authorizations, st.orders[i].authzURLs)
  {
    ScanAllValid(Handle(c, st, r).authorizations, st.orders[i].authzURLs);
  }

  /** A certificate is issued only for a ready order, and every nonempty name in it has a valid authorization. */
  lemma IssuedNamesAuthorized(c: Config, st: State, r: Request, i: nat, d: string)
    requires WellFormed(st) && i < |st.orders| && st.orders[i].leaf.None?
    requires i < |Handle(c, st, r).orders| && Handle(c, st, r).orders[i].leaf.Some?
    requires d in Handle(c, st, r).orders[i].leaf.value.dnsNames && d != ""
    ensures r.NewCert? && st.orders[i].status == OrderReady
    ensures d in st.authorizations && st.authorizations[d] == Valid
    ensures c.whitelist == [] || d in c.whitelist
  {
    assert OrderWellFormed(st.orders[i], i, st.certCount);
    var csr := r.csr.value;
    var k :| 0 <= k < |LeafNames(csr)| && LeafNames(csr)[k] == d;
    assert RequestedNames(csr)[if csr.dnsNames == [] then 0 else k] == d;
  }

  ghost predicate IsRun(c: Config, sts: seq<State>, rs: seq<Request>) {
    && |sts| == |rs| + 1 && sts[0] == State(map[], [], 0)
    && forall i :: 0 <= i < |rs| ==> sts[i + 1] == Handle(c, sts[i], rs[i])
  }

  lemma {:induction false} RunWellFormed(c: Config, sts: seq<State>, rs: seq<Request>, k: nat)
    requires IsRun(c, sts, rs) && k <= |rs|
    ensures WellFormed(sts[k])
  {
    if k > 0 {
      RunWellFormed(c, sts, rs, k - 1);
      HandleKeepsWellFormed(c, sts[k - 1], rs[k - 1]);
    }
  }

  /**
   Over any sequence of requests: orders persist, their statuses only move along
   pending-ready-valid or pending-invalid, and an issued certificate is never replaced.
   */
  lemma {:induction false} RunAdvances(c: Config, sts: seq<State>, rs: seq<Request>, i: nat, j: nat)
    requires IsRun(c, sts, rs) && i <= j <= |rs|
    ensures Advances(sts[i], sts[j])
  {
    if i < j {
      RunAdvances(c, sts, rs, i, j - 1);
      RunWellFormed(c, sts, rs, j - 1);
      HandleAdvances(c, sts[j - 1], rs[j - 1]);
      forall k | 0 <= k < |sts[i].orders|
        ensures OrderAdvances(sts[i].orders[k], sts[j].orders[k])
      {
        assert OrderAdvances(sts[i].orders[k], sts[j - 1].orders[k]);
        assert OrderAdvances(sts[j - 1].orders[k], sts[j].orders[k]);
      }
    }
  }

  /** Every order that has its certificate was ready, with all its authorizations valid, at an earlier step. */
  lemma {:induction false} ValidOrderWasAuthorized(c: Config, sts: seq<State>, rs: seq<Request>, k: nat, o: nat)
    requires IsRun(c, sts, rs) && k <= |rs| && o < |sts[k].orders|
    requires sts[k].orders[o].status == OrderReady || sts[k].orders[o].status == OrderValid
    ensures exists j :: 0 < j <= k && o < |sts[j].orders| && sts[j].orders[o].status == OrderReady
                        && EveryValid(sts[j].authorizations, sts[j].orders[o].authzURLs)
  {
    RunWellFormed(c, sts, rs, k - 1);
    HandleAdvances(c, sts[k - 1], rs[k - 1]);
    if o < |sts[k - 1].orders| {
      assert OrderAdvances(sts[k - 1].orders[o], sts[k].orders[o]);
      if sts[k - 1].orders[o].status == OrderPending {
        ReadyMeansAllValid(c, sts[k - 1], rs[k - 1], o);
      } else {
        ValidOrderWasAuthorized(c, sts, rs, k - 1, o);
      }
    }
  }
}
