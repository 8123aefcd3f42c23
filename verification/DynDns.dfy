/**
 The dynamic DNS service: the update API (src/api.go), the in-memory database (src/memdb.go)
 and the query side (src/dns.go).
 */
module DynDns {
  import opened Wrappers
  import opened Text

  /** An address up to the equality net.IP.Equal and String agree on. */
  datatype IP = V4(addr: nat) | V6(addr: nat)

  /** Parsing and printing of addresses, and whether dns.NewRR accepts a record. */
  datatype Net = Net(parse: string -> Option<IP>, show: IP -> string, acceptsRR: RR -> bool)

  /** Different addresses print differently, and only IPv4 addresses are printed with dots. */
  ghost predicate Lawful(net: Net) {
    && (forall a: IP, b: IP :: net.show(a) == net.show(b) ==> a == b)
    && (forall a: IP :: '.' in net.show(a) <==> a.V4?)
  }

  datatype QType = A | AAAA | TXT | OtherType

  datatype RR = RR(name: string, ttl: int, qtype: QType, data: string)

  datatype Tables = Tables(ips: map<string, seq<IP>>, txts: map<string, seq<string>>)

  // ---- the database ----

  class MemoryDatabase {
    var ipaddrs: map<string, seq<IP>>
    var txtvals: map<string, seq<string>>

    ghost function View(): Tables
      reads this
    {
      Tables(ipaddrs, txtvals)
    }

    constructor ()
      ensures View() == Tables(map[], map[])
    {
      ipaddrs, txtvals := map[], map[];
    }

    /** A missing entry reads as the empty list. */
    method GetIPAddresses(domain: string) returns (ips: seq<IP>)
      ensures ips == Addresses(View(), domain)
    {
      return if domain in ipaddrs then ipaddrs[domain] else [];
    }

    method GetTXTValues(domain: string) returns (vals: seq<string>)
      ensures vals == Values(View(), domain)
    {
      return if domain in txtvals then txtvals[domain] else [];
    }

    method PutIPAddresses(domain: string, addresses: seq<IP>)
      modifies this`ipaddrs
      ensures View() == Written(old(View()), PutIPs(domain, addresses))
    {
      ipaddrs := ipaddrs[domain := addresses];
    }

    method PutTXTValues(domain: string, values: seq<string>)
      modifies this`txtvals
      ensures View() == Written(old(View()), PutTexts(domain, values))
    {
      txtvals := txtvals[domain := values];
    }

    method DeleteTXTValues(domain: string)
      modifies this`txtvals
      ensures View() == Written(old(View()), DeleteTexts(domain))
    {
      txtvals := txtvals - {domain};
    }

    method DoesDomainExist(domain: string) returns (exist: bool)
      ensures exist == Exists(View(), domain)
    {
      var ips := GetIPAddresses(domain);
      var txts := GetTXTValues(domain);
      return |ips| > 0 || |txts| > 0;
    }
  }

  function Addresses(db: Tables, domain: string): seq<IP> {
    if domain in db.ips then db.ips[domain] else []
  }

  function Values(db: Tables, domain: string): seq<string> {
    if domain in db.txts then db.txts[domain] else []
  }

  predicate Exists(db: Tables, domain: string) {
    Addresses(db, domain) != [] || Values(db, domain) != []
  }

  /** The writes of the database, one lock region each. */
  datatype Write = PutIPs(domain: string, ips: seq<IP>) | PutTexts(domain: string, values: seq<string>) | DeleteTexts(domain: string)

  function Written(db: Tables, w: Write): Tables {
    match w
    case PutIPs(d, ips) => db.(ips := db.ips[d := ips])
    case PutTexts(d, values) => db.(txts := db.txts[d := values])
    case DeleteTexts(d) => db.(txts := db.txts - {d})
  }

  function AllWritten(db: Tables, ws: seq<Write>): Tables {
    if ws == [] then db else Written(AllWritten(db, ws[..|ws| - 1]), ws[|ws| - 1])
  }

  predicate WritesIPs(w: Write, domain: string) {
    w.PutIPs? && w.domain == domain
  }

  predicate WritesTexts(w: Write, domain: string) {
    !w.PutIPs? && w.domain == domain
  }

  /** After any writes, a read of the addresses gives the last ones put for the domain, whatever was written elsewhere. */
  lemma {:induction false} LastAddressesRead(db: Tables, ws: seq<Write>, domain: string, i: nat)
    requires i <= |ws| && forall j :: i <= j < |ws| ==> !WritesIPs(ws[j], domain)
    requires i == 0 || WritesIPs(ws[i - 1], domain)
    ensures Addresses(AllWritten(db, ws), domain) == if i == 0 then Addresses(db, domain) else ws[i - 1].ips
  {
    if i < |ws| {
      var before := ws[..|ws| - 1];
      LastAddressesRead(db, before, domain, i);
      assert !WritesIPs(ws[|ws| - 1], domain);
    }
  }

  /** And likewise for the texts, which a deletion empties. */
  lemma {:induction false} LastTextsRead(db: Tables, ws: seq<Write>, domain: string, i: nat)
    requires i <= |ws| && forall j :: i <= j < |ws| ==> !WritesTexts(ws[j], domain)
    requires i == 0 || WritesTexts(ws[i - 1], domain)
    ensures Values(AllWritten(db, ws), domain) ==
            if i == 0 then Values(db, domain) else if ws[i - 1].PutTexts? then ws[i - 1].values else []
  {
    if i < |ws| {
      var before := ws[..|ws| - 1];
      LastTextsRead(db, before, domain, i);
      assert !WritesTexts(ws[|ws| - 1], domain);
    }
  }

  // ---- updates ----

  function FlattenParams(params: seq<string>): seq<string> {
    if params == [] then [] else FlattenParams(params[..|params| - 1]) + Split(params[|params| - 1], ',')
  }

  /** The values are those of all the parameters written one after the other with commas, and have none themselves. */
  lemma {:induction false} FlattenJoins(params: seq<string>)
    requires params != []
    ensures FlattenParams(params) != [] && Join(FlattenParams(params), ',') == Join(params, ',')
    ensures forall i :: 0 <= i < |FlattenParams(params)| ==> ',' !in FlattenParams(params)[i]
  {
    var init := params[..|params| - 1];
    var last := params[|params| - 1];
    JoinSplit(last, ',');
    if init == [] {
      assert params == [last] && FlattenParams(params) == [] + Split(last, ',');
      assert FlattenParams(params) == Split(last, ',');
    } else {
      FlattenJoins(init);
      JoinAppend(FlattenParams(init), Split(last, ','), ',');
      JoinAppend(init, [last], ',');
      assert params == init + [last];
    }
  }

  method FlattenLoop(params: seq<string>) returns (flattened: seq<string>)
    ensures flattened == FlattenParams(params)
  {
    flattened := [];
    assert params[..0] == [];
    for i := 0 to |params|
      invariant flattened == FlattenParams(params[..i])
    {
      assert params[..i + 1][..i] == params[..i];
      var vals := Split(params[i], ',');
      for j := 0 to |vals|
        invariant flattened == FlattenParams(params[..i]) + vals[..j]
      {
        flattened := flattened + [vals[j]];
      }
      assert vals[..|vals|] == vals;
    }
    assert params[..|params|] == params;
  }

  ghost function AddressSet(ips: seq<IP>): set<IP> {
    set ip | ip in ips
  }

  lemma {:induction false} SameSizeSubset<T>(a: set<T>, b: set<T>)
    requires b <= a && |a| == |b|
    ensures a == b
  {
    if a != b {
      var x :| x in a && x !in b;
      SubsetSmaller(b, a - {x});
    }
  }

  lemma {:induction false} SubsetSmaller<T>(a: set<T>, b: set<T>)
    requires a <= b
    ensures |a| <= |b|
  {
    if a != {} {
      var x :| x in a;
      SubsetSmaller(a - {x}, b - {x});
    }
  }

  /** The comparison of printed addresses decides whether the address sets differ. */
  method HaveAddressesChanged(net: Net, original: seq<IP>, updated: seq<IP>) returns (changed: bool)
    requires Lawful(net)
    ensures changed <==> AddressSet(original) != AddressSet(updated)
  {
    var originalMap: set<string>, updatedMap: set<string> := {}, {};
    for i := 0 to |original|
      invariant originalMap == set j | 0 <= j < i :: net.show(original[j])
    {
      originalMap := originalMap + {net.show(original[i])};
    }
    for i := 0 to |updated|
      invariant updatedMap == set j | 0 <= j < i :: net.show(updated[j])
    {
      updatedMap := updatedMap + {net.show(updated[i])};
    }
    PrintedSets(net, original, updated, originalMap, updatedMap);
    if |originalMap| != |updatedMap| {
      return true;
    }
    var todo := updatedMap;
    while todo != {}
      invariant todo <= updatedMap && updatedMap - todo <= originalMap
      decreases todo
    {
      var ipstr :| ipstr in todo;
      if ipstr !in originalMap {
        return true;
      }
      todo := todo - {ipstr};
    }
    SameSizeSubset(originalMap, updatedMap);
    return false;
  }

  lemma PrintedSets(net: Net, original: seq<IP>, updated: seq<IP>, o: set<string>, u: set<string>)
    requires Lawful(net)
    requires o == set j | 0 <= j < |original| :: net.show(original[j])
    requires u == set j | 0 <= j < |updated| :: net.show(updated[j])
    ensures o == u <==> AddressSet(original) == AddressSet(updated)
  {
    forall ip: IP
      ensures ip in original <==> net.show(ip) in o
      ensures ip in updated <==> net.show(ip) in u
    {
    }
    if AddressSet(original) == AddressSet(updated) {
      forall s
        ensures s in o <==> s in u
      {
        if s in o {
          var j :| 0 <= j < |original| && net.show(original[j]) == s;
          assert original[j] in AddressSet(original);
        }
        if s in u {
          var j :| 0 <= j < |updated| && net.show(updated[j]) == s;
          assert updated[j] in AddressSet(updated);
        }
      }
    }
  }

  datatype Line = NotFqdn | Stored(changed: bool, ips: seq<IP>)

  datatype Reply = MissingHost | TooManyHosts | BadRequest | Lines(lines: seq<Line>)

  datatype Request = Request(hostname: seq<string>, myip: seq<string>)

  function ParseAll(net: Net, texts: seq<string>): Option<seq<IP>> {
    if texts == [] then Some([])
    else
      var before := ParseAll(net, texts[..|texts| - 1]);
      var ip := net.parse(texts[|texts| - 1]);
      if before.None? || ip.None? then None else Some(before.value + [ip.value])
  }

  /** All texts are addresses, and these are the addresses, one for each text. */
  lemma {:induction false} ParsedExactly(net: Net, texts: seq<string>)
    ensures ParseAll(net, texts).Some? <==> forall i :: 0 <= i < |texts| ==> net.parse(texts[i]).Some?
    ensures ParseAll(net, texts).Some? ==>
              && |ParseAll(net, texts).value| == |texts|
              && forall i :: 0 <= i < |texts| ==> net.parse(texts[i]) == Some(ParseAll(net, texts).value[i])
  {
    if texts != [] {
      var init := texts[..|texts| - 1];
      ParsedExactly(net, init);
      assert forall i :: 0 <= i < |init| ==> init[i] == texts[i];
    }
  }

  /** The addresses of a request that is not rejected as a whole. */
  function Accepted(net: Net, r: Request): Option<seq<IP>> {
    if FlattenParams(r.hostname) == [] || |FlattenParams(r.hostname)| > 20 || FlattenParams(r.myip) == [] then None
    else ParseAll(net, FlattenParams(r.myip))
  }

  /**
   A request is accepted as a whole exactly if it names one to twenty hosts and one or more
   addresses, and all of these parse.
   */
  lemma AcceptedExactly(net: Net, r: Request)
    ensures var hosts, texts := FlattenParams(r.hostname), FlattenParams(r.myip);
            && (Accepted(net, r).Some? <==>
                  && 1 <= |hosts| <= 20 && |texts| >= 1
                  && forall i :: 0 <= i < |texts| ==> net.parse(texts[i]).Some?)
            && (Accepted(net, r).Some? ==>
                  && |Accepted(net, r).value| == |texts|
                  && forall i :: 0 <= i < |texts| ==> net.parse(texts[i]) == Some(Accepted(net, r).value[i]))
  {
    ParsedExactly(net, FlattenParams(r.myip));
  }

  function StoreHost(db: Tables, hostname: string, ips: seq<IP>): Tables {
    if IsHostname(hostname) then db.(ips := db.ips[ToLower(hostname) := ips]) else db
  }

  function StoreHosts(db: Tables, hosts: seq<string>, ips: seq<IP>): Tables {
    if hosts == [] then db
    else StoreHost(StoreHosts(db, hosts[..|hosts| - 1], ips), hosts[|hosts| - 1], ips)
  }

  /** What the reply says of a host name, given the database before it is stored. */
  ghost function LineFor(before: Tables, hostname: string, ips: seq<IP>): Line {
    if IsHostname(hostname) then Stored(AddressSet(Addresses(before, ToLower(hostname))) != AddressSet(ips), ips)
    else NotFqdn
  }

  ghost predicate LinesFit(db: Tables, hosts: seq<string>, ips: seq<IP>, lines: seq<Line>) {
    && |lines| == |hosts|
    && forall i :: 0 <= i < |hosts| ==> lines[i] == LineFor(StoreHosts(db, hosts[..i], ips), hosts[i], ips)
  }

  /** An earlier line of the request is for the same host, in whatever letter case. */
  ghost predicate NamedBefore(hosts: seq<string>, i: nat)
    requires i < |hosts|
  {
    exists j :: 0 <= j < i && IsHostname(hosts[j]) && EqualFold(hosts[j], hosts[i])
  }

  /**
   Each line rejects a name that is no host name, and otherwise tells whether the host's set of
   addresses is another one now: not if an earlier line was for the host, since that stored the same.
   */
  ghost predicate LinesTrue(db: Tables, hosts: seq<string>, ips: seq<IP>, lines: seq<Line>) {
    && |lines| == |hosts|
    && forall i :: 0 <= i < |hosts| ==>
         if !IsHostname(hosts[i]) then lines[i] == NotFqdn
         else
           var differs := AddressSet(Addresses(db, ToLower(hosts[i]))) != AddressSet(ips);
           lines[i] == Stored(!NamedBefore(hosts, i) && differs, ips)
  }

  /** The database after the lines: the hosts named have the addresses of the request, and nothing else changed. */
  ghost predicate HostsStored(db: Tables, db': Tables, hosts: seq<string>, ips: seq<IP>) {
    && db'.txts == db.txts
    && forall d :: Addresses(db', d) ==
                   if exists i :: 0 <= i < |hosts| && IsHostname(hosts[i]) && ToLower(hosts[i]) == d then ips
                   else Addresses(db, d)
  }

  lemma FittingLinesTrue(db: Tables, hosts: seq<string>, ips: seq<IP>, lines: seq<Line>)
    requires LinesFit(db, hosts, ips, lines)
    ensures LinesTrue(db, hosts, ips, lines)
  {
    forall i | 0 <= i < |hosts|
      ensures if !IsHostname(hosts[i]) then lines[i] == NotFqdn
              else
                var differs := AddressSet(Addresses(db, ToLower(hosts[i]))) != AddressSet(ips);
                lines[i] == Stored(!NamedBefore(hosts, i) && differs, ips)
    {
      if IsHostname(hosts[i]) {
        LineTrue(db, hosts, ips, i);
      }
    }
  }

  lemma LineTrue(db: Tables, hosts: seq<string>, ips: seq<IP>, i: nat)
    requires i < |hosts| && IsHostname(hosts[i])
    ensures Addresses(StoreHosts(db, hosts[..i], ips), ToLower(hosts[i])) ==
            if NamedBefore(hosts, i) then ips else Addresses(db, ToLower(hosts[i]))
  {
    StoreHostsAt(db, hosts[..i], ips, ToLower(hosts[i]));
    if NamedBefore(hosts, i) {
      var j :| 0 <= j < i && IsHostname(hosts[j]) && EqualFold(hosts[j], hosts[i]);
      LowerFolds(hosts[j], hosts[i]);
      assert hosts[..i][j] == hosts[j];
    } else {
      forall j | 0 <= j < i && IsHostname(hosts[j])
        ensures ToLower(hosts[j]) != ToLower(hosts[i])
      {
        LowerFolds(hosts[j], hosts[i]);
      }
    }
  }

  lemma AllStored(db: Tables, hosts: seq<string>, ips: seq<IP>)
    ensures HostsStored(db, StoreHosts(db, hosts, ips), hosts, ips)
  {
    StoreHostsAt(db, hosts, ips, "");
    forall d: string
      ensures Addresses(StoreHosts(db, hosts, ips), d) ==
              if exists i :: 0 <= i < |hosts| && IsHostname(hosts[i]) && ToLower(hosts[i]) == d then ips
              else Addresses(db, d)
    {
      StoreHostsAt(db, hosts, ips, d);
    }
  }

  lemma LinesGrow(db: Tables, hosts: seq<string>, ips: seq<IP>, lines: seq<Line>, i: nat)
    requires i < |hosts| && LinesFit(db, hosts[..i], ips, lines)
    ensures LinesFit(db, hosts[..i + 1], ips, lines + [LineFor(StoreHosts(db, hosts[..i], ips), hosts[i], ips)])
    ensures StoreHosts(db, hosts[..i + 1], ips) == StoreHost(StoreHosts(db, hosts[..i], ips), hosts[i], ips)
  {
    assert hosts[..i + 1][..i] == hosts[..i];
    var after := lines + [LineFor(StoreHosts(db, hosts[..i], ips), hosts[i], ips)];
    forall k | 0 <= k < i + 1
      ensures after[k] == LineFor(StoreHosts(db, hosts[..i + 1][..k], ips), hosts[..i + 1][k], ips)
    {
      if k < i {
        assert hosts[..i + 1][..k] == hosts[..i][..k];
      }
    }
  }

  function Update(net: Net, db: Tables, r: Request): Tables {
    var ips := Accepted(net, r);
    if ips.None? then db else StoreHosts(db, FlattenParams(r.hostname), ips.value)
  }

  lemma {:induction false} ParsePrefixFails(net: Net, texts: seq<string>, i: nat)
    requires i <= |texts| && ParseAll(net, texts[..i]).None?
    ensures ParseAll(net, texts).None?
    decreases |texts| - i
  {
    if i < |texts| {
      assert texts[..i + 1][..i] == texts[..i];
      ParsePrefixFails(net, texts, i + 1);
    } else {
      assert texts[..i] == texts;
    }
  }

  class API {
    const net: Net
    const db: MemoryDatabase

    constructor (net: Net, db: MemoryDatabase)
      ensures this.net == net && this.db == db
    {
      this.net, this.db := net, db;
    }

    /** The parsed addresses, or nothing when one of the texts is not an address. */
    method ParseAddresses(myips: seq<string>) returns (r: Option<seq<IP>>)
      ensures r == ParseAll(net, myips)
    {
      var ips: seq<IP> := [];
      for i := 0 to |myips|
        invariant ParseAll(net, myips[..i]) == Some(ips)
      {
        assert myips[..i + 1][..i] == myips[..i];
        var ip := net.parse(myips[i]);
        if ip.None? {
          ParsePrefixFails(net, myips, i + 1);
          return None;
        }
        ips := ips + [ip.value];
      }
      assert myips[..|myips|] == myips;
      return Some(ips);
    }

    /** One round of the loop over the host names. */
    method StoreOne(hostname: string, ips: seq<IP>) returns (line: Line)
      requires Lawful(net)
      modifies db`ipaddrs
      ensures db.View() == StoreHost(old(db.View()), hostname, ips)
      ensures line == LineFor(old(db.View()), hostname, ips)
    {
      if !IsHostname(hostname) {
        return NotFqdn;
      }
      var domain := ToLower(hostname);
      var origips := db.GetIPAddresses(domain);
      var changed := HaveAddressesChanged(net, origips, ips);
      db.PutIPAddresses(domain, ips);
      return Stored(changed, ips);
    }

    method StoreAll(hostnames: seq<string>, ips: seq<IP>) returns (lines: seq<Line>)
      requires Lawful(net)
      modifies db`ipaddrs
      ensures db.View() == StoreHosts(old(db.View()), hostnames, ips)
      ensures LinesFit(old(db.View()), hostnames, ips, lines)
    {
      lines := [];
      ghost var start := db.View();
      for i := 0 to |hostnames|
        invariant db.View() == StoreHosts(start, hostnames[..i], ips)
        invariant LinesFit(start, hostnames[..i], ips, lines)
      {
        var line := StoreOne(hostnames[i], ips);
        LinesGrow(start, hostnames, ips, lines, i);
        lines := lines + [line];
      }
      assert hostnames[..|hostnames|] == hostnames;
    }

    /**
     v1update. Each line of a reply says of its host name whether the stored set of addresses
     changed, counting the effect of the lines before it.
     */
    method V1Update(r: Request) returns (reply: Reply)
      requires Lawful(net)
      modifies db`ipaddrs
      ensures db.View() == Update(net, old(db.View()), r)
      ensures var hosts, texts := FlattenParams(r.hostname), FlattenParams(r.myip);
              && (reply == MissingHost <==> hosts == [])
              && (reply == TooManyHosts <==> |hosts| > 20)
              && (reply.Lines? <==>
                    1 <= |hosts| <= 20 && texts != [] && forall i :: 0 <= i < |texts| ==> net.parse(texts[i]).Some?)
      ensures reply.Lines? <==> Accepted(net, r).Some?
      ensures reply.Lines? ==>
                var hosts, ips := FlattenParams(r.hostname), Accepted(net, r).value;
                LinesTrue(old(db.View()), hosts, ips, reply.lines) && HostsStored(old(db.View()), db.View(), hosts, ips)
      ensures !reply.Lines? ==> db.View() == old(db.View())
    {
      AcceptedExactly(net, r);
      var hostnames := FlattenLoop(r.hostname);
      if hostnames == [] {
        return MissingHost;
      }
      if |hostnames| > 20 {
        return TooManyHosts;
      }
      var myips := FlattenLoop(r.myip);
      if myips == [] {
        return BadRequest;
      }
      var parsed := ParseAddresses(myips);
      if parsed.None? {
        return BadRequest;
      }
      ghost var before := db.View();
      var lines := StoreAll(hostnames, parsed.value);
      FittingLinesTrue(before, hostnames, parsed.value, lines);
      AllStored(before, hostnames, parsed.value);
      return Lines(lines);
    }
  }

  // ---- queries ----

  function GetDomain(name: string): string {
    ToLower(if name != [] && name[|name| - 1] == '.' then name[..|name| - 1] else name)
  }

  predicate PrintsAsIPv4(net: Net, ip: IP) {
    '.' in net.show(ip)
  }

  function Filter(ips: seq<IP>, v4: bool): seq<IP> {
    if ips == [] then []
    else Filter(ips[..|ips| - 1], v4) + if ips[|ips| - 1].V4? == v4 then [ips[|ips| - 1]] else []
  }

  function AddressRecords(net: Net, name: string, ttl: int, ips: seq<IP>, qtype: QType): seq<RR> {
    seq(|ips|, i requires 0 <= i < |ips| => RR(name, ttl, qtype, net.show(ips[i])))
  }

  function TextRecords(name: string, ttl: int, values: seq<string>): seq<RR> {
    seq(|values|, i requires 0 <= i < |values| => RR(name, ttl, TXT, values[i]))
  }

  predicate AllAccepted(net: Net, rrs: seq<RR>) {
    forall i :: 0 <= i < |rrs| ==> net.acceptsRR(rrs[i])
  }

  /** getARecords and getAAAARecords: the members of the one family, in order, unless a record is refused. */
  method GetAddressRecords(net: Net, name: string, ttl: int, ips: seq<IP>, qtype: QType) returns (r: Option<seq<RR>>)
    requires Lawful(net) && (qtype == A || qtype == AAAA)
    ensures var rrs := AddressRecords(net, name, ttl, Filter(ips, qtype == A), qtype);
            r == if AllAccepted(net, rrs) then Some(rrs) else None
  {
    var records: seq<RR> := [];
    for i := 0 to |ips|
      invariant records == AddressRecords(net, name, ttl, Filter(ips[..i], qtype == A), qtype) && AllAccepted(net, records)
    {
      assert ips[..i + 1][..i] == ips[..i];
      if PrintsAsIPv4(net, ips[i]) != (qtype == A) {
        continue;
      }
      var rr := RR(name, ttl, qtype, net.show(ips[i]));
      if !net.acceptsRR(rr) {
        FilterPrefix(ips, qtype == A, i + 1);
        var rrs := AddressRecords(net, name, ttl, Filter(ips, qtype == A), qtype);
        assert rrs[|records|] == rr;
        return None;
      }
      records := records + [rr];
    }
    assert ips[..|ips|] == ips;
    return Some(records);
  }

  lemma {:induction false} FilterPrefix(ips: seq<IP>, v4: bool, i: nat)
    requires i <= |ips|
    ensures Filter(ips[..i], v4) <= Filter(ips, v4)
    decreases |ips| - i
  {
    if i < |ips| {
      assert ips[..i + 1][..i] == ips[..i];
      FilterPrefix(ips, v4, i + 1);
    } else {
      assert ips[..i] == ips;
    }
  }

  method GetTXTRecords(net: Net, name: string, ttl: int, values: seq<string>) returns (r: Option<seq<RR>>)
    ensures var rrs := TextRecords(name, ttl, values);
            r == if AllAccepted(net, rrs) then Some(rrs) else None
  {
    var records: seq<RR> := [];
    for i := 0 to |values|
      invariant records == TextRecords(name, ttl, values[..i]) && AllAccepted(net, records)
    {
      var rr := RR(name, ttl, TXT, values[i]);
      if !net.acceptsRR(rr) {
        assert TextRecords(name, ttl, values)[i] == rr;
        return None;
      }
      records := records + [rr];
    }
    assert values[..|values|] == values;
    return Some(records);
  }

  /** `nameError` is RcodeNameError; `soa` is whether the authority section is the SOA rather than the NS records. */
  datatype Response = Response(nameError: bool, soa: bool, answer: seq<RR>) | Failed

  /** The records that answer a question. */
  function Records(net: Net, db: Tables, name: string, qtype: QType, ttl: int): seq<RR> {
    match qtype
    case A => AddressRecords(net, name, ttl, Filter(Addresses(db, GetDomain(name)), true), A)
    case AAAA => AddressRecords(net, name, ttl, Filter(Addresses(db, GetDomain(name)), false), AAAA)
    case TXT => TextRecords(name, ttl, Values(db, GetDomain(name)))
    case OtherType => []
  }

  /** The end of processQuery, given whether the domain exists and the records for the question. */
  function Respond(net: Net, exist: bool, rrs: seq<RR>): Response {
    if !AllAccepted(net, rrs) then Failed else Response(rrs == [] && !exist, rrs == [], rrs)
  }

  function Answer(net: Net, db: Tables, name: string, qtype: QType, ttl: int): Response {
    Respond(net, Exists(db, GetDomain(name)), Records(net, db, name, qtype, ttl))
  }

  method ProcessQuery(net: Net, db: MemoryDatabase, name: string, qtype: QType, ttl: int) returns (msg: Response)
    requires Lawful(net)
    ensures msg == Answer(net, db.View(), name, qtype, ttl)
    ensures qtype == TXT ==> TextsShown(net, Values(db.View(), GetDomain(name)), name, ttl, msg)
  {
    TextsAreShown(net, db.View(), name, ttl, Exists(db.View(), GetDomain(name)));
    var domain := GetDomain(name);
    var domainExists := db.DoesDomainExist(domain);
    var answer: seq<RR> := [];
    if qtype == A || qtype == AAAA {
      var ipaddrs := db.GetIPAddresses(domain);
      var records := GetAddressRecords(net, name, ttl, ipaddrs, qtype);
      if records.None? {
        return Failed;
      }
      answer := records.value;
    } else if qtype == TXT {
      var txtvals := db.GetTXTValues(domain);
      var records := GetTXTRecords(net, name, ttl, txtvals);
      if records.None? {
        return Failed;
      }
      answer := records.value;
    }
    if |answer| == 0 {
      return Response(!domainExists, true, []);
    }
    return Response(false, false, answer);
  }

  // ---- what the answers say ----

  /**
   The response to a TXT question: one record for each text, in order, under the name asked, with
   the text itself as its data. It fails exactly if one of these records cannot be built, and
   the SOA takes the place of the answer exactly if there are no texts.
   */
  ghost predicate TextsShown(net: Net, texts: seq<string>, name: string, ttl: int, msg: Response) {
    match msg
    case Failed => exists i :: 0 <= i < |texts| && !net.acceptsRR(RR(name, ttl, TXT, texts[i]))
    case Response(nameError, soa, answer) =>
      && |answer| == |texts| && (soa <==> texts == []) && (nameError ==> texts == [])
      && forall i :: 0 <= i < |answer| ==>
           && answer[i].name == name && answer[i].ttl == ttl && answer[i].qtype == TXT && answer[i].data == texts[i]
           && net.acceptsRR(answer[i])
  }

  lemma TextsAreShown(net: Net, db: Tables, name: string, ttl: int, exist: bool)
    ensures TextsShown(net, Values(db, GetDomain(name)), name, ttl, Respond(net, exist, Records(net, db, name, TXT, ttl)))
  {
    var rrs := Records(net, db, name, TXT, ttl);
    if i :| 0 <= i < |rrs| && !net.acceptsRR(rrs[i]) {
      assert rrs[i] == RR(name, ttl, TXT, Values(db, GetDomain(name))[i]);
    }
  }

  /** The indices of the addresses of one family, in increasing order. */
  ghost predicate FamilyAt(ips: seq<IP>, v4: bool, at: seq<nat>) {
    && (forall k :: 0 <= k < |at| ==> at[k] < |ips| && ips[at[k]].V4? == v4)
    && (forall k, l :: 0 <= k < l < |at| ==> at[k] < at[l])
    && (forall j :: 0 <= j < |ips| && ips[j].V4? == v4 ==> j in at)
  }

  lemma FamilyGrows(ips: seq<IP>, ip: IP, v4: bool, before: seq<nat>)
    requires FamilyAt(ips, v4, before)
    ensures FamilyAt(ips + [ip], v4, before + if ip.V4? == v4 then [|ips|] else [])
  {
    var all := ips + [ip];
    var at := before + if ip.V4? == v4 then [|ips|] else [];
    forall j | 0 <= j < |all| && all[j].V4? == v4
      ensures j in at
    {
      if j == |ips| {
        assert at[|before|] == j;
      }
    }
  }

  lemma {:induction false} FamilyInOrder(ips: seq<IP>, v4: bool) returns (at: seq<nat>)
    ensures FamilyAt(ips, v4, at) && |at| == |Filter(ips, v4)|
    ensures forall k :: 0 <= k < |at| ==> Filter(ips, v4)[k] == ips[at[k]]
  {
    at := [];
    if ips != [] {
      var n := |ips| - 1;
      at := FamilyInOrder(ips[..n], v4);
      FamilyGrows(ips[..n], ips[n], v4, at);
      assert ips[..n] + [ips[n]] == ips;
      at := at + if ips[n].V4? == v4 then [n] else [];
    }
  }

  /**
   The response to an address question: a record for each address of the family, in order, under
   the name asked, with the address as its data.
   */
  ghost predicate FamilyShown(net: Net, ips: seq<IP>, at: seq<nat>, name: string, qtype: QType, ttl: int, msg: Response)
    requires forall k :: 0 <= k < |at| ==> at[k] < |ips|
  {
    match msg
    case Failed => exists k :: 0 <= k < |at| && !net.acceptsRR(RR(name, ttl, qtype, net.show(ips[at[k]])))
    case Response(nameError, soa, answer) =>
      && |answer| == |at| && (soa <==> at == []) && (nameError ==> at == [])
      && forall k :: 0 <= k < |answer| ==>
           && answer[k].name == name && answer[k].ttl == ttl && answer[k].qtype == qtype
           && answer[k].data == net.show(ips[at[k]]) && net.acceptsRR(answer[k])
  }

  lemma FamilyIsShown(net: Net, db: Tables, name: string, qtype: QType, ttl: int, exist: bool) returns (at: seq<nat>)
    requires qtype == A || qtype == AAAA
    ensures var ips := Addresses(db, GetDomain(name));
            && FamilyAt(ips, qtype == A, at)
            && FamilyShown(net, ips, at, name, qtype, ttl, Respond(net, exist, Records(net, db, name, qtype, ttl)))
  {
    var ips := Addresses(db, GetDomain(name));
    at := FamilyInOrder(ips, qtype == A);
    var rrs := Records(net, db, name, qtype, ttl);
    assert forall k :: 0 <= k < |rrs| ==> rrs[k] == RR(name, ttl, qtype, net.show(ips[at[k]]));
    if k :| 0 <= k < |rrs| && !net.acceptsRR(rrs[k]) {
      assert rrs[k] == RR(name, ttl, qtype, net.show(ips[at[k]]));
    }
  }

  // ---- the view is the fold of the history ----
  // ---- the view is the fold of the history ----

  /** What happens to the database: update requests and the challenge TXT records of the certificate manager. */
  datatype Event = Req(r: Request) | PutTXT(domain: string, value: string) | DeleteTXT(domain: string)

  function ApplyEvent(net: Net, db: Tables, e: Event): Tables {
    match e
    case Req(r) => Update(net, db, r)
    case PutTXT(d, v) => db.(txts := db.txts[d := [v]])
    case DeleteTXT(d) => db.(txts := db.txts - {d})
  }

  /** dbTxtHandler, through which the certificate manager publishes a dns-01 response. */
  method PutTXTRecord(net: Net, db: MemoryDatabase, domain: string, value: string)
    modifies db`txtvals
    ensures db.View() == ApplyEvent(net, old(db.View()), PutTXT(domain, value))
  {
    db.PutTXTValues(domain, [value]);
  }

  method DeleteTXTRecord(net: Net, db: MemoryDatabase, domain: string)
    modifies db`txtvals
    ensures db.View() == ApplyEvent(net, old(db.View()), DeleteTXT(domain))
  {
    db.DeleteTXTValues(domain);
  }

  function Replay(net: Net, history: seq<Event>): Tables {
    if history == [] then Tables(map[], map[])
    else ApplyEvent(net, Replay(net, history[..|history| - 1]), history[|history| - 1])
  }

  /** The request is accepted and names the domain, in any letter case, among its valid host names. */
  ghost predicate Sets(net: Net, e: Event, domain: string) {
    && e.Req? && Accepted(net, e.r).Some?
    && exists i :: 0 <= i < |FlattenParams(e.r.hostname)|
                   && IsHostname(FlattenParams(e.r.hostname)[i]) && ToLower(FlattenParams(e.r.hostname)[i]) == domain
  }

  /** The addresses of the last request that set the domain. */
  ghost function LastAccepted(net: Net, history: seq<Event>, domain: string): seq<IP> {
    if history == [] then []
    else
      var last := history[|history| - 1];
      if Sets(net, last, domain) then Accepted(net, last.r).value
      else LastAccepted(net, history[..|history| - 1], domain)
  }

  lemma {:induction false} StoreHostsAt(db: Tables, hosts: seq<string>, ips: seq<IP>, domain: string)
    ensures Addresses(StoreHosts(db, hosts, ips), domain) ==
            if exists i :: 0 <= i < |hosts| && IsHostname(hosts[i]) && ToLower(hosts[i]) == domain then ips
            else Addresses(db, domain)
    ensures StoreHosts(db, hosts, ips).txts == db.txts
  {
    if hosts != [] {
      var init := hosts[..|hosts| - 1];
      var last := hosts[|hosts| - 1];
      StoreHostsAt(db, init, ips, domain);
      if IsHostname(last) && ToLower(last) == domain {
        assert hosts[|hosts| - 1] == last;
      } else {
        assert (exists i :: 0 <= i < |hosts| && IsHostname(hosts[i]) && ToLower(hosts[i]) == domain) <==>
          (exists i :: 0 <= i < |init| && IsHostname(init[i]) && ToLower(init[i]) == domain) by {
          if i :| 0 <= i < |hosts| && IsHostname(hosts[i]) && ToLower(hosts[i]) == domain {
            assert i < |init| && init[i] == hosts[i];
          }
          if i :| 0 <= i < |init| && IsHostname(init[i]) && ToLower(init[i]) == domain {
            assert hosts[i] == init[i];
          }
        }
      }
    }
  }

  lemma {:induction false} ReplayAddresses(net: Net, history: seq<Event>, domain: string)
    ensures Addresses(Replay(net, history), domain) == LastAccepted(net, history, domain)
  {
    if history != [] {
      var before := history[..|history| - 1];
      var last := history[|history| - 1];
      ReplayAddresses(net, before, domain);
      if last.Req? && Accepted(net, last.r).Some? {
        StoreHostsAt(Replay(net, before), FlattenParams(last.r.hostname), Accepted(net, last.r).value, domain);
      }
    }
  }

  /** All the ways of writing a host name in a question lead to the same domain. */
  lemma QueryNameNormalised(host: string, asked: string)
    requires IsHostname(host) && EqualFold(asked, host)
    ensures GetDomain(asked) == ToLower(host) && GetDomain(asked + ".") == ToLower(host)
  {
    HostnameEnd(host);
    LowerFolds(asked, host);
    assert |asked| == |ToLower(asked)| == |host|;
    LowerKeepsDots(host, |host| - 1);
    LowerKeepsDots(asked, |asked| - 1);
    assert (asked + ".")[..|asked + "."| - 1] == asked;
  }

  /** The last request of the history that set the domain decides; before the first there are no addresses. */
  lemma {:induction false} LastRequestCounts(net: Net, history: seq<Event>, domain: string, i: nat)
    requires i <= |history| && forall j :: i <= j < |history| ==> !Sets(net, history[j], domain)
    requires i == 0 || Sets(net, history[i - 1], domain)
    ensures LastAccepted(net, history, domain) == if i == 0 then [] else Accepted(net, history[i - 1].r).value
  {
    if i < |history| {
      var before := history[..|history| - 1];
      assert forall j :: i <= j < |before| ==> before[j] == history[j];
      assert !Sets(net, history[|history| - 1], domain);
      LastRequestCounts(net, before, domain, i);
    }
  }

  /** A question for the host, however its letters are cased and with or without the final dot. */
  ghost predicate AsksAbout(name: string, host: string) {
    EqualFold(name, host) || (name != [] && name[|name| - 1] == '.' && EqualFold(name[..|name| - 1], host))
  }

  lemma QuestionNormalised(name: string, host: string)
    requires IsHostname(host) && AsksAbout(name, host)
    ensures GetDomain(name) == ToLower(host)
  {
    if EqualFold(name, host) {
      QueryNameNormalised(host, name);
    } else {
      var asked := name[..|name| - 1];
      QueryNameNormalised(host, asked);
      assert name == asked + ".";
    }
  }

  /**
   After any history, a question for a host is answered with the IPv4 members (type A) or the IPv6
   members (type AAAA) of the last accepted list, in its order.
   */
  lemma AnswersAreLastAccepted(net: Net, history: seq<Event>, host: string, name: string, qtype: QType, ttl: int)
    returns (at: seq<nat>)
    requires IsHostname(host) && AsksAbout(name, host) && (qtype == A || qtype == AAAA)
    ensures var ips := LastAccepted(net, history, ToLower(host));
            && FamilyAt(ips, qtype == A, at)
            && FamilyShown(net, ips, at, name, qtype, ttl, Answer(net, Replay(net, history), name, qtype, ttl))
  {
    QuestionNormalised(name, host);
    ReplayAddresses(net, history, ToLower(host));
    var db := Replay(net, history);
    at := FamilyIsShown(net, db, name, qtype, ttl, Exists(db, GetDomain(name)));
  }

  /** Rejected requests change nothing. */
  lemma RejectedChangesNothing(net: Net, history: seq<Event>, r: Request)
    requires Accepted(net, r).None?
    ensures Replay(net, history + [Req(r)]) == Replay(net, history)
  {
    assert (history + [Req(r)])[..|history|] == history;
  }

  /** What is stored by an accepted request is never empty. */
  lemma AcceptedNonempty(net: Net, r: Request)
    requires Accepted(net, r).Some?
    ensures Accepted(net, r).value != []
  {
    ParsedExactly(net, FlattenParams(r.myip));
  }

  /** Some request of the history set the domain exactly when it has addresses. */
  lemma {:induction false} EverSet(net: Net, history: seq<Event>, domain: string)
    ensures LastAccepted(net, history, domain) != [] <==>
            exists i :: 0 <= i < |history| && Sets(net, history[i], domain)
  {
    if history != [] {
      var before := history[..|history| - 1];
      var last := history[|history| - 1];
      EverSet(net, before, domain);
      if Sets(net, last, domain) {
        AcceptedNonempty(net, last.r);
      } else if i :| 0 <= i < |history| && Sets(net, history[i], domain) {
        assert Sets(net, before[i], domain);
      }
    }
  }

  /** The challenge value of the last TXT event for the domain, if that event was not a deletion. */
  function PendingText(history: seq<Event>, domain: string): seq<string> {
    if history == [] then []
    else
      match history[|history| - 1]
      case PutTXT(d, v) => if d == domain then [v] else PendingText(history[..|history| - 1], domain)
      case DeleteTXT(d) => if d == domain then [] else PendingText(history[..|history| - 1], domain)
      case Req(_) => PendingText(history[..|history| - 1], domain)
  }

  predicate AboutText(e: Event, domain: string) {
    (e.PutTXT? || e.DeleteTXT?) && e.domain == domain
  }

  /** The last of the events about the domain's text decides: its value, or nothing after a deletion or before the first. */
  lemma {:induction false} LastTextCounts(history: seq<Event>, domain: string, i: nat)
    requires i <= |history| && forall j :: i <= j < |history| ==> !AboutText(history[j], domain)
    requires i == 0 || AboutText(history[i - 1], domain)
    ensures PendingText(history, domain) == if i > 0 && history[i - 1].PutTXT? then [history[i - 1].value] else []
  {
    if i < |history| {
      var before := history[..|history| - 1];
      assert forall j :: i <= j < |before| ==> before[j] == history[j];
      assert !AboutText(history[|history| - 1], domain);
      LastTextCounts(before, domain, i);
    }
  }

  lemma AskedDomain(domain: string, name: string)
    requires (domain == [] || domain[|domain| - 1] != '.') && AsksAbout(name, domain)
    ensures GetDomain(name) == ToLower(domain)
  {
    if EqualFold(name, domain) {
      LowerFolds(name, domain);
      if name != [] {
        LowerKeepsDots(name, |name| - 1);
        LowerKeepsDots(domain, |domain| - 1);
      }
    } else {
      LowerFolds(name[..|name| - 1], domain);
    }
  }

  /**
   After any history, a TXT question for a domain, in any letter case and with or without the final
   dot, is answered with the challenge texts pending under its lower-case form.
   */
  lemma AnswersArePendingTexts(net: Net, history: seq<Event>, domain: string, name: string, ttl: int)
    requires (domain == [] || domain[|domain| - 1] != '.') && AsksAbout(name, domain)
    ensures TextsShown(net, PendingText(history, ToLower(domain)), name, ttl, Answer(net, Replay(net, history), name, TXT, ttl))
  {
    var db := Replay(net, history);
    AskedDomain(domain, name);
    ReplayValues(net, history, ToLower(domain));
    TextsAreShown(net, db, name, ttl, Exists(db, ToLower(domain)));
  }

  /**
   So a challenge text that was put last for a domain in lower case is the one answer, unless its
   record is refused.
   */
  lemma ChallengeTextIsAnswer(net: Net, history: seq<Event>, i: nat, name: string, ttl: int)
    requires i < |history| && history[i].PutTXT? && history[i].domain == ToLower(history[i].domain)
    requires history[i].domain == [] || history[i].domain[|history[i].domain| - 1] != '.'
    requires forall j :: i < j < |history| ==> !AboutText(history[j], history[i].domain)
    requires AsksAbout(name, history[i].domain)
    ensures var rr := RR(name, ttl, TXT, history[i].value);
            Answer(net, Replay(net, history), name, TXT, ttl) ==
            if net.acceptsRR(rr) then Response(false, false, [rr]) else Failed
  {
    LastTextCounts(history, history[i].domain, i + 1);
    AnswersArePendingTexts(net, history, history[i].domain, name, ttl);
    var msg := Answer(net, Replay(net, history), name, TXT, ttl);
    if msg.Response? {
      assert msg.answer[0] == RR(name, ttl, TXT, history[i].value);
      assert msg.answer == [msg.answer[0]];
    }
  }

  lemma {:induction false} ReplayValues(net: Net, history: seq<Event>, domain: string)
    ensures Values(Replay(net, history), domain) == PendingText(history, domain)
  {
    if history != [] {
      var before := history[..|history| - 1];
      var last := history[|history| - 1];
      ReplayValues(net, before, domain);
      if last.Req? && Accepted(net, last.r).Some? {
        StoreHostsAt(Replay(net, before), FlattenParams(last.r.hostname), Accepted(net, last.r).value, domain);
      }
    }
  }

  /** What ProcessQuery reports as a name error. */
  predicate NameError(net: Net, db: Tables, name: string, qtype: QType, ttl: int) {
    Records(net, db, name, qtype, ttl) == [] && !Exists(db, GetDomain(name))
  }

  /** Whatever the question type, a name error means never set and no challenge text now, and nothing else. */
  lemma NameErrorExactly(net: Net, history: seq<Event>, name: string, qtype: QType, ttl: int)
    ensures NameError(net, Replay(net, history), name, qtype, ttl) <==>
            && (forall i :: 0 <= i < |history| ==> !Sets(net, history[i], GetDomain(name)))
            && PendingText(history, GetDomain(name)) == []
  {
    ReplayAddresses(net, history, GetDomain(name));
    ReplayValues(net, history, GetDomain(name));
    EverSet(net, history, GetDomain(name));
  }

  /** Between them the answers of type A and AAAA hold every stored address, as often as it is stored. */
  lemma {:induction false} FamiliesPartition(ips: seq<IP>)
    ensures multiset(Filter(ips, true)) + multiset(Filter(ips, false)) == multiset(ips)
    ensures forall ip: IP :: ip in Filter(ips, true) <==> ip in ips && ip.V4?
    ensures forall ip: IP :: ip in Filter(ips, false) <==> ip in ips && ip.V6?
  {
    if ips != [] {
      FamiliesPartition(ips[..|ips| - 1]);
      assert ips == ips[..|ips| - 1] + [ips[|ips| - 1]];
    }
  }
}
