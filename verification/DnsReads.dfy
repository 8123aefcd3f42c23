/**
 Queries and updates interleaved one database access at a time. MemoryDatabase takes its lock
 for each single read and write (src/memdb.go:16-72), so between the three reads of a query,
 and between the writes of one update request, any other request may run.
 */
module DnsReads {
  import opened Wrappers
  import opened Text
  import opened DynDns

  /** An accepted update request in the middle of its loop over the host names. */
  datatype Pending = Pending(hosts: seq<string>, ips: seq<IP>, next: nat)

  /** How far a query has come: the two reads of DoesDomainExist, then the read for the answer. */
  datatype Phase =
    | Begun
    | SawAddresses(hasIP: bool)
    | Checked(exist: bool)
    | Answered(msg: Response)

  datatype Query = Query(name: string, qtype: QType, ttl: int, phase: Phase)

  datatype World = World(db: Tables, updates: map<nat, Pending>, queries: map<nat, Query>)

  datatype Step =
    | StartUpdate(u: nat, r: Request)
    | StoreNext(u: nat)
    | PutText(domain: string, value: string)
    | DeleteText(domain: string)
    | Begin(q: nat, name: string, qtype: QType, ttl: int)
    | LookAddresses(q: nat)
    | LookTexts(q: nat)
    | ReadAnswer(q: nat)

  function Start(): World {
    World(Tables(map[], map[]), map[], map[])
  }

  predicate Enabled(net: Net, w: World, s: Step) {
    match s
    case StartUpdate(u, r) => u !in w.updates && Accepted(net, r).Some?
    case StoreNext(u) => u in w.updates && w.updates[u].next < |w.updates[u].hosts|
    case PutText(_, _) => true
    case DeleteText(_) => true
    case Begin(q, _, _, _) => q !in w.queries
    case LookAddresses(q) => q in w.queries && w.queries[q].phase.Begun?
    case LookTexts(q) => q in w.queries && w.queries[q].phase.SawAddresses?
    case ReadAnswer(q) => q in w.queries && w.queries[q].phase.Checked?
  }

  /** The end of processQuery, with the answer read from the database as it is by then. */
  function Conclude(net: Net, db: Tables, q: Query): Response
    requires q.phase.Checked?
  {
    Respond(net, q.phase.exist, Records(net, db, q.name, q.qtype, q.ttl))
  }

  function NextPhase(net: Net, db: Tables, q: Query): Phase {
    var domain := GetDomain(q.name);
    match q.phase
    case Begun => SawAddresses(Addresses(db, domain) != [])
    case SawAddresses(hasIP) => Checked(hasIP || Values(db, domain) != [])
    case Checked(_) => Answered(Conclude(net, db, q))
    case Answered(_) => q.phase
  }

  function Advance(net: Net, w: World, q: nat): World
    requires q in w.queries
  {
    w.(queries := w.queries[q := w.queries[q].(phase := NextPhase(net, w.db, w.queries[q]))])
  }

  function Apply(net: Net, w: World, s: Step): World
    requires Enabled(net, w, s)
  {
    match s
    case StartUpdate(u, r) =>
      w.(updates := w.updates[u := Pending(FlattenParams(r.hostname), Accepted(net, r).value, 0)])
    case StoreNext(u) =>
      var p := w.updates[u];
      w.(db := StoreHost(w.db, p.hosts[p.next], p.ips), updates := w.updates[u := p.(next := p.next + 1)])
    case PutText(d, v) => w.(db := w.db.(txts := w.db.txts[d := [v]]))
    case DeleteText(d) => w.(db := w.db.(txts := w.db.txts - {d}))
    case Begin(q, name, qtype, ttl) => w.(queries := w.queries[q := Query(name, qtype, ttl, Begun)])
    case LookAddresses(q) => Advance(net, w, q)
    case LookTexts(q) => Advance(net, w, q)
    case ReadAnswer(q) => Advance(net, w, q)
  }

  ghost predicate IsRun(net: Net, ws: seq<World>, ss: seq<Step>) {
    && |ws| == |ss| + 1
    && ws[0] == Start()
    && forall i :: 0 <= i < |ss| ==> Enabled(net, ws[i], ss[i]) && ws[i + 1] == Apply(net, ws[i], ss[i])
  }

  /** The step writes the addresses of the domain for an update request. */
  predicate Stores(w: World, s: Step, domain: string) {
    && s.StoreNext? && s.u in w.updates && w.updates[s.u].next < |w.updates[s.u].hosts|
    && var host := w.updates[s.u].hosts[w.updates[s.u].next];
       IsHostname(host) && ToLower(host) == domain
  }

  // ---- what is stored never becomes empty ----

  ghost predicate NothingEmpty(w: World) {
    && (forall u :: u in w.updates ==> w.updates[u].ips != [])
    && (forall d :: d in w.db.ips ==> w.db.ips[d] != [])
  }

  lemma StepKeepsNonempty(net: Net, w: World, s: Step)
    requires NothingEmpty(w) && Enabled(net, w, s)
    ensures NothingEmpty(Apply(net, w, s))
    ensures w.db.ips.Keys <= Apply(net, w, s).db.ips.Keys
    ensures forall d :: Stores(w, s, d) ==> d in Apply(net, w, s).db.ips
  {
    if s.StartUpdate? {
      AcceptedNonempty(net, s.r);
    }
  }

  lemma {:induction false} RunKeepsNonempty(net: Net, ws: seq<World>, ss: seq<Step>, i: nat)
    requires IsRun(net, ws, ss) && i <= |ss|
    ensures NothingEmpty(ws[i])
  {
    if i > 0 {
      RunKeepsNonempty(net, ws, ss, i - 1);
      StepKeepsNonempty(net, ws[i - 1], ss[i - 1]);
    }
  }

  /** Once stored, a domain has addresses for ever. */
  lemma {:induction false} StaysStored(net: Net, ws: seq<World>, ss: seq<Step>, domain: string, i: nat, k: nat)
    requires IsRun(net, ws, ss) && i < k <= |ss| && Stores(ws[i], ss[i], domain)
    ensures Addresses(ws[k].db, domain) != []
  {
    RunKeepsNonempty(net, ws, ss, k - 1);
    StepKeepsNonempty(net, ws[k - 1], ss[k - 1]);
    if i < k - 1 {
      StaysStored(net, ws, ss, domain, i, k - 1);
    }
  }

  // ---- queries ----

  /** A query that was begun on a stored domain has seen, or will see, that the domain exists. */
  predicate Sees(q: Query, domain: string) {
    && GetDomain(q.name) == domain
    && match q.phase
       case Begun => true
       case SawAddresses(hasIP) => hasIP
       case Checked(exist) => exist
       case Answered(msg) => msg.Response? ==> !msg.nameError
  }

  lemma StepKeepsSees(net: Net, w: World, s: Step, w': World, q: nat, domain: string)
    requires Enabled(net, w, s) && w' == Apply(net, w, s) && q in w.queries
    requires Sees(w.queries[q], domain) && Addresses(w.db, domain) != []
    ensures q in w'.queries && Sees(w'.queries[q], domain)
  {
  }

  lemma SeesAtFirst(net: Net, w: World, s: Step, w': World, domain: string)
    requires Enabled(net, w, s) && w' == Apply(net, w, s) && s.Begin? && GetDomain(s.name) == domain
    ensures s.q in w'.queries && Sees(w'.queries[s.q], domain)
  {
  }

  predicate SeesAt(ws: seq<World>, k: nat, q: nat, domain: string)
    requires k < |ws|
  {
    q in ws[k].queries && Sees(ws[k].queries[q], domain)
  }

  lemma SeesInRun(net: Net, ws: seq<World>, ss: seq<Step>, domain: string, i: nat, k: nat, q: nat)
    requires IsRun(net, ws, ss) && i < k < |ss| && Stores(ws[i], ss[i], domain) && SeesAt(ws, k, q, domain)
    ensures SeesAt(ws, k + 1, q, domain)
  {
    StaysStored(net, ws, ss, domain, i, k);
    StepKeepsSees(net, ws[k], ss[k], ws[k + 1], q, domain);
  }

  lemma SeesFirst(net: Net, ws: seq<World>, ss: seq<Step>, domain: string, j: nat)
    requires IsRun(net, ws, ss) && j < |ss| && ss[j].Begin? && GetDomain(ss[j].name) == domain
    ensures SeesAt(ws, j + 1, ss[j].q, domain)
  {
    SeesAtFirst(net, ws[j], ss[j], ws[j + 1], domain);
  }

  lemma {:induction false} KeepsSeeing(net: Net, ws: seq<World>, ss: seq<Step>, domain: string, i: nat, j: nat, k: nat)
    requires IsRun(net, ws, ss) && i < j < k <= |ss|
    requires Stores(ws[i], ss[i], domain)
    requires ss[j].Begin? && GetDomain(ss[j].name) == domain
    ensures SeesAt(ws, k, ss[j].q, domain)
  {
    if j == k - 1 {
      SeesFirst(net, ws, ss, domain, j);
    } else {
      KeepsSeeing(net, ws, ss, domain, i, j, k - 1);
      SeesInRun(net, ws, ss, domain, i, k - 1, ss[j].q);
    }
  }

  /**
   A query for a domain that begins after an update stored addresses for it never reports a name
   error, whatever runs between its reads.
   */
  lemma NoNameErrorAfterUpdate(net: Net, ws: seq<World>, ss: seq<Step>, domain: string, i: nat, j: nat, k: nat)
    requires IsRun(net, ws, ss) && i < j < k <= |ss|
    requires Stores(ws[i], ss[i], domain)
    requires ss[j].Begin? && GetDomain(ss[j].name) == domain
    ensures ss[j].q in ws[k].queries
    ensures var phase := ws[k].queries[ss[j].q].phase;
            phase.Answered? && phase.msg.Response? ==> !phase.msg.nameError
  {
    KeepsSeeing(net, ws, ss, domain, i, j, k);
  }

  /** A response that reports a name error carries no answers and the SOA record. */
  lemma {:induction false} NameErrorHasNoAnswers(net: Net, ws: seq<World>, ss: seq<Step>, k: nat, q: nat)
    requires IsRun(net, ws, ss) && k <= |ss| && q in ws[k].queries
    ensures var phase := ws[k].queries[q].phase;
            phase.Answered? && phase.msg.Response? ==>
              (phase.msg.nameError ==> phase.msg.answer == []) && (phase.msg.soa <==> phase.msg.answer == [])
  {
    if k > 0 && q in ws[k - 1].queries {
      NameErrorHasNoAnswers(net, ws, ss, k - 1, q);
    }
  }

  /**
   Every answer was the right one at some moment while its query ran, and a name error was
   preceded by a moment without addresses and one without texts, both during the query.
   */
  ghost predicate Witnessed(net: Net, ws: seq<World>, q: Query, j: nat, k: nat)
    requires j <= k < |ws|
  {
    var domain := GetDomain(q.name);
    match q.phase
    case Begun => true
    case SawAddresses(hasIP) => !hasIP ==> exists m :: j <= m <= k && Addresses(ws[m].db, domain) == []
    case Checked(exist) => !exist ==> Absent(ws, domain, j, k)
    case Answered(msg) =>
      msg.Response? ==>
        && (msg.nameError ==> Absent(ws, domain, j, k))
        && exists m :: j <= m <= k && msg.answer == Records(net, ws[m].db, q.name, q.qtype, q.ttl)
  }

  ghost predicate Absent(ws: seq<World>, domain: string, j: nat, k: nat)
    requires j <= k < |ws|
  {
    && (exists m :: j <= m <= k && Addresses(ws[m].db, domain) == [])
    && (exists m :: j <= m <= k && Values(ws[m].db, domain) == [])
  }

  lemma {:induction false} AnswersWereTrueOnce(net: Net, ws: seq<World>, ss: seq<Step>, j: nat, k: nat)
    requires IsRun(net, ws, ss) && j < k <= |ss| && ss[j].Begin?
    ensures ss[j].q in ws[k].queries
    ensures Witnessed(net, ws, ws[k].queries[ss[j].q], j, k)
  {
    if j < k - 1 {
      AnswersWereTrueOnce(net, ws, ss, j, k - 1);
      WitnessStep(net, ws, ss, ss[j].q, j, k);
    }
  }

  lemma WitnessStep(net: Net, ws: seq<World>, ss: seq<Step>, q: nat, j: nat, k: nat)
    requires IsRun(net, ws, ss) && j < k <= |ss|
    requires q in ws[k - 1].queries && Witnessed(net, ws, ws[k - 1].queries[q], j, k - 1)
    ensures q in ws[k].queries && Witnessed(net, ws, ws[k].queries[q], j, k)
  {
    var before := ws[k - 1].queries[q];
    var after := ws[k].queries[q];
    assert after == before || after == before.(phase := NextPhase(net, ws[k - 1].db, before));
    if before.phase.Checked? && after != before {
      assert j <= k - 1 && k - 1 <= k;
    }
  }

  // ---- exactly when a name error is reported ----

  function Rank(phase: Phase): nat {
    match phase
    case Begun => 0
    case SawAddresses(_) => 1
    case Checked(_) => 2
    case Answered(_) => 3
  }

  lemma PhaseStep(net: Net, w: World, s: Step, q: nat)
    requires Enabled(net, w, s) && q in w.queries
    ensures q in Apply(net, w, s).queries
    ensures var before := w.queries[q];
            var after := Apply(net, w, s).queries[q];
            if s == LookAddresses(q) || s == LookTexts(q) || s == ReadAnswer(q) then
              after == before.(phase := NextPhase(net, w.db, before)) && Rank(after.phase) == Rank(before.phase) + 1
            else after == before
  {
  }

  /** A query keeps its question, its phases only advance, and it does not change within a phase. */
  lemma {:induction false} PhasesAdvance(net: Net, ws: seq<World>, ss: seq<Step>, q: nat, i: nat, j: nat)
    requires IsRun(net, ws, ss) && i <= j <= |ss| && q in ws[i].queries
    ensures q in ws[j].queries && ws[j].queries[q] == ws[i].queries[q].(phase := ws[j].queries[q].phase)
    ensures Rank(ws[i].queries[q].phase) <= Rank(ws[j].queries[q].phase)
    ensures Rank(ws[i].queries[q].phase) == Rank(ws[j].queries[q].phase) ==> ws[j].queries[q] == ws[i].queries[q]
  {
    if i < j {
      PhasesAdvance(net, ws, ss, q, i, j - 1);
      PhaseStep(net, ws[j - 1], ss[j - 1], q);
    }
  }

  /** The three reads of query q are steps a, b and c, and at k it is answered. */
  ghost predicate ReadsAt(ws: seq<World>, ss: seq<Step>, q: nat, a: nat, b: nat, c: nat, k: nat) {
    && a < b < c < k <= |ss| < |ws|
    && ss[a] == LookAddresses(q) && ss[b] == LookTexts(q) && ss[c] == ReadAnswer(q)
    && q in ws[k].queries
  }

  predicate ReportsNameError(q: Query) {
    q.phase.Answered? && q.phase.msg.Response? && q.phase.msg.nameError
  }

  /** The step that took the query into its present phase. */
  lemma {:induction false} Entered(net: Net, ws: seq<World>, ss: seq<Step>, q: nat, k: nat) returns (i: nat)
    requires IsRun(net, ws, ss) && k <= |ss| && q in ws[k].queries && !ws[k].queries[q].phase.Begun?
    ensures i < k && q in ws[i].queries && Rank(ws[k].queries[q].phase) == Rank(ws[i].queries[q].phase) + 1
    ensures match ws[k].queries[q].phase
            case Begun => true
            case SawAddresses(_) => ss[i] == LookAddresses(q)
            case Checked(_) => ss[i] == LookTexts(q)
            case Answered(_) => ss[i] == ReadAnswer(q)
  {
    assert q in ws[k - 1].queries;
    PhaseStep(net, ws[k - 1], ss[k - 1], q);
    if ws[k - 1].queries[q] == ws[k].queries[q] {
      i := Entered(net, ws, ss, q, k - 1);
    } else {
      i := k - 1;
    }
  }

  /** An answered query made its three reads, in order. */
  lemma AnsweredAfterReads(net: Net, ws: seq<World>, ss: seq<Step>, q: nat, k: nat) returns (a: nat, b: nat, c: nat)
    requires IsRun(net, ws, ss) && k <= |ss| && q in ws[k].queries && ws[k].queries[q].phase.Answered?
    ensures ReadsAt(ws, ss, q, a, b, c, k)
  {
    c := Entered(net, ws, ss, q, k);
    b := Entered(net, ws, ss, q, c);
    a := Entered(net, ws, ss, q, b);
  }

  lemma ReadsDecide(net: Net, ws: seq<World>, ss: seq<Step>, q: nat, a: nat, b: nat, c: nat, k: nat)
    requires IsRun(net, ws, ss) && ReadsAt(ws, ss, q, a, b, c, k)
    ensures var query := ws[k].queries[q];
            var domain := GetDomain(query.name);
            var exist := Addresses(ws[a].db, domain) != [] || Values(ws[b].db, domain) != [];
            query.phase == Answered(Conclude(net, ws[c].db, query.(phase := Checked(exist))))
  {
    PhaseStep(net, ws[a], ss[a], q);
    PhaseStep(net, ws[b], ss[b], q);
    PhaseStep(net, ws[c], ss[c], q);
    PhasesAdvance(net, ws, ss, q, a + 1, b);
    PhasesAdvance(net, ws, ss, q, b + 1, c);
    PhasesAdvance(net, ws, ss, q, c + 1, k);
  }

  /**
   In every run: a query reports a name error if and only if there was no address at its first
   read, no text at its second and no record for the question at its third.
   */
  lemma NameErrorByReads(net: Net, ws: seq<World>, ss: seq<Step>, q: nat, a: nat, b: nat, c: nat, k: nat)
    requires IsRun(net, ws, ss) && ReadsAt(ws, ss, q, a, b, c, k)
    ensures var query := ws[k].queries[q];
            var domain := GetDomain(query.name);
            ReportsNameError(query) <==>
              && Addresses(ws[a].db, domain) == []
              && Values(ws[b].db, domain) == []
              && Records(net, ws[c].db, query.name, query.qtype, query.ttl) == []
  {
    ReadsDecide(net, ws, ss, q, a, b, c, k);
  }

  /** The step writes addresses or texts of the domain. */
  predicate Touches(w: World, s: Step, domain: string) {
    Stores(w, s, domain) || ((s.PutText? || s.DeleteText?) && s.domain == domain)
  }

  predicate TouchedAt(ws: seq<World>, ss: seq<Step>, domain: string, m: nat)
    requires m < |ss| < |ws|
  {
    Touches(ws[m], ss[m], domain)
  }

  ghost predicate Untouched(ws: seq<World>, ss: seq<Step>, domain: string, i: nat, j: nat)
    requires i <= j <= |ss| < |ws|
  {
    forall m :: i <= m < j ==> !TouchedAt(ws, ss, domain, m)
  }

  lemma TouchStep(net: Net, w: World, s: Step, domain: string)
    requires Enabled(net, w, s)
    ensures !Stores(w, s, domain) ==> Addresses(Apply(net, w, s).db, domain) == Addresses(w.db, domain)
    ensures !((s.PutText? || s.DeleteText?) && s.domain == domain) ==> Values(Apply(net, w, s).db, domain) == Values(w.db, domain)
  {
  }

  lemma UntouchedStep(net: Net, w: World, s: Step, w': World, domain: string)
    requires Enabled(net, w, s) && w' == Apply(net, w, s) && !Touches(w, s, domain)
    ensures Addresses(w'.db, domain) == Addresses(w.db, domain) && Values(w'.db, domain) == Values(w.db, domain)
  {
    TouchStep(net, w, s, domain);
  }

  lemma {:induction false} UntouchedSame(net: Net, ws: seq<World>, ss: seq<Step>, domain: string, i: nat, j: nat)
    requires IsRun(net, ws, ss) && i <= j <= |ss| && Untouched(ws, ss, domain, i, j)
    ensures Addresses(ws[j].db, domain) == Addresses(ws[i].db, domain) && Values(ws[j].db, domain) == Values(ws[i].db, domain)
  {
    if i < j {
      UntouchedSame(net, ws, ss, domain, i, j - 1);
      assert !TouchedAt(ws, ss, domain, j - 1);
      UntouchedStep(net, ws[j - 1], ss[j - 1], ws[j], domain);
    }
  }

  /**
   If nothing writes the domain between the two reads of its existence, a name error means that the
   domain did not exist at that moment and there was no record later; and if nothing writes it up
   to the last read, the name error is reported exactly if the domain did not exist.
   */
  lemma NameErrorUntorn(net: Net, ws: seq<World>, ss: seq<Step>, q: nat, a: nat, b: nat, c: nat, k: nat)
    requires IsRun(net, ws, ss) && ReadsAt(ws, ss, q, a, b, c, k)
    requires Untouched(ws, ss, GetDomain(ws[k].queries[q].name), a, b)
    ensures var query := ws[k].queries[q];
            var domain := GetDomain(query.name);
            && (ReportsNameError(query) <==>
                  !Exists(ws[a].db, domain) && Records(net, ws[c].db, query.name, query.qtype, query.ttl) == [])
            && (Untouched(ws, ss, domain, a, c) ==> (ReportsNameError(query) <==> !Exists(ws[a].db, domain)))
  {
    var domain := GetDomain(ws[k].queries[q].name);
    NameErrorByReads(net, ws, ss, q, a, b, c, k);
    UntouchedSame(net, ws, ss, domain, a, b);
    if Untouched(ws, ss, domain, a, c) {
      UntouchedSame(net, ws, ss, domain, a, c);
    }
  }

  lemma {:induction false} TextsDeleted(net: Net, ws: seq<World>, ss: seq<Step>, domain: string, i: nat, j: nat)
    returns (m: nat)
    requires IsRun(net, ws, ss) && i <= j <= |ss| && Values(ws[i].db, domain) != [] && Values(ws[j].db, domain) == []
    ensures i <= m < j && ss[m] == DeleteText(domain) && Values(ws[m].db, domain) != []
  {
    TouchStep(net, ws[j - 1], ss[j - 1], domain);
    if Values(ws[j - 1].db, domain) == [] {
      m := TextsDeleted(net, ws, ss, domain, i, j - 1);
    } else {
      m := j - 1;
    }
  }

  lemma {:induction false} AddressesStored(net: Net, ws: seq<World>, ss: seq<Step>, domain: string, i: nat, j: nat)
    returns (m: nat)
    requires IsRun(net, ws, ss) && i <= j <= |ss| && Addresses(ws[i].db, domain) == [] && Addresses(ws[j].db, domain) != []
    ensures i <= m < j && Stores(ws[m], ss[m], domain)
  {
    TouchStep(net, ws[j - 1], ss[j - 1], domain);
    if Addresses(ws[j - 1].db, domain) == [] {
      m := j - 1;
    } else {
      m := AddressesStored(net, ws, ss, domain, i, j - 1);
    }
  }

  /**
   A name error for a domain that exists at every moment between the two reads needs both: an
   update that stores its first addresses and, later, the deletion of its text.
   */
  lemma TornNeedsBothWrites(net: Net, ws: seq<World>, ss: seq<Step>, q: nat, a: nat, b: nat, c: nat, k: nat)
    returns (i: nat, j: nat)
    requires IsRun(net, ws, ss) && ReadsAt(ws, ss, q, a, b, c, k) && ReportsNameError(ws[k].queries[q])
    requires forall m :: a <= m <= b ==> Exists(ws[m].db, GetDomain(ws[k].queries[q].name))
    ensures a <= i < j < b
    ensures Stores(ws[i], ss[i], GetDomain(ws[k].queries[q].name)) && ss[j] == DeleteText(GetDomain(ws[k].queries[q].name))
  {
    var domain := GetDomain(ws[k].queries[q].name);
    NameErrorByReads(net, ws, ss, q, a, b, c, k);
    assert Exists(ws[a].db, domain);
    j := TextsDeleted(net, ws, ss, domain, a, b);
    assert Values(ws[j + 1].db, domain) == [] && Exists(ws[j + 1].db, domain);
    TouchStep(net, ws[j], ss[j], domain);
    i := AddressesStored(net, ws, ss, domain, a, j);
  }

  // ---- what the answers say in a run ----

  lemma {:induction false} TextsSame(net: Net, ws: seq<World>, ss: seq<Step>, domain: string, i: nat, j: nat)
    requires IsRun(net, ws, ss) && i <= j <= |ss|
    requires forall m :: i <= m < j ==> ss[m] != DeleteText(domain) && !(ss[m].PutText? && ss[m].domain == domain)
    ensures Values(ws[j].db, domain) == Values(ws[i].db, domain)
  {
    if i < j {
      TextsSame(net, ws, ss, domain, i, j - 1);
      TouchStep(net, ws[j - 1], ss[j - 1], domain);
    }
  }

  /**
   A TXT question whose last read comes after the challenge text was put, and before it is changed, is
   answered with that text, whatever else runs.
   */
  lemma ChallengeTextAnswered(net: Net, ws: seq<World>, ss: seq<Step>, q: nat, a: nat, b: nat, c: nat, k: nat, i: nat)
    requires IsRun(net, ws, ss) && ReadsAt(ws, ss, q, a, b, c, k) && ws[k].queries[q].qtype == TXT
    requires i < c && ss[i].PutText? && ss[i].domain == GetDomain(ws[k].queries[q].name)
    requires forall m :: i < m < c ==> ss[m] != DeleteText(ss[i].domain) && !(ss[m].PutText? && ss[m].domain == ss[i].domain)
    ensures var query := ws[k].queries[q];
            query.phase.Answered? && TextsShown(net, [ss[i].value], query.name, query.ttl, query.phase.msg)
  {
    var query := ws[k].queries[q];
    ReadsDecide(net, ws, ss, q, a, b, c, k);
    TextsSame(net, ws, ss, ss[i].domain, i + 1, c);
    assert Values(ws[i + 1].db, ss[i].domain) == [ss[i].value];
    var exist := Addresses(ws[a].db, ss[i].domain) != [] || Values(ws[b].db, ss[i].domain) != [];
    TextsAreShown(net, ws[c].db, query.name, query.ttl, exist);
  }

  lemma {:induction false} AddressesSame(net: Net, ws: seq<World>, ss: seq<Step>, domain: string, i: nat, j: nat)
    requires IsRun(net, ws, ss) && i <= j <= |ss| && forall m :: i <= m < j ==> !StoresAt(ws, ss, domain, m)
    ensures Addresses(ws[j].db, domain) == Addresses(ws[i].db, domain)
  {
    if i < j {
      AddressesSame(net, ws, ss, domain, i, j - 1);
      assert !StoresAt(ws, ss, domain, j - 1);
      TouchStep(net, ws[j - 1], ss[j - 1], domain);
    }
  }

  predicate StoresAt(ws: seq<World>, ss: seq<Step>, domain: string, m: nat)
    requires m < |ss| < |ws|
  {
    Stores(ws[m], ss[m], domain)
  }

  lemma StoredNow(net: Net, w: World, s: Step, domain: string)
    requires Enabled(net, w, s) && Stores(w, s, domain)
    ensures Addresses(Apply(net, w, s).db, domain) == w.updates[s.u].ips
  {
  }

  /**
   An address question whose last read comes after an update stored the domain, and before another
   one does, is answered with the family asked for of that update's addresses.
   */
  lemma StoredAddressesAnswered(net: Net, ws: seq<World>, ss: seq<Step>, q: nat, a: nat, b: nat, c: nat, k: nat, i: nat)
    returns (at: seq<nat>)
    requires IsRun(net, ws, ss) && ReadsAt(ws, ss, q, a, b, c, k)
    requires ws[k].queries[q].qtype == A || ws[k].queries[q].qtype == AAAA
    requires i < c && StoresAt(ws, ss, GetDomain(ws[k].queries[q].name), i)
    requires forall m :: i < m < c ==> !StoresAt(ws, ss, GetDomain(ws[k].queries[q].name), m)
    ensures var query := ws[k].queries[q];
            var ips := ws[i].updates[ss[i].u].ips;
            && query.phase.Answered? && FamilyAt(ips, query.qtype == A, at)
            && FamilyShown(net, ips, at, query.name, query.qtype, query.ttl, query.phase.msg)
  {
    var query := ws[k].queries[q];
    var domain := GetDomain(query.name);
    ReadsDecide(net, ws, ss, q, a, b, c, k);
    AddressesSame(net, ws, ss, domain, i + 1, c);
    StoredNow(net, ws[i], ss[i], domain);
    var exist := Addresses(ws[a].db, domain) != [] || Values(ws[b].db, domain) != [];
    at := FamilyIsShown(net, ws[c].db, query.name, query.qtype, query.ttl, exist);
  }

  lemma UpdateStep(net: Net, w: World, s: Step, w': World, u: nat)
    requires Enabled(net, w, s) && w' == Apply(net, w, s) && u in w.updates
    ensures u in w'.updates && w'.updates[u].hosts == w.updates[u].hosts && w'.updates[u].ips == w.updates[u].ips
    ensures w'.updates[u].next == w.updates[u].next + if s == StoreNext(u) then 1 else 0
    ensures w.updates[u].next <= |w.updates[u].hosts| ==> w'.updates[u].next <= |w'.updates[u].hosts|
  {
  }

  /** An update keeps its host names and addresses, and goes no further than its last host name. */
  lemma {:induction false} UpdateKeeps(net: Net, ws: seq<World>, ss: seq<Step>, u: nat, i: nat, k: nat)
    requires IsRun(net, ws, ss) && i <= k <= |ss| && u in ws[i].updates
    requires ws[i].updates[u].next <= |ws[i].updates[u].hosts|
    ensures u in ws[k].updates && ws[k].updates[u].hosts == ws[i].updates[u].hosts
    ensures ws[k].updates[u].ips == ws[i].updates[u].ips && ws[k].updates[u].next <= |ws[k].updates[u].hosts|
  {
    if i < k {
      UpdateKeeps(net, ws, ss, u, i, k - 1);
      UpdateStep(net, ws[k - 1], ss[k - 1], ws[k], u);
    }
  }

  lemma UpdateStarted(net: Net, ws: seq<World>, ss: seq<Step>, i: nat)
    requires IsRun(net, ws, ss) && i < |ss| && ss[i].StartUpdate?
    ensures Accepted(net, ss[i].r).Some? && ss[i].u in ws[i + 1].updates
    ensures ws[i + 1].updates[ss[i].u] == Pending(FlattenParams(ss[i].r.hostname), Accepted(net, ss[i].r).value, 0)
    ensures ws[i + 1].db == ws[i].db
  {
  }

  /** An update works through the host names of its request, with its addresses, from the first to the last. */
  lemma UpdateOfRequest(net: Net, ws: seq<World>, ss: seq<Step>, i: nat, k: nat)
    requires IsRun(net, ws, ss) && i < k <= |ss| && ss[i].StartUpdate?
    ensures ss[i].u in ws[k].updates
    ensures var p := ws[k].updates[ss[i].u];
            && p.hosts == FlattenParams(ss[i].r.hostname) && Accepted(net, ss[i].r) == Some(p.ips) && p.next <= |p.hosts|
  {
    UpdateStarted(net, ws, ss, i);
    UpdateKeeps(net, ws, ss, ss[i].u, i + 1, k);
  }

  lemma StoresHostOfRequest(net: Net, ws: seq<World>, ss: seq<Step>, i: nat, m: nat)
    requires IsRun(net, ws, ss) && i < m < |ss| && ss[i].StartUpdate? && ss[m] == StoreNext(ss[i].u)
    ensures ss[i].u in ws[m].updates && ws[m].updates[ss[i].u].next < |FlattenParams(ss[i].r.hostname)|
    ensures var host := FlattenParams(ss[i].r.hostname)[ws[m].updates[ss[i].u].next];
            IsHostname(host) ==> StoresAt(ws, ss, ToLower(host), m)
  {
    UpdateOfRequest(net, ws, ss, i, m);
  }

  predicate Reached(ws: seq<World>, ss: seq<Step>, u: nat, m: nat, j: nat)
    requires m < |ss| < |ws|
  {
    ss[m] == StoreNext(u) && u in ws[m].updates && ws[m].updates[u].next == j
  }

  lemma ReachedNow(net: Net, w: World, s: Step, w': World, u: nat, j: nat)
    requires Enabled(net, w, s) && w' == Apply(net, w, s) && u in w.updates && u in w'.updates && j < w'.updates[u].next
    ensures j < w.updates[u].next || (s == StoreNext(u) && j == w.updates[u].next)
  {
    UpdateStep(net, w, s, w', u);
  }

  lemma {:induction false} EachReached(net: Net, ws: seq<World>, ss: seq<Step>, u: nat, i: nat, k: nat, j: nat) returns (m: nat)
    requires IsRun(net, ws, ss) && i <= k <= |ss| && u in ws[i].updates && ws[i].updates[u].next == 0
    requires u in ws[k].updates && j < ws[k].updates[u].next
    ensures i <= m < k && Reached(ws, ss, u, m, j)
  {
    assert i < k;
    m := k - 1;
    UpdateKeeps(net, ws, ss, u, i, m);
    ReachedNow(net, ws[m], ss[m], ws[m + 1], u, j);
    if j < ws[m].updates[u].next {
      m := EachReached(net, ws, ss, u, i, m, j);
    }
  }

  /** Every host name an update has passed was reached, and stored if it is one, by a step of its own. */
  lemma EachHostStored(net: Net, ws: seq<World>, ss: seq<Step>, i: nat, k: nat, j: nat) returns (m: nat)
    requires IsRun(net, ws, ss) && i < k <= |ss| && ss[i].StartUpdate?
    requires ss[i].u in ws[k].updates && j < ws[k].updates[ss[i].u].next
    ensures i < m < k && Reached(ws, ss, ss[i].u, m, j) && j < |FlattenParams(ss[i].r.hostname)|
    ensures var host := FlattenParams(ss[i].r.hostname)[j];
            IsHostname(host) ==> StoresAt(ws, ss, ToLower(host), m)
  {
    UpdateStarted(net, ws, ss, i);
    m := EachReached(net, ws, ss, ss[i].u, i + 1, k, j);
    StoresHostOfRequest(net, ws, ss, i, m);
  }

  // ---- alone, the steps are the operations ----

  lemma StoreHostsMore(db: Tables, hosts: seq<string>, ips: seq<IP>, n: nat)
    requires n < |hosts|
    ensures StoreHosts(db, hosts[..n + 1], ips) == StoreHost(StoreHosts(db, hosts[..n], ips), hosts[n], ips)
  {
    assert hosts[..n + 1][..n] == hosts[..n];
  }

  lemma {:induction false} StoresAlone(net: Net, ws: seq<World>, ss: seq<Step>, u: nat, i: nat, n: nat)
    requires IsRun(net, ws, ss) && i + n <= |ss| && u in ws[i].updates
    requires ws[i].updates[u].next == 0 && n <= |ws[i].updates[u].hosts|
    requires forall m :: i <= m < i + n ==> ss[m] == StoreNext(u)
    ensures u in ws[i + n].updates && ws[i + n].updates[u] == ws[i].updates[u].(next := n)
    ensures ws[i + n].db == StoreHosts(ws[i].db, ws[i].updates[u].hosts[..n], ws[i].updates[u].ips)
  {
    if n > 0 {
      var k := i + n - 1;
      StoresAlone(net, ws, ss, u, i, n - 1);
      assert ss[k] == StoreNext(u);
      StoreHostsMore(ws[i].db, ws[i].updates[u].hosts, ws[i].updates[u].ips, n - 1);
    }
  }

  /** An update that runs without interruption is v1update. */
  lemma AloneIsUpdate(net: Net, ws: seq<World>, ss: seq<Step>, i: nat, n: nat)
    requires IsRun(net, ws, ss) && i + 1 + n <= |ss| && ss[i].StartUpdate? && n == |FlattenParams(ss[i].r.hostname)|
    requires forall m :: i < m < i + 1 + n ==> ss[m] == StoreNext(ss[i].u)
    ensures ws[i + 1 + n].db == Update(net, ws[i].db, ss[i].r)
  {
    UpdateStarted(net, ws, ss, i);
    StoresAlone(net, ws, ss, ss[i].u, i + 1, n);
    var hosts := FlattenParams(ss[i].r.hostname);
    assert hosts[..n] == hosts;
  }

  /** A query between whose reads nothing writes its domain is processQuery. */
  lemma AloneIsProcessQuery(net: Net, ws: seq<World>, ss: seq<Step>, q: nat, a: nat, b: nat, c: nat, k: nat)
    requires IsRun(net, ws, ss) && ReadsAt(ws, ss, q, a, b, c, k)
    requires Untouched(ws, ss, GetDomain(ws[k].queries[q].name), a, c)
    ensures var query := ws[k].queries[q];
            query.phase == Answered(Answer(net, ws[a].db, query.name, query.qtype, query.ttl))
  {
    var domain := GetDomain(ws[k].queries[q].name);
    ReadsDecide(net, ws, ss, q, a, b, c, k);
    UntouchedSame(net, ws, ss, domain, a, b);
    UntouchedSame(net, ws, ss, domain, a, c);
  }

  // ---- why the update has to come before the query ----

  lemma {:induction false} SplitAlone(s: string, sep: char)
    requires sep !in s
    ensures Split(s, sep) == [s]
  {
    if s != [] {
      SplitAlone(s[1..], sep);
      assert [s[0]] + s[1..] == s;
    }
  }

  lemma SingleParameter(s: string)
    requires ',' !in s
    ensures FlattenParams([s]) == [s]
  {
    SplitAlone(s, ',');
    assert [s][..0] == [];
    assert FlattenParams([s]) == [] + Split(s, ',');
  }

  lemma SingleAddress(net: Net, texts: seq<string>)
    requires |texts| == 1 && net.parse(texts[0]).Some?
    ensures ParseAll(net, texts) == Some([net.parse(texts[0]).value])
  {
    assert texts[..|texts| - 1] == [];
    assert ParseAll(net, texts[..|texts| - 1]) == Some([]);
    assert ParseAll(net, texts).value == [net.parse(texts[0]).value];
  }

  lemma SingleRequest(net: Net, host: string, text: string, r: Request)
    requires ',' !in host && ',' !in text && net.parse(text).Some?
    requires r.hostname == [host] && r.myip == [text]
    ensures FlattenParams(r.hostname) == [host]
    ensures Accepted(net, r) == Some([net.parse(text).value])
  {
    SingleParameter(host);
    SingleParameter(text);
    SingleAddress(net, [text]);
  }

  /** The texts are looked up after they are gone and the addresses before they are there. */
  function TornSteps(host: string, text: string): seq<Step> {
    [ PutText(ToLower(host), "token"), Begin(0, host, TXT, 60), LookAddresses(0),
      StartUpdate(0, Request([host], [text])), StoreNext(0), DeleteText(ToLower(host)),
      LookTexts(0), ReadAnswer(0)
    ]
  }

  function TornQuery(host: string, phase: Phase): map<nat, Query> {
    map[0 := Query(host, TXT, 60, phase)]
  }

  function TornUpdate(host: string, ips: seq<IP>, next: nat): map<nat, Pending> {
    map[0 := Pending([host], ips, next)]
  }

  /** The worlds those steps go through. */
  function TornWorlds(host: string, ips: seq<IP>): seq<World> {
    var d := ToLower(host);
    var text := Tables(map[], map[d := ["token"]]);
    var both := Tables(map[d := ips], map[d := ["token"]]);
    var address := Tables(map[d := ips], map[]);
    [ Start(),
      World(text, map[], map[]),
      World(text, map[], TornQuery(host, Begun)),
      World(text, map[], TornQuery(host, SawAddresses(false))),
      World(text, TornUpdate(host, ips, 0), TornQuery(host, SawAddresses(false))),
      World(both, TornUpdate(host, ips, 1), TornQuery(host, SawAddresses(false))),
      World(address, TornUpdate(host, ips, 1), TornQuery(host, SawAddresses(false))),
      World(address, TornUpdate(host, ips, 1), TornQuery(host, Checked(false))),
      World(address, TornUpdate(host, ips, 1), TornQuery(host, Answered(Response(true, true, []))))
    ]
  }

  lemma TornRead(net: Net, host: string, text: string, m: nat)
    requires IsHostname(host) && net.parse(text).Some? && m in {2, 6, 7}
    ensures var ws := TornWorlds(host, [net.parse(text).value]);
            var s := TornSteps(host, text)[m];
            Enabled(net, ws[m], s) && Apply(net, ws[m], s) == ws[m + 1]
  {
    QueryNameNormalised(host, host);
    var ws := TornWorlds(host, [net.parse(text).value]);
    assert Records(net, ws[7].db, host, TXT, 60) == [];
  }

  lemma UpdateStarts(net: Net, w: World, r: Request, host: string, ips: seq<IP>)
    requires w.updates == map[] && FlattenParams(r.hostname) == [host] && Accepted(net, r) == Some(ips)
    ensures Enabled(net, w, StartUpdate(0, r)) && Apply(net, w, StartUpdate(0, r)) == w.(updates := TornUpdate(host, ips, 0))
  {
  }

  lemma TornUpdateStarts(net: Net, host: string, text: string, r: Request)
    requires ',' !in host && ',' !in text && net.parse(text).Some? && r == Request([host], [text])
    ensures var ws := TornWorlds(host, [net.parse(text).value]);
            Enabled(net, ws[3], StartUpdate(0, r)) && Apply(net, ws[3], StartUpdate(0, r)) == ws[4]
  {
    var ips := [net.parse(text).value];
    SingleRequest(net, host, text, r);
    UpdateStarts(net, TornWorlds(host, ips)[3], r, host, ips);
  }

  lemma TornWrite(net: Net, host: string, text: string, m: nat)
    requires IsHostname(host) && net.parse(text).Some? && m in {0, 1, 4, 5}
    ensures var ws := TornWorlds(host, [net.parse(text).value]);
            var s := TornSteps(host, text)[m];
            Enabled(net, ws[m], s) && Apply(net, ws[m], s) == ws[m + 1]
  {
  }

  ghost predicate TornRun(net: Net, ws: seq<World>, ss: seq<Step>, domain: string) {
    && IsRun(net, ws, ss) && |ss| == 8 && ss[1].Begin? && GetDomain(ss[1].name) == domain
    && (forall m :: 1 <= m <= 8 ==> Exists(ws[m].db, domain))
    && ss[1].q in ws[8].queries && ws[8].queries[ss[1].q].phase == Answered(Response(true, true, []))
  }

  /**
   Without that order the claim fails: when the update comes between the reads, a query can report
   a name error for a domain that exists at every moment from its beginning to its end.
   */
  lemma ExistenceIsTorn(net: Net, host: string, text: string)
    requires IsHostname(host) && ',' !in host && ',' !in text && net.parse(text).Some?
    ensures TornRun(net, TornWorlds(host, [net.parse(text).value]), TornSteps(host, text), ToLower(host))
  {
    var ws := TornWorlds(host, [net.parse(text).value]);
    var ss := TornSteps(host, text);
    forall m: nat | m < 8
      ensures Enabled(net, ws[m], ss[m]) && ws[m + 1] == Apply(net, ws[m], ss[m])
    {
      if m == 3 {
        TornUpdateStarts(net, host, text, Request([host], [text]));
      } else if m in {2, 6, 7} {
        TornRead(net, host, text, m);
      } else {
        TornWrite(net, host, text, m);
      }
    }
    QueryNameNormalised(host, host);
  }
}
