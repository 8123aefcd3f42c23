/** What holds in every reachable state and along every run of the manager. */
module ManagerGuarantees {
  import opened Wrappers
  import opened Pki
  import opened Hello
  import opened Renewal
  import opened Manager
  import opened ManagerRuns

  // ---- entries of Manager.state ----

  /**
   Every entry of Manager.state is claimed by the one thread issuing for it, or failed with an
   empty chain and its own removal pending, or installed with a chain that passed validCert
   for its key and certKey.
   */
  lemma EntryPhases(c: Config, ws: seq<World>, ss: seq<Step>, k: nat, ck: CertKey)
    requires Lawful(c.x509) && IsRun(c, ws, ss) && k <= |ss| && ck in ws[k].store.state
    ensures var w := ws[k];
            var id := w.store.state[ck];
            && id in w.store.cells && w.store.cells[id].ck == ck
            && match w.store.cells[id].owner {
                 case Some(t) => w.store.cells[id].chain == [] && At(w, t, Issuing(id)) && w.handshakes[t].ck == ck
                 case None =>
                   if w.store.cells[id].chain == [] then
                     id in w.store.removals && w.store.removals[id].ck == ck
                   else
                     CellAccepted(c.x509, w.store.cells[id], w.now)
               }
  {
    RunKeeps(c, ws, ss, k);
    if IsFailed(ws[k].store, ck) {
    } else if IsInstalled(ws[k].store, ck) {
      assert ws[k].store.cells[ws[k].store.state[ck]].chain != [];
    }
  }

  /** A removal callback always finds its own failed entry and deletes it and nothing else. */
  lemma RemovalDeletesOwnEntry(c: Config, ws: seq<World>, ss: seq<Step>, k: nat)
    requires Lawful(c.x509) && IsRun(c, ws, ss) && k < |ss| && ss[k].RemovalDue?
    ensures var s := ws[k].store;
            var ck := s.removals[ss[k].id].ck;
            && IsFailed(s, ck) && s.state[ck] == ss[k].id
            && ws[k + 1].store == s.(removals := s.removals - {ss[k].id}, state := s.state - {ck})
  {
    RunKeeps(c, ws, ss, k);
    RemovalFindsOwnEntry(c.x509, ws[k].store, ss[k].id, ws[k].now);
  }

  /** A renewal goroutine never finds a loop registered already, and each certKey gets at most one goroutine. */
  lemma RenewalStartsOnce(c: Config, ws: seq<World>, ss: seq<Step>, k: nat)
    requires Lawful(c.x509) && IsRun(c, ws, ss) && k <= |ss|
    ensures forall g :: g in ws[k].starters ==> ws[k].starters[g].ck !in ws[k].renewal
    ensures forall ck :: ws[k].spawned[ck] == if IsInstalled(ws[k].store, ck) then 1 else 0
  {
    RunKeeps(c, ws, ss, k);
    forall g | g in ws[k].starters
      ensures ws[k].starters[g].ck !in ws[k].renewal
    {
      StarterIsFirst(c, ws[k], g);
    }
  }

  // ---- what never changes ----

  ghost predicate InstalledStays(s: Store, s': Store) {
    forall ck :: IsInstalled(s, ck) ==> IsInstalled(s', ck)
  }

  ghost predicate LoopsStayStopped(ls: map<LoopId, Loop>, ls': map<LoopId, Loop>) {
    forall l :: l in ls ==>
      l in ls' && ls'[l].ck == ls[l].ck && (ls[l].stopped ==> ls'[l].stopped && ls'[l].begun == ls[l].begun)
  }

  ghost predicate FailuresGrow(f: map<CertKey, int>, f': map<CertKey, int>) {
    forall ck :: ck in f ==> ck in f' && f[ck] <= f'[ck]
  }

  ghost predicate Evolves(w: World, w': World) {
    && w.now <= w'.now
    && StoreEvolves(w.store, w'.store)
    && LoopsStayStopped(w.loops, w'.loops)
    && FailuresGrow(w.lastFail, w'.lastFail)
  }

  ghost predicate StoreEvolves(s: Store, s': Store) {
    Persists(s, s') && InstalledStays(s, s')
  }

  lemma OnlyAtStays(s: Store, s': Store, ck: CertKey)
    requires OnlyAt(s, s', ck) && (IsInstalled(s, ck) ==> IsInstalled(s', ck))
    ensures InstalledStays(s, s')
  {
  }

  lemma FillEvolves(c: Config, w: World, s: Step)
    requires Lawful(c.x509) && Inv(c, w) && Enabled(c, w, s) && s.LookupCache?
    ensures StoreEvolves(w.store, Apply(c, w, s).store)
  {
    var ck := w.handshakes[s.t].ck;
    AcceptedChainNonempty(c.x509, ck, s.tls.chain, s.tls.key, w.now);
    InstallFrames(w.store, s.id, ck, s.tls, w.now);
    OnlyAtStays(w.store, Install(w.store, s.id, ck, s.tls, w.now), ck);
  }

  lemma ClaimEvolves(c: Config, w: World, s: Step)
    requires Inv(c, w) && Enabled(c, w, s) && s.ClaimCell?
    ensures StoreEvolves(w.store, Apply(c, w, s).store)
  {
    var ck := w.handshakes[s.t].ck;
    ClaimKeeps(c.x509, w.store, s.id, ck, s.key, s.t, w.now);
    OnlyAtStays(w.store, Claim(w.store, s.id, ck, s.key, s.t), ck);
  }

  lemma ExpireEvolves(c: Config, w: World, s: Step)
    requires Lawful(c.x509) && Inv(c, w) && Enabled(c, w, s) && s.RemovalDue?
    ensures StoreEvolves(w.store, Apply(c, w, s).store)
  {
    RemovalFindsOwnEntry(c.x509, w.store, s.id, w.now);
    ExpireKeeps(c.x509, w.store, s.id, w.now);
    OnlyAtStays(w.store, ExpireRemoval(c.x509, w.store, s.id, w.now), w.store.removals[s.id].ck);
  }

  lemma AdoptEvolves(c: Config, w: World, s: Step)
    requires Lawful(c.x509) && Inv(c, w) && Enabled(c, w, s) && OfAdoption(s)
    ensures StoreEvolves(w.store, Apply(c, w, s).store)
  {
    var tls := AdoptedTls(w, s);
    var at := AdoptedAt(w, s);
    var ck := w.loops[s.l].ck;
    AcceptedChainNonempty(c.x509, ck, tls.chain, tls.key, at);
    InstallFrames(w.store, s.id, ck, tls, at);
    OnlyAtStays(w.store, AdoptedStore(w, s), ck);
  }

  function AdoptedAt(w: World, s: Step): int
    requires OfAdoption(s)
  {
    if s.LoopAdoptsCached? then w.now else s.acceptedAt
  }

  function AdoptedStore(w: World, s: Step): Store
    requires OfAdoption(s) && s.l in w.loops
  {
    Install(w.store, s.id, w.loops[s.l].ck, AdoptedTls(w, s), AdoptedAt(w, s))
  }

  lemma PublishEvolves(c: Config, w: World, s: Step)
    requires Lawful(c.x509) && Inv(c, w) && Enabled(c, w, s) && s.IssueOk?
    ensures StoreEvolves(w.store, Apply(c, w, s).store)
  {
    IssuerOwns(c, w, s.t);
    var id := w.handshakes[s.t].pc.id;
    var cell := w.store.cells[id];
    AcceptedChainNonempty(c.x509, cell.ck, s.chain, cell.key, s.acceptedAt);
    CompleteKeeps(c.x509, w.store, id, s.chain, s.leaf, s.acceptedAt, w.now);
    OnlyAtStays(w.store, Complete(w.store, id, s.chain, s.leaf, s.acceptedAt), cell.ck);
  }

  lemma GiveUpEvolves(c: Config, w: World, s: Step)
    requires Inv(c, w) && Enabled(c, w, s) && s.IssueFail?
    ensures StoreEvolves(w.store, Apply(c, w, s).store)
  {
    IssuerOwns(c, w, s.t);
    var id := w.handshakes[s.t].pc.id;
    var due := w.now + CREATE_CERT_RETRY_AFTER;
    AbandonKeeps(c.x509, w.store, id, due, w.now);
    OnlyAtStays(w.store, Abandon(w.store, id, due), w.store.cells[id].ck);
  }

  lemma HandshakeKeepsStore(c: Config, w: World, s: Step)
    requires Enabled(c, w, s) && OfHandshake(s)
    ensures Apply(c, w, s).store == w.store
  {
  }

  lemma StarterKeepsStore(c: Config, w: World, s: Step)
    requires Enabled(c, w, s) && s.StartLoop?
    ensures Apply(c, w, s).store == w.store
  {
  }

  lemma ClockKeepsStore(c: Config, w: World, s: Step)
    requires Enabled(c, w, s) && (s.Tick? || s.Unregister?)
    ensures Apply(c, w, s).store == w.store
  {
  }

  lemma LoopKeepsStore(c: Config, w: World, s: Step)
    requires Enabled(c, w, s) && (s.LoopFires? || s.LoopEnters? || s.LoopRearms? || s.LoopStops?)
    ensures Apply(c, w, s).store == w.store
  {
  }

  lemma TimerKeepsStore(c: Config, w: World, s: Step)
    requires Enabled(c, w, s) && (OfTimer(s) || s.StartLoop?)
    ensures Apply(c, w, s).store == w.store
  {
    if s.StartLoop? {
      StarterKeepsStore(c, w, s);
    } else if s.Tick? || s.Unregister? {
      ClockKeepsStore(c, w, s);
    } else {
      LoopKeepsStore(c, w, s);
    }
  }

  lemma SameStoreEvolves(s: Store)
    ensures StoreEvolves(s, s)
  {
  }

  lemma IssuerKeepsStore(c: Config, w: World, s: Step)
    requires Lawful(c.x509) && Inv(c, w) && Enabled(c, w, s) && OfIssuer(s)
    ensures StoreEvolves(w.store, Apply(c, w, s).store)
  {
    match s {
      case LookupCache(_, _, _, _) => FillEvolves(c, w, s);
      case ClaimCell(_, _, _) => ClaimEvolves(c, w, s);
      case IssueOk(_, _, _, _, _) => PublishEvolves(c, w, s);
      case IssueFail(_) => GiveUpEvolves(c, w, s);
    }
  }

  lemma StepKeepsStore(c: Config, w: World, s: Step)
    requires Lawful(c.x509) && Inv(c, w) && Enabled(c, w, s)
    ensures StoreEvolves(w.store, Apply(c, w, s).store)
  {
    if OfIssuer(s) {
      IssuerKeepsStore(c, w, s);
    } else if s.RemovalDue? {
      ExpireEvolves(c, w, s);
    } else if OfAdoption(s) {
      AdoptEvolves(c, w, s);
    } else {
      SameStoreEvolves(w.store);
      if OfHandshake(s) {
        HandshakeKeepsStore(c, w, s);
      } else {
        TimerKeepsStore(c, w, s);
      }
    }
  }

  /** A step on a loop that was stopped neither restarts it nor lets it enter `do`. */
  lemma LoopStepEvolves(c: Config, w: World, s: Step)
    requires Enabled(c, w, s) && OfTimer(s) && !s.Tick? && !s.Unregister? && Tidy(w.loops[s.l])
    ensures s.l in Apply(c, w, s).loops && Apply(c, w, s).loops == w.loops[s.l := Apply(c, w, s).loops[s.l]]
    ensures var loop := w.loops[s.l];
            var loop' := Apply(c, w, s).loops[s.l];
            loop'.ck == loop.ck && (loop.stopped ==> loop'.stopped && loop'.begun == loop.begun)
  {
    if s.LoopEnters? && w.loops[s.l].stopped {
      StoppedStaysOut(w.loops[s.l], 0);
    }
  }

  lemma OthersKeepLoops(c: Config, w: World, s: Step)
    requires Enabled(c, w, s) && (OfHandshake(s) || OfIssuer(s) || s.RemovalDue?)
    ensures Apply(c, w, s).loops == w.loops
  {
  }

  lemma LoopReplaced(ls: map<LoopId, Loop>, l: LoopId, loop': Loop)
    requires l in ls && loop'.ck == ls[l].ck && (ls[l].stopped ==> loop'.stopped && loop'.begun == ls[l].begun)
    ensures LoopsStayStopped(ls, ls[l := loop'])
  {
  }

  lemma AdoptionKeepsLoops(c: Config, w: World, s: Step)
    requires Enabled(c, w, s) && OfAdoption(s)
    ensures LoopsStayStopped(w.loops, Apply(c, w, s).loops)
  {
    LoopReplaced(w.loops, s.l, Apply(c, w, s).loops[s.l]);
  }

  lemma TimerKeepsLoops(c: Config, w: World, s: Step)
    requires LoopsTidy(w.loops) && Enabled(c, w, s) && OfTimer(s)
    ensures LoopsStayStopped(w.loops, Apply(c, w, s).loops)
  {
    if !s.Tick? && !s.Unregister? {
      LoopStepEvolves(c, w, s);
      LoopReplaced(w.loops, s.l, Apply(c, w, s).loops[s.l]);
    }
  }

  lemma StarterKeepsLoops(c: Config, w: World, s: Step)
    requires Enabled(c, w, s) && s.StartLoop?
    ensures LoopsStayStopped(w.loops, Apply(c, w, s).loops)
  {
  }

  lemma StepKeepsLoops(c: Config, w: World, s: Step)
    requires LoopsTidy(w.loops) && Enabled(c, w, s)
    ensures LoopsStayStopped(w.loops, Apply(c, w, s).loops)
  {
    if OfTimer(s) {
      TimerKeepsLoops(c, w, s);
    } else if OfAdoption(s) {
      AdoptionKeepsLoops(c, w, s);
    } else if s.StartLoop? {
      StarterKeepsLoops(c, w, s);
    } else {
      OthersKeepLoops(c, w, s);
    }
  }

  lemma ClockAdvances(c: Config, w: World, s: Step)
    requires Enabled(c, w, s)
    ensures Apply(c, w, s).now == w.now + if s.Tick? then s.dt else 0
  {
  }

  lemma HandshakesRecordNone(c: Config, w: World, s: Step)
    requires Enabled(c, w, s) && (OfHandshake(s) || OfIssuer(s)) && !s.IssueFail?
    ensures Apply(c, w, s).lastFail == w.lastFail
  {
  }

  lemma TimersRecordNone(c: Config, w: World, s: Step)
    requires Enabled(c, w, s) && !OfHandshake(s) && !OfIssuer(s)
    ensures Apply(c, w, s).lastFail == w.lastFail
  {
  }

  lemma OnlyFailuresRecorded(c: Config, w: World, s: Step)
    requires Enabled(c, w, s) && !s.IssueFail?
    ensures Apply(c, w, s).lastFail == w.lastFail
  {
    if OfHandshake(s) || OfIssuer(s) {
      HandshakesRecordNone(c, w, s);
    } else {
      TimersRecordNone(c, w, s);
    }
  }

  lemma FailureIsRecorded(c: Config, w: World, s: Step)
    requires Enabled(c, w, s) && s.IssueFail?
    ensures Apply(c, w, s).lastFail == w.lastFail[w.store.cells[w.handshakes[s.t].pc.id].ck := w.now]
  {
  }

  lemma StepKeepsFailures(c: Config, w: World, s: Step)
    requires BackoffHolds(w.now, w.store, w.lastFail) && Enabled(c, w, s)
    ensures FailuresGrow(w.lastFail, Apply(c, w, s).lastFail)
  {
    if s.IssueFail? {
      FailureIsRecorded(c, w, s);
    } else {
      OnlyFailuresRecorded(c, w, s);
    }
  }

  lemma StepEvolves(c: Config, w: World, s: Step, w': World)
    requires Lawful(c.x509) && Inv(c, w) && Enabled(c, w, s) && w' == Apply(c, w, s)
    ensures Evolves(w, w')
  {
    StepKeepsStore(c, w, s);
    StepKeepsLoops(c, w, s);
    StepKeepsFailures(c, w, s);
    ClockAdvances(c, w, s);
  }

  lemma EvolvesTransitive(a: World, b: World, d: World)
    requires Evolves(a, b) && Evolves(b, d)
    ensures Evolves(a, d)
  {
  }

  lemma RunStepEvolves(c: Config, ws: seq<World>, ss: seq<Step>, k: nat)
    requires Lawful(c.x509) && IsRun(c, ws, ss) && k < |ss|
    ensures Evolves(ws[k], ws[k + 1])
  {
    RunKeeps(c, ws, ss, k);
    StepEvolves(c, ws[k], ss[k], ws[k + 1]);
  }

  lemma EvolvesReflexive(w: World)
    ensures Evolves(w, w)
  {
  }

  lemma {:induction false} ChainEvolves(ws: seq<World>, i: nat, j: nat)
    requires i <= j < |ws| && forall k :: i <= k < j ==> Evolves(ws[k], ws[k + 1])
    ensures Evolves(ws[i], ws[j])
  {
    if i == j {
      EvolvesReflexive(ws[i]);
    } else {
      ChainEvolves(ws, i, j - 1);
      assert Evolves(ws[j - 1], ws[j - 1 + 1]);
      EvolvesTransitive(ws[i], ws[j - 1], ws[j]);
    }
  }

  /**
   Along a run: a certState whose lock was released never changes again, an installed certKey
   stays installed, and a renewal loop that was stopped never enters `do` again.
   */
  lemma RunEvolves(c: Config, ws: seq<World>, ss: seq<Step>, i: nat, j: nat)
    requires Lawful(c.x509) && IsRun(c, ws, ss) && i <= j <= |ss|
    ensures Evolves(ws[i], ws[j])
  {
    forall k | i <= k < j
      ensures Evolves(ws[k], ws[k + 1])
    {
      RunStepEvolves(c, ws, ss, k);
    }
    ChainEvolves(ws, i, j);
  }

  // ---- single flight ----

  /** At most one thread issues for a certKey at a time. */
  lemma SingleFlight(c: Config, ws: seq<World>, ss: seq<Step>, k: nat, t: ThreadId, u: ThreadId)
    requires Lawful(c.x509) && IsRun(c, ws, ss) && k <= |ss|
    requires t in ws[k].handshakes && ws[k].handshakes[t].pc.Issuing?
    requires u in ws[k].handshakes && ws[k].handshakes[u].pc.Issuing?
    requires ws[k].handshakes[t].ck == ws[k].handshakes[u].ck
    ensures t == u
  {
    RunKeeps(c, ws, ss, k);
    IssuerOwns(c, ws[k], t);
    IssuerOwns(c, ws[k], u);
  }

  /**
   All handshakes answered from one certState, whenever they finish, are served the same key,
   chain and leaf, or none of them is served.
   */
  lemma SameAnswerForAll(c: Config, ws: seq<World>, ss: seq<Step>, i: nat, j: nat, t: ThreadId, u: ThreadId)
    requires Lawful(c.x509) && IsRun(c, ws, ss) && i <= j <= |ss|
    requires t in ws[i].handshakes && ws[i].handshakes[t].pc.Done? && ws[i].handshakes[t].pc.from.Some?
    requires u in ws[j].handshakes && ws[j].handshakes[u].pc.Done?
    requires ws[j].handshakes[u].pc.from == ws[i].handshakes[t].pc.from
    ensures var a := ws[i].handshakes[t].pc.answer;
            var b := ws[j].handshakes[u].pc.answer;
            (a.Served? || b.Served?) ==> a == b
  {
    RunKeeps(c, ws, ss, i);
    RunKeeps(c, ws, ss, j);
    RunEvolves(c, ws, ss, i, j);
    HandshakeIsFit(c, ws[i], t);
    HandshakeIsFit(c, ws[j], u);
  }

  // ---- renewal ----

  /** Every loop's key is the key of the entry it renews, and it has one callback, in one form, until it is stopped. */
  lemma LoopsCoherent(c: Config, ws: seq<World>, ss: seq<Step>, k: nat, l: LoopId)
    requires Lawful(c.x509) && IsRun(c, ws, ss) && k <= |ss| && l in ws[k].loops
    ensures KeyCurrent(ws[k].store, ws[k].loops[l].ck, ws[k].loops[l].key)
    ensures Callbacks(ws[k].loops[l]) <= 1 && Tidy(ws[k].loops[l])
    ensures !ws[k].loops[l].stopped ==> Callbacks(ws[k].loops[l]) == 1
  {
    RunKeeps(c, ws, ss, k);
    LoopIsTidy(c, ws[k], l);
  }

  /** Once stop has returned, no `do` begins, whatever had already gone off. */
  lemma NoRenewalAfterStop(c: Config, ws: seq<World>, ss: seq<Step>, k: nat, j: nat, l: LoopId)
    requires Lawful(c.x509) && IsRun(c, ws, ss) && k < j <= |ss| && ss[k] == LoopStops(l)
    ensures l in ws[k].loops && l in ws[j].loops
    ensures ws[j].loops[l].begun == ws[k].loops[l].begun && ws[j].loops[l].running.None? && ws[j].loops[l].armed == []
  {
    RunEvolves(c, ws, ss, k + 1, j);
    LoopsCoherent(c, ws, ss, j, l);
  }

  lemma AdoptionInstalls(c: Config, w: World, s: Step)
    requires Enabled(c, w, s) && OfAdoption(s)
    ensures s.l in w.loops && s.l in Apply(c, w, s).loops
    ensures Apply(c, w, s).now == w.now && Apply(c, w, s).loops[s.l].ck == w.loops[s.l].ck
    ensures var cell := Cell(w.loops[s.l].ck, AdoptedTls(w, s).key, None, AdoptedTls(w, s).chain,
                             Some(AdoptedTls(w, s).leaf), AdoptedAt(w, s));
            var s' := Apply(c, w, s).store;
            && cell.ck in s'.state && s'.state[cell.ck] in s'.cells && s'.cells[s'.state[cell.ck]] == cell
            && CellAccepted(c.x509, cell, w.now)
            && (s.LoopAdoptsCached? ==> cell.leaf.value.notAfter - w.now > 2 * c.renewBefore + RENEW_JITTER)
  {
    assert Apply(c, w, s).store == AdoptedStore(w, s);
  }

  /**
   A successful `do` leaves an accepted certificate for the loop's key in place; one taken from
   the cache has more than twice renewBefore and the jitter left.
   */
  lemma RenewalInstalls(c: Config, ws: seq<World>, ss: seq<Step>, k: nat)
    requires Lawful(c.x509) && IsRun(c, ws, ss) && k < |ss| && OfAdoption(ss[k])
    ensures var l := ss[k].l;
            var ck := ws[k].loops[l].ck;
            && KeyCurrent(ws[k + 1].store, ck, ws[k + 1].loops[l].key)
            && var cell := ws[k + 1].store.cells[ws[k + 1].store.state[ck]];
               && cell.ck == ck && CellAccepted(c.x509, cell, ws[k + 1].now)
               && (ss[k].LoopAdoptsIssued? ==> cell.key == ws[k].loops[l].key)
               && (ss[k].LoopAdoptsCached? ==> cell.leaf.value.notAfter - ws[k].now > 2 * c.renewBefore + RENEW_JITTER)
  {
    AdoptionInstalls(c, ws[k], ss[k]);
    LoopsCoherent(c, ws, ss, k + 1, ss[k].l);
  }

  // ---- failure back-off ----

  lemma FailureRecorded(c: Config, ws: seq<World>, ss: seq<Step>, i: nat, j: nat)
    requires Lawful(c.x509) && IsRun(c, ws, ss) && i < j <= |ss| && ss[i].IssueFail?
    ensures var ck := ws[i].handshakes[ss[i].t].ck;
            && ck in ws[j].lastFail && ws[i].now <= ws[j].lastFail[ck]
            && BackoffHolds(ws[j].now, ws[j].store, ws[j].lastFail)
  {
    RunKeeps(c, ws, ss, i);
    RunKeeps(c, ws, ss, j);
    IssuerOwns(c, ws[i], ss[i].t);
    RunEvolves(c, ws, ss, i + 1, j);
  }

  /** After a failed issuance no other one for that certKey begins for createCertRetryAfter. */
  lemma BackoffBeforeRetry(c: Config, ws: seq<World>, ss: seq<Step>, i: nat, j: nat)
    requires Lawful(c.x509) && IsRun(c, ws, ss) && i < j < |ss|
    requires ss[i].IssueFail? && ss[j].ClaimCell?
    requires ws[i].handshakes[ss[i].t].ck == ws[j].handshakes[ss[j].t].ck
    ensures ws[j].now >= ws[i].now + CREATE_CERT_RETRY_AFTER && CREATE_CERT_RETRY_AFTER == 60_000_000_000
  {
    FailureRecorded(c, ws, ss, i, j);
  }

  /**
   Meanwhile a lookup finds the failed entry and answers "missing certificate", which is not a
   cache miss, so the handshake ends there.
   */
  lemma BackoffAnswersMissing(c: Config, ws: seq<World>, ss: seq<Step>, i: nat, j: nat, t: ThreadId)
    requires Lawful(c.x509) && IsRun(c, ws, ss) && i < j < |ss|
    requires ss[i].IssueFail? && ws[j].now < ws[i].now + CREATE_CERT_RETRY_AFTER
    requires At(ws[j], t, Looking) && ws[j].handshakes[t].ck == ws[i].handshakes[ss[i].t].ck
    ensures !Enabled(c, ws[j], LookupMiss(t)) && !Enabled(c, ws[j], LookupError(t)) && Enabled(c, ws[j], LookupState(t))
    ensures var id := ws[j].store.state[ws[j].handshakes[t].ck];
            && Apply(c, ws[j], LookupState(t)) == SetPc(ws[j], t, Waiting(id))
            && id in ws[j].store.cells && ws[j].store.cells[id].owner.None?
            && CellAnswer(ws[j].store.cells[id]) == MissingCertificate
  {
    FailureRecorded(c, ws, ss, i, j);
    var ck := ws[j].handshakes[t].ck;
    assert IsFailed(ws[j].store, ck);
  }

  lemma IssuersKeepRemovals(c: Config, w: World, s: Step)
    requires Enabled(c, w, s) && (s.LookupCache? || s.ClaimCell? || s.IssueOk?)
    ensures Apply(c, w, s).store.removals == w.store.removals
  {
  }

  lemma AdoptionKeepsRemovals(c: Config, w: World, s: Step)
    requires Enabled(c, w, s) && OfAdoption(s)
    ensures Apply(c, w, s).store.removals == w.store.removals
  {
  }

  lemma OthersKeepRemovals(c: Config, w: World, s: Step)
    requires Enabled(c, w, s) && !s.IssueFail? && !s.RemovalDue?
    ensures Apply(c, w, s).store.removals == w.store.removals
  {
    if OfHandshake(s) {
      HandshakeKeepsStore(c, w, s);
    } else if OfTimer(s) || s.StartLoop? {
      TimerKeepsStore(c, w, s);
    } else if OfAdoption(s) {
      AdoptionKeepsRemovals(c, w, s);
    } else {
      IssuersKeepRemovals(c, w, s);
    }
  }

  lemma FailureSchedules(c: Config, w: World, s: Step)
    requires Enabled(c, w, s) && s.IssueFail?
    ensures var id := w.handshakes[s.t].pc.id;
            Apply(c, w, s).store.removals ==
            w.store.removals[id := Removal(w.store.cells[id].ck, w.now + CREATE_CERT_RETRY_AFTER)]
  {
  }

  lemma RemovalTakes(c: Config, w: World, s: Step)
    requires Enabled(c, w, s) && s.RemovalDue?
    ensures Apply(c, w, s).store.removals == w.store.removals - {s.id}
  {
  }

  lemma FailsElsewhere(c: Config, w: World, s: Step, id: CellId)
    requires Inv(c, w) && Enabled(c, w, s) && s.IssueFail? && id in w.store.removals
    ensures w.handshakes[s.t].pc.id != id
  {
    IssuerOwns(c, w, s.t);
    assert IsFailed(w.store, w.store.removals[id].ck);
  }

  lemma RemovalStays(c: Config, w: World, s: Step, w': World, id: CellId)
    requires Enabled(c, w, s) && w' == Apply(c, w, s) && id in w.store.removals && s != RemovalDue(id)
    requires s.IssueFail? ==> w.handshakes[s.t].pc.id != id
    ensures id in w'.store.removals && w'.store.removals[id] == w.store.removals[id]
  {
    if s.IssueFail? {
      FailureSchedules(c, w, s);
    } else if s.RemovalDue? {
      RemovalTakes(c, w, s);
    } else {
      OthersKeepRemovals(c, w, s);
    }
  }

  lemma RemovalStaysInRun(c: Config, ws: seq<World>, ss: seq<Step>, k: nat, id: CellId)
    requires Lawful(c.x509) && IsRun(c, ws, ss) && k < |ss| && id in ws[k].store.removals && !RemovedAt(ss, k, id)
    ensures id in ws[k + 1].store.removals && ws[k + 1].store.removals[id] == ws[k].store.removals[id]
  {
    RunKeeps(c, ws, ss, k);
    if ss[k].IssueFail? {
      FailsElsewhere(c, ws[k], ss[k], id);
    }
    RemovalStays(c, ws[k], ss[k], ws[k + 1], id);
  }

  predicate RemovedAt(ss: seq<Step>, m: nat, id: CellId)
    requires m < |ss|
  {
    ss[m] == RemovalDue(id)
  }

  lemma {:induction false} RemovalKept(c: Config, ws: seq<World>, ss: seq<Step>, i: nat, k: nat, id: CellId)
    requires Lawful(c.x509) && IsRun(c, ws, ss) && i <= k <= |ss| && id in ws[i].store.removals
    requires forall m :: i <= m < k ==> !RemovedAt(ss, m, id)
    ensures id in ws[k].store.removals && ws[k].store.removals[id] == ws[i].store.removals[id]
  {
    if i < k {
      RemovalKept(c, ws, ss, i, k - 1, id);
      assert !RemovedAt(ss, k - 1, id);
      RemovalStaysInRun(c, ws, ss, k - 1, id);
    }
  }

  lemma FailureRemoval(c: Config, w: World, s: Step, w': World, id: CellId)
    requires Inv(c, w) && Enabled(c, w, s) && w' == Apply(c, w, s) && s.IssueFail? && w.handshakes[s.t].pc == Issuing(id)
    ensures id in w'.store.removals && w'.store.removals[id] == Removal(w.handshakes[s.t].ck, w.now + 60_000_000_000)
  {
    IssuerOwns(c, w, s.t);
    FailureSchedules(c, w, s);
  }

  /** A failed issuance schedules the removal of its entry for a minute later, and it stays scheduled until it happens. */
  lemma RemovalScheduled(c: Config, ws: seq<World>, ss: seq<Step>, i: nat, k: nat, id: CellId)
    requires Lawful(c.x509) && IsRun(c, ws, ss) && i < k <= |ss|
    requires ss[i].IssueFail? && ws[i].handshakes[ss[i].t].pc == Issuing(id)
    requires forall m :: i < m < k ==> !RemovedAt(ss, m, id)
    ensures id in ws[k].store.removals
    ensures ws[k].store.removals[id] == Removal(ws[i].handshakes[ss[i].t].ck, ws[i].now + 60_000_000_000)
  {
    RunKeeps(c, ws, ss, i);
    FailureRemoval(c, ws[i], ss[i], ws[i + 1], id);
    RemovalKept(c, ws, ss, i + 1, k, id);
  }

  /** So after that minute the entry can go, and once it has, the certKey can be issued for again. */
  lemma RetryAfterMinute(c: Config, ws: seq<World>, ss: seq<Step>, i: nat, k: nat, id: CellId)
    requires Lawful(c.x509) && IsRun(c, ws, ss) && i < k <= |ss|
    requires ss[i].IssueFail? && ws[i].handshakes[ss[i].t].pc == Issuing(id)
    requires forall m :: i < m < k ==> !RemovedAt(ss, m, id)
    requires ws[k].now >= ws[i].now + 60_000_000_000
    ensures Enabled(c, ws[k], RemovalDue(id))
    ensures ws[i].handshakes[ss[i].t].ck !in Apply(c, ws[k], RemovalDue(id)).store.state
  {
    RemovalScheduled(c, ws, ss, i, k, id);
    RunKeeps(c, ws, ss, k);
    RemovalFindsOwnEntry(c.x509, ws[k].store, id, ws[k].now);
    assert IsFailed(ws[k].store, ws[k].store.removals[id].ck);
  }

  // ---- end to end ----

  /**
   Whatever the source of the certificate, a served handshake gets a leaf for the normalised
   host name whose public key matches the private key, ECDSA exactly when the client supports it.
   */
  lemma ServedCertificateFits(c: Config, idna: string -> Option<string>, ws: seq<World>, ss: seq<Step>, k: nat, t: ThreadId)
    requires Lawful(c.x509) && IsRun(c, ws, ss) && k <= |ss|
    requires forall hello :: c.keyFor(hello) == KeyFor(idna, hello)
    requires t in ws[k].handshakes && ws[k].handshakes[t].pc.Done? && ws[k].handshakes[t].pc.answer.Served?
    ensures var h := ws[k].handshakes[t];
            var a := h.pc.answer;
            && idna(h.hello.serverName).Some? && a.leaf.Some?
            && c.x509.verifyHostname(a.leaf.value, TrimSuffixDot(idna(h.hello.serverName).value))
            && KeyMatches(a.leaf.value.publicKey, a.key)
            && (a.leaf.value.publicKey.EcPublic? <==> SupportsECDSA(h.hello))
            && (a.leaf.value.publicKey.RsaPublic? <==> !SupportsECDSA(h.hello))
            && c.x509.parse(Flatten(a.chain)).Some? && c.x509.parse(Flatten(a.chain)).value != []
            && a.leaf.value == c.x509.parse(Flatten(a.chain)).value[0]
  {
    RunKeeps(c, ws, ss, k);
    HandshakeIsFit(c, ws[k], t);
    var h := ws[k].handshakes[t];
    assert c.keyFor(h.hello) == KeyFor(idna, h.hello);
    var cell := ws[k].store.cells[h.pc.from.value];
    assert CellAccepted(c.x509, cell, ws[k].now);
  }

  predicate WithinValidity(leaf: Leaf, at: int) {
    leaf.notBefore <= at <= leaf.notAfter
  }

  /** And it was within its validity period when it was accepted, which was no later than now. */
  lemma ServedCertificateWasValid(c: Config, ws: seq<World>, ss: seq<Step>, k: nat, t: ThreadId)
    requires Lawful(c.x509) && IsRun(c, ws, ss) && k <= |ss|
    requires t in ws[k].handshakes && ws[k].handshakes[t].pc.Done? && ws[k].handshakes[t].pc.answer.Served?
    ensures ws[k].handshakes[t].pc.answer.leaf.Some?
    ensures exists at :: WithinValidity(ws[k].handshakes[t].pc.answer.leaf.value, at) && at <= ws[k].now
  {
    RunKeeps(c, ws, ss, k);
    HandshakeIsFit(c, ws[k], t);
    var cell := ws[k].store.cells[ws[k].handshakes[t].pc.from.value];
    assert CellAccepted(c.x509, cell, ws[k].now);
    assert WithinValidity(cell.leaf.value, cell.acceptedAt);
  }
}
