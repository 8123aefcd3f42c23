/**
 The timers of the renewal loops along the runs of the manager (src/autocert/renewal.go): when the
 first attempt is due, when the next one is due after a success or a failure, and how many begin
 before expiry.
 */
module RenewalRuns {
  import opened Wrappers
  import opened Pki
  import opened Renewal
  import opened Manager
  import opened ManagerRuns
  import opened ManagerGuarantees

  // ---- renewal attempts of a run ----

  /** The loop is between two attempts: its callback is armed for `due` or later, or has gone off by then. */
  ghost predicate AwaitsRetry(w: World, l: LoopId, due: int) {
    && l in w.loops && w.loops[l].running.None?
    && (forall i :: 0 <= i < |w.loops[l].armed| ==> w.loops[l].armed[i] >= due)
    && (w.loops[l].blocked > 0 ==> w.now >= due)
  }

  predicate OnLoop(s: Step, l: LoopId) {
    (s.LoopFires? || s.LoopEnters? || s.LoopRearms? || s.LoopStops? || OfAdoption(s)) && s.l == l
  }

  lemma OtherTimersKeepLoop(c: Config, w: World, s: Step, l: LoopId)
    requires Enabled(c, w, s) && l in w.loops && !OnLoop(s, l) && (OfTimer(s) || s.StartLoop? || OfAdoption(s))
    ensures l in Apply(c, w, s).loops && Apply(c, w, s).loops[l] == w.loops[l]
  {
  }

  lemma LoopKept(c: Config, w: World, s: Step, l: LoopId)
    requires Enabled(c, w, s) && l in w.loops && !OnLoop(s, l)
    ensures l in Apply(c, w, s).loops && Apply(c, w, s).loops[l] == w.loops[l]
  {
    if OfTimer(s) || s.StartLoop? || OfAdoption(s) {
      OtherTimersKeepLoop(c, w, s, l);
    } else {
      OthersKeepLoops(c, w, s);
    }
  }

  /** What a firing and a stop do to the armed deadlines. */
  lemma FiringMoves(c: Config, w: World, s: Step, l: LoopId)
    requires Enabled(c, w, s) && (s.LoopFires? || s.LoopStops?) && s.l == l
    ensures l in w.loops && l in Apply(c, w, s).loops && Apply(c, w, s).now == w.now
    ensures Apply(c, w, s).loops[l] == if s.LoopFires? then Fire(w.loops[l], s.i) else Stop(w.loops[l])
    ensures s.LoopFires? ==> s.i < |w.loops[l].armed| && w.loops[l].armed[s.i] <= w.now
  {
  }

  lemma RetryStep(c: Config, w: World, s: Step, l: LoopId, due: int)
    requires Enabled(c, w, s) && AwaitsRetry(w, l, due) && s != LoopEnters(l)
    ensures AwaitsRetry(Apply(c, w, s), l, due)
  {
    if OnLoop(s, l) {
      FiringMoves(c, w, s, l);
    } else {
      LoopKept(c, w, s, l);
      ClockAdvances(c, w, s);
    }
  }

  lemma {:induction false} RetryWaits(c: Config, ws: seq<World>, ss: seq<Step>, i: nat, j: nat, l: LoopId, due: int)
    requires IsRun(c, ws, ss) && i <= j < |ss| && AwaitsRetry(ws[i], l, due) && ss[j] == LoopEnters(l)
    requires forall m :: i <= m < j ==> ss[m] != LoopEnters(l)
    ensures due <= ws[j].now
    decreases j - i
  {
    if i < j {
      RetryStep(c, ws[i], ss[i], l, due);
      RetryWaits(c, ws, ss, i + 1, j, l, due);
    }
  }

  lemma RearmMoves(c: Config, w: World, s: Step, l: LoopId, draw: int)
    requires Enabled(c, w, s) && s == LoopRearms(l, draw) && InDo(w, l) && Tidy(w.loops[l])
    ensures l in Apply(c, w, s).loops && Apply(c, w, s).loops[l].armed == [w.now + RETRY_BASE + draw]
    ensures AwaitsRetry(Apply(c, w, s), l, w.now + RETRY_BASE + draw) && 0 <= draw < RETRY_BASE
  {
  }

  /** In every run the attempt after a failed one begins no earlier than the wait drawn for it. */
  lemma RetryAfterWait(c: Config, ws: seq<World>, ss: seq<Step>, r: nat, e: nat, l: LoopId, draw: int)
    requires Lawful(c.x509) && IsRun(c, ws, ss) && r < e < |ss|
    requires ss[r] == LoopRearms(l, draw) && InDo(ws[r], l) && ss[e] == LoopEnters(l)
    requires forall m :: r < m < e ==> ss[m] != LoopEnters(l)
    ensures 0 <= draw < RETRY_BASE && ws[r].now + RETRY_BASE + draw <= ws[e].now
  {
    LoopsCoherent(c, ws, ss, r, l);
    RearmMoves(c, ws[r], ss[r], l, draw);
    RetryWaits(c, ws, ss, r + 1, e, l, ws[r].now + RETRY_BASE + draw);
  }

  /**
   The steps of a run at which the loop began an attempt, and at which that attempt gave up and
   the timer was set again, one after the other and with no other attempt between.
   */
  ghost predicate FailingSteps(ws: seq<World>, ss: seq<Step>, l: LoopId, begins: seq<nat>, ends: seq<nat>)
    requires |ws| == |ss| + 1
  {
    && |begins| == |ends|
    && (forall i :: 0 <= i < |begins| ==>
          begins[i] < ends[i] < |ss| && ss[begins[i]] == LoopEnters(l)
          && ss[ends[i]].LoopRearms? && ss[ends[i]].l == l && InDo(ws[ends[i]], l))
    && (forall i :: 0 < i < |begins| ==> ends[i - 1] < begins[i] && NoneBetween(ss, l, ends[i - 1], begins[i]))
  }

  ghost predicate NoneBetween(ss: seq<Step>, l: LoopId, r: nat, e: nat)
    requires e <= |ss|
  {
    forall m :: r < m < e ==> ss[m] != LoopEnters(l)
  }

  function AttemptsOf(ws: seq<World>, ss: seq<Step>, begins: seq<nat>, ends: seq<nat>): seq<Attempt>
    requires |begins| == |ends| && |ws| == |ss| + 1
    requires forall i :: 0 <= i < |begins| ==> begins[i] < |ss| && ends[i] < |ss| && ss[ends[i]].LoopRearms?
  {
    seq(|begins|, i requires 0 <= i < |begins| => Attempt(ws[begins[i]].now, ws[ends[i]].now, ss[ends[i]].draw))
  }

  /**
   The failed attempts of any run form the sequence that the bound on renewal attempts is about,
   `longest` and `late` being bounds on how long an attempt took and on how late a callback ran.
   */
  lemma RunAttemptsFit(c: Config, ws: seq<World>, ss: seq<Step>, l: LoopId, begins: seq<nat>, ends: seq<nat>,
                       longest: nat, late: nat)
    requires Lawful(c.x509) && IsRun(c, ws, ss) && FailingSteps(ws, ss, l, begins, ends)
    requires forall i :: 0 <= i < |begins| ==> ws[ends[i]].now <= ws[begins[i]].now + longest
    requires forall i :: 0 < i < |begins| ==>
               ws[begins[i]].now <= ws[ends[i - 1]].now + RETRY_BASE + ss[ends[i - 1]].draw + late
    ensures FailingLoop(AttemptsOf(ws, ss, begins, ends), longest, late)
  {
    var attempts := AttemptsOf(ws, ss, begins, ends);
    forall i | 0 <= i < |attempts|
      ensures attempts[i].begin <= attempts[i].end <= attempts[i].begin + longest && 0 <= attempts[i].draw < RETRY_BASE
    {
      RunEvolves(c, ws, ss, begins[i], ends[i]);
      RunKeeps(c, ws, ss, ends[i]);
      LoopIsTidy(c, ws[ends[i]], l);
      RearmMoves(c, ws[ends[i]], ss[ends[i]], l, ss[ends[i]].draw);
    }
    forall i | 0 < i < |attempts|
      ensures NextBegin(attempts[i - 1]) <= attempts[i].begin <= NextBegin(attempts[i - 1]) + late
    {
      RetryAfterWait(c, ws, ss, ends[i - 1], begins[i], l, ss[ends[i - 1]].draw);
    }
  }

  /** So in any run in which a loop's attempts fail until expiry, enough of them were begun by then. */
  lemma RunHasEnoughAttempts(c: Config, ws: seq<World>, ss: seq<Step>, l: LoopId, begins: seq<nat>, ends: seq<nat>,
                             longest: nat, late: nat, expiry: int, renewBefore: nat, attempts: seq<Attempt>)
    requires Lawful(c.x509) && IsRun(c, ws, ss) && FailingSteps(ws, ss, l, begins, ends) && begins != []
    requires forall i :: 0 <= i < |begins| ==> ws[ends[i]].now <= ws[begins[i]].now + longest
    requires forall i :: 0 < i < |begins| ==>
               ws[begins[i]].now <= ws[ends[i - 1]].now + RETRY_BASE + ss[ends[i - 1]].draw + late
    requires attempts == AttemptsOf(ws, ss, begins, ends)
    requires attempts[0].begin <= expiry - renewBefore && expiry < NextBegin(attempts[|attempts| - 1]) + late
    ensures EnoughBegun(attempts, longest, late, expiry, renewBefore)
  {
    RunAttemptsFit(c, ws, ss, l, begins, ends, longest, late);
    EnoughAttempts(attempts, longest, late, expiry, renewBefore);
  }

  // ---- the first deadline ----

  /** When the certificate of the entry for `ck` expires. */
  function ExpiryOf(s: Store, ck: CertKey): Option<int> {
    if ck in s.state && s.state[ck] in s.cells && s.cells[s.state[ck]].leaf.Some? then
      Some(s.cells[s.state[ck]].leaf.value.notAfter)
    else None
  }

  /** A renewal goroutine that has not run yet was given the expiry of what is installed. */
  ghost predicate StartersFresh(s: Store, starters: map<nat, Starter>) {
    forall g :: g in starters ==> ExpiryOf(s, starters[g].ck) == Some(starters[g].exp)
  }

  lemma FreshFrame(s: Store, s': Store, ck: CertKey, starters: map<nat, Starter>)
    requires OnlyAt(s, s', ck) && StartersFresh(s, starters)
    requires forall g :: g in starters ==> KeyCurrent(s, starters[g].ck, starters[g].key) && starters[g].ck != ck
    ensures StartersFresh(s', starters)
  {
    forall g | g in starters
      ensures ExpiryOf(s', starters[g].ck) == Some(starters[g].exp)
    {
      assert IsInstalled(s, starters[g].ck) && IsInstalled(s', starters[g].ck);
    }
  }

  /** The entry of a certKey that has no certificate yet changes. */
  lemma FreshUninstalled(s: Store, s': Store, ck: CertKey, starters: map<nat, Starter>, loops: map<LoopId, Loop>)
    requires OnlyAt(s, s', ck) && !IsInstalled(s, ck) && KeysCurrent(s, starters, loops) && StartersFresh(s, starters)
    ensures StartersFresh(s', starters)
  {
    FreshFrame(s, s', ck, starters);
  }

  /** The entry of a certKey that has its loop already changes. */
  lemma FreshByLoop(s: Store, s': Store, l: LoopId, starters: map<nat, Starter>, loops: map<LoopId, Loop>,
                    renewal: map<CertKey, LoopId>)
    requires l in loops && OnlyAt(s, s', loops[l].ck)
    requires KeysCurrent(s, starters, loops) && LoopsApart(starters, loops, renewal) && StartersFresh(s, starters)
    ensures StartersFresh(s', starters)
  {
    FreshFrame(s, s', loops[l].ck, starters);
  }

  lemma OthersKeepFresh(c: Config, w: World, s: Step)
    requires Enabled(c, w, s) && (OfHandshake(s) || OfTimer(s))
    ensures Apply(c, w, s).store == w.store && Apply(c, w, s).starters == w.starters
  {
  }

  lemma StarterLeaves(c: Config, w: World, s: Step)
    requires Enabled(c, w, s) && s.StartLoop?
    ensures Apply(c, w, s).store == w.store && Apply(c, w, s).starters == w.starters - {s.g}
  {
  }

  lemma ClaimKeepsFresh(c: Config, w: World, s: Step)
    requires Inv(c, w) && Enabled(c, w, s) && s.ClaimCell? && StartersFresh(w.store, w.starters)
    ensures StartersFresh(Apply(c, w, s).store, w.starters)
  {
    var ck := w.handshakes[s.t].ck;
    var s' := Claim(w.store, s.id, ck, s.key, s.t);
    ClaimFrames(w.store, s.id, ck, s.key, s.t);
    FreshUninstalled(w.store, s', ck, w.starters, w.loops);
  }

  lemma FailureKeepsFresh(c: Config, w: World, s: Step)
    requires Inv(c, w) && Enabled(c, w, s) && s.IssueFail? && StartersFresh(w.store, w.starters)
    ensures StartersFresh(Apply(c, w, s).store, w.starters)
  {
    IssuerOwns(c, w, s.t);
    var id := w.handshakes[s.t].pc.id;
    var due := w.now + CREATE_CERT_RETRY_AFTER;
    AbandonKeeps(c.x509, w.store, id, due, w.now);
    FreshUninstalled(w.store, Abandon(w.store, id, due), w.store.cells[id].ck, w.starters, w.loops);
  }

  lemma RemovalKeepsFresh(c: Config, w: World, s: Step)
    requires Lawful(c.x509) && Inv(c, w) && Enabled(c, w, s) && s.RemovalDue? && StartersFresh(w.store, w.starters)
    ensures StartersFresh(Apply(c, w, s).store, w.starters)
  {
    RemovalFindsOwnEntry(c.x509, w.store, s.id, w.now);
    ExpireKeeps(c.x509, w.store, s.id, w.now);
    FreshUninstalled(w.store, ExpireRemoval(c.x509, w.store, s.id, w.now), w.store.removals[s.id].ck, w.starters, w.loops);
  }

  lemma AdoptionKeepsFresh(c: Config, w: World, s: Step)
    requires Lawful(c.x509) && Inv(c, w) && Enabled(c, w, s) && OfAdoption(s) && StartersFresh(w.store, w.starters)
    ensures StartersFresh(Apply(c, w, s).store, w.starters)
  {
    var tls, at, ck := AdoptedTls(w, s), AdoptedAt(w, s), w.loops[s.l].ck;
    AcceptedChainNonempty(c.x509, ck, tls.chain, tls.key, at);
    InstallFrames(w.store, s.id, ck, tls, at);
    FreshByLoop(w.store, AdoptedStore(w, s), s.l, w.starters, w.loops, w.renewal);
  }

  /** A first certificate: its goroutine is given its expiry. */
  lemma FreshGrows(s: Store, s': Store, ck: CertKey, g: nat, st: Starter, starters: map<nat, Starter>, loops: map<LoopId, Loop>)
    requires OnlyAt(s, s', ck) && !IsInstalled(s, ck) && KeysCurrent(s, starters, loops) && StartersFresh(s, starters)
    requires st.ck == ck && ExpiryOf(s', ck) == Some(st.exp)
    ensures StartersFresh(s', starters[g := st])
  {
    FreshUninstalled(s, s', ck, starters, loops);
  }

  lemma FillIsFresh(c: Config, w: World, s: Step)
    requires Lawful(c.x509) && Inv(c, w) && Enabled(c, w, s) && s.LookupCache? && StartersFresh(w.store, w.starters)
    ensures StartersFresh(Apply(c, w, s).store, Apply(c, w, s).starters)
  {
    var ck := w.handshakes[s.t].ck;
    AcceptedChainNonempty(c.x509, ck, s.tls.chain, s.tls.key, w.now);
    InstallFrames(w.store, s.id, ck, s.tls, w.now);
    var w' := Apply(c, w, s);
    FreshGrows(w.store, w'.store, ck, s.g, w'.starters[s.g], w.starters, w.loops);
  }

  lemma IssueIsFresh(c: Config, w: World, s: Step)
    requires Lawful(c.x509) && Inv(c, w) && Enabled(c, w, s) && s.IssueOk? && StartersFresh(w.store, w.starters)
    ensures StartersFresh(Apply(c, w, s).store, Apply(c, w, s).starters)
  {
    IssuerOwns(c, w, s.t);
    var id := w.handshakes[s.t].pc.id;
    var cell := w.store.cells[id];
    AcceptedChainNonempty(c.x509, cell.ck, s.chain, cell.key, s.acceptedAt);
    CompleteKeeps(c.x509, w.store, id, s.chain, s.leaf, s.acceptedAt, w.now);
    var w' := Apply(c, w, s);
    FreshGrows(w.store, w'.store, cell.ck, s.g, w'.starters[s.g], w.starters, w.loops);
  }

  lemma StepKeepsFresh(c: Config, w: World, s: Step)
    requires Lawful(c.x509) && Inv(c, w) && Enabled(c, w, s) && StartersFresh(w.store, w.starters)
    ensures StartersFresh(Apply(c, w, s).store, Apply(c, w, s).starters)
  {
    if s.LookupCache? {
      FillIsFresh(c, w, s);
    } else if s.IssueOk? {
      IssueIsFresh(c, w, s);
    } else if s.StartLoop? {
      StarterLeaves(c, w, s);
    } else if OfHandshake(s) || OfTimer(s) {
      OthersKeepFresh(c, w, s);
    } else {
      StartersUntouched(c, w, s);
      if s.ClaimCell? {
        ClaimKeepsFresh(c, w, s);
      } else if s.IssueFail? {
        FailureKeepsFresh(c, w, s);
      } else if s.RemovalDue? {
        RemovalKeepsFresh(c, w, s);
      } else {
        AdoptionKeepsFresh(c, w, s);
      }
    }
  }

  lemma StartersUntouched(c: Config, w: World, s: Step)
    requires Enabled(c, w, s) && (s.ClaimCell? || s.IssueFail? || s.RemovalDue? || OfAdoption(s))
    ensures Apply(c, w, s).starters == w.starters
  {
  }

  lemma {:induction false} RunKeepsFresh(c: Config, ws: seq<World>, ss: seq<Step>, k: nat)
    requires Lawful(c.x509) && IsRun(c, ws, ss) && k <= |ss|
    ensures StartersFresh(ws[k].store, ws[k].starters)
  {
    if k > 0 {
      RunKeepsFresh(c, ws, ss, k - 1);
      RunKeeps(c, ws, ss, k - 1);
      StepKeepsFresh(c, ws[k - 1], ss[k - 1]);
    }
  }

  lemma StartArms(c: Config, w: World, s: Step, w': World)
    requires Enabled(c, w, s) && s.StartLoop? && w.starters[s.g].ck !in w.renewal && w' == Apply(c, w, s)
    ensures s.l !in w.loops && s.l in w'.loops && w'.loops[s.l].ck == w.starters[s.g].ck
    ensures w'.renewal == w.renewal[w.starters[s.g].ck := s.l] && w'.now == w.now
    ensures w'.loops[s.l].running.None? && w'.loops[s.l].blocked == 0 && w'.loops[s.l].begun == 0
    ensures |w'.loops[s.l].armed| == 1
    ensures var d := w'.loops[s.l].armed[0];
            var before := w.starters[s.g].exp - c.renewBefore;
            w.now <= d <= Max(w.now, before) && before - RENEW_JITTER < d
  {
  }

  /**
   Every renewal goroutine registers a loop with one timer, due no earlier than now, no later than
   renewBefore ahead of the expiry of the installed certificate (or now, if that is past), and less
   than the jitter earlier than that.
   */
  lemma FirstDeadline(c: Config, ws: seq<World>, ss: seq<Step>, i: nat)
    requires Lawful(c.x509) && IsRun(c, ws, ss) && i < |ss| && ss[i].StartLoop?
    ensures ss[i].g in ws[i].starters
    ensures var ck := ws[i].starters[ss[i].g].ck;
            && ExpiryOf(ws[i].store, ck).Some?
            && ss[i].l in ws[i + 1].loops && ws[i + 1].loops[ss[i].l].ck == ck && |ws[i + 1].loops[ss[i].l].armed| == 1
            && ck in ws[i + 1].renewal && ws[i + 1].renewal[ck] == ss[i].l
            && var d := ws[i + 1].loops[ss[i].l].armed[0];
               var before := ExpiryOf(ws[i].store, ck).value - c.renewBefore;
               && ws[i].now <= d && (d <= ws[i].now || d <= before)
               && before - RENEW_JITTER < d
  {
    RunKeeps(c, ws, ss, i);
    RunKeepsFresh(c, ws, ss, i);
    StarterIsFirst(c, ws[i], ss[i].g);
    StartArms(c, ws[i], ss[i], ws[i + 1]);
  }

  /**
   So when a loop is started by renewBefore ahead of expiry, its first callback runs when it is due
   and every attempt fails, enough attempts have begun by expiry.
   */
  lemma StartedLoopRenewsInTime(c: Config, ws: seq<World>, ss: seq<Step>, i: nat, begins: seq<nat>, ends: seq<nat>,
                                longest: nat, late: nat, expiry: int, attempts: seq<Attempt>)
    requires Lawful(c.x509) && IsRun(c, ws, ss) && i < |ss| && ss[i].StartLoop? && ss[i].g in ws[i].starters
    requires Some(expiry) == ExpiryOf(ws[i].store, ws[i].starters[ss[i].g].ck)
    requires c.renewBefore >= 0 && ws[i].now <= expiry - c.renewBefore
    requires FailingSteps(ws, ss, ss[i].l, begins, ends) && begins != [] && i < begins[0]
    requires ss[i].l in ws[i + 1].loops && [ws[begins[0]].now] == ws[i + 1].loops[ss[i].l].armed
    requires forall m :: 0 <= m < |begins| ==> ws[ends[m]].now <= ws[begins[m]].now + longest
    requires forall m :: 0 < m < |begins| ==>
               ws[begins[m]].now <= ws[ends[m - 1]].now + RETRY_BASE + ss[ends[m - 1]].draw + late
    requires attempts == AttemptsOf(ws, ss, begins, ends)
    requires expiry < NextBegin(attempts[|attempts| - 1]) + late
    ensures EnoughBegun(attempts, longest, late, expiry, c.renewBefore)
  {
    FirstDeadline(c, ws, ss, i);
    assert attempts[0].begin == ws[begins[0]].now;
    RunHasEnoughAttempts(c, ws, ss, ss[i].l, begins, ends, longest, late, expiry, c.renewBefore, attempts);
  }

  // ---- the deadlines after that ----

  /** Counted from `now`, the wait ends at most renewBefore ahead of the expiry, or at once, and less than the jitter earlier. */
  predicate WaitFits(now: int, expiry: int, renewBefore: int, wait: int) {
    && 0 <= wait && (wait == 0 || now + wait <= expiry - renewBefore)
    && expiry - renewBefore - RENEW_JITTER < now + wait
  }

  lemma AdoptionSetsWait(c: Config, w: World, s: Step) returns (wait: int)
    requires Enabled(c, w, s) && OfAdoption(s)
    ensures s.l in w.loops && s.l in Apply(c, w, s).loops && Apply(c, w, s).loops[s.l].running == Some(Renewed(wait))
    ensures WaitFits(w.now, AdoptedTls(w, s).leaf.notAfter, c.renewBefore, wait)
  {
    wait := NextSpec(w.now, AdoptedTls(w, s).leaf.notAfter, c.renewBefore, s.draw);
  }

  lemma RearmSets(c: Config, w: World, s: Step, l: LoopId, draw: int)
    requires Enabled(c, w, s) && s == LoopRearms(l, draw) && Tidy(w.loops[l])
    ensures l in Apply(c, w, s).loops && Apply(c, w, s).loops[l].running.None?
    ensures match w.loops[l].running
            case Some(Renewed(wait)) => Apply(c, w, s).loops[l].armed == [w.now + wait]
            case Some(Busy) =>
              |Apply(c, w, s).loops[l].armed| == 1
              && w.now + RENEW_JITTER / 2 <= Apply(c, w, s).loops[l].armed[0] < w.now + RENEW_JITTER
            case None => false
  {
  }

  lemma RunningStays(c: Config, w: World, s: Step, l: LoopId)
    requires Enabled(c, w, s) && l in w.loops && w.loops[l].running.Some? && w.loops[l].running != Some(Busy)
    requires !(s.LoopRearms? && s.l == l)
    ensures l in Apply(c, w, s).loops && Apply(c, w, s).loops[l].running == w.loops[l].running
  {
    if OnLoop(s, l) {
      FiringMoves(c, w, s, l);
    } else {
      LoopKept(c, w, s, l);
    }
  }

  lemma {:induction false} WaitStays(c: Config, ws: seq<World>, ss: seq<Step>, i: nat, j: nat, l: LoopId)
    requires IsRun(c, ws, ss) && i <= j <= |ss| && l in ws[i].loops
    requires ws[i].loops[l].running.Some? && ws[i].loops[l].running != Some(Busy)
    requires forall m :: i <= m < j ==> !RearmsAt(ss, m, l)
    ensures l in ws[j].loops && ws[j].loops[l].running == ws[i].loops[l].running
  {
    if i < j {
      WaitStays(c, ws, ss, i, j - 1, l);
      assert !RearmsAt(ss, j - 1, l);
      RunningStays(c, ws[j - 1], ss[j - 1], l);
    }
  }

  predicate RearmsAt(ss: seq<Step>, m: nat, l: LoopId)
    requires m < |ss|
  {
    ss[m].LoopRearms? && ss[m].l == l
  }

  /**
   After a successful renewal at step i the timer set at step j is due `wait` later, where counted
   from step i that is at most renewBefore ahead of the new certificate's expiry (or at once) and
   less than the jitter earlier.
   */
  lemma NextDeadline(c: Config, ws: seq<World>, ss: seq<Step>, i: nat, j: nat) returns (wait: int)
    requires Lawful(c.x509) && IsRun(c, ws, ss) && i < j < |ss| && OfAdoption(ss[i])
    requires RearmsAt(ss, j, ss[i].l) && forall m :: i < m < j ==> !RearmsAt(ss, m, ss[i].l)
    ensures ss[i].l in ws[i].loops && ss[i].l in ws[j + 1].loops
    ensures ws[j + 1].loops[ss[i].l].armed == [ws[j].now + wait]
    ensures WaitFits(ws[i].now, AdoptedTls(ws[i], ss[i]).leaf.notAfter, c.renewBefore, wait)
  {
    wait := AdoptionSetsWait(c, ws[i], ss[i]);
    WaitStays(c, ws, ss, i + 1, j, ss[i].l);
    LoopsCoherent(c, ws, ss, j, ss[i].l);
    RearmSets(c, ws[j], ss[j], ss[i].l, ss[j].draw);
  }

  /** After a failed attempt the next one is due between half the jitter and the jitter later. */
  lemma RetryDeadline(c: Config, ws: seq<World>, ss: seq<Step>, j: nat, l: LoopId)
    requires Lawful(c.x509) && IsRun(c, ws, ss) && j < |ss| && RearmsAt(ss, j, l) && InDo(ws[j], l)
    ensures l in ws[j + 1].loops && |ws[j + 1].loops[l].armed| == 1
    ensures ws[j].now + RENEW_JITTER / 2 <= ws[j + 1].loops[l].armed[0] < ws[j].now + RENEW_JITTER
  {
    LoopsCoherent(c, ws, ss, j, l);
    RearmSets(c, ws[j], ss[j], l, ss[j].draw);
  }

  // ---- the registered loops ----

  lemma RegistryStep(c: Config, w: World, s: Step)
    requires Enabled(c, w, s) && !s.StartLoop?
    ensures Apply(c, w, s).renewal == if s.Unregister? then w.renewal - {s.ck} else w.renewal
  {
  }

  ghost predicate StartersFirst(w: World) {
    forall g :: g in w.starters ==> w.starters[g].ck !in w.renewal
  }

  lemma StartRegisters(c: Config, w: World, s: Step, w': World, ck: CertKey)
    requires StartersFirst(w) && Enabled(c, w, s) && w' == Apply(c, w, s) && ck in w.renewal && s.StartLoop?
    ensures ck in w'.renewal && w'.renewal[ck] == w.renewal[ck]
  {
    StarterStepRegisters(c, w, s, w');
  }

  lemma StarterStepRegisters(c: Config, w: World, s: Step, w': World)
    requires Enabled(c, w, s) && w' == Apply(c, w, s) && s.StartLoop?
    ensures s.g in w.starters
    ensures w.starters[s.g].ck !in w.renewal ==> w'.renewal == w.renewal[w.starters[s.g].ck := s.l]
  {
  }

  predicate Unregisters(s: Step, ck: CertKey) {
    s.Unregister? && s.ck == ck
  }

  lemma RegisteredStep(c: Config, w: World, s: Step, w': World, ck: CertKey)
    requires StartersFirst(w) && Enabled(c, w, s) && w' == Apply(c, w, s) && ck in w.renewal && !Unregisters(s, ck)
    ensures ck in w'.renewal && w'.renewal[ck] == w.renewal[ck]
  {
    if s.StartLoop? {
      StartRegisters(c, w, s, w', ck);
    } else {
      RegistryStep(c, w, s);
    }
  }

  predicate UnregistersAt(ss: seq<Step>, m: nat, ck: CertKey)
    requires m < |ss|
  {
    Unregisters(ss[m], ck)
  }

  /** A loop stays registered under its certKey until that certKey is unregistered. */
  lemma {:induction false} StaysRegistered(c: Config, ws: seq<World>, ss: seq<Step>, ck: CertKey, i: nat, k: nat)
    requires Lawful(c.x509) && IsRun(c, ws, ss) && i <= k <= |ss| && ck in ws[i].renewal
    requires forall m :: i <= m < k ==> !UnregistersAt(ss, m, ck)
    ensures ck in ws[k].renewal && ws[k].renewal[ck] == ws[i].renewal[ck]
  {
    if i < k {
      StaysRegistered(c, ws, ss, ck, i, k - 1);
      assert !UnregistersAt(ss, k - 1, ck);
      RenewalStartsOnce(c, ws, ss, k - 1);
      RegisteredStep(c, ws[k - 1], ss[k - 1], ws[k], ck);
    }
  }
}
