/**
 Every interleaving of the manager's critical sections: an unbounded set of handshakes,
 the removal timers of failed issuances, the goroutines that start renewal loops, the
 loops themselves and stopRenew. The cache, the host policy, the CA and the clock answer
 in any way they like; what they return is part of the step.
 */
module ManagerRuns {
  import opened Wrappers
  import opened Pki
  import opened Hello
  import opened Renewal
  import opened Manager

  datatype Config = Config(x509: X509, keyFor: ClientHello -> Option<CertKey>, renewBefore: int)

  /** Where a handshake for a regular certificate stands. */
  datatype Pc =
    | Looking
    | Uncached
    | Allowed
    | Waiting(id: CellId)
    | Issuing(id: CellId)
    | Done(from: Option<CellId>, answer: Answer)

  datatype Handshake = Handshake(hello: ClientHello, ck: CertKey, pc: Pc)

  /** A `go m.renew(ck, key, exp)` that has not run yet. */
  datatype Starter = Starter(ck: CertKey, key: PrivateKey, exp: int)

  type LoopId = nat

  /**
   `spawned` counts the renew goroutines started for each certKey and `lastFail` is when the
   latest issuance for it failed; both are history.
   */
  datatype World = World(
    now: int,
    store: Store,
    handshakes: map<ThreadId, Handshake>,
    starters: map<nat, Starter>,
    loops: map<LoopId, Loop>,
    renewal: map<CertKey, LoopId>,
    spawned: multiset<CertKey>,
    lastFail: map<CertKey, int>)

  function Initial(now: int): World {
    World(now, Store(map[], map[], map[]), map[], map[], map[], map[], multiset{}, map[])
  }

  datatype Step =
    | Tick(dt: nat)
    | Arrive(t: ThreadId, hello: ClientHello)
    | LookupState(t: ThreadId)
    | LookupCache(t: ThreadId, id: CellId, tls: TlsCert, g: nat)
    | LookupMiss(t: ThreadId)
    | LookupError(t: ThreadId)
    | ReadCell(t: ThreadId)
    | Policy(t: ThreadId, ok: bool)
    | JoinCell(t: ThreadId)
    | ClaimCell(t: ThreadId, id: CellId, key: PrivateKey)
    | NoKey(t: ThreadId)
    | IssueOk(t: ThreadId, chain: seq<Bytes>, leaf: Leaf, acceptedAt: int, g: nat)
    | IssueFail(t: ThreadId)
    | RemovalDue(id: CellId)
    | StartLoop(g: nat, l: LoopId, draw: int)
    | LoopFires(l: LoopId, i: nat)
    | LoopEnters(l: LoopId)
    | LoopAdoptsCached(l: LoopId, id: CellId, tls: TlsCert, draw: int)
    | LoopAdoptsIssued(l: LoopId, id: CellId, chain: seq<Bytes>, leaf: Leaf, acceptedAt: int, draw: int)
    | LoopRearms(l: LoopId, draw: int)
    | Unregister(ck: CertKey)
    | LoopStops(l: LoopId)

  predicate At(w: World, t: ThreadId, pc: Pc) {
    t in w.handshakes && w.handshakes[t].pc == pc
  }

  function SetPc(w: World, t: ThreadId, pc: Pc): World
    requires t in w.handshakes
  {
    w.(handshakes := w.handshakes[t := w.handshakes[t].(pc := pc)])
  }

  function Spawn(w: World, g: nat, ck: CertKey, key: PrivateKey, exp: int): World {
    w.(starters := w.starters[g := Starter(ck, key, exp)], spawned := w.spawned + multiset{ck})
  }

  predicate KeyFits(ck: CertKey, key: PrivateKey) {
    if ck.isRSA then key.RsaPrivate? else key.EcPrivate?
  }

  predicate InDo(w: World, l: LoopId) {
    l in w.loops && w.loops[l].running == Some(Busy)
  }

  predicate Enabled(c: Config, w: World, s: Step) {
    match s
    case Tick(_) => true
    case Arrive(t, hello) => t !in w.handshakes && c.keyFor(hello).Some?
    case LookupState(t) => At(w, t, Looking) && w.handshakes[t].ck in w.store.state
    case LookupCache(t, id, tls, g) =>
      && At(w, t, Looking) && w.handshakes[t].ck !in w.store.state
      && id !in w.store.cells && g !in w.starters
      && Accepts(c.x509, w.handshakes[t].ck, tls.chain, tls.key, w.now, tls.leaf)
    case LookupMiss(t) => At(w, t, Looking) && w.handshakes[t].ck !in w.store.state
    case LookupError(t) => At(w, t, Looking) && w.handshakes[t].ck !in w.store.state
    case ReadCell(t) =>
      && t in w.handshakes && w.handshakes[t].pc.Waiting?
      && w.handshakes[t].pc.id in w.store.cells && w.store.cells[w.handshakes[t].pc.id].owner.None?
    case Policy(t, _) => At(w, t, Uncached)
    case JoinCell(t) => At(w, t, Allowed) && w.handshakes[t].ck in w.store.state
    case ClaimCell(t, id, key) =>
      && At(w, t, Allowed) && w.handshakes[t].ck !in w.store.state
      && id !in w.store.cells && KeyFits(w.handshakes[t].ck, key)
    case NoKey(t) => At(w, t, Allowed) && w.handshakes[t].ck !in w.store.state
    case IssueOk(t, chain, leaf, acceptedAt, g) =>
      && t in w.handshakes && w.handshakes[t].pc.Issuing? && w.handshakes[t].pc.id in w.store.cells
      && acceptedAt <= w.now && g !in w.starters
      && var cell := w.store.cells[w.handshakes[t].pc.id];
         Accepts(c.x509, cell.ck, chain, cell.key, acceptedAt, leaf)
    case IssueFail(t) =>
      t in w.handshakes && w.handshakes[t].pc.Issuing? && w.handshakes[t].pc.id in w.store.cells
    case RemovalDue(id) =>
      && id in w.store.removals && w.store.removals[id].due <= w.now
      && (w.store.removals[id].ck in w.store.state ==> w.store.state[w.store.removals[id].ck] in w.store.cells)
    case StartLoop(g, l, draw) => g in w.starters && l !in w.loops && 0 <= draw < RENEW_JITTER
    case LoopFires(l, i) => l in w.loops && i < |w.loops[l].armed| && w.loops[l].armed[i] <= w.now
    case LoopEnters(l) => l in w.loops && w.loops[l].running.None? && w.loops[l].blocked > 0
    case LoopAdoptsCached(l, id, tls, draw) =>
      && InDo(w, l) && id !in w.store.cells && 0 <= draw < RENEW_JITTER
      && Accepts(c.x509, w.loops[l].ck, tls.chain, tls.key, w.now, tls.leaf)
      && NextSpec(w.now, tls.leaf.notAfter, c.renewBefore, draw) > c.renewBefore + RENEW_JITTER
    case LoopAdoptsIssued(l, id, chain, leaf, acceptedAt, draw) =>
      && InDo(w, l) && id !in w.store.cells && acceptedAt <= w.now && 0 <= draw < RENEW_JITTER
      && Accepts(c.x509, w.loops[l].ck, chain, w.loops[l].key, acceptedAt, leaf)
    case LoopRearms(l, draw) => l in w.loops && w.loops[l].running.Some? && 0 <= draw < RETRY_BASE
    case Unregister(ck) => ck in w.renewal
    case LoopStops(l) => l in w.loops && l !in w.renewal.Values && w.loops[l].running.None?
  }

  // ---- effects ----

  /** cert finds a usable certificate in the cache. */
  function FillFromCache(w: World, t: ThreadId, id: CellId, tls: TlsCert, g: nat): World
    requires t in w.handshakes
  {
    var ck := w.handshakes[t].ck;
    var w1 := w.(store := Install(w.store, id, ck, tls, w.now));
    SetPc(Spawn(w1, g, ck, tls.key, tls.leaf.notAfter), t, Done(Some(id), TlsAnswer(tls)))
  }

  /** createCert as the first thread for its certKey. */
  function TakeClaim(w: World, t: ThreadId, id: CellId, key: PrivateKey): World
    requires t in w.handshakes
  {
    SetPc(w.(store := Claim(w.store, id, w.handshakes[t].ck, key, t)), t, Issuing(id))
  }

  /** createCert succeeds: chain, renewal goroutine, unlock. */
  function Publish(w: World, t: ThreadId, id: CellId, chain: seq<Bytes>, leaf: Leaf, acceptedAt: int, g: nat): World
    requires t in w.handshakes && id in w.store.cells
  {
    var cell := w.store.cells[id];
    var w1 := w.(store := Complete(w.store, id, chain, leaf, acceptedAt));
    SetPc(Spawn(w1, g, cell.ck, cell.key, leaf.notAfter), t, Done(Some(id), Served(cell.key, chain, Some(leaf))))
  }

  /** createCert fails: removal timer, unlock. */
  function GiveUp(w: World, t: ThreadId, id: CellId): World
    requires t in w.handshakes && id in w.store.cells
  {
    w.(store := Abandon(w.store, id, w.now + CREATE_CERT_RETRY_AFTER),
       lastFail := w.lastFail[w.store.cells[id].ck := w.now],
       handshakes := w.handshakes[t := w.handshakes[t].(pc := Done(Some(id), Refused))])
  }

  /** Manager.renew, with its check for a loop that is already registered. */
  function RunStarter(w: World, g: nat, l: LoopId, due: int): World
    requires g in w.starters
  {
    var st := w.starters[g];
    var w1 := w.(starters := w.starters - {g});
    if st.ck in w.renewal then w1
    else w1.(renewal := w.renewal[st.ck := l], loops := w.loops[l := Start(NewLoop(st.ck, st.key), due)])
  }

  /** updateState, after which `do` returns `wait`. */
  function Adopt(w: World, l: LoopId, id: CellId, tls: TlsCert, at: int, wait: int): World
    requires l in w.loops
  {
    w.(store := Install(w.store, id, w.loops[l].ck, tls, at),
       loops := w.loops[l := w.loops[l].(key := tls.key, running := Some(Renewed(wait)))])
  }

  function SetLoop(w: World, l: LoopId, loop: Loop): World {
    w.(loops := w.loops[l := loop])
  }

  function Apply(c: Config, w: World, s: Step): World
    requires Enabled(c, w, s)
  {
    match s
    case Tick(dt) => w.(now := w.now + dt)
    case Arrive(t, hello) =>
      w.(handshakes := w.handshakes[t := Handshake(hello, c.keyFor(hello).value, Looking)])
    case LookupState(t) => SetPc(w, t, Waiting(w.store.state[w.handshakes[t].ck]))
    case LookupCache(t, id, tls, g) => FillFromCache(w, t, id, tls, g)
    case LookupMiss(t) => SetPc(w, t, Uncached)
    case LookupError(t) => SetPc(w, t, Done(None, Refused))
    case ReadCell(t) =>
      var id := w.handshakes[t].pc.id;
      SetPc(w, t, Done(Some(id), CellAnswer(w.store.cells[id])))
    case Policy(t, ok) => SetPc(w, t, if ok then Allowed else Done(None, Refused))
    case JoinCell(t) => SetPc(w, t, Waiting(w.store.state[w.handshakes[t].ck]))
    case ClaimCell(t, id, key) => TakeClaim(w, t, id, key)
    case NoKey(t) => SetPc(w, t, Done(None, Refused))
    case IssueOk(t, chain, leaf, acceptedAt, g) => Publish(w, t, w.handshakes[t].pc.id, chain, leaf, acceptedAt, g)
    case IssueFail(t) => GiveUp(w, t, w.handshakes[t].pc.id)
    case RemovalDue(id) => w.(store := ExpireRemoval(c.x509, w.store, id, w.now))
    case StartLoop(g, l, draw) => RunStarter(w, g, l, w.now + NextSpec(w.now, w.starters[g].exp, c.renewBefore, draw))
    case LoopFires(l, i) => SetLoop(w, l, Fire(w.loops[l], i))
    case LoopEnters(l) => SetLoop(w, l, Enter(w.loops[l]))
    case LoopAdoptsCached(l, id, tls, draw) =>
      var wait := NextSpec(w.now, tls.leaf.notAfter, c.renewBefore, draw);
      Adopt(w, l, id, tls, w.now, wait)
    case LoopAdoptsIssued(l, id, chain, leaf, acceptedAt, draw) =>
      var wait := NextSpec(w.now, leaf.notAfter, c.renewBefore, draw);
      Adopt(w, l, id, TlsCert(w.loops[l].key, chain, leaf), acceptedAt, wait)
    case LoopRearms(l, draw) =>
      var wait := match w.loops[l].running.value case Busy => RETRY_BASE + draw case Renewed(d) => d;
      SetLoop(w, l, Rearm(w.loops[l], w.now + wait))
    case Unregister(ck) => w.(renewal := w.renewal - {ck})
    case LoopStops(l) => SetLoop(w, l, Stop(w.loops[l]))
  }

  /** Worlds ws[0], ws[1], ... reached by the steps ss[0], ss[1], ... */
  ghost predicate IsRun(c: Config, ws: seq<World>, ss: seq<Step>) {
    && |ws| == |ss| + 1
    && (exists now :: ws[0] == Initial(now))
    && forall i :: 0 <= i < |ss| ==> Enabled(c, ws[i], ss[i]) && ws[i + 1] == Apply(c, ws[i], ss[i])
  }

  // ---- the invariant ----

  predicate IsInstalled(s: Store, ck: CertKey) {
    && ck in s.state && s.state[ck] in s.cells
    && s.cells[s.state[ck]].owner.None? && s.cells[s.state[ck]].chain != []
  }

  predicate IsFailed(s: Store, ck: CertKey) {
    && ck in s.state && s.state[ck] in s.cells
    && s.cells[s.state[ck]].owner.None? && s.cells[s.state[ck]].chain == []
  }

  predicate IsClaimed(s: Store, ck: CertKey) {
    ck in s.state && s.state[ck] in s.cells && s.cells[s.state[ck]].owner.Some?
  }

  ghost predicate EntriesKept(s: Store) {
    && (forall ck :: ck in s.state ==> s.state[ck] in s.cells && s.cells[s.state[ck]].ck == ck)
    && (forall id :: id in s.cells && s.cells[id].owner.Some? ==>
          s.cells[id].chain == [] && s.cells[id].ck in s.state && s.state[s.cells[id].ck] == id)
  }

  predicate CellAccepted(x509: X509, cell: Cell, now: int) {
    && cell.leaf.Some? && cell.acceptedAt <= now
    && Accepts(x509, cell.ck, cell.chain, cell.key, cell.acceptedAt, cell.leaf.value)
  }

  ghost predicate ChainsAccepted(x509: X509, s: Store, now: int) {
    forall id :: id in s.cells && s.cells[id].chain != [] ==> CellAccepted(x509, s.cells[id], now)
  }

  ghost predicate RemovalsOwn(s: Store) {
    && (forall id :: id in s.removals ==>
          IsFailed(s, s.removals[id].ck) && s.state[s.removals[id].ck] == id)
    && (forall ck :: IsFailed(s, ck) ==>
          s.state[ck] in s.removals && s.removals[s.state[ck]].ck == ck)
  }

  ghost predicate StoreInv(x509: X509, s: Store, now: int) {
    EntriesKept(s) && ChainsAccepted(x509, s, now) && RemovalsOwn(s)
  }

  ghost predicate OwnersIssue(s: Store, hs: map<ThreadId, Handshake>) {
    && (forall id :: id in s.cells && s.cells[id].owner.Some? ==>
          s.cells[id].owner.value in hs && hs[s.cells[id].owner.value].pc == Issuing(id))
    && (forall t :: t in hs && hs[t].pc.Issuing? ==>
          hs[t].pc.id in s.cells && s.cells[hs[t].pc.id].owner == Some(t) && s.cells[hs[t].pc.id].ck == hs[t].ck)
  }

  /** A finished handshake reports the cell it waited on; the thread whose issuance failed reports an error. */
  predicate AnswerFits(cell: Cell, ck: CertKey, a: Answer) {
    cell.ck == ck && cell.owner.None? && (a == CellAnswer(cell) || (cell.chain == [] && a == Refused))
  }

  predicate HandshakeFits(keyFor: ClientHello -> Option<CertKey>, cells: map<CellId, Cell>, h: Handshake) {
    && keyFor(h.hello) == Some(h.ck)
    && (h.pc.Waiting? ==> h.pc.id in cells && cells[h.pc.id].ck == h.ck)
    && (h.pc.Done? && h.pc.from.None? ==> h.pc.answer == Refused)
    && (h.pc.Done? && h.pc.from.Some? ==>
          h.pc.from.value in cells && AnswerFits(cells[h.pc.from.value], h.ck, h.pc.answer))
  }

  ghost predicate AnswersFit(keyFor: ClientHello -> Option<CertKey>, s: Store, hs: map<ThreadId, Handshake>) {
    forall t :: t in hs ==> HandshakeFits(keyFor, s.cells, hs[t])
  }

  /** `key` is the key of the installed entry for `ck`. */
  predicate KeyCurrent(s: Store, ck: CertKey, key: PrivateKey) {
    IsInstalled(s, ck) && s.cells[s.state[ck]].key == key
  }

  ghost predicate SpawnedOnce(s: Store, spawned: multiset<CertKey>) {
    forall ck :: spawned[ck] == if IsInstalled(s, ck) then 1 else 0
  }

  ghost predicate KeysCurrent(s: Store, starters: map<nat, Starter>, loops: map<LoopId, Loop>) {
    && (forall g :: g in starters ==> KeyCurrent(s, starters[g].ck, starters[g].key))
    && (forall l :: l in loops ==> KeyCurrent(s, loops[l].ck, loops[l].key))
  }

  /** At most one starter or loop per certKey, and a registered loop is registered under its own. */
  ghost predicate LoopsApart(starters: map<nat, Starter>, loops: map<LoopId, Loop>, renewal: map<CertKey, LoopId>) {
    && (forall g, h :: g in starters && h in starters && starters[g].ck == starters[h].ck ==> g == h)
    && (forall g, l :: g in starters && l in loops ==> starters[g].ck != loops[l].ck)
    && (forall l, k :: l in loops && k in loops && loops[l].ck == loops[k].ck ==> l == k)
    && (forall ck :: ck in renewal ==> renewal[ck] in loops && loops[renewal[ck]].ck == ck)
  }

  ghost predicate LoopsTidy(loops: map<LoopId, Loop>) {
    forall l :: l in loops ==> Tidy(loops[l])
  }

  ghost predicate BackoffHolds(now: int, s: Store, lastFail: map<CertKey, int>) {
    forall ck :: ck in lastFail ==>
      && lastFail[ck] <= now
      && (|| now >= lastFail[ck] + CREATE_CERT_RETRY_AFTER
          || (IsFailed(s, ck) && s.state[ck] in s.removals
              && s.removals[s.state[ck]].due == lastFail[ck] + CREATE_CERT_RETRY_AFTER))
  }

  ghost predicate Inv(c: Config, w: World) {
    && StoreInv(c.x509, w.store, w.now)
    && OwnersIssue(w.store, w.handshakes)
    && AnswersFit(c.keyFor, w.store, w.handshakes)
    && SpawnedOnce(w.store, w.spawned)
    && KeysCurrent(w.store, w.starters, w.loops)
    && LoopsApart(w.starters, w.loops, w.renewal)
    && LoopsTidy(w.loops)
    && BackoffHolds(w.now, w.store, w.lastFail)
  }

  // ---- what each operation on the store keeps ----

  /** Certificate objects persist, and one that is not locked never changes. */
  ghost predicate Persists(s: Store, s': Store) {
    forall id :: id in s.cells ==>
      && id in s'.cells
      && s'.cells[id].ck == s.cells[id].ck && s'.cells[id].key == s.cells[id].key
      && (s.cells[id].owner.None? ==> s'.cells[id] == s.cells[id])
  }

  ghost predicate SameOwners(s: Store, s': Store) {
    && (forall id :: id in s.cells && s.cells[id].owner.Some? ==> id in s'.cells && s'.cells[id] == s.cells[id])
    && (forall id :: id in s'.cells && s'.cells[id].owner.Some? ==> id in s.cells && s'.cells[id] == s.cells[id])
  }

  /** Only the entry for `ck` may differ. */
  ghost predicate OnlyAt(s: Store, s': Store, ck: CertKey) {
    forall k :: k != ck ==>
      && (IsInstalled(s', k) <==> IsInstalled(s, k))
      && (IsFailed(s', k) <==> IsFailed(s, k))
      && (IsInstalled(s, k) ==> s'.state[k] == s.state[k] && s'.cells[s'.state[k]] == s.cells[s.state[k]])
      && (IsFailed(s, k) ==> s'.state[k] == s.state[k])
  }

  lemma InstallFrames(s: Store, id: CellId, ck: CertKey, tls: TlsCert, at: int)
    requires EntriesKept(s) && id !in s.cells && tls.chain != []
    ensures var s' := Install(s, id, ck, tls, at);
            && Persists(s, s') && SameOwners(s, s') && OnlyAt(s, s', ck)
            && KeyCurrent(s', ck, tls.key) && s'.state[ck] == id && s'.cells[id].chain == tls.chain
  {
    var s' := Install(s, id, ck, tls, at);
    assert forall k :: k in s.state && k != ck ==> s'.state[k] == s.state[k] && s'.cells[s.state[k]] == s.cells[s.state[k]];
  }

  lemma InstallKeeps(x509: X509, s: Store, id: CellId, ck: CertKey, tls: TlsCert, at: int, now: int)
    requires StoreInv(x509, s, now) && id !in s.cells && at <= now
    requires ck !in s.state || IsInstalled(s, ck)
    requires tls.chain != [] && Accepts(x509, ck, tls.chain, tls.key, at, tls.leaf)
    ensures StoreInv(x509, Install(s, id, ck, tls, at), now)
  {
    var s' := Install(s, id, ck, tls, at);
    InstallFrames(s, id, ck, tls, at);
    assert ChainsAccepted(x509, s', now);
    forall r | r in s'.removals
      ensures IsFailed(s', s'.removals[r].ck) && s'.state[s'.removals[r].ck] == r
    {
      assert IsFailed(s, s.removals[r].ck);
    }
    assert RemovalsOwn(s');
  }

  lemma ClaimFrames(s: Store, id: CellId, ck: CertKey, key: PrivateKey, t: ThreadId)
    requires EntriesKept(s) && id !in s.cells && ck !in s.state
    ensures var s' := Claim(s, id, ck, key, t);
            Persists(s, s') && OnlyAt(s, s', ck) && IsClaimed(s', ck)
  {
    var s' := Claim(s, id, ck, key, t);
    assert forall k :: k in s.state ==> k != ck && s'.state[k] == s.state[k] && s'.cells[s.state[k]] == s.cells[s.state[k]];
  }

  lemma ClaimKeeps(x509: X509, s: Store, id: CellId, ck: CertKey, key: PrivateKey, t: ThreadId, now: int)
    requires StoreInv(x509, s, now) && id !in s.cells && ck !in s.state
    ensures var s' := Claim(s, id, ck, key, t);
            StoreInv(x509, s', now) && Persists(s, s') && OnlyAt(s, s', ck) && IsClaimed(s', ck)
  {
    var s' := Claim(s, id, ck, key, t);
    ClaimFrames(s, id, ck, key, t);
    assert ChainsAccepted(x509, s', now);
    forall r | r in s'.removals
      ensures IsFailed(s', s'.removals[r].ck) && s'.state[s'.removals[r].ck] == r
    {
      assert IsFailed(s, s.removals[r].ck);
    }
  }

  lemma CompleteKeeps(x509: X509, s: Store, id: CellId, chain: seq<Bytes>, leaf: Leaf, at: int, now: int)
    requires StoreInv(x509, s, now) && id in s.cells && s.cells[id].owner.Some? && at <= now
    requires chain != [] && Accepts(x509, s.cells[id].ck, chain, s.cells[id].key, at, leaf)
    ensures var s' := Complete(s, id, chain, leaf, at);
            var ck := s.cells[id].ck;
            && StoreInv(x509, s', now) && Persists(s, s') && OnlyAt(s, s', ck)
            && KeyCurrent(s', ck, s.cells[id].key) && !IsInstalled(s, ck)
  {
    var s' := Complete(s, id, chain, leaf, at);
    assert forall k :: k in s.state && k != s.cells[id].ck ==> s.state[k] != id && s'.cells[s.state[k]] == s.cells[s.state[k]];
    forall r | r in s'.removals
      ensures IsFailed(s', s'.removals[r].ck) && s'.state[s'.removals[r].ck] == r
    {
      assert IsFailed(s, s.removals[r].ck);
    }
  }

  lemma AbandonKeeps(x509: X509, s: Store, id: CellId, due: int, now: int)
    requires StoreInv(x509, s, now) && id in s.cells && s.cells[id].owner.Some?
    ensures var s' := Abandon(s, id, due);
            var ck := s.cells[id].ck;
            && StoreInv(x509, s', now) && Persists(s, s') && OnlyAt(s, s', ck)
            && IsFailed(s', ck) && s'.state[ck] == id && s'.removals == s.removals[id := Removal(ck, due)]
            && !IsInstalled(s, ck) && id !in s.removals
  {
    var s' := Abandon(s, id, due);
    var ck := s.cells[id].ck;
    assert id !in s.removals;
    assert forall k :: k in s.state && k != ck ==> s.state[k] != id && s'.cells[s.state[k]] == s.cells[s.state[k]];
    forall r | r in s'.removals
      ensures IsFailed(s', s'.removals[r].ck) && s'.state[s'.removals[r].ck] == r
    {
      if r != id {
        assert IsFailed(s, s.removals[r].ck);
      }
    }
  }

  /** The entry a removal callback finds is its own failed one: neither defensive check is ever taken. */
  lemma RemovalFindsOwnEntry(x509: X509, s: Store, id: CellId, now: int)
    requires Lawful(x509) && StoreInv(x509, s, now) && id in s.removals
    ensures var ck := s.removals[id].ck;
            && ck in s.state && s.state[ck] == id && IsFailed(s, ck)
            && !Passes(x509, ck, s.cells[id].chain, s.cells[id].key, now)
            && ExpireRemoval(x509, s, id, now) == s.(removals := s.removals - {id}, state := s.state - {ck})
  {
    var ck := s.removals[id].ck;
    assert IsFailed(s, ck);
    var cell := s.cells[id];
    if Passes(x509, ck, cell.chain, cell.key, now) {
      AcceptedChainNonempty(x509, ck, cell.chain, cell.key, now);
    }
  }

  lemma ExpireKeeps(x509: X509, s: Store, id: CellId, now: int)
    requires Lawful(x509) && StoreInv(x509, s, now) && id in s.removals
    requires s.removals[id].ck in s.state && s.state[s.removals[id].ck] in s.cells
    ensures var s' := ExpireRemoval(x509, s, id, now);
            var ck := s.removals[id].ck;
            && StoreInv(x509, s', now) && Persists(s, s') && SameOwners(s, s') && OnlyAt(s, s', ck)
            && ck !in s'.state && IsFailed(s, ck) && s.state[ck] == id && s'.removals == s.removals - {id}
  {
    RemovalFindsOwnEntry(x509, s, id, now);
    var s' := ExpireRemoval(x509, s, id, now);
    var ck := s.removals[id].ck;
    assert forall k :: k in s.state && k != ck ==> s.state[k] != id && s'.state[k] == s.state[k];
    forall r | r in s'.removals
      ensures IsFailed(s', s'.removals[r].ck) && s'.state[s'.removals[r].ck] == r
    {
      assert IsFailed(s, s.removals[r].ck);
      assert s.removals[r].ck != ck;
    }
  }

  // ---- frames ----

  lemma AnswersPersist(keyFor: ClientHello -> Option<CertKey>, s: Store, s': Store, hs: map<ThreadId, Handshake>)
    requires AnswersFit(keyFor, s, hs) && Persists(s, s')
    ensures AnswersFit(keyFor, s', hs)
  {
    forall t | t in hs
      ensures HandshakeFits(keyFor, s'.cells, hs[t])
    {
      assert HandshakeFits(keyFor, s.cells, hs[t]);
    }
  }

  lemma OwnersPersist(s: Store, s': Store, hs: map<ThreadId, Handshake>)
    requires OwnersIssue(s, hs) && SameOwners(s, s')
    ensures OwnersIssue(s', hs)
  {
  }

  lemma PcChanges(keyFor: ClientHello -> Option<CertKey>, s: Store, hs: map<ThreadId, Handshake>, t: ThreadId, pc: Pc)
    requires OwnersIssue(s, hs) && AnswersFit(keyFor, s, hs)
    requires t in hs && !hs[t].pc.Issuing? && !pc.Issuing?
    requires HandshakeFits(keyFor, s.cells, hs[t].(pc := pc))
    ensures OwnersIssue(s, hs[t := hs[t].(pc := pc)]) && AnswersFit(keyFor, s, hs[t := hs[t].(pc := pc)])
  {
  }

  lemma OwnerAppears(s: Store, hs: map<ThreadId, Handshake>, id: CellId, key: PrivateKey, t: ThreadId)
    requires OwnersIssue(s, hs) && t in hs && !hs[t].pc.Issuing? && id !in s.cells
    ensures OwnersIssue(Claim(s, id, hs[t].ck, key, t), hs[t := hs[t].(pc := Issuing(id))])
  {
  }

  lemma IssuerAnswers(keyFor: ClientHello -> Option<CertKey>, s: Store, hs: map<ThreadId, Handshake>, t: ThreadId, pc: Pc)
    requires AnswersFit(keyFor, s, hs) && t in hs
    requires HandshakeFits(keyFor, s.cells, hs[t].(pc := pc))
    ensures AnswersFit(keyFor, s, hs[t := hs[t].(pc := pc)])
  {
  }

  /** The thread `t` gives up the write lock of the cell it issues for. */
  lemma OwnerLeaves(s: Store, s': Store, hs: map<ThreadId, Handshake>, t: ThreadId, pc: Pc)
    requires OwnersIssue(s, hs) && t in hs && hs[t].pc.Issuing? && !pc.Issuing?
    requires hs[t].pc.id in s.cells && hs[t].pc.id in s'.cells && s'.cells[hs[t].pc.id].owner.None?
    requires s'.cells == s.cells[hs[t].pc.id := s'.cells[hs[t].pc.id]]
    ensures OwnersIssue(s', hs[t := hs[t].(pc := pc)])
  {
  }

  /** Nothing installed changes, so neither do the renewals. */
  lemma RenewalsPersist(s: Store, s': Store, ck: CertKey, spawned: multiset<CertKey>,
                        starters: map<nat, Starter>, loops: map<LoopId, Loop>)
    requires OnlyAt(s, s', ck) && !IsInstalled(s, ck) && !IsInstalled(s', ck)
    requires SpawnedOnce(s, spawned) && KeysCurrent(s, starters, loops)
    ensures SpawnedOnce(s', spawned) && KeysCurrent(s', starters, loops)
  {
  }

  /** A first certificate for `ck`, with its renewal goroutine. */
  lemma RenewalsGrow(s: Store, s': Store, ck: CertKey, g: nat, key: PrivateKey, exp: int, spawned: multiset<CertKey>,
                     starters: map<nat, Starter>, loops: map<LoopId, Loop>)
    requires OnlyAt(s, s', ck) && !IsInstalled(s, ck) && KeyCurrent(s', ck, key) && g !in starters
    requires SpawnedOnce(s, spawned) && KeysCurrent(s, starters, loops)
    ensures SpawnedOnce(s', spawned + multiset{ck})
    ensures KeysCurrent(s', starters[g := Starter(ck, key, exp)], loops)
  {
  }

  lemma StarterApart(s: Store, ck: CertKey, g: nat, st: Starter,
                     starters: map<nat, Starter>, loops: map<LoopId, Loop>, renewal: map<CertKey, LoopId>)
    requires !IsInstalled(s, ck) && st.ck == ck
    requires KeysCurrent(s, starters, loops) && LoopsApart(starters, loops, renewal)
    ensures LoopsApart(starters[g := st], loops, renewal)
  {
    assert forall h :: h in starters ==> KeyCurrent(s, starters[h].ck, starters[h].key) && starters[h].ck != ck;
    assert forall l :: l in loops ==> KeyCurrent(s, loops[l].ck, loops[l].key) && loops[l].ck != ck;
  }

  /** A loop replaces the entry of its own key and takes over the new one's key. */
  lemma RenewalsFollow(s: Store, s': Store, l: LoopId, loop': Loop, spawned: multiset<CertKey>,
                       starters: map<nat, Starter>, loops: map<LoopId, Loop>, renewal: map<CertKey, LoopId>)
    requires l in loops && loop'.ck == loops[l].ck && OnlyAt(s, s', loop'.ck) && KeyCurrent(s', loop'.ck, loop'.key)
    requires SpawnedOnce(s, spawned) && KeysCurrent(s, starters, loops) && LoopsApart(starters, loops, renewal)
    ensures SpawnedOnce(s', spawned) && KeysCurrent(s', starters, loops[l := loop'])
    requires LoopsTidy(loops) && Tidy(loop')
    ensures LoopsApart(starters, loops[l := loop'], renewal) && LoopsTidy(loops[l := loop'])
  {
    assert KeyCurrent(s, loops[l].ck, loops[l].key);
  }

  /** A timer step of one loop. */
  lemma LoopMoves(s: Store, l: LoopId, loop': Loop, starters: map<nat, Starter>, loops: map<LoopId, Loop>,
                  renewal: map<CertKey, LoopId>)
    requires l in loops && loop'.ck == loops[l].ck && loop'.key == loops[l].key && Tidy(loop')
    requires KeysCurrent(s, starters, loops) && LoopsApart(starters, loops, renewal) && LoopsTidy(loops)
    ensures KeysCurrent(s, starters, loops[l := loop']) && LoopsApart(starters, loops[l := loop'], renewal)
    ensures LoopsTidy(loops[l := loop'])
  {
  }

  /** The starter's goroutine runs and its loop is registered. */
  lemma StarterBecomesLoop(s: Store, g: nat, l: LoopId, loop: Loop, starters: map<nat, Starter>, loops: map<LoopId, Loop>,
                           renewal: map<CertKey, LoopId>)
    requires g in starters && l !in loops && loop.ck == starters[g].ck && loop.key == starters[g].key && Tidy(loop)
    requires KeysCurrent(s, starters, loops) && LoopsApart(starters, loops, renewal) && LoopsTidy(loops)
    ensures KeysCurrent(s, starters - {g}, loops[l := loop])
    ensures LoopsApart(starters - {g}, loops[l := loop], renewal[loop.ck := l])
    ensures LoopsTidy(loops[l := loop])
  {
  }

  lemma BackoffPersists(now: int, s: Store, s': Store, ck: CertKey, lastFail: map<CertKey, int>)
    requires BackoffHolds(now, s, lastFail) && OnlyAt(s, s', ck)
    requires forall id :: id in s.removals ==> id in s'.removals && s'.removals[id] == s.removals[id]
    requires !IsFailed(s, ck)
    ensures BackoffHolds(now, s', lastFail)
  {
  }

  lemma AbandonRecords(x509: X509, s: Store, id: CellId, due: int, now: int, lastFail: map<CertKey, int>)
    requires StoreInv(x509, s, now) && BackoffHolds(now, s, lastFail)
    requires id in s.cells && s.cells[id].owner.Some? && due == now + CREATE_CERT_RETRY_AFTER
    ensures BackoffHolds(now, Abandon(s, id, due), lastFail[s.cells[id].ck := now])
  {
    var s' := Abandon(s, id, due);
    AbandonKeeps(x509, s, id, due, now);
    forall k | k in lastFail && k != s.cells[id].ck && now < lastFail[k] + CREATE_CERT_RETRY_AFTER
      ensures IsFailed(s', k) && s'.state[k] in s'.removals
      ensures s'.removals[s'.state[k]].due == lastFail[k] + CREATE_CERT_RETRY_AFTER
    {
      assert IsFailed(s, k) && s'.state[k] == s.state[k];
    }
  }

  lemma BackoffExpires(now: int, s: Store, s': Store, id: CellId, ck: CertKey, lastFail: map<CertKey, int>)
    requires BackoffHolds(now, s, lastFail) && OnlyAt(s, s', ck)
    requires id in s.removals && s.removals[id].due <= now && s'.removals == s.removals - {id}
    requires ck in s.state && s.state[ck] == id && RemovalsOwn(s) && s.removals[id].ck == ck
    ensures BackoffHolds(now, s', lastFail)
  {
    assert forall k :: IsFailed(s, k) && k != ck ==> s.state[k] != id;
  }

  // ---- each step keeps the invariant ----

  lemma TickKeeps(c: Config, w: World, dt: nat)
    requires Inv(c, w)
    ensures Inv(c, w.(now := w.now + dt))
  {
    assert ChainsAccepted(c.x509, w.store, w.now + dt);
  }

  /** A handshake that neither takes nor gives up a write lock moves on. */
  lemma MoveKeeps(c: Config, w: World, t: ThreadId, pc: Pc)
    requires Inv(c, w) && t in w.handshakes && !w.handshakes[t].pc.Issuing? && !pc.Issuing?
    requires HandshakeFits(c.keyFor, w.store.cells, w.handshakes[t].(pc := pc))
    ensures Inv(c, SetPc(w, t, pc))
  {
    PcChanges(c.keyFor, w.store, w.handshakes, t, pc);
  }

  lemma HandshakeIsFit(c: Config, w: World, t: ThreadId)
    requires Inv(c, w) && t in w.handshakes
    ensures HandshakeFits(c.keyFor, w.store.cells, w.handshakes[t])
  {
  }

  lemma ArrivalFits(keyFor: ClientHello -> Option<CertKey>, s: Store, hs: map<ThreadId, Handshake>, t: ThreadId, hello: ClientHello)
    requires OwnersIssue(s, hs) && AnswersFit(keyFor, s, hs) && t !in hs && keyFor(hello).Some?
    ensures var h := Handshake(hello, keyFor(hello).value, Looking);
            OwnersIssue(s, hs[t := h]) && AnswersFit(keyFor, s, hs[t := h])
  {
  }

  lemma ArriveKeeps(c: Config, w: World, t: ThreadId, hello: ClientHello)
    requires Inv(c, w) && t !in w.handshakes && c.keyFor(hello).Some?
    ensures Inv(c, w.(handshakes := w.handshakes[t := Handshake(hello, c.keyFor(hello).value, Looking)]))
  {
    ArrivalFits(c.keyFor, w.store, w.handshakes, t, hello);
  }

  lemma FillKeeps(c: Config, w: World, t: ThreadId, id: CellId, tls: TlsCert, g: nat)
    requires Lawful(c.x509) && Inv(c, w) && At(w, t, Looking) && w.handshakes[t].ck !in w.store.state
    requires id !in w.store.cells && g !in w.starters
    requires Accepts(c.x509, w.handshakes[t].ck, tls.chain, tls.key, w.now, tls.leaf)
    ensures Inv(c, FillFromCache(w, t, id, tls, g))
  {
    var ck := w.handshakes[t].ck;
    var s' := Install(w.store, id, ck, tls, w.now);
    AcceptedChainNonempty(c.x509, ck, tls.chain, tls.key, w.now);
    InstallFrames(w.store, id, ck, tls, w.now);
    InstallKeeps(c.x509, w.store, id, ck, tls, w.now, w.now);
    AnswersPersist(c.keyFor, w.store, s', w.handshakes);
    OwnersPersist(w.store, s', w.handshakes);
    HandshakeIsFit(c, w, t);
    PcChanges(c.keyFor, s', w.handshakes, t, Done(Some(id), TlsAnswer(tls)));
    RenewalsGrow(w.store, s', ck, g, tls.key, tls.leaf.notAfter, w.spawned, w.starters, w.loops);
    StarterApart(w.store, ck, g, Starter(ck, tls.key, tls.leaf.notAfter), w.starters, w.loops, w.renewal);
    BackoffPersists(w.now, w.store, s', ck, w.lastFail);
  }

  lemma ClaimCellKeeps(c: Config, w: World, t: ThreadId, id: CellId, key: PrivateKey)
    requires Inv(c, w) && At(w, t, Allowed) && w.handshakes[t].ck !in w.store.state && id !in w.store.cells
    ensures Inv(c, TakeClaim(w, t, id, key))
  {
    var ck := w.handshakes[t].ck;
    var s' := Claim(w.store, id, ck, key, t);
    ClaimKeeps(c.x509, w.store, id, ck, key, t, w.now);
    AnswersPersist(c.keyFor, w.store, s', w.handshakes);
    HandshakeIsFit(c, w, t);
    IssuerAnswers(c.keyFor, s', w.handshakes, t, Issuing(id));
    OwnerAppears(w.store, w.handshakes, id, key, t);
    RenewalsPersist(w.store, s', ck, w.spawned, w.starters, w.loops);
    BackoffPersists(w.now, w.store, s', ck, w.lastFail);
  }

  lemma IssuerOwns(c: Config, w: World, t: ThreadId)
    requires Inv(c, w) && t in w.handshakes && w.handshakes[t].pc.Issuing?
    ensures var id := w.handshakes[t].pc.id;
            && id in w.store.cells && w.store.cells[id].owner == Some(t)
            && w.store.cells[id].ck == w.handshakes[t].ck && IsClaimed(w.store, w.handshakes[t].ck)
  {
  }

  /** The issuing thread answers and gives up the lock. */
  lemma IssuerLeaves(c: Config, w: World, t: ThreadId, s': Store, a: Answer)
    requires Inv(c, w) && t in w.handshakes && w.handshakes[t].pc.Issuing? && w.handshakes[t].pc.id in w.store.cells
    requires var id := w.handshakes[t].pc.id;
             && Persists(w.store, s') && id in s'.cells && s'.cells == w.store.cells[id := s'.cells[id]]
             && AnswerFits(s'.cells[id], w.handshakes[t].ck, a)
    ensures var hs := w.handshakes[t := w.handshakes[t].(pc := Done(Some(w.handshakes[t].pc.id), a))];
            OwnersIssue(s', hs) && AnswersFit(c.keyFor, s', hs)
  {
    var pc := Done(Some(w.handshakes[t].pc.id), a);
    AnswersPersist(c.keyFor, w.store, s', w.handshakes);
    HandshakeIsFit(c, w, t);
    IssuerAnswers(c.keyFor, s', w.handshakes, t, pc);
    OwnerLeaves(w.store, s', w.handshakes, t, pc);
  }

  lemma PublishKeeps(c: Config, w: World, t: ThreadId, id: CellId, chain: seq<Bytes>, leaf: Leaf, at: int, g: nat)
    requires Lawful(c.x509) && Inv(c, w) && At(w, t, Issuing(id)) && id in w.store.cells
    requires at <= w.now && g !in w.starters
    requires Accepts(c.x509, w.store.cells[id].ck, chain, w.store.cells[id].key, at, leaf)
    ensures Inv(c, Publish(w, t, id, chain, leaf, at, g))
  {
    IssuerOwns(c, w, t);
    var cell := w.store.cells[id];
    var s' := Complete(w.store, id, chain, leaf, at);
    AcceptedChainNonempty(c.x509, cell.ck, chain, cell.key, at);
    CompleteKeeps(c.x509, w.store, id, chain, leaf, at, w.now);
    IssuerLeaves(c, w, t, s', Served(cell.key, chain, Some(leaf)));
    RenewalsGrow(w.store, s', cell.ck, g, cell.key, leaf.notAfter, w.spawned, w.starters, w.loops);
    StarterApart(w.store, cell.ck, g, Starter(cell.ck, cell.key, leaf.notAfter), w.starters, w.loops, w.renewal);
    BackoffPersists(w.now, w.store, s', cell.ck, w.lastFail);
  }

  lemma GiveUpKeeps(c: Config, w: World, t: ThreadId, id: CellId, w': World)
    requires Inv(c, w) && At(w, t, Issuing(id)) && id in w.store.cells && w' == GiveUp(w, t, id)
    ensures Inv(c, w')
  {
    IssuerOwns(c, w, t);
    var ck := w.store.cells[id].ck;
    var due := w.now + CREATE_CERT_RETRY_AFTER;
    var s' := Abandon(w.store, id, due);
    assert w'.store == s' && w'.now == w.now && w'.starters == w.starters && w'.loops == w.loops;
    AbandonKeeps(c.x509, w.store, id, due, w.now);
    IssuerLeaves(c, w, t, s', Refused);
    RenewalsPersist(w.store, s', ck, w.spawned, w.starters, w.loops);
    AbandonRecords(c.x509, w.store, id, due, w.now, w.lastFail);
  }

  lemma RemovalDueKeeps(c: Config, w: World, id: CellId)
    requires Lawful(c.x509) && Inv(c, w) && id in w.store.removals && w.store.removals[id].due <= w.now
    requires w.store.removals[id].ck in w.store.state && w.store.state[w.store.removals[id].ck] in w.store.cells
    ensures Inv(c, w.(store := ExpireRemoval(c.x509, w.store, id, w.now)))
  {
    var s' := ExpireRemoval(c.x509, w.store, id, w.now);
    var ck := w.store.removals[id].ck;
    ExpireKeeps(c.x509, w.store, id, w.now);
    AnswersPersist(c.keyFor, w.store, s', w.handshakes);
    OwnersPersist(w.store, s', w.handshakes);
    RenewalsPersist(w.store, s', ck, w.spawned, w.starters, w.loops);
    BackoffExpires(w.now, w.store, s', id, ck, w.lastFail);
  }

  /** No loop is registered yet when a renewal goroutine runs: its defensive check is never taken. */
  lemma StarterIsFirst(c: Config, w: World, g: nat)
    requires Inv(c, w) && g in w.starters
    ensures w.starters[g].ck !in w.renewal
  {
  }

  lemma RunStarterKeeps(c: Config, w: World, g: nat, l: LoopId, due: int, w': World)
    requires Inv(c, w) && g in w.starters && l !in w.loops && w' == RunStarter(w, g, l, due)
    ensures Inv(c, w')
  {
    var st := w.starters[g];
    StarterIsFirst(c, w, g);
    StartTidy(st.ck, st.key, due);
    StarterBecomesLoop(w.store, g, l, Start(NewLoop(st.ck, st.key), due), w.starters, w.loops, w.renewal);
  }

  lemma SetLoopKeeps(c: Config, w: World, l: LoopId, loop': Loop)
    requires Inv(c, w) && l in w.loops && loop'.ck == w.loops[l].ck && loop'.key == w.loops[l].key && Tidy(loop')
    ensures Inv(c, SetLoop(w, l, loop'))
  {
    LoopMoves(w.store, l, loop', w.starters, w.loops, w.renewal);
  }

  lemma LoopIsTidy(c: Config, w: World, l: LoopId)
    requires Inv(c, w) && l in w.loops
    ensures Tidy(w.loops[l]) && KeyCurrent(w.store, w.loops[l].ck, w.loops[l].key)
  {
  }

  /** A loop in `do` installs a certificate for its own certKey. */
  lemma AdoptKeeps(c: Config, w: World, l: LoopId, id: CellId, tls: TlsCert, at: int, wait: int)
    requires Lawful(c.x509) && Inv(c, w) && InDo(w, l) && id !in w.store.cells && at <= w.now
    requires Accepts(c.x509, w.loops[l].ck, tls.chain, tls.key, at, tls.leaf)
    ensures Inv(c, Adopt(w, l, id, tls, at, wait))
  {
    var ck := w.loops[l].ck;
    var s' := Install(w.store, id, ck, tls, at);
    AcceptedChainNonempty(c.x509, ck, tls.chain, tls.key, at);
    LoopIsTidy(c, w, l);
    InstallFrames(w.store, id, ck, tls, at);
    InstallKeeps(c.x509, w.store, id, ck, tls, at, w.now);
    AnswersPersist(c.keyFor, w.store, s', w.handshakes);
    OwnersPersist(w.store, s', w.handshakes);
    RenewalsFollow(w.store, s', l, Adopt(w, l, id, tls, at, wait).loops[l], w.spawned, w.starters, w.loops, w.renewal);
    BackoffPersists(w.now, w.store, s', ck, w.lastFail);
  }

  lemma UnregisterKeeps(c: Config, w: World, ck: CertKey)
    requires Inv(c, w)
    ensures Inv(c, w.(renewal := w.renewal - {ck}))
  {
    assert LoopsApart(w.starters, w.loops, w.renewal - {ck});
  }

  predicate OfHandshake(s: Step) {
    || s.Arrive? || s.LookupState? || s.LookupMiss? || s.LookupError? || s.ReadCell? || s.Policy? || s.JoinCell? || s.NoKey?
  }

  predicate OfIssuer(s: Step) {
    s.LookupCache? || s.ClaimCell? || s.IssueOk? || s.IssueFail?
  }

  predicate OfTimer(s: Step) {
    s.LoopFires? || s.LoopEnters? || s.LoopRearms? || s.LoopStops? || s.Unregister? || s.Tick?
  }

  /** The only change of a handshake step that touches no lock. */
  lemma HandshakeStepMoves(c: Config, w: World, s: Step)
    requires Enabled(c, w, s) && OfHandshake(s) && !s.Arrive?
    requires HandshakeFits(c.keyFor, w.store.cells, w.handshakes[s.t])
    requires EntriesKept(w.store)
    ensures s.t in w.handshakes && s.t in Apply(c, w, s).handshakes && !w.handshakes[s.t].pc.Issuing?
    ensures var pc := Apply(c, w, s).handshakes[s.t].pc;
            && Apply(c, w, s) == SetPc(w, s.t, pc) && !pc.Issuing?
            && HandshakeFits(c.keyFor, w.store.cells, w.handshakes[s.t].(pc := pc))
  {
  }

  lemma HandshakeStepKeeps(c: Config, w: World, s: Step)
    requires Inv(c, w) && Enabled(c, w, s) && OfHandshake(s)
    ensures Inv(c, Apply(c, w, s))
  {
    if s.Arrive? {
      ArriveKeeps(c, w, s.t, s.hello);
    } else {
      HandshakeIsFit(c, w, s.t);
      HandshakeStepMoves(c, w, s);
      MoveKeeps(c, w, s.t, Apply(c, w, s).handshakes[s.t].pc);
    }
  }

  /** A timer step changes one loop, which stays tidy. */
  lemma TimerStepMoves(c: Config, w: World, s: Step)
    requires Enabled(c, w, s) && OfTimer(s) && !s.Tick? && !s.Unregister? && Tidy(w.loops[s.l])
    ensures s.l in w.loops && s.l in Apply(c, w, s).loops
    ensures var loop' := Apply(c, w, s).loops[s.l];
            && Apply(c, w, s) == SetLoop(w, s.l, loop')
            && loop'.ck == w.loops[s.l].ck && loop'.key == w.loops[s.l].key && Tidy(loop')
  {
    if s.LoopFires? {
      StepsTidy(w.loops[s.l], s.i, 0);
    }
  }

  lemma TimerStepKeeps(c: Config, w: World, s: Step)
    requires Inv(c, w) && Enabled(c, w, s) && OfTimer(s)
    ensures Inv(c, Apply(c, w, s))
  {
    if s.Tick? {
      TickKeeps(c, w, s.dt);
    } else if s.Unregister? {
      UnregisterKeeps(c, w, s.ck);
    } else {
      LoopIsTidy(c, w, s.l);
      TimerStepMoves(c, w, s);
      SetLoopKeeps(c, w, s.l, Apply(c, w, s).loops[s.l]);
    }
  }

  lemma IssuerStepKeeps(c: Config, w: World, s: Step)
    requires Lawful(c.x509) && Inv(c, w) && Enabled(c, w, s) && OfIssuer(s)
    ensures Inv(c, Apply(c, w, s))
  {
    match s {
      case LookupCache(t, id, tls, g) => FillKeeps(c, w, t, id, tls, g);
      case ClaimCell(t, id, key) => ClaimCellKeeps(c, w, t, id, key);
      case IssueOk(t, chain, leaf, at, g) => PublishKeeps(c, w, t, w.handshakes[t].pc.id, chain, leaf, at, g);
      case IssueFail(t) => GiveUpKeeps(c, w, t, w.handshakes[t].pc.id, Apply(c, w, s));
    }
  }

  predicate OfAdoption(s: Step) {
    s.LoopAdoptsCached? || s.LoopAdoptsIssued?
  }

  function AdoptedTls(w: World, s: Step): TlsCert
    requires OfAdoption(s) && s.l in w.loops
  {
    if s.LoopAdoptsCached? then s.tls else TlsCert(w.loops[s.l].key, s.chain, s.leaf)
  }

  lemma AdoptionStepKeeps(c: Config, w: World, s: Step)
    requires Lawful(c.x509) && Inv(c, w) && Enabled(c, w, s) && OfAdoption(s)
    ensures Inv(c, Apply(c, w, s))
  {
    var tls := AdoptedTls(w, s);
    var wait := NextSpec(w.now, tls.leaf.notAfter, c.renewBefore, s.draw);
    AdoptKeeps(c, w, s.l, s.id, tls, if s.LoopAdoptsCached? then w.now else s.acceptedAt, wait);
  }

  lemma StarterStepRuns(c: Config, w: World, s: Step) returns (due: int)
    requires Enabled(c, w, s) && s.StartLoop?
    ensures s.g in w.starters && s.l !in w.loops
    ensures Apply(c, w, s) == RunStarter(w, s.g, s.l, due)
  {
    due := w.now + NextSpec(w.now, w.starters[s.g].exp, c.renewBefore, s.draw);
  }

  lemma StarterStepKeeps(c: Config, w: World, s: Step, w': World)
    requires Inv(c, w) && Enabled(c, w, s) && s.StartLoop? && w' == Apply(c, w, s)
    ensures Inv(c, w')
  {
    var due := StarterStepRuns(c, w, s);
    RunStarterKeeps(c, w, s.g, s.l, due, w');
  }

  lemma RemovalStepKeeps(c: Config, w: World, s: Step)
    requires Lawful(c.x509) && Inv(c, w) && Enabled(c, w, s) && s.RemovalDue?
    ensures Inv(c, Apply(c, w, s))
  {
    RemovalFindsOwnEntry(c.x509, w.store, s.id, w.now);
    RemovalDueKeeps(c, w, s.id);
  }

  lemma StepKeeps(c: Config, w: World, s: Step)
    requires Lawful(c.x509) && Inv(c, w) && Enabled(c, w, s)
    ensures Inv(c, Apply(c, w, s))
  {
    if OfHandshake(s) {
      HandshakeStepKeeps(c, w, s);
    } else if OfTimer(s) {
      TimerStepKeeps(c, w, s);
    } else if OfIssuer(s) {
      IssuerStepKeeps(c, w, s);
    } else if OfAdoption(s) {
      AdoptionStepKeeps(c, w, s);
    } else if s.StartLoop? {
      StarterStepKeeps(c, w, s, Apply(c, w, s));
    } else {
      RemovalStepKeeps(c, w, s);
    }
  }

  lemma {:induction false} RunKeeps(c: Config, ws: seq<World>, ss: seq<Step>, k: nat)
    requires Lawful(c.x509) && IsRun(c, ws, ss) && k <= |ss|
    ensures Inv(c, ws[k])
  {
    if k > 0 {
      RunKeeps(c, ws, ss, k - 1);
      StepKeeps(c, ws[k - 1], ss[k - 1]);
    }
  }
}
