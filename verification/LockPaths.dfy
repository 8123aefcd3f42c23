/**
 Code that takes its locks in order, and the absence of deadlock among any number of threads
 running such code; and the code paths of the manager, its cache and the CA as such code, with
 their branches resolved by parameters (src/autocert/autocert.go, src/autocert/renewal.go,
 src/autocert/internal/acmetest/ca.go).
 */
module LockPaths {
  import opened Wrappers
  import opened Locks

  // ---- code ----

  /** The lock operations of a piece of code. `Claiming` is certState on an absent key: the new cell's lock is handed on. */
  datatype Code =
    | Nothing
    | Then(first: Code, next: Code)
    | Holding(lock: Lock, mode: Mode, body: Code)
    | Claiming(cell: nat, body: Code)
    | ForValidation(validator: ThreadId)
    | ForHandshake(handshake: ThreadId)

  function Ops(c: Code): seq<Op> {
    match c
    case Nothing => []
    case Then(a, b) => Ops(a) + Ops(b)
    case Holding(l, mode, body) => Locked(l, mode, Ops(body))
    case Claiming(cell, body) => Claimed(cell, Ops(body))
    case ForValidation(v) => [AwaitValidation(v)]
    case ForHandshake(h) => [AwaitHandshake(h)]
  }

  function Claimed(cell: nat, body: seq<Op>): seq<Op> {
    [Acquire(StateMu, Write), Acquire(CellLock(cell), Write), Release(StateMu)] + (body + [Release(CellLock(cell))])
  }

  /** With only locks below rank r held, each lock is taken and each thread awaited above those held, and above `floor`. */
  predicate InOrder(c: Code, r: nat, floor: nat) {
    match c
    case Nothing => true
    case Then(a, b) => InOrder(a, r, floor) && InOrder(b, r, floor)
    case Holding(l, _, body) => r <= Locks.Rank(l) && floor < Locks.Rank(l) && InOrder(body, Locks.Rank(l) + 1, floor)
    case Claiming(cell, body) =>
      r <= Locks.Rank(StateMu) && floor < Locks.Rank(StateMu) && InOrder(body, Locks.Rank(CellLock(cell)) + 1, floor)
    case ForValidation(_) => r <= VALIDATION && floor < VALIDATION
    case ForHandshake(_) => r <= HANDSHAKE && floor < HANDSHAKE
  }

  lemma EmptyNeutral(r: nat, floor: nat)
    ensures Neutral(r, floor, [])
  {
  }

  lemma AwaitNeutral(op: Op, floor: nat)
    requires (op.AwaitValidation? || op.AwaitHandshake?) && floor < OpRank(op)
    ensures Neutral(OpRank(op), floor, [op])
  {
    var ops := [op];
    forall held | Below(held, OpRank(op))
      ensures After(held, ops) == Some(held)
    {
      assert After(held, ops) == After(held, ops[1..]);
    }
  }

  lemma ClaimedNeutral(cell: nat, body: seq<Op>, floor: nat)
    requires Neutral(Locks.Rank(CellLock(cell)) + 1, floor, body) && floor < Locks.Rank(StateMu)
    ensures Neutral(Locks.Rank(StateMu), floor, Claimed(cell, body))
  {
    var take := [Acquire(StateMu, Write), Acquire(CellLock(cell), Write), Release(StateMu)];
    var give := [Release(CellLock(cell))];
    assert AllAbove(take + (body + give), floor);
    forall held | Below(held, Locks.Rank(StateMu))
      ensures After(held, take + (body + give)) == Some(held)
    {
      var inner := held + {CellLock(cell)};
      assert take[1..] == [Acquire(CellLock(cell), Write), Release(StateMu)] && take[1..][1..] == [Release(StateMu)];
      assert held + {StateMu} + {CellLock(cell)} - {StateMu} == inner;
      assert After(held, take) == After(held + {StateMu}, take[1..]);
      assert After(held + {StateMu}, take[1..]) == After(held + {StateMu} + {CellLock(cell)}, take[1..][1..]);
      assert After(held + {StateMu} + {CellLock(cell)}, take[1..][1..]) == After(inner, []) == Some(inner);
      assert inner - {CellLock(cell)} == held;
      assert After(inner, give) == After(held, []);
      AfterConcat(held, take, body + give);
      AfterConcat(inner, body, give);
    }
  }

  /** Code in order gives back every lock it takes, and takes each only above those it holds. */
  lemma {:induction false} InOrderNeutral(c: Code, r: nat, floor: nat)
    requires InOrder(c, r, floor)
    ensures Neutral(r, floor, Ops(c))
  {
    match c {
      case Nothing => EmptyNeutral(r, floor);
      case Then(a, b) =>
        InOrderNeutral(a, r, floor);
        InOrderNeutral(b, r, floor);
        NeutralConcat(r, floor, Ops(a), Ops(b));
      case Holding(l, mode, body) =>
        InOrderNeutral(body, Locks.Rank(l) + 1, floor);
        LockedNeutral(l, mode, Ops(body), floor);
        NeutralLower(Locks.Rank(l), floor, r, floor, Ops(c));
      case Claiming(cell, body) =>
        InOrderNeutral(body, Locks.Rank(CellLock(cell)) + 1, floor);
        ClaimedNeutral(cell, Ops(body), floor);
        NeutralLower(Locks.Rank(StateMu), floor, r, floor, Ops(c));
      case ForValidation(v) =>
        AwaitNeutral(AwaitValidation(v), floor);
        NeutralLower(VALIDATION, floor, r, floor, Ops(c));
      case ForHandshake(h) =>
        AwaitNeutral(AwaitHandshake(h), floor);
        NeutralLower(HANDSHAKE, floor, r, floor, Ops(c));
    }
  }

  lemma {:induction false} InOrderLower(c: Code, r: nat, r': nat, floor: nat)
    requires InOrder(c, r, floor) && r' <= r
    ensures InOrder(c, r', floor)
  {
    if c.Then? {
      InOrderLower(c.first, r, r', floor);
      InOrderLower(c.next, r, r', floor);
    }
  }

  // ---- systems of threads ----

  /** A thread starts with code in order, once the threads it waits for exist: a CA validation and the handshake it makes. */
  datatype Event = Spawn(t: ThreadId, code: Code, floor: nat) | Advance(t: ThreadId)

  ghost predicate Enabled(sys: System, e: Event) {
    match e
    case Spawn(t, code, floor) => t !in sys && InOrder(code, 0, floor) && TargetsKnown(sys, Ops(code))
    case Advance(t) => CanStep(sys, t)
  }

  ghost function Apply(sys: System, e: Event): System
    requires Enabled(sys, e)
  {
    match e
    case Spawn(t, code, floor) => sys[t := Thread(map[], Ops(code), floor)]
    case Advance(t) => sys[t := AfterStep(sys[t])]
  }

  ghost predicate IsRun(syss: seq<System>, es: seq<Event>) {
    && |syss| == |es| + 1 && syss[0] == map[]
    && forall i :: 0 <= i < |es| ==> Enabled(syss[i], es[i]) && syss[i + 1] == Apply(syss[i], es[i])
  }

  lemma SpawnKeeps(sys: System, t: ThreadId, code: Code, floor: nat)
    requires SystemInv(sys) && Exclusive(sys) && Enabled(sys, Spawn(t, code, floor))
    ensures SystemInv(Apply(sys, Spawn(t, code, floor))) && Exclusive(Apply(sys, Spawn(t, code, floor)))
  {
    var th := Thread(map[], Ops(code), floor);
    var sys' := sys[t := th];
    InOrderNeutral(code, 0, floor);
    assert th.held.Keys == {} && Below({}, 0);
    assert After({}, Ops(code)) == Some({});
    forall u | u in sys'
      ensures ThreadInv(sys', sys'[u])
    {
      assert u in sys ==> ThreadInv(sys, sys[u]);
    }
  }

  lemma {:induction false} RunKeeps(syss: seq<System>, es: seq<Event>, k: nat)
    requires IsRun(syss, es) && k <= |es|
    ensures SystemInv(syss[k]) && Exclusive(syss[k])
  {
    if k > 0 {
      RunKeeps(syss, es, k - 1);
      match es[k - 1] {
        case Spawn(t, code, floor) => SpawnKeeps(syss[k - 1], t, code, floor);
        case Advance(t) => StepKeeps(syss[k - 1], t);
      }
    }
  }

  /**
   No deadlock, whatever code the threads run as long as it takes locks in order: in every
   reachable state, following from any unfinished thread what it waits for ends, after finitely
   many threads, at one that can take its next step.
   */
  lemma NoDeadlock(syss: seq<System>, es: seq<Event>, k: nat, t: ThreadId) returns (path: seq<ThreadId>)
    requires IsRun(syss, es) && k <= |es| && t in syss[k] && syss[k][t].rest != []
    ensures EndsInStep(syss[k], t, path)
  {
    RunKeeps(syss, es, k);
    path := WaitEnds(syss[k], t);
  }

  /** A lock held for writing is held by one thread. */
  lemma LocksExclude(syss: seq<System>, es: seq<Event>, k: nat, t: ThreadId, u: ThreadId, l: Lock)
    requires IsRun(syss, es) && k <= |es| && t in syss[k] && u in syss[k]
    requires l in syss[k][t].held && syss[k][t].held[l] == Write && l in syss[k][u].held
    ensures t == u
  {
    RunKeeps(syss, es, k);
  }

  // ---- the pieces of the manager's code ----

  /** A call of the cache, or of the TXT record store behind the same database; None when there is no cache to call. */
  function CacheCall(use: Option<Mode>): Code {
    if use.None? then Nothing else Holding(CacheLock, use.value, Nothing)
  }

  /** One HTTP request handled by the CA. */
  const CA_CALL := Holding(CaMu, Write, Nothing)

  const DRAW := Holding(RandMu, Write, Nothing)

  function When(b: bool, c: Code): Code {
    if b then c else Nothing
  }

  function All(codes: seq<Code>): Code {
    if codes == [] then Nothing else Then(codes[0], All(codes[1..]))
  }

  /**
   What an issuance is made of: acmeClient, with its account key lookups and its registration;
   supportedChallengeTypes; a request to the CA; the provisioning of a response, in memory or only
   in the TXT store; and the wait for the CA to validate a challenge.
   */
  datatype Action =
    | UseClient(keyCalls: seq<Option<Mode>>, caCalls: nat)
    | ReadTypes
    | AskCa
    | PutToken(inMemory: bool, cache: Option<Mode>)
    | WaitForCa(validator: ThreadId)

  function ActionCode(a: Action): Code {
    match a
    case UseClient(keyCalls, n) =>
      Holding(ClientMu, Write, Then(All(seq(|keyCalls|, i requires 0 <= i < |keyCalls| => CacheCall(keyCalls[i]))),
                                    All(seq(n, _ => CA_CALL))))
    case ReadTypes => Holding(ChallengeMu, Read, Nothing)
    case AskCa => CA_CALL
    case PutToken(inMemory, cache) => if inMemory then Holding(ChallengeMu, Write, CacheCall(cache)) else CacheCall(cache)
    case WaitForCa(v) => ForValidation(v)
  }

  /** authorizedCert, as far as it got: any of its actions in any order and number, so with all its loops and exits. */
  function Issuing(actions: seq<Action>): Code {
    All(seq(|actions|, i requires 0 <= i < |actions| => ActionCode(actions[i])))
  }

  function StopLoops(loops: seq<nat>): Code {
    All(seq(|loops|, i requires 0 <= i < |loops| => Holding(TimerMu(loops[i]), Write, Nothing)))
  }

  lemma {:induction false} AllInOrder(codes: seq<Code>, r: nat, floor: nat)
    requires forall i :: 0 <= i < |codes| ==> InOrder(codes[i], r, floor)
    ensures InOrder(All(codes), r, floor)
  {
    if codes != [] {
      AllInOrder(codes[1..], r, floor);
    }
  }

  lemma ActionInOrder(a: Action)
    ensures InOrder(ActionCode(a), Locks.Rank(ClientMu), 0)
  {
    if a.UseClient? {
      AllInOrder(seq(|a.keyCalls|, i requires 0 <= i < |a.keyCalls| => CacheCall(a.keyCalls[i])), Locks.Rank(ClientMu) + 1, 0);
      AllInOrder(seq(a.caCalls, _ => CA_CALL), Locks.Rank(ClientMu) + 1, 0);
    }
  }

  /** An issuance runs with a timer or cell lock held, and waits for the CA without any lock its handshake needs. */
  lemma IssuingInOrder(actions: seq<Action>, r: nat)
    requires r <= Locks.Rank(ClientMu)
    ensures InOrder(Issuing(actions), r, 0)
  {
    var codes := seq(|actions|, i requires 0 <= i < |actions| => ActionCode(actions[i]));
    forall i | 0 <= i < |codes|
      ensures InOrder(codes[i], r, 0)
    {
      ActionInOrder(actions[i]);
      InOrderLower(codes[i], Locks.Rank(ClientMu), r, 0);
    }
    AllInOrder(codes, r, 0);
  }

  // ---- paths ----

  datatype Path =
    | HandshakeFinds(cell: nat)
    | HandshakeEndsAtLookup(get: Option<Mode>)
    | HandshakeJoins(get: Option<Mode>, cell: nat)
    | HandshakeHasNoKey(get: Option<Mode>)
    | HandshakeIssues(get: Option<Mode>, cell: nat, actions: seq<Action>, put: Option<Mode>)
    | TokenHandshake(get: Option<Mode>)
    | HttpTokenRequest(get: Option<Mode>)
    | RemoveToken(inMemory: bool, delete: Option<Mode>)
    | Configure
    | Deactivate(actions: seq<Action>)
    | RemovalCallback
    | StartRenewal(starts: Option<nat>, draws: bool)
    | StopRenewals(loops: seq<nat>)
    | RenewalIsStopped(loop: nat)
    | Renew(loop: nat, get: Option<Mode>, found: bool, rest: Renewed)
    | ValidateChallenge(dials: Option<ThreadId>)
    | CaRequest
    | DatabaseCalls(calls: seq<Mode>)

  /** How `do` goes on after the cache: an adopted certificate, or an issuance that may end before or after the write to the cache. */
  datatype Renewed = Adopts | Issues(actions: seq<Action>, put: Option<Mode>, stored: bool, draws: bool)

  function RenewedCode(x: Renewed): Code {
    match x
    case Adopts => Holding(StateMu, Write, Nothing)
    case Issues(actions, put, stored, draws) =>
      Then(Issuing(actions), Then(CacheCall(put), Then(When(stored, Holding(StateMu, Write, Nothing)), When(draws, DRAW))))
  }

  function CodeOf(p: Path): Code {
    match p
    case HandshakeFinds(cell) => Then(Holding(StateMu, Write, Nothing), Holding(CellLock(cell), Read, Nothing))
    case HandshakeEndsAtLookup(get) => Holding(StateMu, Write, CacheCall(get))
    case HandshakeJoins(get, cell) =>
      Then(Holding(StateMu, Write, CacheCall(get)),
           Then(Holding(StateMu, Write, Nothing), Holding(CellLock(cell), Read, Nothing)))
    case HandshakeHasNoKey(get) => Then(Holding(StateMu, Write, CacheCall(get)), Holding(StateMu, Write, Nothing))
    case HandshakeIssues(get, cell, actions, put) =>
      Then(Holding(StateMu, Write, CacheCall(get)), Then(Claiming(cell, Issuing(actions)), CacheCall(put)))
    case TokenHandshake(get) => Holding(ChallengeMu, Read, CacheCall(get))
    case HttpTokenRequest(get) => Holding(ChallengeMu, Read, CacheCall(get))
    case RemoveToken(inMemory, delete) =>
      if inMemory then Holding(ChallengeMu, Write, CacheCall(delete)) else CacheCall(delete)
    case Configure => Holding(ChallengeMu, Write, Nothing)
    case Deactivate(actions) => Issuing(actions)
    case RemovalCallback => Holding(StateMu, Write, Nothing)
    case StartRenewal(starts, draws) =>
      Holding(RenewalMu, Write, if starts.None? then Nothing else Holding(TimerMu(starts.value), Write, When(draws, DRAW)))
    case StopRenewals(loops) => Holding(RenewalMu, Write, StopLoops(loops))
    case RenewalIsStopped(l) => Holding(TimerMu(l), Write, Nothing)
    case Renew(l, get, found, x) =>
      Holding(TimerMu(l), Write, Then(CacheCall(get), Then(When(found, DRAW), RenewedCode(x))))
    case ValidateChallenge(dials) =>
      Then(CA_CALL, Then(if dials.None? then Nothing else ForHandshake(dials.value), CA_CALL))
    case CaRequest => CA_CALL
    case DatabaseCalls(calls) =>
      All(seq(|calls|, i requires 0 <= i < |calls| => Holding(CacheLock, calls[i], Nothing)))
  }

  function Floor(p: Path): nat {
    match p
    case TokenHandshake(_) => HANDSHAKE
    case ValidateChallenge(_) => VALIDATION
    case _ => 0
  }

  lemma Leaf(l: Lock, mode: Mode, r: nat, floor: nat)
    requires r <= Locks.Rank(l) && floor < Locks.Rank(l)
    ensures InOrder(Holding(l, mode, Nothing), r, floor)
  {
  }

  /** A cache call, and a draw, may come anywhere below the cache's lock. */
  lemma CallsInOrder(use: Option<Mode>, b: bool, r: nat, floor: nat)
    requires r <= Locks.Rank(CacheLock) && floor < Locks.Rank(CacheLock)
    ensures InOrder(CacheCall(use), r, floor) && InOrder(CA_CALL, r, floor) && InOrder(When(b, DRAW), r, floor)
  {
    Leaf(CaMu, Write, r, floor);
    Leaf(RandMu, Write, r, floor);
    if use.Some? {
      Leaf(CacheLock, use.value, r, floor);
    }
  }

  lemma Within(l: Lock, mode: Mode, body: Code, r: nat, floor: nat)
    requires r <= Locks.Rank(l) && floor < Locks.Rank(l) && InOrder(body, Locks.Rank(l) + 1, floor)
    ensures InOrder(Holding(l, mode, body), r, floor)
  {
  }

  lemma Both(a: Code, b: Code, r: nat, floor: nat)
    requires InOrder(a, r, floor) && InOrder(b, r, floor)
    ensures InOrder(Then(a, b), r, floor)
  {
  }

  lemma RenewedInOrder(x: Renewed, r: nat)
    requires r <= Locks.Rank(StateMu)
    ensures InOrder(RenewedCode(x), r, 0)
  {
    if x.Issues? {
      IssuingInOrder(x.actions, r);
      CallsInOrder(x.put, x.draws, r, 0);
      var store := When(x.stored, Holding(StateMu, Write, Nothing));
      Both(store, When(x.draws, DRAW), r, 0);
      Both(CacheCall(x.put), Then(store, When(x.draws, DRAW)), r, 0);
    }
  }

  lemma HandshakeInOrder(p: Path)
    requires p.HandshakeFinds? || p.HandshakeEndsAtLookup? || p.HandshakeJoins? || p.HandshakeHasNoKey? || p.HandshakeIssues?
    ensures InOrder(CodeOf(p), 0, 0)
  {
    Leaf(StateMu, Write, 0, 0);
    if !p.HandshakeFinds? {
      CallsInOrder(p.get, false, Locks.Rank(StateMu) + 1, 0);
      Within(StateMu, Write, CacheCall(p.get), 0, 0);
    }
    match p {
      case HandshakeFinds(cell) => Leaf(CellLock(cell), Read, 0, 0);
      case HandshakeJoins(_, cell) =>
        Leaf(CellLock(cell), Read, 0, 0);
        Both(Holding(StateMu, Write, Nothing), Holding(CellLock(cell), Read, Nothing), 0, 0);
      case HandshakeIssues(_, cell, actions, put) =>
        IssuingInOrder(actions, Locks.Rank(CellLock(cell)) + 1);
        CallsInOrder(put, false, 0, 0);
        Both(Claiming(cell, Issuing(actions)), CacheCall(put), 0, 0);
      case _ =>
    }
  }

  lemma RenewalInOrder(p: Path)
    requires p.StartRenewal? || p.StopRenewals? || p.RenewalIsStopped? || p.Renew?
    ensures InOrder(CodeOf(p), 0, 0)
  {
    match p {
      case StartRenewal(starts, draws) =>
        if starts.Some? {
          CallsInOrder(None, draws, Locks.Rank(TimerMu(starts.value)) + 1, 0);
          Within(TimerMu(starts.value), Write, When(draws, DRAW), Locks.Rank(RenewalMu) + 1, 0);
        }
      case StopRenewals(loops) =>
        forall l: nat {
          Leaf(TimerMu(l), Write, Locks.Rank(RenewalMu) + 1, 0);
        }
        AllInOrder(seq(|loops|, i requires 0 <= i < |loops| => Holding(TimerMu(loops[i]), Write, Nothing)),
                   Locks.Rank(RenewalMu) + 1, 0);
      case Renew(l, get, found, x) =>
        var r := Locks.Rank(TimerMu(l)) + 1;
        RenewedInOrder(x, r);
        CallsInOrder(get, found, r, 0);
        Both(When(found, DRAW), RenewedCode(x), r, 0);
        Both(CacheCall(get), Then(When(found, DRAW), RenewedCode(x)), r, 0);
      case _ =>
    }
  }

  lemma TokenInOrder(p: Path)
    requires p.TokenHandshake? || p.HttpTokenRequest? || p.RemoveToken?
    ensures InOrder(CodeOf(p), 0, Floor(p))
  {
    var use := match p case TokenHandshake(get) => get case HttpTokenRequest(get) => get case RemoveToken(_, delete) => delete;
    CallsInOrder(use, false, Locks.Rank(ChallengeMu) + 1, Floor(p));
    CallsInOrder(use, false, 0, Floor(p));
  }

  /** Every path of the manager and the CA takes its locks in order, above its floor. */
  lemma PathInOrder(p: Path)
    ensures InOrder(CodeOf(p), 0, Floor(p))
  {
    match p {
      case TokenHandshake(_) => TokenInOrder(p);
      case HttpTokenRequest(_) => TokenInOrder(p);
      case RemoveToken(_, _) => TokenInOrder(p);
      case Configure => Leaf(ChallengeMu, Write, 0, 0);
      case RemovalCallback => Leaf(StateMu, Write, 0, 0);
      case CaRequest => Leaf(CaMu, Write, 0, 0);
      case Deactivate(actions) => IssuingInOrder(actions, 0);
      case ValidateChallenge(dials) =>
        CallsInOrder(None, false, 0, VALIDATION);
        Both(if dials.None? then Nothing else ForHandshake(dials.value), CA_CALL, 0, VALIDATION);
      case DatabaseCalls(calls) =>
        forall mode: Mode {
          Leaf(CacheLock, mode, 0, 0);
        }
        AllInOrder(seq(|calls|, i requires 0 <= i < |calls| => Holding(CacheLock, calls[i], Nothing)), 0, 0);
      case StartRenewal(_, _) => RenewalInOrder(p);
      case StopRenewals(_) => RenewalInOrder(p);
      case RenewalIsStopped(_) => RenewalInOrder(p);
      case Renew(_, _, _, _) => RenewalInOrder(p);
      case _ => HandshakeInOrder(p);
    }
  }

  /** The threads the code waits for exist and work above the wait. */
  predicate WaitsKnown(sys: System, c: Code) {
    match c
    case Then(a, b) => WaitsKnown(sys, a) && WaitsKnown(sys, b)
    case Holding(_, _, body) => WaitsKnown(sys, body)
    case Claiming(_, body) => WaitsKnown(sys, body)
    case ForValidation(v) => v in sys && sys[v].floor >= VALIDATION
    case ForHandshake(h) => h in sys && sys[h].floor >= HANDSHAKE
    case Nothing => true
  }

  lemma TargetsConcat(sys: System, a: seq<Op>, b: seq<Op>)
    requires TargetsKnown(sys, a) && TargetsKnown(sys, b)
    ensures TargetsKnown(sys, a + b)
  {
  }

  lemma {:induction false} WaitsAreTargets(sys: System, c: Code)
    requires WaitsKnown(sys, c)
    ensures TargetsKnown(sys, Ops(c))
  {
    match c {
      case Then(a, b) =>
        WaitsAreTargets(sys, a);
        WaitsAreTargets(sys, b);
        TargetsConcat(sys, Ops(a), Ops(b));
      case Holding(l, mode, body) =>
        WaitsAreTargets(sys, body);
        TargetsConcat(sys, [Acquire(l, mode)], Ops(body));
        TargetsConcat(sys, [Acquire(l, mode)] + Ops(body), [Release(l)]);
      case Claiming(cell, body) =>
        WaitsAreTargets(sys, body);
        TargetsConcat(sys, Ops(body), [Release(CellLock(cell))]);
        TargetsConcat(sys, [Acquire(StateMu, Write), Acquire(CellLock(cell), Write), Release(StateMu)],
                      Ops(body) + [Release(CellLock(cell))]);
      case _ =>
    }
  }

  /** So a thread on any path may start in any system in which the threads it waits for exist. */
  lemma PathMayStart(sys: System, t: ThreadId, p: Path)
    requires t !in sys && WaitsKnown(sys, CodeOf(p))
    ensures Enabled(sys, Spawn(t, CodeOf(p), Floor(p)))
  {
    PathInOrder(p);
    WaitsAreTargets(sys, CodeOf(p));
  }

  /** A validation and the token handshake it makes are such threads: they work above the waits for them. */
  lemma CaThreadsAreKnown(sys: System, v: ThreadId, h: ThreadId, get: Option<Mode>)
    requires h in sys && sys[h].floor == Floor(TokenHandshake(get))
    ensures WaitsKnown(sys, CodeOf(ValidateChallenge(Some(h))))
    ensures v in sys && sys[v].floor == Floor(ValidateChallenge(Some(h))) ==> WaitsKnown(sys, ActionCode(WaitForCa(v)))
  {
    assert WaitsKnown(sys, Nothing);
    assert WaitsKnown(sys, CA_CALL);
    assert WaitsKnown(sys, Then(ForHandshake(h), CA_CALL));
  }

  // ---- what is protected ----

  /** Code that is in order above r touches no lock below r. */
  lemma {:induction false} OpsAbove(c: Code, r: nat, floor: nat, i: nat)
    requires InOrder(c, r, floor) && i < |Ops(c)|
    ensures Ops(c)[i].Acquire? || Ops(c)[i].Release? ==> r <= Locks.Rank(Ops(c)[i].lock)
  {
    match c {
      case Then(a, b) =>
        if i < |Ops(a)| {
          OpsAbove(a, r, floor, i);
        } else {
          OpsAbove(b, r, floor, i - |Ops(a)|);
        }
      case Holding(l, mode, body) =>
        if 0 < i < |Ops(c)| - 1 {
          OpsAbove(body, Locks.Rank(l) + 1, floor, i - 1);
        }
      case Claiming(cell, body) =>
        if 3 <= i < |Ops(c)| - 1 {
          OpsAbove(body, Locks.Rank(CellLock(cell)) + 1, floor, i - 3);
        }
      case _ =>
    }
  }

  /** Code that holds a lock does so from its first operation to its last. */
  lemma HeldThroughout(l: Lock, mode: Mode, body: Code, floor: nat, i: nat)
    requires InOrder(body, Locks.Rank(l) + 1, floor) && 0 < i < |Ops(Holding(l, mode, body))|
    ensures var ops := Ops(Holding(l, mode, body)); l in HeldBefore(ops, i) && HeldBefore(ops, i)[l] == mode
  {
    var ops := Ops(Holding(l, mode, body));
    forall j | 0 < j < i
      ensures !Concerns(ops[j], l)
    {
      assert ops[j] == Ops(body)[j - 1];
      OpsAbove(body, Locks.Rank(l) + 1, floor, j - 1);
    }
    HeldSince(ops, l, mode, 0, i);
  }

  /**
   The lock that a path holds all along: a renewal its loop's, so that stop waits for it; starting
   and stopping loops the map of loops'; what reads or removes a token the token maps', including
   the call of the cache; a lookup that ends there, and a removal, the map of entries'.
   */
  lemma GuardHeld(p: Path, i: nat)
    requires 0 < i < |Ops(CodeOf(p))|
    ensures var ops := Ops(CodeOf(p));
            match p
            case Renew(l, _, _, _) => ops[0] == Acquire(TimerMu(l), Write) && TimerMu(l) in HeldBefore(ops, i)
            case StartRenewal(_, _) => ops[0] == Acquire(RenewalMu, Write) && RenewalMu in HeldBefore(ops, i)
            case StopRenewals(_) => ops[0] == Acquire(RenewalMu, Write) && RenewalMu in HeldBefore(ops, i)
            case TokenHandshake(_) => ops[0] == Acquire(ChallengeMu, Read) && ChallengeMu in HeldBefore(ops, i)
            case HttpTokenRequest(_) => ops[0] == Acquire(ChallengeMu, Read) && ChallengeMu in HeldBefore(ops, i)
            case RemoveToken(inMemory, _) =>
              inMemory ==> ops[0] == Acquire(ChallengeMu, Write) && ChallengeMu in HeldBefore(ops, i)
            case HandshakeEndsAtLookup(_) => ops[0] == Acquire(StateMu, Write) && StateMu in HeldBefore(ops, i)
            case RemovalCallback => ops[0] == Acquire(StateMu, Write) && StateMu in HeldBefore(ops, i)
            case _ => true
  {
    PathInOrder(p);
    var c := CodeOf(p);
    if c.Holding? {
      HeldThroughout(c.lock, c.mode, c.body, Floor(p), i);
    }
  }

  /** The operation is one an issuance makes to reach the CA or to provision a response. */
  predicate ForIssuance(op: Op) {
    op.AwaitValidation? || (op.Acquire? && (op.lock == ClientMu || op.lock == ChallengeMu || op.lock == CaMu))
  }

  lemma IssueParts(get: Option<Mode>, cell: nat, actions: seq<Action>, put: Option<Mode>)
    ensures Ops(CodeOf(HandshakeIssues(get, cell, actions, put))) ==
            Ops(Holding(StateMu, Write, CacheCall(get))) + (Claimed(cell, Ops(Issuing(actions))) + Ops(CacheCall(put)))
  {
    var claim := Claiming(cell, Issuing(actions));
    var next := Then(claim, CacheCall(put));
    assert Ops(claim) == Claimed(cell, Ops(Issuing(actions)));
    assert Ops(next) == Ops(claim) + Ops(CacheCall(put));
    assert CodeOf(HandshakeIssues(get, cell, actions, put)) == Then(Holding(StateMu, Write, CacheCall(get)), next);
  }

  lemma ClaimLayout(ops: seq<Op>, first: seq<Op>, cell: nat, body: seq<Op>, last: seq<Op>)
    requires ops == first + (Claimed(cell, body) + last)
    ensures var n := |first|;
            && |ops| == n + 3 + |body| + 1 + |last|
            && ops[n] == Acquire(StateMu, Write) && ops[n + 1] == Acquire(CellLock(cell), Write) && ops[n + 2] == Release(StateMu)
            && (forall j :: 0 <= j < n ==> ops[j] == first[j])
            && (forall j :: n + 3 <= j < n + 3 + |body| ==> ops[j] == body[j - n - 3])
            && ops[n + 3 + |body|] == Release(CellLock(cell))
            && (forall j :: n + 4 + |body| <= j < |ops| ==> ops[j] == last[j - n - 4 - |body|])
  {
  }

  lemma LookupOps(get: Option<Mode>, cell: nat)
    ensures var first := Ops(Holding(StateMu, Write, CacheCall(get)));
            && |first| == |Ops(CacheCall(get))| + 2
            && forall j :: 0 <= j < |first| ==> !ForIssuance(first[j]) && !Concerns(first[j], CellLock(cell))
  {
    var first := Ops(Holding(StateMu, Write, CacheCall(get)));
    CacheCallLocks(get);
    assert first == [Acquire(StateMu, Write)] + Ops(CacheCall(get)) + [Release(StateMu)];
  }

  lemma StoreOps(put: Option<Mode>, cell: nat)
    ensures var last := Ops(CacheCall(put));
            forall j :: 0 <= j < |last| ==> !ForIssuance(last[j]) && last[j] != Acquire(CellLock(cell), Write)
  {
    CacheCallLocks(put);
  }

  /** In the code of a handshake that issues: its lookup, what follows up to the claim, the issuance, and the rest. */
  lemma IssueOps(get: Option<Mode>, cell: nat, actions: seq<Action>, put: Option<Mode>)
    ensures var ops := Ops(CodeOf(HandshakeIssues(get, cell, actions, put)));
            var n := |Ops(CacheCall(get))| + 2;
            var body := Ops(Issuing(actions));
            && |ops| == n + 3 + |body| + 1 + |Ops(CacheCall(put))|
            && ops[n] == Acquire(StateMu, Write) && ops[n + 1] == Acquire(CellLock(cell), Write) && ops[n + 2] == Release(StateMu)
            && (forall j :: n + 3 <= j < n + 3 + |body| ==> ops[j] == body[j - n - 3])
            && (forall j :: 0 <= j < n ==> !ForIssuance(ops[j]) && !Concerns(ops[j], CellLock(cell)))
            && (forall j :: n + 3 + |body| <= j < |ops| ==> !ForIssuance(ops[j]) && ops[j] != Acquire(CellLock(cell), Write))
  {
    var first := Ops(Holding(StateMu, Write, CacheCall(get)));
    LookupOps(get, cell);
    StoreOps(put, cell);
    IssueParts(get, cell, actions, put);
    ClaimLayout(Ops(CodeOf(HandshakeIssues(get, cell, actions, put))), first, cell, Ops(Issuing(actions)), Ops(CacheCall(put)));
  }

  lemma IssuingLeavesCell(cell: nat, actions: seq<Action>)
    ensures forall j :: 0 <= j < |Ops(Issuing(actions))| ==> !Concerns(Ops(Issuing(actions))[j], CellLock(cell))
  {
    var r := Locks.Rank(CellLock(cell)) + 1;
    IssuingInOrder(actions, r);
    forall j | 0 <= j < |Ops(Issuing(actions))|
      ensures !Concerns(Ops(Issuing(actions))[j], CellLock(cell))
    {
      OpsAbove(Issuing(actions), r, 0, j);
    }
  }

  /**
   The handshake that issues holds its entry's lock for writing through every request to the CA, every
   response it provisions and every wait.
   */
  lemma IssuerHoldsCell(get: Option<Mode>, cell: nat, actions: seq<Action>, put: Option<Mode>, i: nat)
    requires i < |Ops(CodeOf(HandshakeIssues(get, cell, actions, put)))|
    requires ForIssuance(Ops(CodeOf(HandshakeIssues(get, cell, actions, put)))[i])
    ensures var held := HeldBefore(Ops(CodeOf(HandshakeIssues(get, cell, actions, put))), i);
            CellLock(cell) in held && held[CellLock(cell)] == Write
  {
    IssueOps(get, cell, actions, put);
    IssuingLeavesCell(cell, actions);
    HeldSince(Ops(CodeOf(HandshakeIssues(get, cell, actions, put))), CellLock(cell), Write, |Ops(CacheCall(get))| + 3, i);
  }

  /** And it takes that lock while it holds the map of entries, so that nobody finds the entry unlocked before. */
  lemma ClaimUnderState(get: Option<Mode>, cell: nat, actions: seq<Action>, put: Option<Mode>, i: nat)
    requires i < |Ops(CodeOf(HandshakeIssues(get, cell, actions, put)))|
    requires Ops(CodeOf(HandshakeIssues(get, cell, actions, put)))[i] == Acquire(CellLock(cell), Write)
    ensures StateMu in HeldBefore(Ops(CodeOf(HandshakeIssues(get, cell, actions, put))), i)
  {
    IssueOps(get, cell, actions, put);
    IssuingLeavesCell(cell, actions);
    NotInBody(Ops(CodeOf(HandshakeIssues(get, cell, actions, put))), Ops(Issuing(actions)), |Ops(CacheCall(get))| + 5, cell);
    HeldSince(Ops(CodeOf(HandshakeIssues(get, cell, actions, put))), StateMu, Write, |Ops(CacheCall(get))| + 2, i);
  }

  lemma NotInBody(ops: seq<Op>, body: seq<Op>, n: nat, cell: nat)
    requires n + |body| <= |ops|
    requires forall j :: n <= j < n + |body| ==> ops[j] == body[j - n]
    requires forall j :: 0 <= j < |body| ==> !Concerns(body[j], CellLock(cell))
    ensures forall j :: n <= j < n + |body| ==> ops[j] != Acquire(CellLock(cell), Write)
  {
    forall j | n <= j < n + |body|
      ensures ops[j] != Acquire(CellLock(cell), Write)
    {
      assert !Concerns(body[j - n], CellLock(cell));
    }
  }

  /** A handshake that waits for a certState looks it up under the map's lock and then takes the entry's, for reading. */
  lemma WaitsUnderCell(get: Option<Mode>, cell: nat)
    ensures Ops(CodeOf(HandshakeFinds(cell))) ==
            [Acquire(StateMu, Write), Release(StateMu), Acquire(CellLock(cell), Read), Release(CellLock(cell))]
    ensures var ops := Ops(CodeOf(HandshakeJoins(get, cell)));
            |ops| >= 6 && ops[0] == Acquire(StateMu, Write) &&
            ops[|ops| - 5..] ==
            [Release(StateMu), Acquire(StateMu, Write), Release(StateMu), Acquire(CellLock(cell), Read), Release(CellLock(cell))]
  {
    var wait := Then(Holding(StateMu, Write, Nothing), Holding(CellLock(cell), Read, Nothing));
    assert Ops(Holding(StateMu, Write, Nothing)) == [Acquire(StateMu, Write), Release(StateMu)];
    assert Ops(Holding(CellLock(cell), Read, Nothing)) == [Acquire(CellLock(cell), Read), Release(CellLock(cell))];
    assert Ops(wait) == [Acquire(StateMu, Write), Release(StateMu), Acquire(CellLock(cell), Read), Release(CellLock(cell))];
    var lookup := Holding(StateMu, Write, CacheCall(get));
    assert Ops(lookup) == [Acquire(StateMu, Write)] + Ops(CacheCall(get)) + [Release(StateMu)];
    assert CodeOf(HandshakeJoins(get, cell)) == Then(lookup, wait);
    assert Ops(Then(lookup, wait)) == Ops(lookup) + Ops(wait);
  }

  /** The locks an action of an issuance holds: the client's while it is set up, the token maps' while a response is put. */
  lemma ActionHolds(a: Action, i: nat)
    requires 0 < i < |Ops(ActionCode(a))|
    ensures var ops := Ops(ActionCode(a));
            match a
            case UseClient(_, _) => ops[0] == Acquire(ClientMu, Write) && ClientMu in HeldBefore(ops, i)
            case ReadTypes => ops == [Acquire(ChallengeMu, Read), Release(ChallengeMu)]
            case AskCa => ops == [Acquire(CaMu, Write), Release(CaMu)]
            case PutToken(inMemory, _) => inMemory ==> ops[0] == Acquire(ChallengeMu, Write) && ChallengeMu in HeldBefore(ops, i)
            case WaitForCa(_) => false
  {
    ActionInOrder(a);
    var c := ActionCode(a);
    if c.Holding? {
      HeldThroughout(c.lock, c.mode, c.body, 0, i);
    }
  }

  /** A renewal that adopts a certificate, or stores an issued one, takes the lock of the map of entries to do so. */
  lemma RenewalStores(x: Renewed)
    requires x.Adopts? || x.stored
    ensures Acquire(StateMu, Write) in Ops(RenewedCode(x))
  {
    var store := Holding(StateMu, Write, Nothing);
    assert Ops(store)[0] == Acquire(StateMu, Write);
    if x.Issues? {
      var rest := Then(store, When(x.draws, DRAW));
      assert Ops(rest)[0] == Acquire(StateMu, Write);
      var next := Then(CacheCall(x.put), rest);
      assert Ops(next)[|Ops(CacheCall(x.put))|] == Acquire(StateMu, Write);
      assert RenewedCode(x) == Then(Issuing(x.actions), next);
      assert Ops(RenewedCode(x)) == Ops(Issuing(x.actions)) + Ops(next);
    }
  }

  /** Every call of the cache takes its lock, in the mode of the call. */
  lemma CacheCallLocks(use: Option<Mode>)
    ensures Ops(CacheCall(use)) == if use.Some? then [Acquire(CacheLock, use.value), Release(CacheLock)] else []
  {
    if use.Some? {
      assert Ops(Nothing) == [];
    }
  }

  /** The CA dials back without any lock. */
  lemma DialsWithoutLock(h: ThreadId, i: nat)
    requires i < |Ops(CodeOf(ValidateChallenge(Some(h))))|
    requires Ops(CodeOf(ValidateChallenge(Some(h))))[i] == AwaitHandshake(h)
    ensures HeldBefore(Ops(CodeOf(ValidateChallenge(Some(h)))), i) == map[]
  {
    var ops := Ops(CodeOf(ValidateChallenge(Some(h))));
    assert Ops(CA_CALL) == [Acquire(CaMu, Write), Release(CaMu)];
    var next := Then(ForHandshake(h), CA_CALL);
    assert Ops(next) == [AwaitHandshake(h)] + Ops(CA_CALL);
    assert CodeOf(ValidateChallenge(Some(h))) == Then(CA_CALL, next);
    assert ops == [Acquire(CaMu, Write), Release(CaMu), AwaitHandshake(h), Acquire(CaMu, Write), Release(CaMu)];
    assert HeldBefore(ops, 1) == map[CaMu := Write];
    assert HeldBefore(ops, 2) == map[];
  }

  // ---- in a run ----

  /** The thread has made n of the operations of its code. */
  predicate AtOp(sys: System, t: ThreadId, ops: seq<Op>, n: nat) {
    n <= |ops| && t in sys && sys[t].rest == ops[n..] && sys[t].held == HeldBefore(ops, n)
  }

  lemma StepMoves(sys: System, e: Event, sys': System, t: ThreadId, ops: seq<Op>, n: nat)
    requires Enabled(sys, e) && sys' == Apply(sys, e) && AtOp(sys, t, ops, n)
    ensures AtOp(sys', t, ops, if e == Advance(t) then n + 1 else n)
  {
    if e == Advance(t) {
      assert ops[n..][0] == ops[n] && ops[n..][1..] == ops[n + 1..];
    }
  }

  /** A thread goes through its code from the first operation to the last, and holds what that says. */
  lemma {:induction false} ThreadFollowsCode(syss: seq<System>, es: seq<Event>, j: nat, k: nat) returns (n: nat)
    requires IsRun(syss, es) && j < k <= |es| && es[j].Spawn?
    ensures AtOp(syss[k], es[j].t, Ops(es[j].code), n)
  {
    if j == k - 1 {
      n := 0;
      assert Ops(es[j].code)[0..] == Ops(es[j].code);
    } else {
      n := ThreadFollowsCode(syss, es, j, k - 1);
      StepMoves(syss[k - 1], es[k - 1], syss[k], es[j].t, Ops(es[j].code), n);
      if es[k - 1] == Advance(es[j].t) {
        n := n + 1;
      }
    }
  }

  /** The thread was started on an issuance for the entry and is about to ask the CA, to provision a response or to wait. */
  ghost predicate IssuesFor(syss: seq<System>, es: seq<Event>, j: nat, k: nat, cell: nat)
    requires j < k <= |es| < |syss|
  {
    && es[j].Spawn?
    && (exists get, actions, put :: es[j].code == CodeOf(HandshakeIssues(get, cell, actions, put)))
    && es[j].t in syss[k] && syss[k][es[j].t].rest != [] && ForIssuance(syss[k][es[j].t].rest[0])
  }

  lemma IssuerAt(syss: seq<System>, es: seq<Event>, j: nat, k: nat, cell: nat)
    requires IsRun(syss, es) && j < k <= |es| && IssuesFor(syss, es, j, k, cell)
    ensures CellLock(cell) in syss[k][es[j].t].held && syss[k][es[j].t].held[CellLock(cell)] == Write
  {
    var get, actions, put :| es[j].code == CodeOf(HandshakeIssues(get, cell, actions, put));
    var n := ThreadFollowsCode(syss, es, j, k);
    var ops := Ops(es[j].code);
    assert ops[n..][0] == ops[n];
    IssuerHoldsCell(get, cell, actions, put, n);
  }

  /** In no reachable state are two threads in the middle of an issuance for the same entry. */
  lemma IssuancesExclude(syss: seq<System>, es: seq<Event>, i: nat, j: nat, k: nat, cell: nat)
    requires IsRun(syss, es) && i < k <= |es| && j < k
    requires IssuesFor(syss, es, i, k, cell) && IssuesFor(syss, es, j, k, cell)
    ensures es[i].t == es[j].t
  {
    IssuerAt(syss, es, i, k, cell);
    IssuerAt(syss, es, j, k, cell);
    LocksExclude(syss, es, k, es[i].t, es[j].t, CellLock(cell));
  }

  /** A thread gets past its wait only when the thread it waits for is through. */
  lemma AwaitedIsOver(syss: seq<System>, es: seq<Event>, k: nat, t: ThreadId)
    requires IsRun(syss, es) && k < |es| && es[k] == Advance(t) && t in syss[k] && syss[k][t].rest != []
    ensures match syss[k][t].rest[0]
            case AwaitValidation(v) => v in syss[k] && syss[k][v].rest == []
            case AwaitHandshake(h) => h in syss[k] && syss[k][h].rest == []
            case _ => true
  {
    RunKeeps(syss, es, k);
    assert ThreadInv(syss[k], syss[k][t]);
    CanStepExactly(syss[k], t);
  }
}
