/**
 Threads that take read-write locks in a fixed order and may wait for other threads to end.
 Writers have preference, as in sync.RWMutex: a reader is held up by a waiting writer too.
 No execution reaches a state in which some thread waits for ever.
 */
module Locks {
  import opened Wrappers

  /** The locks of the manager (src/autocert/autocert.go, src/autocert/renewal.go), its cache and the CA. */
  datatype Lock =
    | RenewalMu
    | TimerMu(loop: nat)
    | StateMu
    | CellLock(cell: nat)
    | ClientMu
    | ChallengeMu
    | CacheLock
    | CaMu
    | RandMu

  datatype Mode = Read | Write

  type ThreadId = nat

  datatype Op =
    | Acquire(lock: Lock, mode: Mode)
    | Release(lock: Lock)
    | AwaitValidation(validator: ThreadId)
    | AwaitHandshake(handshake: ThreadId)

  const VALIDATION := 6
  const HANDSHAKE := 7
  const TOP := 11

  /** The lock order, in which waiting for the CA has a place of its own. */
  function Rank(l: Lock): (r: nat)
    ensures 0 < r < TOP && r != VALIDATION && r != HANDSHAKE
  {
    match l
    case RenewalMu => 1
    case TimerMu(_) => 2
    case StateMu => 3
    case CellLock(_) => 4
    case ClientMu => 5
    case ChallengeMu => 8
    case CacheLock => 9
    case CaMu => 10
    case RandMu => 10
  }

  function OpRank(op: Op): nat {
    match op
    case Acquire(l, _) => Rank(l)
    case Release(_) => TOP
    case AwaitValidation(_) => VALIDATION
    case AwaitHandshake(_) => HANDSHAKE
  }

  predicate Below(held: set<Lock>, r: nat) {
    forall h :: h in held ==> Rank(h) < r
  }

  /** What is held after the operations, or None when one of them is out of order. */
  function After(held: set<Lock>, ops: seq<Op>): Option<set<Lock>>
    decreases |ops|
  {
    if ops == [] then Some(held)
    else
      match ops[0]
      case Acquire(l, _) => if Below(held, Rank(l)) then After(held + {l}, ops[1..]) else None
      case Release(l) => if l in held then After(held - {l}, ops[1..]) else None
      case _ => if Below(held, OpRank(ops[0])) then After(held, ops[1..]) else None
  }

  /** The thread's locks by mode, what it has still to do, and a rank all its operations lie above. */
  datatype Thread = Thread(held: map<Lock, Mode>, rest: seq<Op>, floor: nat)

  type System = map<ThreadId, Thread>

  predicate AllAbove(ops: seq<Op>, floor: nat) {
    forall i :: 0 <= i < |ops| ==> floor < OpRank(ops[i])
  }

  /** A thread that is waited for works above the rank of the wait. */
  predicate TargetsKnown(sys: System, ops: seq<Op>) {
    forall i :: 0 <= i < |ops| ==>
      && (ops[i].AwaitValidation? ==> ops[i].validator in sys && sys[ops[i].validator].floor >= VALIDATION)
      && (ops[i].AwaitHandshake? ==> ops[i].handshake in sys && sys[ops[i].handshake].floor >= HANDSHAKE)
  }

  predicate Next(sys: System, t: ThreadId, op: Op) {
    t in sys && sys[t].rest != [] && sys[t].rest[0] == op
  }

  /** Thread u keeps t from taking its next step. */
  ghost predicate WaitsFor(sys: System, t: ThreadId, u: ThreadId) {
    && t in sys && u in sys && sys[t].rest != []
    && match sys[t].rest[0] {
         case Acquire(l, Write) => u != t && l in sys[u].held
         case Acquire(l, Read) => u != t && ((l in sys[u].held && sys[u].held[l] == Write) || Next(sys, u, Acquire(l, Write)))
         case Release(_) => false
         case AwaitValidation(v) => u == v && sys[u].rest != []
         case AwaitHandshake(h) => u == h && sys[u].rest != []
       }
  }

  ghost predicate CanStep(sys: System, t: ThreadId) {
    t in sys && sys[t].rest != [] && forall u :: !WaitsFor(sys, t, u)
  }

  /**
   What it takes to step: a lock for writing, that nobody else has it; a lock for reading, that nobody
   else has it for writing or waits for that; an end to wait for, that it has come.
   */
  lemma CanStepExactly(sys: System, t: ThreadId)
    requires t in sys && sys[t].rest != []
    ensures CanStep(sys, t) <==>
            match sys[t].rest[0]
            case Acquire(l, Write) => forall u :: u in sys && u != t ==> l !in sys[u].held
            case Acquire(l, Read) =>
              forall u :: u in sys && u != t ==> (l in sys[u].held ==> sys[u].held[l] == Read) && !Next(sys, u, Acquire(l, Write))
            case Release(_) => true
            case AwaitValidation(v) => v in sys ==> sys[v].rest == []
            case AwaitHandshake(h) => h in sys ==> sys[h].rest == []
  {
    match sys[t].rest[0] {
      case Acquire(l, mode) =>
        if !CanStep(sys, t) {
          var u :| WaitsFor(sys, t, u);
          assert u in sys && u != t;
        }
        forall u | u in sys && u != t && (l in sys[u].held || Next(sys, u, Acquire(l, Write)))
          ensures WaitsFor(sys, t, u) <==> if mode == Write then l in sys[u].held
                                           else (l in sys[u].held && sys[u].held[l] == Write) || Next(sys, u, Acquire(l, Write))
        {
        }
      case AwaitValidation(v) => assert v in sys && sys[v].rest != [] ==> WaitsFor(sys, t, v);
      case AwaitHandshake(h) => assert h in sys && sys[h].rest != [] ==> WaitsFor(sys, t, h);
      case _ =>
    }
  }

  function AfterStep(th: Thread): Thread
    requires th.rest != []
  {
    match th.rest[0]
    case Acquire(l, mode) => Thread(th.held[l := mode], th.rest[1..], th.floor)
    case Release(l) => Thread(th.held - {l}, th.rest[1..], th.floor)
    case _ => th.(rest := th.rest[1..])
  }

  ghost predicate ThreadInv(sys: System, th: Thread) {
    && After(th.held.Keys, th.rest) == Some({})
    && AllAbove(th.rest, th.floor)
    && TargetsKnown(sys, th.rest)
  }

  ghost predicate SystemInv(sys: System) {
    forall t :: t in sys ==> ThreadInv(sys, sys[t])
  }

  /** No two threads hold a lock at once unless both only read. */
  ghost predicate Exclusive(sys: System) {
    forall t, u, l :: t in sys && u in sys && t != u && l in sys[t].held && l in sys[u].held ==>
      sys[t].held[l] == Read && sys[u].held[l] == Read
  }

  lemma StepKeeps(sys: System, t: ThreadId)
    requires SystemInv(sys) && Exclusive(sys) && CanStep(sys, t)
    ensures SystemInv(sys[t := AfterStep(sys[t])]) && Exclusive(sys[t := AfterStep(sys[t])])
  {
    var th := sys[t];
    var th' := AfterStep(th);
    var sys' := sys[t := th'];
    assert ThreadInv(sys, th);
    assert th'.held.Keys == match th.rest[0] {
      case Acquire(l, _) => th.held.Keys + {l}
      case Release(l) => th.held.Keys - {l}
      case _ => th.held.Keys
    };
    forall u | u in sys'
      ensures ThreadInv(sys', sys'[u])
    {
      assert ThreadInv(sys, sys[u]);
      assert u == t ==> forall i :: 0 <= i < |th'.rest| ==> th'.rest[i] == th.rest[i + 1];
    }
    StepExclusive(sys, t);
  }

  lemma StepExclusive(sys: System, t: ThreadId)
    requires Exclusive(sys) && CanStep(sys, t)
    ensures Exclusive(sys[t := AfterStep(sys[t])])
  {
    var th := sys[t];
    if th.rest[0].Acquire? {
      forall u | u in sys && u != t
        ensures th.rest[0].lock in sys[u].held ==> th.rest[0].mode == Read && sys[u].held[th.rest[0].lock] == Read
      {
        assert !WaitsFor(sys, t, u);
      }
    }
  }

  /** How far up the order a thread is stuck; a waiting writer counts above a waiting reader. */
  function Height(op: Op): nat {
    2 * OpRank(op) + if op.Acquire? && op.mode == Read then 0 else 1
  }

  /** Whoever holds a thread up is itself able to step, or is stuck further up the order. */
  lemma WaitsUpwards(sys: System, t: ThreadId, u: ThreadId)
    requires SystemInv(sys) && WaitsFor(sys, t, u)
    ensures sys[u].rest != []
    ensures CanStep(sys, u) || Height(sys[t].rest[0]) < Height(sys[u].rest[0])
  {
    assert ThreadInv(sys, sys[t]) && ThreadInv(sys, sys[u]);
    var op := sys[t].rest[0];
    if op.Acquire? && op.lock in sys[u].held {
      assert sys[u].rest != [];
      assert op.lock in sys[u].held.Keys;
    }
    assert sys[u].rest != [];
    if sys[u].rest[0].Release? {
      assert CanStep(sys, u);
    }
  }

  /** t waits for path[1], which waits for path[2], and so on; the last thread can step. */
  ghost predicate EndsInStep(sys: System, t: ThreadId, path: seq<ThreadId>) {
    && path != [] && path[0] == t
    && (forall i :: 0 <= i < |path| - 1 ==> WaitsFor(sys, path[i], path[i + 1]))
    && CanStep(sys, path[|path| - 1])
  }

  lemma WaitExtends(sys: System, t: ThreadId, u: ThreadId, tail: seq<ThreadId>)
    requires WaitsFor(sys, t, u) && EndsInStep(sys, u, tail)
    ensures EndsInStep(sys, t, [t] + tail)
  {
    var path := [t] + tail;
    forall i | 0 <= i < |path| - 1
      ensures WaitsFor(sys, path[i], path[i + 1])
    {
      assert i > 0 ==> WaitsFor(sys, tail[i - 1], tail[i]);
    }
  }

  lemma WaitEnds(sys: System, t: ThreadId) returns (path: seq<ThreadId>)
    requires SystemInv(sys) && t in sys && sys[t].rest != []
    ensures EndsInStep(sys, t, path)
    decreases 2 * TOP + 1 - Height(sys[t].rest[0])
  {
    if CanStep(sys, t) {
      path := [t];
    } else {
      var u :| WaitsFor(sys, t, u);
      WaitsUpwards(sys, t, u);
      assert ThreadInv(sys, sys[u]);
      if CanStep(sys, u) {
        path := [t, u];
      } else {
        var tail := WaitEnds(sys, u);
        path := [t] + tail;
        WaitExtends(sys, t, u, tail);
      }
    }
  }

  // ---- what is held when ----

  /** The locks held before the i-th operation. */
  function HeldBefore(ops: seq<Op>, i: nat): map<Lock, Mode>
    requires i <= |ops|
  {
    if i == 0 then map[]
    else
      match ops[i - 1]
      case Acquire(l, mode) => HeldBefore(ops, i - 1)[l := mode]
      case Release(l) => HeldBefore(ops, i - 1) - {l}
      case _ => HeldBefore(ops, i - 1)
  }

  predicate Concerns(op: Op, l: Lock) {
    (op.Acquire? || op.Release?) && op.lock == l
  }

  /** From the operation that takes the lock on it is held, as long as no other one concerns it. */
  lemma {:induction false} HeldSince(ops: seq<Op>, l: Lock, mode: Mode, a: nat, i: nat)
    requires a < i <= |ops| && ops[a] == Acquire(l, mode)
    requires forall j :: a < j < i ==> !Concerns(ops[j], l)
    ensures l in HeldBefore(ops, i) && HeldBefore(ops, i)[l] == mode
  {
    if a < i - 1 {
      HeldSince(ops, l, mode, a, i - 1);
      assert !Concerns(ops[i - 1], l);
    }
  }

  // ---- programs ----

  lemma {:induction false} AfterConcat(held: set<Lock>, a: seq<Op>, b: seq<Op>)
    requires After(held, a).Some?
    ensures After(held, a + b) == After(After(held, a).value, b)
    decreases |a|
  {
    if a == [] {
      assert a + b == b;
    } else {
      assert (a + b)[0] == a[0] && (a + b)[1..] == a[1..] + b;
      match a[0] {
        case Acquire(l, _) => AfterConcat(held + {l}, a[1..], b);
        case Release(l) => AfterConcat(held - {l}, a[1..], b);
        case _ => AfterConcat(held, a[1..], b);
      }
    }
  }

  /** Run with only locks below rank r held, the operations give back what they take and stay above `floor`. */
  ghost predicate Neutral(r: nat, floor: nat, ops: seq<Op>) {
    && AllAbove(ops, floor)
    && forall held :: Below(held, r) ==> After(held, ops) == Some(held)
  }

  lemma NeutralConcat(r: nat, floor: nat, a: seq<Op>, b: seq<Op>)
    requires Neutral(r, floor, a) && Neutral(r, floor, b)
    ensures Neutral(r, floor, a + b)
  {
    forall held | Below(held, r)
      ensures After(held, a + b) == Some(held)
    {
      AfterConcat(held, a, b);
    }
  }

  lemma NeutralLower(r: nat, floor: nat, r': nat, floor': nat, ops: seq<Op>)
    requires Neutral(r, floor, ops) && r' <= r && floor' <= floor
    ensures Neutral(r', floor', ops)
  {
  }

  function Locked(l: Lock, mode: Mode, body: seq<Op>): seq<Op> {
    [Acquire(l, mode)] + body + [Release(l)]
  }

  lemma LockedNeutral(l: Lock, mode: Mode, body: seq<Op>, floor: nat)
    requires Neutral(Rank(l) + 1, floor, body) && floor < Rank(l)
    ensures Neutral(Rank(l), floor, Locked(l, mode, body))
  {
    var ops := Locked(l, mode, body);
    forall held | Below(held, Rank(l))
      ensures After(held, ops) == Some(held)
    {
      var inner := held + {l};
      assert Below(inner, Rank(l) + 1);
      assert ops[0] == Acquire(l, mode) && ops[1..] == body + [Release(l)];
      AfterConcat(inner, body, [Release(l)]);
      assert inner - {l} == held;
      assert After(inner, [Release(l)]) == After(held, []);
    }
    forall i | 0 <= i < |ops|
      ensures floor < OpRank(ops[i])
    {
      assert 0 < i < |ops| - 1 ==> ops[i] == body[i - 1];
    }
  }
}
