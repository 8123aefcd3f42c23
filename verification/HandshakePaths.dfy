/**
 The way of each handshake through GetCertificate, whatever else runs in between: which of its
 own steps it makes, in which order, and what it ends with (src/autocert/autocert.go:299-322,
 453-481, 581-663).
 */
module HandshakePaths {
  import opened Wrappers
  import opened Pki
  import opened Hello
  import opened Manager
  import opened ManagerRuns
  import opened ManagerGuarantees

  predicate Of(s: Step, t: ThreadId) {
    (OfHandshake(s) || OfIssuer(s)) && s.t == t
  }

  /** The steps of handshake t among the first k. */
  function Own(ss: seq<Step>, t: ThreadId, k: nat): seq<Step>
    requires k <= |ss|
  {
    if k == 0 then [] else Own(ss, t, k - 1) + if Of(ss[k - 1], t) then [ss[k - 1]] else []
  }

  /**
   The source's control flow: a lookup that finds the entry, a usable cached certificate, an error
   or a miss; after a miss the host policy; if it allows the host, an entry another thread made, no
   key, or an issuance of its own.
   */
  predicate Route(own: seq<Step>, pc: Pc) {
    && own != [] && own[0].Arrive?
    && if |own| == 1 then pc == Looking
       else
         match own[1]
         case LookupState(_) => if |own| == 2 then pc.Waiting? else |own| == 3 && own[2].ReadCell? && pc.Done?
         case LookupCache(_, id, tls, _) => |own| == 2 && pc == Done(Some(id), Served(tls.key, tls.chain, Some(tls.leaf)))
         case LookupError(_) => |own| == 2 && pc == Done(None, Refused)
         case LookupMiss(_) => if |own| == 2 then pc == Uncached else AfterMiss(own, pc)
         case _ => false
  }

  predicate AfterMiss(own: seq<Step>, pc: Pc)
    requires |own| > 2
  {
    && own[2].Policy?
    && if !own[2].ok then |own| == 3 && pc == Done(None, Refused)
       else if |own| == 3 then pc == Allowed
       else
         match own[3]
         case NoKey(_) => |own| == 4 && pc == Done(None, Refused)
         case JoinCell(_) => if |own| == 4 then pc.Waiting? else |own| == 5 && own[4].ReadCell? && pc.Done?
         case ClaimCell(_, id, key) =>
           if |own| == 4 then pc == Issuing(id)
           else
             && |own| == 5
             && (match own[4]
                 case IssueOk(_, chain, leaf, _, _) => pc == Done(Some(id), Served(key, chain, Some(leaf)))
                 case IssueFail(_) => pc == Done(Some(id), Refused)
                 case _ => false)
         case _ => false
  }

  // ---- what one step does to a handshake ----

  lemma HandshakeMoves(c: Config, w: World, s: Step)
    requires Enabled(c, w, s) && OfHandshake(s)
    ensures s.t in Apply(c, w, s).handshakes
    ensures forall t :: t != s.t ==>
              (t in Apply(c, w, s).handshakes <==> t in w.handshakes)
              && (t in w.handshakes ==> Apply(c, w, s).handshakes[t] == w.handshakes[t])
  {
  }

  lemma IssuerMoves(c: Config, w: World, s: Step)
    requires Enabled(c, w, s) && OfIssuer(s)
    ensures s.t in Apply(c, w, s).handshakes
    ensures forall t :: t != s.t ==>
              (t in Apply(c, w, s).handshakes <==> t in w.handshakes)
              && (t in w.handshakes ==> Apply(c, w, s).handshakes[t] == w.handshakes[t])
  {
  }

  lemma OthersMoveNobody(c: Config, w: World, s: Step)
    requires Enabled(c, w, s) && !OfHandshake(s) && !OfIssuer(s)
    ensures Apply(c, w, s).handshakes == w.handshakes
  {
  }

  lemma OnlyOwnSteps(c: Config, w: World, s: Step, t: ThreadId)
    requires Enabled(c, w, s) && !Of(s, t)
    ensures t in Apply(c, w, s).handshakes <==> t in w.handshakes
    ensures t in w.handshakes ==> Apply(c, w, s).handshakes[t] == w.handshakes[t]
  {
    if OfHandshake(s) {
      HandshakeMoves(c, w, s);
    } else if OfIssuer(s) {
      IssuerMoves(c, w, s);
    } else {
      OthersMoveNobody(c, w, s);
    }
  }

  /** What is known of a claimed cell: who claimed it and the key made for it. */
  predicate ClaimKept(w: World, own: seq<Step>) {
    |own| == 4 && own[3].ClaimCell? ==> own[3].id in w.store.cells && w.store.cells[own[3].id].key == own[3].key
  }

  lemma RouteGrows(c: Config, w: World, s: Step, own: seq<Step>)
    requires Enabled(c, w, s) && OfHandshake(s) && !s.Arrive? && s.t in w.handshakes && Route(own, w.handshakes[s.t].pc)
    ensures s.t in Apply(c, w, s).handshakes && Route(own + [s], Apply(c, w, s).handshakes[s.t].pc)
  {
  }

  lemma IssuerRouteGrows(c: Config, w: World, s: Step, own: seq<Step>)
    requires Enabled(c, w, s) && OfIssuer(s) && s.t in w.handshakes && Route(own, w.handshakes[s.t].pc) && ClaimKept(w, own)
    ensures s.t in Apply(c, w, s).handshakes && Route(own + [s], Apply(c, w, s).handshakes[s.t].pc)
  {
  }

  lemma ArrivalRoute(c: Config, w: World, s: Step)
    requires Enabled(c, w, s) && s.Arrive?
    ensures s.t !in w.handshakes && s.t in Apply(c, w, s).handshakes && Route([s], Apply(c, w, s).handshakes[s.t].pc)
  {
  }

  // ---- along a run ----

  lemma {:induction false} OwnHas(ss: seq<Step>, t: ThreadId, k: nat, x: Step)
    requires k <= |ss| && x in Own(ss, t, k)
    ensures exists i :: 0 <= i < k && ss[i] == x
  {
    if x in Own(ss, t, k - 1) {
      OwnHas(ss, t, k - 1, x);
    } else {
      assert ss[k - 1] == x;
    }
  }

  lemma ClaimStores(c: Config, w: World, s: Step)
    requires Enabled(c, w, s) && s.ClaimCell?
    ensures s.id in Apply(c, w, s).store.cells && Apply(c, w, s).store.cells[s.id].key == s.key
  {
  }

  /** Whatever interleaves, each handshake has taken one of the routes of the source, and is where that route leads. */
  lemma {:induction false} EveryHandshakeHasARoute(c: Config, ws: seq<World>, ss: seq<Step>, k: nat, t: ThreadId)
    requires Lawful(c.x509) && IsRun(c, ws, ss) && k <= |ss|
    ensures if t in ws[k].handshakes then Route(Own(ss, t, k), ws[k].handshakes[t].pc) && ClaimKept(ws[k], Own(ss, t, k))
            else Own(ss, t, k) == []
  {
    if k > 0 {
      EveryHandshakeHasARoute(c, ws, ss, k - 1, t);
      var w, s, own := ws[k - 1], ss[k - 1], Own(ss, t, k - 1);
      RunStepEvolves(c, ws, ss, k - 1);
      if !Of(s, t) {
        OnlyOwnSteps(c, w, s, t);
        assert own + [] == own;
      } else if s.Arrive? {
        ArrivalRoute(c, w, s);
        assert [] + [s] == [s];
      } else {
        OwnStepRoute(c, w, s, own);
      }
    }
  }

  lemma OwnStepRoute(c: Config, w: World, s: Step, own: seq<Step>)
    requires Enabled(c, w, s) && (OfHandshake(s) || OfIssuer(s)) && !s.Arrive?
    requires s.t in w.handshakes ==> Route(own, w.handshakes[s.t].pc) && ClaimKept(w, own)
    ensures s.t in w.handshakes && s.t in Apply(c, w, s).handshakes
    ensures Route(own + [s], Apply(c, w, s).handshakes[s.t].pc) && ClaimKept(Apply(c, w, s), own + [s])
  {
    if OfHandshake(s) {
      RouteGrows(c, w, s, own);
    } else {
      IssuerRouteGrows(c, w, s, own);
      if s.ClaimCell? {
        ClaimStores(c, w, s);
      }
    }
  }

  /** No handshake joins, claims or makes a key for a certificate before the host policy allowed its host. */
  lemma PolicyComesFirst(c: Config, ws: seq<World>, ss: seq<Step>, j: nat)
    requires Lawful(c.x509) && IsRun(c, ws, ss) && j < |ss|
    requires ss[j].ClaimCell? || ss[j].JoinCell? || ss[j].NoKey?
    ensures exists i :: 0 <= i < j && ss[i] == Policy(ss[j].t, true)
  {
    var t := ss[j].t;
    EveryHandshakeHasARoute(c, ws, ss, j, t);
    var own := Own(ss, t, j);
    AllowedAfterPolicy(own, t);
    OwnIsOf(ss, t, j, own[2]);
    OwnHas(ss, t, j, own[2]);
  }

  lemma AllowedAfterPolicy(own: seq<Step>, t: ThreadId)
    requires Route(own, Allowed)
    ensures |own| == 3 && own[2].Policy? && own[2].ok
  {
  }

  lemma {:induction false} OwnIsOf(ss: seq<Step>, t: ThreadId, k: nat, x: Step)
    requires k <= |ss| && x in Own(ss, t, k)
    ensures Of(x, t)
  {
    if x in Own(ss, t, k - 1) {
      OwnIsOf(ss, t, k - 1, x);
    }
  }

  lemma DoneDisables(c: Config, w: World, s: Step, t: ThreadId)
    requires Enabled(c, w, s) && t in w.handshakes && w.handshakes[t].pc.Done?
    ensures !Of(s, t)
  {
  }

  /** A claimed entry gets a key of the type its certKey asks for. */
  lemma GeneratedKeyFits(c: Config, ws: seq<World>, ss: seq<Step>, j: nat)
    requires IsRun(c, ws, ss) && j < |ss| && ss[j].ClaimCell?
    ensures ss[j].t in ws[j].handshakes && ss[j].id in ws[j + 1].store.cells
    ensures var ck := ws[j].handshakes[ss[j].t].ck;
            var cell := ws[j + 1].store.cells[ss[j].id];
            && cell.ck == ck && cell.chain == [] && cell.owner == Some(ss[j].t)
            && (ck.isRSA ==> cell.key.RsaPrivate?) && (!ck.isRSA ==> cell.key.EcPrivate?)
  {
  }

  lemma AnswerStep(c: Config, w: World, s: Step, w': World, t: ThreadId)
    requires Enabled(c, w, s) && w' == Apply(c, w, s) && t in w.handshakes && w.handshakes[t].pc.Done?
    ensures t in w'.handshakes && w'.handshakes[t] == w.handshakes[t]
  {
    DoneDisables(c, w, s, t);
    OnlyOwnSteps(c, w, s, t);
  }

  predicate Answered(w: World, t: ThreadId) {
    t in w.handshakes && w.handshakes[t].pc.Done?
  }

  predicate KeepsAnswer(ws: seq<World>, m: nat, t: ThreadId)
    requires m + 1 < |ws|
  {
    Answered(ws[m], t) ==> t in ws[m + 1].handshakes && ws[m + 1].handshakes[t] == ws[m].handshakes[t]
  }

  lemma StepsKeepAnswers(c: Config, ws: seq<World>, ss: seq<Step>, t: ThreadId)
    requires IsRun(c, ws, ss)
    ensures forall m :: 0 <= m < |ss| ==> KeepsAnswer(ws, m, t)
  {
    forall m | 0 <= m < |ss|
      ensures KeepsAnswer(ws, m, t)
    {
      if Answered(ws[m], t) {
        AnswerStep(c, ws[m], ss[m], ws[m + 1], t);
      }
    }
  }

  lemma {:induction false} AnswersChain(ws: seq<World>, i: nat, k: nat, t: ThreadId)
    requires i <= k < |ws| && Answered(ws[i], t) && forall m :: 0 <= m < |ws| - 1 ==> KeepsAnswer(ws, m, t)
    ensures Answered(ws[k], t) && ws[k].handshakes[t] == ws[i].handshakes[t]
  {
    if i < k {
      AnswersChain(ws, i, k - 1, t);
      assert KeepsAnswer(ws, k - 1, t);
    }
  }

  /** A handshake that is answered keeps its answer. */
  lemma AnswerStays(c: Config, ws: seq<World>, ss: seq<Step>, i: nat, k: nat, t: ThreadId)
    requires IsRun(c, ws, ss) && i <= k <= |ss| && Answered(ws[i], t)
    ensures Answered(ws[k], t) && ws[k].handshakes[t] == ws[i].handshakes[t]
  {
    StepsKeepAnswers(c, ws, ss, t);
    AnswersChain(ws, i, k, t);
  }

  lemma RefusalEnds(c: Config, w: World, s: Step)
    requires Enabled(c, w, s) && (s.LookupError? || s.NoKey? || (s.Policy? && !s.ok))
    ensures s.t in Apply(c, w, s).handshakes && Apply(c, w, s).handshakes[s.t].pc == Done(None, Refused)
  {
  }

  /** A host the policy refuses, a cache error that is not a miss, and a failed key generation end in a refusal for good. */
  lemma RefusedForGood(c: Config, ws: seq<World>, ss: seq<Step>, i: nat, k: nat)
    requires IsRun(c, ws, ss) && i < k <= |ss|
    requires (ss[i].Policy? && !ss[i].ok) || ss[i].LookupError? || ss[i].NoKey?
    ensures ss[i].t in ws[k].handshakes && ws[k].handshakes[ss[i].t].pc == Done(None, Refused)
  {
    RefusalEnds(c, ws[i], ss[i]);
    AnswerStays(c, ws, ss, i + 1, k, ss[i].t);
  }

  /** The step is the one at which the handshake found the entry it waits on. */
  predicate FindsEntry(w: World, s: Step, t: ThreadId, id: CellId) {
    && (s == LookupState(t) || s == JoinCell(t))
    && t in w.handshakes && w.handshakes[t].ck in w.store.state && w.store.state[w.handshakes[t].ck] == id
  }

  lemma WaitBegins(c: Config, w: World, s: Step, t: ThreadId, id: CellId)
    requires Enabled(c, w, s) && Of(s, t) && t in Apply(c, w, s).handshakes && Apply(c, w, s).handshakes[t].pc == Waiting(id)
    ensures FindsEntry(w, s, t, id)
  {
  }

  lemma WaitStep(c: Config, w: World, s: Step, w': World, t: ThreadId, id: CellId)
    requires Enabled(c, w, s) && w' == Apply(c, w, s) && t in w'.handshakes && w'.handshakes[t].pc == Waiting(id)
    ensures FindsEntry(w, s, t, id) || (t in w.handshakes && w.handshakes[t].pc == Waiting(id))
  {
    if Of(s, t) {
      WaitBegins(c, w, s, t, id);
    } else {
      OnlyOwnSteps(c, w, s, t);
    }
  }

  predicate FoundAt(ws: seq<World>, ss: seq<Step>, m: nat, t: ThreadId, id: CellId)
    requires m < |ss| < |ws|
  {
    FindsEntry(ws[m], ss[m], t, id)
  }

  /** A waiting handshake waits on what was the entry for its certKey when it looked. */
  lemma {:induction false} WaitsOnEntryFound(c: Config, ws: seq<World>, ss: seq<Step>, k: nat, t: ThreadId, id: CellId)
    returns (m: nat)
    requires IsRun(c, ws, ss) && k <= |ss| && t in ws[k].handshakes && ws[k].handshakes[t].pc == Waiting(id)
    ensures m < k && FoundAt(ws, ss, m, t, id)
  {
    WaitStep(c, ws[k - 1], ss[k - 1], ws[k], t, id);
    if FoundAt(ws, ss, k - 1, t, id) {
      m := k - 1;
    } else {
      m := WaitsOnEntryFound(c, ws, ss, k - 1, t, id);
    }
  }

  /** And it is answered with that certState, once its lock is free: with its chain, or that the certificate is missing. */
  lemma ReadAnswers(c: Config, ws: seq<World>, ss: seq<Step>, j: nat, t: ThreadId)
    requires IsRun(c, ws, ss) && j < |ss| && ss[j] == ReadCell(t)
    ensures t in ws[j].handshakes && ws[j].handshakes[t].pc.Waiting? && t in ws[j + 1].handshakes
    ensures var id := ws[j].handshakes[t].pc.id;
            && id in ws[j].store.cells && ws[j].store.cells[id].owner.None?
            && var cell := ws[j].store.cells[id];
               ws[j + 1].handshakes[t].pc ==
               Done(Some(id), if cell.chain == [] then MissingCertificate else Served(cell.key, cell.chain, cell.leaf))
  {
  }

  // ---- no handshake is stuck ----

  /** The handshake has to wait for `u`, which holds the lock of the certState and is issuing for it. */
  predicate HeldUpBy(w: World, t: ThreadId, u: ThreadId) {
    && t in w.handshakes && w.handshakes[t].pc.Waiting?
    && w.handshakes[t].pc.id in w.store.cells && w.store.cells[w.handshakes[t].pc.id].owner == Some(u)
    && At(w, u, Issuing(w.handshakes[t].pc.id))
  }

  lemma LookingMoves(c: Config, w: World, t: ThreadId)
    requires At(w, t, Looking)
    ensures Enabled(c, w, LookupState(t)) || Enabled(c, w, LookupMiss(t))
  {
  }

  lemma AllowedMoves(c: Config, w: World, t: ThreadId)
    requires At(w, t, Allowed)
    ensures Enabled(c, w, JoinCell(t)) || Enabled(c, w, Step.NoKey(t))
  {
  }

  lemma WaitingMoves(c: Config, w: World, t: ThreadId) returns (u: ThreadId)
    requires Inv(c, w) && t in w.handshakes && w.handshakes[t].pc.Waiting?
    ensures Enabled(c, w, ReadCell(t)) || HeldUpBy(w, t, u)
  {
    HandshakeIsFit(c, w, t);
    var cell := w.store.cells[w.handshakes[t].pc.id];
    u := if cell.owner.Some? then cell.owner.value else 0;
  }

  lemma IssuingMoves(c: Config, w: World, t: ThreadId)
    requires Inv(c, w) && t in w.handshakes && w.handshakes[t].pc.Issuing?
    ensures Enabled(c, w, IssueFail(t))
  {
    IssuerOwns(c, w, t);
  }

  /**
   In every reachable state a handshake that is not answered yet can make a step of its own, or the
   thread that issues for the certState it waits on can.
   */
  lemma HandshakeNotStuck(c: Config, ws: seq<World>, ss: seq<Step>, k: nat, t: ThreadId) returns (s: Step, u: ThreadId)
    requires Lawful(c.x509) && IsRun(c, ws, ss) && k <= |ss| && t in ws[k].handshakes && !ws[k].handshakes[t].pc.Done?
    ensures Enabled(c, ws[k], s) && Of(s, u) && (u == t || HeldUpBy(ws[k], t, u))
  {
    RunKeeps(c, ws, ss, k);
    var w := ws[k];
    u := t;
    match w.handshakes[t].pc {
      case Looking =>
        LookingMoves(c, w, t);
        s := if w.handshakes[t].ck in w.store.state then LookupState(t) else LookupMiss(t);
      case Uncached => s := Policy(t, true);
      case Allowed =>
        AllowedMoves(c, w, t);
        s := if w.handshakes[t].ck in w.store.state then JoinCell(t) else Step.NoKey(t);
      case Waiting(id) =>
        var holder := WaitingMoves(c, w, t);
        s := ReadCell(t);
        if HeldUpBy(w, t, holder) {
          u := holder;
          s := IssueFail(u);
          IssuingMoves(c, w, u);
        }
      case Issuing(_) =>
        IssuingMoves(c, w, t);
        s := IssueFail(t);
      case Done(_, _) => assert false;
    }
  }
}
