/**
 Any number of overlapping authorization runs and their spawned cleanups, sharing the token
 maps and the cache (src/autocert/autocert.go, fulfill and the put and delete methods for
 tokens). A put or delete of the cache whose context is cancelled returns while its goroutine is
 still at work (src/autocert/cache.go:80-94, src/filedb.go:50-91), so its effect is a step of its own.
 */
module TokenRuns {
  import opened Challenges

  /** How a put or delete of the cache ends for its caller: with its effect, without, or cancelled and undecided. */
  datatype Outcome = Done | Failed | Cancelled

  /**
   `memory` stands for certTokens and httpTokens, `stored` for the token entries of the cache
   and the TXT records of the database. `runs` holds what each run has yet to do, `cleanups`
   the goroutines spawned and not run; `landing` and `removing` are the puts and deletes that
   returned cancelled and whose goroutines have not ended.
   */
  datatype World = World(
    memory: set<Token>,
    stored: set<Token>,
    runs: map<nat, seq<Event>>,
    cleanups: multiset<Token>,
    landing: multiset<Token>,
    removing: multiset<Token>)

  datatype Step =
    | Begin(r: nat, events: seq<Event>)
    | Next(r: nat, put: Outcome)
    | CleanUp(token: Token, delete: Outcome)
    | Land(token: Token, ok: bool)
    | Remove(token: Token, ok: bool)

  const EMPTY := World({}, {}, map[], multiset{}, multiset{}, multiset{})

  /** Only the delete of a TXT record has a context that can be cancelled (src/autocert/autocert.go:908-923). */
  ghost predicate Enabled(w: World, s: Step) {
    match s
    case Begin(r, es) => r !in w.runs && Balanced(es)
    case Next(r, _) => r in w.runs && w.runs[r] != []
    case CleanUp(tok, delete) => tok in w.cleanups && (delete == Cancelled ==> tok.TxtToken?)
    case Land(tok, _) => tok in w.landing
    case Remove(tok, _) => tok in w.removing
  }

  function Put(w: World, tok: Token, put: Outcome): World {
    w.(memory := if tok.TxtToken? then w.memory else w.memory + {tok},
       stored := if put == Done then w.stored + {tok} else w.stored,
       landing := if put == Cancelled then w.landing + multiset{tok} else w.landing)
  }

  ghost function Apply(w: World, s: Step): World
    requires Enabled(w, s)
  {
    match s
    case Begin(r, es) => w.(runs := w.runs[r := es])
    case Next(r, put) =>
      var e := w.runs[r][0];
      var w1 := w.(runs := w.runs[r := w.runs[r][1..]]);
      (match e
       case Provisioned(tok) => Put(w1, tok, put)
       case Cleanup(tok) => w1.(cleanups := w.cleanups + multiset{tok})
       case _ => w1)
    case CleanUp(tok, delete) =>
      w.(cleanups := w.cleanups - multiset{tok},
         memory := w.memory - {tok},
         stored := if delete == Done then w.stored - {tok} else w.stored,
         removing := if delete == Cancelled then w.removing + multiset{tok} else w.removing)
    case Land(tok, ok) =>
      w.(landing := w.landing - multiset{tok}, stored := if ok then w.stored + {tok} else w.stored)
    case Remove(tok, ok) =>
      w.(removing := w.removing - multiset{tok}, stored := if ok then w.stored - {tok} else w.stored)
  }

  ghost predicate IsRun(ws: seq<World>, ss: seq<Step>) {
    && |ws| == |ss| + 1 && ws[0] == EMPTY
    && forall i :: 0 <= i < |ss| ==> Enabled(ws[i], ss[i]) && ws[i + 1] == Apply(ws[i], ss[i])
  }

  /** Some cleanup of `tok` has been spawned or is still ahead in a run. */
  ghost predicate Owed(w: World, tok: Token) {
    tok in w.cleanups || exists r :: r in w.runs && Cleanup(tok) in w.runs[r]
  }

  ghost predicate Inv(w: World) {
    && (forall r :: r in w.runs ==> Balanced(w.runs[r]))
    && (forall tok :: tok in w.memory ==> Owed(w, tok))
  }

  lemma TailBalanced(es: seq<Event>)
    requires es != [] && Balanced(es)
    ensures Balanced(es[1..])
    ensures es[0].Provisioned? ==> Cleanup(es[0].token) in es[1..]
  {
    var tail := es[1..];
    forall i | 0 <= i < |tail| && tail[i].Provisioned?
      ensures Cleanup(tail[i].token) in tail[i + 1..]
    {
      assert es[i + 1] == tail[i] && es[i + 2..] == tail[i + 1..];
    }
  }

  lemma NextOwes(w: World, s: Step, tok: Token)
    requires Enabled(w, s) && s.Next? && (Owed(w, tok) || w.runs[s.r][0] == Provisioned(tok)) && Balanced(w.runs[s.r])
    ensures Owed(Apply(w, s), tok)
  {
    var w' := Apply(w, s);
    var es := w.runs[s.r];
    TailBalanced(es);
    assert w'.runs[s.r] == es[1..];
    if es[0] == Provisioned(tok) {
      assert Cleanup(tok) in w'.runs[s.r];
    } else if tok !in w.cleanups {
      var r :| r in w.runs && Cleanup(tok) in w.runs[r];
      if r == s.r {
        assert es == [es[0]] + es[1..];
        assert es[0] == Cleanup(tok) || Cleanup(tok) in w'.runs[r];
      } else {
        assert w'.runs[r] == w.runs[r];
      }
    }
  }

  /** What is owed stays owed until the cleanup runs. */
  lemma StepOwes(w: World, s: Step, tok: Token)
    requires Inv(w) && Enabled(w, s) && Owed(w, tok) && !DeleteOf(s, tok)
    ensures Owed(Apply(w, s), tok)
  {
    if s.Next? {
      NextOwes(w, s, tok);
    } else if tok !in w.cleanups {
      var r :| r in w.runs && Cleanup(tok) in w.runs[r];
      assert r in Apply(w, s).runs && Apply(w, s).runs[r] == w.runs[r];
    }
  }

  lemma RunsStayBalanced(w: World, s: Step)
    requires Inv(w) && Enabled(w, s)
    ensures forall r :: r in Apply(w, s).runs ==> Balanced(Apply(w, s).runs[r])
  {
    if s.Next? {
      TailBalanced(w.runs[s.r]);
    }
  }

  lemma MemoryStep(w: World, s: Step, tok: Token)
    requires Enabled(w, s) && tok in Apply(w, s).memory
    ensures !DeleteOf(s, tok)
    ensures tok in w.memory || (s.Next? && w.runs[s.r][0] == Provisioned(tok))
  {
  }

  lemma StepKeeps(w: World, s: Step)
    requires Inv(w) && Enabled(w, s)
    ensures Inv(Apply(w, s))
  {
    RunsStayBalanced(w, s);
    forall tok | tok in Apply(w, s).memory
      ensures Owed(Apply(w, s), tok)
    {
      MemoryStep(w, s, tok);
      if tok in w.memory {
        StepOwes(w, s, tok);
      } else {
        NextOwes(w, s, tok);
      }
    }
  }

  lemma {:induction false} RunKeeps(ws: seq<World>, ss: seq<Step>, k: nat)
    requires IsRun(ws, ss) && k <= |ss|
    ensures Inv(ws[k])
  {
    if k > 0 {
      RunKeeps(ws, ss, k - 1);
      StepKeeps(ws[k - 1], ss[k - 1]);
    }
  }

  // ---- what is stored ----

  /** The step stores the token: a put that worked, or the late effect of a cancelled one. */
  predicate Arrives(w: World, s: Step, tok: Token) {
    || (s.Next? && s.r in w.runs && w.runs[s.r] != [] && w.runs[s.r][0] == Provisioned(tok) && s.put == Done)
    || s == Land(tok, true)
  }

  /** The step removes the token: a delete that worked, or the late effect of a cancelled one. */
  predicate Leaves(s: Step, tok: Token) {
    s == CleanUp(tok, Done) || s == Remove(tok, true)
  }

  predicate DeleteFails(s: Step, tok: Token) {
    s == CleanUp(tok, Failed) || s == Remove(tok, false)
  }

  predicate DeleteOf(s: Step, tok: Token) {
    s.CleanUp? && s.token == tok
  }

  /** Step i stored the token and no step since then, up to k, removed it. */
  ghost predicate ArrivedAt(ws: seq<World>, ss: seq<Step>, i: nat, k: nat, tok: Token)
    requires k <= |ss| < |ws|
  {
    && i < k && Arrives(ws[i], ss[i], tok)
    && forall j :: i < j < k ==> !Leaves(ss[j], tok)
  }

  lemma StoredNext(w: World, s: Step, tok: Token)
    requires Enabled(w, s) && s.Next?
    ensures tok in Apply(w, s).stored <==> Arrives(w, s, tok) || tok in w.stored
  {
  }

  lemma StoredAtCleanup(w: World, s: Step, tok: Token)
    requires Enabled(w, s) && (s.Begin? || s.CleanUp?)
    ensures tok in Apply(w, s).stored <==> tok in w.stored && !Leaves(s, tok)
  {
  }

  lemma StoredLate(w: World, s: Step, tok: Token)
    requires Enabled(w, s) && (s.Land? || s.Remove?)
    ensures tok in Apply(w, s).stored <==> s == Land(tok, true) || (tok in w.stored && !Leaves(s, tok))
  {
  }

  lemma StoredStep(w: World, s: Step, tok: Token)
    requires Enabled(w, s)
    ensures tok in Apply(w, s).stored <==> Arrives(w, s, tok) || (tok in w.stored && !Leaves(s, tok))
  {
    if s.Next? {
      StoredNext(w, s, tok);
    } else if s.Begin? || s.CleanUp? {
      StoredAtCleanup(w, s, tok);
    } else {
      StoredLate(w, s, tok);
    }
  }

  lemma ArrivedStep(ws: seq<World>, ss: seq<Step>, i: nat, k: nat, tok: Token)
    requires 0 < k <= |ss| < |ws|
    ensures ArrivedAt(ws, ss, i, k, tok) <==>
            if i == k - 1 then Arrives(ws[i], ss[i], tok) else ArrivedAt(ws, ss, i, k - 1, tok) && !Leaves(ss[k - 1], tok)
  {
  }

  /** A token is stored exactly if the last step with an effect on it stored it. */
  lemma {:induction false} StoredExactly(ws: seq<World>, ss: seq<Step>, k: nat, tok: Token)
    requires IsRun(ws, ss) && k <= |ss|
    ensures tok in ws[k].stored <==> exists i: nat :: ArrivedAt(ws, ss, i, k, tok)
  {
    if k > 0 {
      StoredExactly(ws, ss, k - 1, tok);
      StoredStep(ws[k - 1], ss[k - 1], tok);
      forall i: nat {
        ArrivedStep(ws, ss, i, k, tok);
      }
    }
  }

  // ---- what is in memory, and who is at work ----

  /** The step provisions the token, however the cache answers. */
  predicate Provides(w: World, s: Step, tok: Token) {
    s.Next? && s.r in w.runs && w.runs[s.r] != [] && w.runs[s.r][0] == Provisioned(tok)
  }

  ghost predicate ProvidedAt(ws: seq<World>, ss: seq<Step>, i: nat, k: nat, tok: Token)
    requires k <= |ss| < |ws|
  {
    && i < k && Provides(ws[i], ss[i], tok)
    && forall j :: i < j < k ==> !DeleteOf(ss[j], tok)
  }

  lemma ProvidedStep(ws: seq<World>, ss: seq<Step>, i: nat, k: nat, tok: Token)
    requires 0 < k <= |ss| < |ws|
    ensures ProvidedAt(ws, ss, i, k, tok) <==>
            if i == k - 1 then Provides(ws[i], ss[i], tok) else ProvidedAt(ws, ss, i, k - 1, tok) && !DeleteOf(ss[k - 1], tok)
  {
  }

  lemma MemoryAfterRequest(w: World, s: Step, tok: Token)
    requires Enabled(w, s) && s.Next?
    ensures tok in Apply(w, s).memory <==> (Provides(w, s, tok) && !tok.TxtToken?) || tok in w.memory
  {
  }

  lemma MemoryAfter(w: World, s: Step, tok: Token)
    requires Enabled(w, s)
    ensures tok in Apply(w, s).memory <==>
            (Provides(w, s, tok) && !tok.TxtToken?) || (tok in w.memory && !DeleteOf(s, tok))
  {
    if s.Next? {
      MemoryAfterRequest(w, s, tok);
    }
  }

  lemma {:induction false} NoTextInMemory(ws: seq<World>, ss: seq<Step>, k: nat, tok: Token)
    requires IsRun(ws, ss) && k <= |ss| && tok.TxtToken?
    ensures tok !in ws[k].memory
  {
    if k > 0 {
      NoTextInMemory(ws, ss, k - 1, tok);
      MemoryAfter(ws[k - 1], ss[k - 1], tok);
    }
  }

  ghost predicate ProvidedSince(ws: seq<World>, ss: seq<Step>, k: nat, tok: Token)
    requires k <= |ss| < |ws|
  {
    exists i: nat :: ProvidedAt(ws, ss, i, k, tok)
  }

  lemma ProvidedSinceStep(ws: seq<World>, ss: seq<Step>, k: nat, tok: Token)
    requires 0 < k <= |ss| < |ws|
    ensures ProvidedSince(ws, ss, k, tok) <==>
            Provides(ws[k - 1], ss[k - 1], tok) || (ProvidedSince(ws, ss, k - 1, tok) && !DeleteOf(ss[k - 1], tok))
  {
    forall i: nat {
      ProvidedStep(ws, ss, i, k, tok);
    }
    assert Provides(ws[k - 1], ss[k - 1], tok) ==> ProvidedAt(ws, ss, k - 1, k, tok);
  }

  lemma {:induction false} InMemoryExactly(ws: seq<World>, ss: seq<Step>, k: nat, tok: Token)
    requires IsRun(ws, ss) && k <= |ss| && !tok.TxtToken?
    ensures tok in ws[k].memory <==> ProvidedSince(ws, ss, k, tok)
  {
    if k > 0 {
      InMemoryExactly(ws, ss, k - 1, tok);
      MemoryAfter(ws[k - 1], ss[k - 1], tok);
      ProvidedSinceStep(ws, ss, k, tok);
    }
  }

  /** A token certificate or an HTTP response is in memory exactly if no cleanup of it ran since it was provisioned last. */
  lemma MemoryExactly(ws: seq<World>, ss: seq<Step>, k: nat, tok: Token)
    requires IsRun(ws, ss) && k <= |ss|
    ensures tok in ws[k].memory <==> !tok.TxtToken? && exists i: nat :: ProvidedAt(ws, ss, i, k, tok)
  {
    if tok.TxtToken? {
      NoTextInMemory(ws, ss, k, tok);
    } else {
      InMemoryExactly(ws, ss, k, tok);
    }
  }

  datatype Happening = CleanupSpawned | CleanupRun | PutGivenUp | PutLanded | DeleteGivenUp | DeleteEnded

  predicate Happens(h: Happening, w: World, s: Step, tok: Token) {
    match h
    case CleanupSpawned => s.Next? && s.r in w.runs && w.runs[s.r] != [] && w.runs[s.r][0] == Cleanup(tok)
    case CleanupRun => s.CleanUp? && s.token == tok
    case PutGivenUp => Provides(w, s, tok) && s.put == Cancelled
    case PutLanded => s.Land? && s.token == tok
    case DeleteGivenUp => s == CleanUp(tok, Cancelled)
    case DeleteEnded => s.Remove? && s.token == tok
  }

  function Count(h: Happening, ws: seq<World>, ss: seq<Step>, k: nat, tok: Token): nat
    requires k <= |ss| < |ws|
  {
    if k == 0 then 0 else Count(h, ws, ss, k - 1, tok) + if Happens(h, ws[k - 1], ss[k - 1], tok) then 1 else 0
  }

  function One(b: bool): nat {
    if b then 1 else 0
  }

  lemma RequestStarts(w: World, s: Step, tok: Token)
    requires Enabled(w, s) && s.Next?
    ensures Apply(w, s).cleanups[tok] == w.cleanups[tok] + One(Happens(CleanupSpawned, w, s, tok))
    ensures Apply(w, s).landing[tok] == w.landing[tok] + One(Happens(PutGivenUp, w, s, tok))
    ensures Apply(w, s).removing[tok] == w.removing[tok]
  {
  }

  lemma CleanupEnds(w: World, s: Step, tok: Token)
    requires Enabled(w, s) && !s.Next?
    ensures Apply(w, s).cleanups[tok] + One(Happens(CleanupRun, w, s, tok)) == w.cleanups[tok]
  {
  }

  lemma PutEnds(w: World, s: Step, tok: Token)
    requires Enabled(w, s) && !s.Next?
    ensures Apply(w, s).landing[tok] + One(Happens(PutLanded, w, s, tok)) == w.landing[tok]
  {
  }

  lemma DeleteEnds(w: World, s: Step, tok: Token)
    requires Enabled(w, s) && !s.Next?
    ensures Apply(w, s).removing[tok] + One(Happens(DeleteEnded, w, s, tok)) ==
            w.removing[tok] + One(Happens(DeleteGivenUp, w, s, tok))
  {
  }

  /**
   Nothing that is started is lost or done twice: the cleanups, cancelled puts and cancelled deletes
   still at work are those started less those over.
   */
  lemma {:induction false} GoroutinesBalance(ws: seq<World>, ss: seq<Step>, k: nat, tok: Token)
    requires IsRun(ws, ss) && k <= |ss|
    ensures ws[k].cleanups[tok] + Count(CleanupRun, ws, ss, k, tok) == Count(CleanupSpawned, ws, ss, k, tok)
    ensures ws[k].landing[tok] + Count(PutLanded, ws, ss, k, tok) == Count(PutGivenUp, ws, ss, k, tok)
    ensures ws[k].removing[tok] + Count(DeleteEnded, ws, ss, k, tok) == Count(DeleteGivenUp, ws, ss, k, tok)
  {
    if k > 0 {
      GoroutinesBalance(ws, ss, k - 1, tok);
      if ss[k - 1].Next? {
        RequestStarts(ws[k - 1], ss[k - 1], tok);
      } else {
        CleanupEnds(ws[k - 1], ss[k - 1], tok);
        PutEnds(ws[k - 1], ss[k - 1], tok);
        DeleteEnds(ws[k - 1], ss[k - 1], tok);
      }
    }
  }

  /** How many steps run r has made between i and k. */
  function Progress(ss: seq<Step>, i: nat, k: nat, r: nat): nat
    requires i <= k <= |ss|
  {
    if i == k then 0 else Progress(ss, i, k - 1, r) + if ss[k - 1].Next? && ss[k - 1].r == r then 1 else 0
  }

  predicate RunAt(w: World, r: nat, es: seq<Event>, n: nat) {
    n <= |es| && r in w.runs && w.runs[r] == es[n..]
  }

  /** Step m takes run r on by one request if it is one of its own, and not at all otherwise. */
  predicate Moves(ws: seq<World>, ss: seq<Step>, m: nat, r: nat)
    requires m < |ss| < |ws|
  {
    r in ws[m].runs ==>
      && r in ws[m + 1].runs
      && if ss[m].Next? && ss[m].r == r then ws[m].runs[r] != [] && ws[m + 1].runs[r] == ws[m].runs[r][1..]
         else ws[m + 1].runs[r] == ws[m].runs[r]
  }

  lemma StepsMove(ws: seq<World>, ss: seq<Step>, r: nat)
    requires IsRun(ws, ss)
    ensures forall m :: 0 <= m < |ss| ==> Moves(ws, ss, m, r)
  {
  }

  lemma {:induction false} RunGoesOn(ws: seq<World>, ss: seq<Step>, i: nat, k: nat, r: nat, es: seq<Event>)
    requires i <= k <= |ss| < |ws| && RunAt(ws[i], r, es, 0)
    requires forall m :: 0 <= m < |ss| ==> Moves(ws, ss, m, r)
    ensures RunAt(ws[k], r, es, Progress(ss, i, k, r))
  {
    if i < k {
      RunGoesOn(ws, ss, i, k - 1, r, es);
      assert Moves(ws, ss, k - 1, r);
      var n := Progress(ss, i, k - 1, r);
      assert n < |es| ==> es[n..][1..] == es[n + 1..];
    }
  }

  /** A run makes its requests in order, one in each of its steps. */
  lemma RunsInOrder(ws: seq<World>, ss: seq<Step>, i: nat, k: nat)
    requires IsRun(ws, ss) && i < k <= |ss| && ss[i].Begin?
    ensures ss[i].r in ws[k].runs && Progress(ss, i + 1, k, ss[i].r) <= |ss[i].events|
    ensures ws[k].runs[ss[i].r] == ss[i].events[Progress(ss, i + 1, k, ss[i].r)..]
  {
    assert ss[i].events[0..] == ss[i].events;
    StepsMove(ws, ss, ss[i].r);
    RunGoesOn(ws, ss, i + 1, k, ss[i].r, ss[i].events);
  }

  // ---- what is left at the end ----

  ghost predicate Quiescent(w: World) {
    && (forall r :: r in w.runs ==> w.runs[r] == []) && w.cleanups == multiset{}
    && w.landing == multiset{} && w.removing == multiset{}
  }

  lemma {:induction false} OwedEnds(ws: seq<World>, ss: seq<Step>, j: nat, k: nat, tok: Token)
    requires IsRun(ws, ss) && j <= k <= |ss| && Owed(ws[j], tok) && !Owed(ws[k], tok)
    ensures exists m :: j <= m < k && DeleteOf(ss[m], tok)
    decreases k - j
  {
    RunKeeps(ws, ss, j);
    if !DeleteOf(ss[j], tok) {
      StepOwes(ws[j], ss[j], tok);
      OwedEnds(ws, ss, j + 1, k, tok);
    }
  }

  predicate RemovalOver(s: Step, tok: Token) {
    s.Remove? && s.token == tok
  }

  lemma RemovalStays(w: World, s: Step, tok: Token)
    requires Enabled(w, s) && tok in w.removing && !RemovalOver(s, tok)
    ensures tok in Apply(w, s).removing
  {
  }

  lemma {:induction false} RemovalEnds(ws: seq<World>, ss: seq<Step>, j: nat, k: nat, tok: Token)
    requires IsRun(ws, ss) && j <= k <= |ss| && tok in ws[j].removing && tok !in ws[k].removing
    ensures exists m :: j <= m < k && RemovalOver(ss[m], tok)
    decreases k - j
  {
    if !RemovalOver(ss[j], tok) {
      RemovalStays(ws[j], ss[j], tok);
      RemovalEnds(ws, ss, j + 1, k, tok);
    }
  }

  ghost predicate DeleteFailedAfter(ss: seq<Step>, i: nat, k: nat, tok: Token)
    requires k <= |ss|
  {
    exists j :: i < j < k && DeleteFails(ss[j], tok)
  }

  /** Every cleanup of the token ran before step i. */
  ghost predicate NoDeleteAfter(ss: seq<Step>, i: nat, k: nat, tok: Token)
    requires k <= |ss|
  {
    forall j :: i < j < k ==> !DeleteOf(ss[j], tok)
  }

  lemma DeletesFailOrCameFirst(ws: seq<World>, ss: seq<Step>, i: nat, k: nat, tok: Token)
    requires IsRun(ws, ss) && k <= |ss| && Quiescent(ws[k]) && ArrivedAt(ws, ss, i, k, tok)
    ensures DeleteFailedAfter(ss, i, k, tok) || (ss[i] == Land(tok, true) && NoDeleteAfter(ss, i, k, tok))
  {
    if !DeleteFailedAfter(ss, i, k, tok) {
      forall j | i < j < k
        ensures !DeleteOf(ss[j], tok)
      {
        if DeleteOf(ss[j], tok) && ss[j].delete == Cancelled {
          RemovalEnds(ws, ss, j + 1, k, tok);
        }
      }
      if ss[i].Next? {
        RunKeeps(ws, ss, i);
        NextOwes(ws[i], ss[i], tok);
        OwedEnds(ws, ss, i + 1, k, tok);
      }
    }
  }

  lemma MemoryEmpties(ws: seq<World>, ss: seq<Step>, k: nat)
    requires IsRun(ws, ss) && k <= |ss| && Quiescent(ws[k])
    ensures ws[k].memory == {}
  {
    RunKeeps(ws, ss, k);
    forall tok
      ensures !Owed(ws[k], tok)
    {
    }
  }

  /**
   Step i stored the token, nothing removed it up to k, and either a delete failed since or step i
   was the late effect of a cancelled put, after the last delete.
   */
  ghost predicate LeftSince(ws: seq<World>, ss: seq<Step>, i: nat, k: nat, tok: Token)
    requires k <= |ss| < |ws|
  {
    && ArrivedAt(ws, ss, i, k, tok)
    && (DeleteFailedAfter(ss, i, k, tok) || (ss[i] == Land(tok, true) && NoDeleteAfter(ss, i, k, tok)))
  }

  /**
   Once every run, every spawned cleanup and every goroutine of a cancelled call has ended, the
   token maps are empty, and a token is left in the cache or the database exactly if a delete of
   it failed after it was last stored, or it was last stored by a cancelled put that took effect
   after the last delete.
   */
  lemma LeftExactly(ws: seq<World>, ss: seq<Step>, k: nat, tok: Token)
    requires IsRun(ws, ss) && k <= |ss| && Quiescent(ws[k])
    ensures ws[k].memory == {}
    ensures tok in ws[k].stored <==> exists i: nat :: LeftSince(ws, ss, i, k, tok)
  {
    MemoryEmpties(ws, ss, k);
    StoredExactly(ws, ss, k, tok);
    if tok in ws[k].stored {
      var i: nat :| ArrivedAt(ws, ss, i, k, tok);
      DeletesFailOrCameFirst(ws, ss, i, k, tok);
      assert LeftSince(ws, ss, i, k, tok);
    }
  }

  /** The step is a put of the token that returns cancelled. */
  predicate PutCancelled(w: World, s: Step, tok: Token) {
    s.Next? && s.put == Cancelled && s.r in w.runs && w.runs[s.r] != [] && w.runs[s.r][0] == Provisioned(tok)
  }

  lemma LandingStep(w: World, s: Step, tok: Token)
    requires Enabled(w, s) && tok in Apply(w, s).landing
    ensures tok in w.landing || PutCancelled(w, s, tok)
  {
  }

  /** A late effect needs a put that returned cancelled. */
  lemma {:induction false} LandingWasCancelled(ws: seq<World>, ss: seq<Step>, k: nat, tok: Token)
    requires IsRun(ws, ss) && k <= |ss| && tok in ws[k].landing
    ensures exists i :: 0 <= i < k && PutCancelled(ws[i], ss[i], tok)
  {
    if k > 0 {
      LandingStep(ws[k - 1], ss[k - 1], tok);
      if tok in ws[k - 1].landing {
        LandingWasCancelled(ws, ss, k - 1, tok);
      }
    }
  }

  /** When no delete fails and no put returns cancelled, nothing at all is left. */
  lemma NothingLeftBehind(ws: seq<World>, ss: seq<Step>, k: nat)
    requires IsRun(ws, ss) && k <= |ss| && Quiescent(ws[k])
    requires forall i, tok :: 0 <= i < k ==> !DeleteFails(ss[i], tok)
    requires forall i, tok :: 0 <= i < k ==> !PutCancelled(ws[i], ss[i], tok)
    ensures ws[k].memory == {} && ws[k].stored == {}
  {
    MemoryEmpties(ws, ss, k);
    forall tok
      ensures tok !in ws[k].stored
    {
      LeftExactly(ws, ss, k, tok);
      if tok in ws[k].stored {
        var i: nat :| LeftSince(ws, ss, i, k, tok);
        LandingWasCancelled(ws, ss, i, tok);
      }
    }
  }

  // ---- a leftover without a failed delete ----

  function LateSteps(tok: Token): seq<Step> {
    [Begin(0, [Provisioned(tok), Cleanup(tok)]), Next(0, Cancelled), Next(0, Done), CleanUp(tok, Done), Land(tok, true)]
  }

  function LateWorlds(tok: Token): seq<World> {
    var memory := if tok.TxtToken? then {} else {tok};
    var none: multiset<Token> := multiset{};
    [ EMPTY,
      World({}, {}, map[0 := [Provisioned(tok), Cleanup(tok)]], none, none, none),
      World(memory, {}, map[0 := [Cleanup(tok)]], none, multiset{tok}, none),
      World(memory, {}, map[0 := []], multiset{tok}, multiset{tok}, none),
      World({}, {}, map[0 := []], none, multiset{tok}, none),
      World({}, {tok}, map[0 := []], none, none, none)
    ]
  }

  lemma LateStart(tok: Token)
    ensures Enabled(EMPTY, LateSteps(tok)[0]) && LateWorlds(tok)[1] == Apply(EMPTY, LateSteps(tok)[0])
  {
    var es := [Provisioned(tok), Cleanup(tok)];
    assert es[1..][0] == Cleanup(tok);
    assert Balanced(es);
  }

  lemma LatePut(tok: Token)
    ensures Enabled(LateWorlds(tok)[1], LateSteps(tok)[1])
    ensures LateWorlds(tok)[2] == Apply(LateWorlds(tok)[1], LateSteps(tok)[1])
  {
    assert [Provisioned(tok), Cleanup(tok)][1..] == [Cleanup(tok)];
  }

  lemma LateEnd(tok: Token)
    ensures Enabled(LateWorlds(tok)[2], LateSteps(tok)[2])
    ensures LateWorlds(tok)[3] == Apply(LateWorlds(tok)[2], LateSteps(tok)[2])
  {
    assert [Cleanup(tok)][1..] == [];
  }

  lemma LateDelete(tok: Token)
    ensures Enabled(LateWorlds(tok)[3], LateSteps(tok)[3])
    ensures LateWorlds(tok)[4] == Apply(LateWorlds(tok)[3], LateSteps(tok)[3])
  {
  }

  lemma LateLanding(tok: Token)
    ensures Enabled(LateWorlds(tok)[4], LateSteps(tok)[4])
    ensures LateWorlds(tok)[5] == Apply(LateWorlds(tok)[4], LateSteps(tok)[4])
  {
  }

  /**
   A put is cancelled, the run ends, its cleanup deletes the key successfully, and then the put's
   goroutine renames its file into place: the token stays although no delete failed.
   */
  lemma CancelledPutOutlivesCleanup(tok: Token)
    ensures IsRun(LateWorlds(tok), LateSteps(tok))
    ensures Quiescent(LateWorlds(tok)[5]) && LateWorlds(tok)[5].stored == {tok}
    ensures forall i, t :: 0 <= i < 5 ==> !DeleteFails(LateSteps(tok)[i], t)
  {
    LateStart(tok);
    LatePut(tok);
    LateEnd(tok);
    LateDelete(tok);
    LateLanding(tok);
  }

  // ---- the authorization loops ----

  /** Whatever a run of verify does, its requests followed by its deferred calls may overlap with others. */
  method VerifyMayBegin(ghost w: World, r: nat, types: seq<string>, domain: string, answers: nat -> Round)
    returns (events: seq<Event>)
    requires r !in w.runs
    ensures Enabled(w, Begin(r, events))
  {
    var ok, calls, picks, body, epilogue := Verify(types, domain, answers);
    events := body + epilogue;
  }

  method VerifyRFCMayBegin(ghost w: World, r: nat, types: seq<string>, domain: string, answers: nat -> OrderRound,
                           deadline: nat)
    returns (events: seq<Event>)
    requires r !in w.runs
    requires forall n :: deadline <= n ==> answers(n).order.None?
    ensures Enabled(w, Begin(r, events))
  {
    var result, calls, picks, body, epilogue := VerifyRFC(types, domain, answers, deadline);
    events := body + epilogue;
  }
}
