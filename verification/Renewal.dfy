/**
 The renewal loop of one certKey (src/autocert/renewal.go): when the next attempt runs,
 how many attempts fit before expiry, and the states its timer goes through. Times and
 durations are integers in nanoseconds.
 */
module Renewal {
  import opened Wrappers
  import opened Pki

  const HOUR := 3_600_000_000_000
  const RENEW_JITTER := HOUR
  const RETRY_BASE := RENEW_JITTER / 2

  // ---- deadlines ----

  function RenewBefore(configured: int): (d: int)
    ensures d > RENEW_JITTER
    ensures d != configured ==> configured <= RENEW_JITTER && d == 2_592_000_000_000_000
  {
    if configured > RENEW_JITTER then configured else 720 * HOUR
  }

  function Max(a: int, b: int): int {
    if a > b then a else b
  }

  /** The wait before the next attempt for a certificate expiring at `expiry`; `n` is the random draw. */
  method Next(now: int, expiry: int, renewBefore: int, n: int) returns (d: int)
    requires 0 <= n < RENEW_JITTER
    ensures 0 <= d <= Max(0, expiry - now - renewBefore)
    ensures expiry - now - renewBefore - RENEW_JITTER < d
    ensures d > 0 ==> now + d == expiry - renewBefore - n
    ensures d == NextSpec(now, expiry, renewBefore, n)
  {
    d := expiry - now - renewBefore;
    d := d - n;
    if d < 0 {
      d := 0;
    }
  }

  function NextSpec(now: int, expiry: int, renewBefore: int, n: int): int {
    Max(0, expiry - now - renewBefore - n)
  }

  /** The wait after a failed attempt. */
  method RetryDelay(n: int) returns (d: int)
    requires 0 <= n < RETRY_BASE
    ensures RETRY_BASE <= d < RENEW_JITTER
    ensures d == RETRY_BASE + n
  {
    d := RENEW_JITTER / 2;
    d := d + n;
  }

  /** One failed attempt: when it began, when it gave up, and the draw for the wait that follows. */
  datatype Attempt = Attempt(begin: int, end: int, draw: int)

  function NextBegin(a: Attempt): int {
    a.end + RETRY_BASE + a.draw
  }

  /** Consecutive failed attempts, each taking at most `longest` and begun at most `late` after its timer was due. */
  ghost predicate FailingLoop(attempts: seq<Attempt>, longest: int, late: int) {
    && (forall i :: 0 <= i < |attempts| ==>
          attempts[i].begin <= attempts[i].end <= attempts[i].begin + longest && 0 <= attempts[i].draw < RETRY_BASE)
    && (forall i :: 0 < i < |attempts| ==>
          NextBegin(attempts[i - 1]) <= attempts[i].begin <= NextBegin(attempts[i - 1]) + late)
  }

  lemma {:induction false} BeginBounds(attempts: seq<Attempt>, longest: nat, late: nat, k: nat)
    requires FailingLoop(attempts, longest, late) && k < |attempts|
    ensures attempts[0].begin + k * RETRY_BASE <= attempts[k].begin
    ensures attempts[k].begin <= attempts[0].begin + k * (RENEW_JITTER + longest + late)
  {
    if k > 0 {
      BeginBounds(attempts, longest, late, k - 1);
      var step := RENEW_JITTER + longest + late;
      assert k * step == (k - 1) * step + step;
      assert k * RETRY_BASE == (k - 1) * RETRY_BASE + RETRY_BASE;
    }
  }

  lemma QuotientBelow(a: nat, step: nat, n: nat)
    requires step > 0 && a < n * step
    ensures a / step < n
  {
  }

  lemma TimesGrows(x: nat, y: nat, step: nat)
    ensures x <= y ==> x * step <= y * step
  {
    if x <= y {
      assert y * step == x * step + (y - x) * step;
    }
  }

  lemma QuotientAtLeast(a: nat, step: nat, n: nat)
    requires step > 0 && n * step <= a
    ensures n <= a / step
  {
    var q := a / step;
    assert a < (q + 1) * step by {
      assert a == q * step + a % step;
      assert (q + 1) * step == q * step + step;
    }
    TimesGrows(q + 1, n, step);
  }

  lemma QuotientTimes(a: nat, step: nat, k: nat)
    requires step > 0 && k <= a / step
    ensures k * step <= a
  {
    TimesGrows(k, a / step, step);
    assert a == a / step * step + a % step;
  }

  /** Among the attempts those numbered up to renewBefore / (renewJitter + longest + late) have begun by `expiry`. */
  ghost predicate EnoughBegun(attempts: seq<Attempt>, longest: nat, late: nat, expiry: int, renewBefore: nat) {
    forall k: nat :: k <= renewBefore / (RENEW_JITTER + longest + late) ==> k < |attempts| && attempts[k].begin <= expiry
  }

  /**
   When the first attempt begins by expiry - renewBefore and every attempt fails, at least
   renewBefore / (renewJitter + longest + late) + 1 of them begin by expiry; with timers that go
   off on time, `late` is 0. `attempts` goes on until the next one may begin after expiry.
   */
  lemma EnoughAttempts(attempts: seq<Attempt>, longest: nat, late: nat, expiry: int, renewBefore: nat)
    requires attempts != [] && FailingLoop(attempts, longest, late)
    requires attempts[0].begin <= expiry - renewBefore
    requires expiry < NextBegin(attempts[|attempts| - 1]) + late
    ensures EnoughBegun(attempts, longest, late, expiry, renewBefore)
  {
    var n := |attempts|;
    var step := RENEW_JITTER + longest + late;
    BeginBounds(attempts, longest, late, n - 1);
    assert n * step == (n - 1) * step + step;
    QuotientBelow(renewBefore, step, n);
    forall k: nat | k <= renewBefore / step
      ensures k < n && attempts[k].begin <= expiry
    {
      QuotientTimes(renewBefore, step, k);
      BeginBounds(attempts, longest, late, k);
    }
  }

  /** Attempts are not more frequent than one per half jitter. */
  lemma AttemptsAreSpaced(attempts: seq<Attempt>, longest: nat, late: nat)
    requires attempts != [] && FailingLoop(attempts, longest, late)
    ensures |attempts| <= (attempts[|attempts| - 1].begin - attempts[0].begin) / RETRY_BASE + 1
  {
    BeginBounds(attempts, longest, late, |attempts| - 1);
    var span := attempts[|attempts| - 1].begin - attempts[0].begin;
    QuotientAtLeast(span, RETRY_BASE, |attempts| - 1);
  }

  /**
   The loop started at `now` for a certificate expiring at `expiry`, with its first timer going off
   on time: the first attempt begins by expiry - renewBefore exactly when the loop itself was
   started by then, and in that case enough attempts begin by expiry.
   */
  lemma StartedInTime(now: int, expiry: int, configured: int, n: int, attempts: seq<Attempt>, longest: nat, late: nat)
    requires 0 <= n < RENEW_JITTER
    requires attempts != [] && FailingLoop(attempts, longest, late)
    requires attempts[0].begin == now + NextSpec(now, expiry, RenewBefore(configured), n)
    requires expiry < NextBegin(attempts[|attempts| - 1]) + late
    ensures attempts[0].begin <= expiry - RenewBefore(configured) <==> now <= expiry - RenewBefore(configured)
    ensures now <= expiry - RenewBefore(configured) ==>
              EnoughBegun(attempts, longest, late, expiry, RenewBefore(configured))
  {
    if now <= expiry - RenewBefore(configured) {
      EnoughAttempts(attempts, longest, late, expiry, RenewBefore(configured));
    }
  }

  // ---- the timer automaton ----

  /** What a running callback is doing while it holds timerMu: still in `do`, or done with the wait it returned. */
  datatype Work = Busy | Renewed(wait: int)

  /**
   A domainRenewal. `timerSet` is dr.timer != nil; `armed` lists the deadlines of the timers
   created and not fired, the last one being the one dr.timer points to; `blocked` counts
   callbacks that fired and wait for timerMu; `running` is the callback that holds timerMu.
   `stopped` records that stop has returned, `begun` how many times `do` was entered.
   */
  datatype Loop = Loop(
    ck: CertKey,
    key: PrivateKey,
    timerSet: bool,
    armed: seq<int>,
    blocked: nat,
    running: Option<Work>,
    stopped: bool,
    begun: nat)

  function NewLoop(ck: CertKey, key: PrivateKey): Loop {
    Loop(ck, key, false, [], 0, None, false, 0)
  }

  function Start(l: Loop, due: int): Loop {
    if l.timerSet then l else l.(timerSet := true, armed := l.armed + [due])
  }

  /** The i-th timer goes off: its callback is now waiting for timerMu. */
  function Fire(l: Loop, i: nat): Loop
    requires i < |l.armed|
  {
    l.(armed := l.armed[..i] + l.armed[i + 1..], blocked := l.blocked + 1)
  }

  /** A waiting callback obtains timerMu and either returns at once or enters `do`. */
  function Enter(l: Loop): Loop
    requires l.running.None? && l.blocked > 0
  {
    if !l.timerSet then l.(blocked := l.blocked - 1)
    else l.(blocked := l.blocked - 1, running := Some(Busy), begun := l.begun + 1)
  }

  function Rearm(l: Loop, due: int): Loop
    requires l.running.Some?
  {
    l.(running := None, timerSet := true, armed := l.armed + [due])
  }

  /** `stop` obtains timerMu; time.Timer.Stop takes back the timer dr.timer points to unless it has gone off. */
  function Stop(l: Loop): Loop
    requires l.running.None?
  {
    if !l.timerSet then l.(stopped := true)
    else l.(timerSet := false, armed := if l.armed == [] then [] else l.armed[..|l.armed| - 1], stopped := true)
  }

  function Callbacks(l: Loop): nat {
    |l.armed| + l.blocked + if l.running.Some? then 1 else 0
  }

  /** One callback exists, in one form, until the loop is stopped; a stopped loop has no timer and is not in `do`. */
  ghost predicate Tidy(l: Loop) {
    && Callbacks(l) <= 1
    && (l.timerSet ==> Callbacks(l) == 1)
    && (!l.timerSet ==> l.armed == [] && l.running.None?)
    && (l.stopped <==> !l.timerSet)
  }

  lemma StartTidy(ck: CertKey, key: PrivateKey, due: int)
    ensures Tidy(Start(NewLoop(ck, key), due))
  {
  }

  lemma StepsTidy(l: Loop, i: nat, due: int)
    requires Tidy(l)
    ensures i < |l.armed| ==> Tidy(Fire(l, i))
    ensures l.running.None? && l.blocked > 0 ==> Tidy(Enter(l))
    ensures l.running.Some? ==> Tidy(Rearm(l, due))
    ensures l.running.None? ==> Tidy(Stop(l))
  {
  }

  /** Once stopped, a callback that had already gone off does not enter `do`. */
  lemma StoppedStaysOut(l: Loop, i: nat)
    requires Tidy(l) && l.stopped
    ensures l.armed == [] && l.running.None?
    ensures l.blocked > 0 ==> Enter(l).begun == l.begun && Enter(l).running.None?
  {
  }
}
