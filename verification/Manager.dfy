/**
 The certificate manager's shared state (src/autocert/autocert.go, src/autocert/renewal.go).

 A certState object is an entry of the table `cells` under the identity a Go pointer would
 have, so that entries no longer in `state` but still held by waiting handshakes remain
 visible. Each method of `Manager` and `DomainRenewal` is one critical section; its
 contract gives the new state as a function of the old one, and the module ManagerRuns
 reasons about all interleavings of those functions.
 */
module Manager {
  import opened Wrappers
  import opened Pki
  import opened Renewal
  import CertCache

  /** How long a failed entry stays in place: time.Minute. */
  const CREATE_CERT_RETRY_AFTER := 60_000_000_000

  type ThreadId = nat
  type CellId = nat

  /**
   A certState. `owner` is the thread holding its write lock; `acceptedAt` is the time the
   chain passed validCert.
   */
  datatype Cell = Cell(
    ck: CertKey,
    key: PrivateKey,
    owner: Option<ThreadId>,
    chain: seq<Bytes>,
    leaf: Option<Leaf>,
    acceptedAt: int)

  /** A pending removal callback of createCert. */
  datatype Removal = Removal(ck: CertKey, due: int)

  /** Manager.state, all certState objects ever created, and the pending removal timers by the cell that failed. */
  datatype Store = Store(state: map<CertKey, CellId>, cells: map<CellId, Cell>, removals: map<CellId, Removal>)

  datatype Answer =
    | Served(key: PrivateKey, chain: seq<Bytes>, leaf: Option<Leaf>)
    | MissingCertificate
    | Refused

  /** certState.tlscert */
  function CellAnswer(c: Cell): Answer {
    if c.chain == [] then MissingCertificate else Served(c.key, c.chain, c.leaf)
  }

  function TlsAnswer(tls: TlsCert): Answer {
    Served(tls.key, tls.chain, Some(tls.leaf))
  }

  /** An unlocked cell holding `tls` becomes the entry for `ck`: the cache fill of cert and updateState. */
  function Install(s: Store, id: CellId, ck: CertKey, tls: TlsCert, now: int): Store {
    s.(state := s.state[ck := id], cells := s.cells[id := Cell(ck, tls.key, None, tls.chain, Some(tls.leaf), now)])
  }

  /** certState for an absent key: a new cell, locked by `t`. */
  function Claim(s: Store, id: CellId, ck: CertKey, key: PrivateKey, t: ThreadId): Store {
    s.(state := s.state[ck := id], cells := s.cells[id := Cell(ck, key, Some(t), [], None, 0)])
  }

  /** The tail of createCert after a successful issuance. */
  function Complete(s: Store, id: CellId, chain: seq<Bytes>, leaf: Leaf, acceptedAt: int): Store
    requires id in s.cells
  {
    s.(cells := s.cells[id := s.cells[id].(owner := None, chain := chain, leaf := Some(leaf), acceptedAt := acceptedAt)])
  }

  /** The tail of createCert after a failed issuance. */
  function Abandon(s: Store, id: CellId, due: int): Store
    requires id in s.cells
  {
    s.(cells := s.cells[id := s.cells[id].(owner := None)], removals := s.removals[id := Removal(s.cells[id].ck, due)])
  }

  /** The removal callback, with both of its defensive checks. */
  function ExpireRemoval(x509: X509, s: Store, id: CellId, now: int): Store
    requires id in s.removals
    requires s.removals[id].ck in s.state ==> s.state[s.removals[id].ck] in s.cells
  {
    var ck := s.removals[id].ck;
    var s' := s.(removals := s.removals - {id});
    if ck !in s.state then s'
    else
      var c := s.cells[s.state[ck]];
      if Passes(x509, ck, c.chain, c.key, now) then s' else s'.(state := s.state - {ck})
  }

  datatype Lookup = Existing(id: CellId) | FromCache(id: CellId, tls: TlsCert) | NotCached | CacheFailed

  datatype ClaimResult = Joined(id: CellId) | Claimed(id: CellId) | NoKey

  class Manager {
    const x509: X509
    const codec: CertCache.Codec
    const cache: CertCache.BlobStore
    var state: map<CertKey, CellId>
    var cells: map<CellId, Cell>
    var removals: map<CellId, Removal>
    var nextCell: CellId
    var renewal: map<CertKey, DomainRenewal>
    var certTokens: map<string, TlsCert>
    var httpTokens: map<string, Bytes>

    ghost predicate Valid()
      reads this
    {
      && CertCache.LawfulPem(codec) && Lawful(x509)
      && (forall id :: id in cells ==> id < nextCell)
      && (forall ck :: ck in state ==> state[ck] in cells)
      && (forall ck :: ck in renewal ==> renewal[ck].ck == ck)
    }

    ghost function View(): Store
      reads this
    {
      Store(state, cells, removals)
    }

    constructor (x509: X509, codec: CertCache.Codec, cache: CertCache.BlobStore)
      requires CertCache.LawfulPem(codec) && Lawful(x509)
      ensures Valid() && View() == Store(map[], map[], map[])
      ensures renewal == map[] && certTokens == map[] && httpTokens == map[]
      ensures this.x509 == x509 && this.codec == codec && this.cache == cache
    {
      this.x509, this.codec, this.cache := x509, codec, cache;
      state, cells, removals, nextCell := map[], map[], map[], 0;
      renewal, certTokens, httpTokens := map[], map[], map[];
    }

    /** cert, up to the point where an existing cell is waited for. */
    method Cert(ck: CertKey, now: int) returns (r: Lookup)
      requires Valid()
      modifies this`state, this`cells, this`nextCell
      ensures Valid()
      ensures r.Existing? <==> ck in old(state)
      ensures r.Existing? ==> r.id == old(state)[ck] && View() == old(View())
      ensures r.FromCache? ==>
                && r.id !in old(cells)
                && Accepts(x509, ck, r.tls.chain, r.tls.key, now, r.tls.leaf)
                && View() == Install(old(View()), r.id, ck, r.tls, now)
      ensures r.NotCached? || r.CacheFailed? ==> View() == old(View())
      ensures r.FromCache? || r.NotCached? ==> !cache.broken
      ensures r.FromCache? ==> CertCache.KeyName(ck) in cache.entries
      ensures r.FromCache? ==> CertCache.Decodes(codec, x509, ck, cache.entries[CertCache.KeyName(ck)], now, r.tls)
      ensures r.NotCached? && CertCache.KeyName(ck) in cache.entries ==>
                forall tls :: !CertCache.Decodes(codec, x509, ck, cache.entries[CertCache.KeyName(ck)], now, tls)
      ensures ck !in old(state) ==>
                (r.CacheFailed? <==>
                   cache.broken || (CertCache.KeyName(ck) in cache.entries &&
                                    CertCache.UnreadableKey(codec, cache.entries[CertCache.KeyName(ck)])))
    {
      if ck in state {
        return Existing(state[ck]);
      }
      var cached := CertCache.CacheGet(codec, x509, cache, ck, now);
      match cached {
        case Failure(Miss) => return NotCached;
        case Failure(_) => return CacheFailed;
        case Success(tls) =>
          var id := nextCell;
          nextCell := nextCell + 1;
          cells := cells[id := Cell(ck, tls.key, None, tls.chain, Some(tls.leaf), now)];
          state := state[ck := id];
          return FromCache(id, tls);
      }
    }

    /** certState, the test of `locked` and its clearing, taken as one step. `key` is None when key generation fails. */
    method CertState(ck: CertKey, key: Option<PrivateKey>, t: ThreadId) returns (r: ClaimResult)
      requires Valid()
      modifies this`state, this`cells, this`nextCell
      ensures Valid()
      ensures r.Joined? <==> ck in old(state)
      ensures r.Joined? ==> r.id == old(state)[ck] && View() == old(View())
      ensures r.NoKey? <==> ck !in old(state) && key.None?
      ensures r.NoKey? ==> View() == old(View())
      ensures r.Claimed? ==> r.id !in old(cells) && View() == Claim(old(View()), r.id, ck, key.value, t)
    {
      if ck in state {
        return Joined(state[ck]);
      }
      if key.None? {
        return NoKey;
      }
      var id := nextCell;
      nextCell := nextCell + 1;
      cells := cells[id := Cell(ck, key.value, Some(t), [], None, 0)];
      state := state[ck := id];
      return Claimed(id);
    }

    /**
     The tail of createCert for the thread that claimed `id`: validCert on what the CA
     returned, then either the chain is published or the removal is scheduled.
     */
    method Finish(id: CellId, issued: Option<seq<Bytes>>, now: int) returns (a: Answer)
      requires Valid() && id in cells
      modifies this`cells, this`removals
      ensures Valid()
      ensures var c := old(cells)[id];
              if issued.Some? && Passes(x509, c.ck, issued.value, c.key, now) then
                var leaf := x509.parse(Flatten(issued.value)).value[0];
                && View() == Complete(old(View()), id, issued.value, leaf, now)
                && a == Served(c.key, issued.value, Some(leaf))
              else
                && View() == Abandon(old(View()), id, now + CREATE_CERT_RETRY_AFTER)
                && a == Refused
    {
      var c := cells[id];
      if issued.Some? {
        var leaf := ValidCert(x509, c.ck, issued.value, c.key, now);
        PassesIsAcceptable(x509, c.ck, issued.value, c.key, now);
        if leaf.Success? {
          AcceptedChainNonempty(x509, c.ck, issued.value, c.key, now);
          cells := cells[id := c.(owner := None, chain := issued.value, leaf := Some(leaf.value), acceptedAt := now)];
          return CellAnswer(cells[id]);
        }
      }
      removals := removals[id := Removal(c.ck, now + CREATE_CERT_RETRY_AFTER)];
      cells := cells[id := c.(owner := None)];
      return Refused;
    }

    /** The callback scheduled by a failed createCert. */
    method RemoveFailed(id: CellId, now: int)
      requires Valid() && id in removals
      modifies this`state, this`removals
      ensures Valid()
      ensures View() == ExpireRemoval(x509, old(View()), id, now)
    {
      var ck := removals[id].ck;
      removals := removals - {id};
      if ck !in state {
        return;
      }
      var c := cells[state[ck]];
      var leaf := ValidCert(x509, ck, c.chain, c.key, now);
      PassesIsAcceptable(x509, ck, c.chain, c.key, now);
      if leaf.Success? {
        return;
      }
      state := state - {ck};
    }

    /** renew: at most one loop is registered per certKey. */
    method Renew(ck: CertKey, key: PrivateKey, due: int) returns (registered: bool)
      requires Valid()
      modifies this`renewal
      ensures Valid()
      ensures registered == (ck !in old(renewal))
      ensures !registered ==> renewal == old(renewal)
      ensures registered ==>
                && ck in renewal
                && renewal == old(renewal)[ck := renewal[ck]]
                && fresh(renewal[ck])
                && renewal[ck].View() == Start(NewLoop(ck, key), due)
    {
      if ck in renewal {
        return false;
      }
      var dr := new DomainRenewal(ck, key);
      renewal := renewal[ck := dr];
      dr.Start(due);
      return true;
    }

    /**
     stopRenew: each loop is taken out of the map and stopped. When a loop's callback is running it
     has to be waited for: that loop is out of the map and not stopped yet, and the call goes on
     with Stop, and with StopRenew for the rest, once the callback has ended.
     */
    method StopRenew() returns (waiting: Option<CertKey>)
      requires Valid()
      modifies this`renewal, renewal.Values
      ensures Valid()
      ensures waiting.None? ==> renewal == map[]
      ensures waiting.Some? ==>
                waiting.value in old(renewal) && waiting.value !in renewal && old(renewal[waiting.value].running).Some?
      ensures forall ck :: ck in renewal ==> ck in old(renewal) && renewal[ck] == old(renewal)[ck] && unchanged(renewal[ck])
      ensures forall ck :: ck in old(renewal) && ck !in renewal ==>
                (waiting == Some(ck) <==> old(renewal[ck].running).Some?)
      ensures forall ck :: ck in old(renewal) && ck !in renewal ==>
                old(renewal)[ck].View() ==
                if waiting == Some(ck) then old(renewal[ck].View()) else old(Renewal.Stop(renewal[ck].View()))
    {
      ghost var all := renewal;
      waiting := None;
      while renewal != map[]
        invariant Valid() && waiting.None?
        invariant forall ck :: ck in renewal ==> ck in all && renewal[ck] == all[ck]
        invariant forall ck :: ck in all ==> all[ck].ck == ck
        invariant forall ck :: ck in renewal ==> unchanged(all[ck])
        invariant forall ck :: ck in all && ck !in renewal ==> old(all[ck].running).None?
        invariant forall ck :: ck in all && ck !in renewal ==> all[ck].View() == old(Renewal.Stop(all[ck].View()))
        decreases renewal.Keys
      {
        var ck :| ck in renewal;
        var done := StopOne(ck);
        if !done {
          return Some(ck);
        }
      }
    }

    /** One round of stopRenew. */
    method StopOne(ck: CertKey) returns (done: bool)
      requires Valid() && ck in renewal
      modifies this`renewal, renewal[ck]
      ensures Valid()
      ensures renewal == old(renewal) - {ck}
      ensures done == old(renewal[ck].running).None?
      ensures old(renewal)[ck].View() ==
              if done then old(Renewal.Stop(renewal[ck].View())) else old(renewal[ck].View())
    {
      var dr := renewal[ck];
      renewal := renewal - {ck};
      done := dr.Stop();
    }

    /** putCertToken: a failed cache write is ignored. */
    method PutCertToken(name: string, cert: TlsCert)
      requires Valid()
      modifies this`certTokens, cache`entries
      ensures Valid()
      ensures certTokens == old(certTokens)[name := cert]
      ensures cache.entries ==
              if cache.broken || CertCache.Encoded(codec, cert).None? then old(cache.entries)
              else old(cache.entries)[name + "+token" := CertCache.Encoded(codec, cert).value]
    {
      certTokens := certTokens[name := cert];
      var _ := CertCache.CachePut(codec, cache, CertKey(name, false, true), cert);
    }

    method DeleteCertToken(name: string)
      requires Valid()
      modifies this`certTokens, cache`entries
      ensures Valid()
      ensures certTokens == old(certTokens) - {name}
      ensures cache.entries == if cache.broken then old(cache.entries) else old(cache.entries) - {name + "+token"}
    {
      certTokens := certTokens - {name};
      var _ := cache.Delete(CertCache.KeyName(CertKey(name, false, true)));
    }

    /** The token branch of GetCertificate: memory first, then the shared cache. */
    method TokenCert(name: string, now: int) returns (r: Option<TlsCert>)
      requires Valid()
      ensures name in certTokens ==> r == Some(certTokens[name])
      ensures name !in certTokens && r.Some? ==>
                !cache.broken && name + "+token" in cache.entries
                && CertCache.Decodes(codec, x509, CertKey(name, false, true), cache.entries[name + "+token"], now, r.value)
      ensures name !in certTokens && r.None? ==>
                cache.broken || name + "+token" !in cache.entries ||
                forall tls :: !CertCache.Decodes(codec, x509, CertKey(name, false, true), cache.entries[name + "+token"], now, tls)
    {
      if name in certTokens {
        return Some(certTokens[name]);
      }
      var cached := CertCache.CacheGet(codec, x509, cache, CertKey(name, false, true), now);
      return if cached.Success? then Some(cached.value) else None;
    }

    method PutHTTPToken(path: string, base: string, val: Bytes)
      requires Valid()
      modifies this`httpTokens, cache`entries
      ensures Valid()
      ensures httpTokens == old(httpTokens)[path := val]
      ensures cache.entries ==
              if cache.broken then old(cache.entries)
              else old(cache.entries)[CertCache.SlotName(CertCache.HttpSlot(base)) := val]
    {
      httpTokens := httpTokens[path := val];
      var _ := cache.Put(CertCache.SlotName(CertCache.HttpSlot(base)), val);
    }

    method DeleteHTTPToken(path: string, base: string)
      requires Valid()
      modifies this`httpTokens, cache`entries
      ensures Valid()
      ensures httpTokens == old(httpTokens) - {path}
      ensures cache.entries ==
              if cache.broken then old(cache.entries) else old(cache.entries) - {CertCache.SlotName(CertCache.HttpSlot(base))}
    {
      httpTokens := httpTokens - {path};
      var _ := cache.Delete(CertCache.SlotName(CertCache.HttpSlot(base)));
    }
  }

  class DomainRenewal {
    const ck: CertKey
    var key: PrivateKey
    var timerSet: bool
    var armed: seq<int>
    var blocked: nat
    var running: Option<Work>
    ghost var stopped: bool
    ghost var begun: nat

    ghost function View(): Loop
      reads this
    {
      Loop(ck, key, timerSet, armed, blocked, running, stopped, begun)
    }

    constructor (ck: CertKey, key: PrivateKey)
      ensures this.ck == ck && View() == NewLoop(ck, key)
    {
      this.ck, this.key := ck, key;
      timerSet, armed, blocked, running := false, [], 0, None;
      stopped, begun := false, 0;
    }

    method Start(due: int)
      modifies this
      ensures View() == Renewal.Start(old(View()), due)
    {
      if timerSet {
        return;
      }
      armed := armed + [due];
      timerSet := true;
    }

    method Fire(i: nat)
      requires i < |armed|
      modifies this
      ensures View() == Renewal.Fire(old(View()), i)
    {
      armed := armed[..i] + armed[i + 1..];
      blocked := blocked + 1;
    }

    /** renew, from obtaining timerMu to the call of `do`. */
    method Enter()
      requires running.None? && blocked > 0
      modifies this
      ensures View() == Renewal.Enter(old(View()))
    {
      blocked := blocked - 1;
      if !timerSet {
        return;
      }
      running := Some(Busy);
      begun := begun + 1;
    }

    /** The cache branch of `do`: a certificate with far more time left is adopted. */
    method TryCache(m: Manager, now: int, renewBefore: int, n: int) returns (adopted: bool)
      requires m.Valid() && running == Some(Busy) && 0 <= n < RENEW_JITTER
      modifies this`key, this`running, m`state, m`cells, m`nextCell
      ensures m.Valid()
      ensures !adopted ==> View() == old(View()) && m.View() == old(m.View())
      ensures adopted <==>
                && !m.cache.broken && CertCache.KeyName(ck) in m.cache.entries
                && exists tls :: CertCache.Decodes(m.codec, m.x509, ck, m.cache.entries[CertCache.KeyName(ck)], now, tls)
                                 && NextSpec(now, tls.leaf.notAfter, renewBefore, n) > renewBefore + RENEW_JITTER
      ensures adopted ==>
                && running.Some? && running.value.Renewed?
                && ck in m.state && m.state[ck] in m.cells && m.state[ck] !in old(m.cells)
                && var c := m.cells[m.state[ck]];
                   && c.leaf.Some?
                   && m.View() == Install(old(m.View()), m.state[ck], ck, TlsCert(c.key, c.chain, c.leaf.value), now)
                   && Accepts(m.x509, ck, c.chain, c.key, now, c.leaf.value)
                   && CertCache.Decodes(m.codec, m.x509, ck, m.cache.entries[CertCache.KeyName(ck)], now,
                                        TlsCert(c.key, c.chain, c.leaf.value))
                   && c.leaf.value.notAfter - now > 2 * renewBefore + RENEW_JITTER
                   && View() == old(View()).(
                        key := c.key, running := Some(Renewed(NextSpec(now, c.leaf.value.notAfter, renewBefore, n))))
    {
      var cached := CertCache.CacheGet(m.codec, m.x509, m.cache, ck, now);
      if cached.Failure? {
        return false;
      }
      var tls := cached.value;
      var next := Next(now, tls.leaf.notAfter, renewBefore, n);
      if next <= renewBefore + RENEW_JITTER {
        forall other | CertCache.Decodes(m.codec, m.x509, ck, m.cache.entries[CertCache.KeyName(ck)], now, other)
          ensures other == tls
        {
          CertCache.DecodedOnce(m.codec, m.x509, ck, m.cache.entries[CertCache.KeyName(ck)], now, other, tls);
        }
        return false;
      }
      UpdateState(m, tls, now);
      running := Some(Renewed(next));
      return true;
    }

    /**
     The issuance branch of `do`, for a chain validCert accepted at `acceptedAt`: the chain is
     adopted only if it could be written to the cache.
     */
    method AdoptIssued(m: Manager, chain: seq<Bytes>, leaf: Leaf, acceptedAt: int, now: int, renewBefore: int, n: int)
      returns (adopted: bool)
      requires m.Valid() && running == Some(Busy) && 0 <= n < RENEW_JITTER
      modifies this`key, this`running, m`state, m`cells, m`nextCell, m.cache`entries
      ensures m.Valid()
      ensures adopted == (!m.cache.broken && CertCache.Encoded(m.codec, TlsCert(old(key), chain, leaf)).Some?)
      ensures !adopted ==> View() == old(View()) && m.View() == old(m.View()) && m.cache.entries == old(m.cache.entries)
      ensures adopted ==>
                && ck in m.state && m.state[ck] !in old(m.cells)
                && m.View() == Install(old(m.View()), m.state[ck], ck, TlsCert(old(key), chain, leaf), acceptedAt)
                && View() == old(View()).(running := Some(Renewed(NextSpec(now, leaf.notAfter, renewBefore, n))))
                && m.cache.entries == old(m.cache.entries)[
                       CertCache.KeyName(ck) := CertCache.Encoded(m.codec, TlsCert(old(key), chain, leaf)).value]
    {
      var tls := TlsCert(key, chain, leaf);
      adopted := CertCache.CachePut(m.codec, m.cache, ck, tls);
      if !adopted {
        return;
      }
      UpdateState(m, tls, acceptedAt);
      var next := Next(now, leaf.notAfter, renewBefore, n);
      running := Some(Renewed(next));
    }

    /** updateState: the loop's key and the manager's entry change together under stateMu. */
    method UpdateState(m: Manager, tls: TlsCert, acceptedAt: int)
      requires m.Valid()
      modifies this`key, m`state, m`cells, m`nextCell
      ensures m.Valid() && key == tls.key
      ensures ck in m.state && m.state[ck] !in old(m.cells)
      ensures m.View() == Install(old(m.View()), m.state[ck], ck, tls, acceptedAt)
    {
      var id := m.nextCell;
      m.nextCell := m.nextCell + 1;
      m.cells := m.cells[id := Cell(ck, tls.key, None, tls.chain, Some(tls.leaf), acceptedAt)];
      key := tls.key;
      m.state := m.state[ck := id];
    }

    /** The end of renew: after an error the wait is drawn anew; the next timer is set and timerMu is released. */
    method Rearm(now: int, n: int) returns (due: int)
      requires running.Some? && 0 <= n < RETRY_BASE
      modifies this
      ensures View() == Renewal.Rearm(old(View()), due)
      ensures old(running) == Some(Busy) ==> now + RETRY_BASE <= due < now + RENEW_JITTER
      ensures old(running) != Some(Busy) ==> due == now + old(running).value.wait
    {
      var next: int;
      match running.value {
        case Busy => next := RetryDelay(n);
        case Renewed(wait) => next := wait;
      }
      due := now + next;
      armed := armed + [due];
      timerSet := true;
      running := None;
    }

    /** stop has to wait while a callback holds timerMu; otherwise it takes effect. */
    method Stop() returns (done: bool)
      modifies this
      ensures done == old(running).None?
      ensures View() == if done then Renewal.Stop(old(View())) else old(View())
    {
      if running.Some? {
        return false;
      }
      stopped := true;
      if !timerSet {
        return true;
      }
      if armed != [] {
        armed := armed[..|armed| - 1];
      }
      timerSet := false;
      return true;
    }
  }
}
