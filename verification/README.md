# Verification of the dynamic DNS and certificate server

A Dafny 4.11 model of the server's two halves and proofs about them: the certificate manager
(`src/autocert`), which answers TLS handshakes, obtains certificates from an ACME server and renews
them; and the dynamic DNS service (`src/api.go`, `src/dns.go`, `src/memdb.go`, `src/filedb.go`), whose
update API feeds the DNS answers. `dafny verify dfyconfig.toml` checks the whole project.

Objects that the program updates in place are classes (`Manager.Manager`, `Manager.DomainRenewal`,
`CertCache.BlobStore`, `CAServer.Server`, `DynDns.MemoryDatabase`, `DynDns.API`, `DirCache.Directory`);
each method is proved against a function of the old state, and what many threads do with those
functions is a state machine whose runs are sequences of such steps.

| file | content |
|---|---|
| `Pki.dfy` | certificate keys, keys, leaves; `validCert` and its copy of the chain |
| `CertCache.dfy` | cache key names, the encoding written by `cachePut`, `cacheGet`, the round trip with its frame |
| `Hello.dfy` | `GetCertificate` up to the certificate key, `supportsECDSA` |
| `Renewal.dfy` | deadlines and retry waits, the number of attempts before expiry, the timer automaton |
| `Manager.dfy` | the critical sections of the manager and of a renewal loop |
| `ManagerRuns.dfy` | every interleaving of them, and the invariant each of the 22 steps keeps |
| `ManagerGuarantees.dfy` | what follows for whole runs: phases, single flight, back-off, renewal, end to end |
| `HandshakePaths.dfy` | the way of each handshake through `GetCertificate`, and that none is stuck |
| `RenewalRuns.dfy` | the deadlines of the renewal loops along runs: the first, the next after a success or a failure, how many before expiry |
| `Challenges.dfy` | `verify` and `verifyRFC` with their deferred calls |
| `TokenRuns.dfy` | overlapping authorization runs, their spawned cleanups and the late effects of cancelled cache calls |
| `CAServer.dfy` | the ACME server's orders and authorizations |
| `Issuance.dfy` | managers, shared cache and ACME server composed |
| `Locks.dfy`, `LockPaths.dfy` | ranked read-write locks with writer preference; code that takes locks in order, the code paths as such code, and what each holds when |
| `Text.dfy`, `DynDns.dfy` | host names, the update API, the in-memory database, the query side, replay of a history |
| `DnsReads.dfy` | queries and updates interleaved one database access at a time |
| `FileStore.dfy`, `DirCache.dfy` | the directory stores: all interleavings of their system calls; the same calls in place, tied to those runs |

Some readings that matter when comparing with the source:

- A `certState` pointer is an identity in the table `cells`, so entries that left `Manager.state` but are
  still waited on stay visible. The return of `certState`, the test of `state.locked` and its clearing
  (lines 583-599 of `autocert.go`) are one step, although the flag is read and written outside
  `stateMu`; at a finer granularity two threads can both see it set and exclusivity fails.
- Any answer of the CA, the host policy, the cache, key generation and the clock is possible; it is a
  parameter of the step. Times are integers in nanoseconds, and a timer fires at any time from its deadline on.
- X.509 parsing and host name matching, PEM, key encodings, IDNA, and address parsing and printing are
  functions passed in. What is assumed of them is in the predicates `Lawful`, `LawfulPem` and `LawfulKeys`: no
  certificate in zero bytes, decoding takes off one encoded block, parsing undoes marshalling, EC key bytes are
  neither PKCS#1 nor PKCS#8, IDNA output has no plus sign, different addresses print differently and only IPv4
  addresses with dots.

## Results that differ from what one might expect

- `Cache.Put` of `DirCache`, and `putFile` alike, can return success without storing anything: a goroutine
  that finds its context cancelled ends without an error, and the waiting side may pick that end over the
  cancellation (`src/autocert/cache.go:81-94`). `FileStore.SuccessWithoutStoring` gives such a run, and
  `FileStore.OkMeansStoredUnlessCancelled` proves that a Put that reports success has stored its data if and only
  if its context was not cancelled when its goroutine looked.
- A query that overlaps an update can report a name error for a domain that exists at every moment of the query,
  because it reads addresses and texts separately (`src/memdb.go:16-26`): `DnsReads.ExistenceIsTorn`. Exactly when a
  name error is reported is `DnsReads.NameErrorByReads`; it is the domain's absence at one moment if nothing writes the
  domain between the reads (`DnsReads.NameErrorUntorn`), it is wrong only if an update and then a deletion of the text
  fall between them (`DnsReads.TornNeedsBothWrites`), and a query that begins after the update never reports one
  (`DnsReads.NoNameErrorAfterUpdate`).
- A challenge response can stay in the cache or the database although its cleanup deleted it: a put whose context is
  cancelled returns while its rename is still to come, and the rename can land after the delete
  (`src/autocert/cache.go:80-94`, `src/filedb.go:50-69`). `TokenRuns.CancelledPutOutlivesCleanup` and
  `FileStore.CancelledPutOutlivesDelete` give such runs; `TokenRuns.LeftExactly` says exactly which tokens are left.
- Cache key names would collide for domains that contain a plus sign (`CertCache.SlotNamesCollide`). IDNA output has
  none, so the manager does not meet this case; for names without one they are distinct (`CertCache.SlotNamesDistinct`).
- The ACME server finds the authorizations of an order again exactly when the domain is a nonempty single
  path segment (`CAServer.AuthzURLBase`).
- Both defensive checks of the removal callback and the check for an existing loop in `renew` are never taken
  (`ManagerRuns.RemovalFindsOwnEntry`, `ManagerRuns.StarterIsFirst`).

## Model

| member | source | states |
|---|---|---|
| `Pki.ValidCert` | src/autocert/autocert.go:1221-1275 | accepts exactly when the parsed concatenation of the blocks has a first certificate that is valid at `now`, names the domain, matches the private key and has the key type the certKey asks for (token keys: either), and returns it; every error means no leaf is acceptable |
| `Pki.Concatenate` | src/autocert/autocert.go:1222-1231 | the two passes, length then copy, yield exactly the DER blocks one after the other |
| `Pki.CopyInto` | src/autocert/autocert.go:1230 | copies the block at the offset and leaves what was copied before alone |
| `Pki.AcceptedChainNonempty` | src/autocert/autocert.go:1232-1235 | a chain that passes has a nonempty block, so a failed entry's empty chain never passes |
| `CertCache.SlotNamesDistinct` | src/autocert/autocert.go:220-228 | certificate, RSA, token, http-01 and account cache keys are equal only if they are the same key, for names without a plus sign |
| `CertCache.SlotNamesCollide` | src/autocert/autocert.go:220-228 | with a plus sign in the domain two different certKeys share a cache key |
| `CertCache.NameOfSlot` | src/autocert/autocert.go:220-228 | a certKey's String is the name of its slot |
| `CertCache.ParseKeyBlock` | src/autocert/autocert.go:1195-1214 | trying PKCS#1, PKCS#8 and EC in turn gives back the key whose block cachePut wrote, and its PEM type contains PRIVATE |
| `CertCache.Encode` | src/autocert/autocert.go:537-562 | the key block followed by one CERTIFICATE block for each DER block, or an error for an unknown key type or a marshalling error |
| `CertCache.DecodeChain` | src/autocert/autocert.go:505-513 | collects exactly the blocks that can be taken off the front, and what is left over when none can |
| `CertCache.SplitsUnique` | src/autocert/autocert.go:505-518 | there is only one way to split data into blocks and a remainder |
| `CertCache.EncodedChainSplits` | src/autocert/autocert.go:557-562 | an encoded chain splits into its own blocks with nothing left over |
| `CertCache.Decode` | src/autocert/autocert.go:494-529 | succeeds with a certificate that the data decodes to and that is accepted now, and fails only when there is none |
| `CertCache.NotDecoded` | src/autocert/autocert.go:494-529 | a failing decode tells a private key that cannot be read from a certificate that is missing or unusable |
| `CertCache.CacheGet` | src/autocert/autocert.go:485-530 | a lookup returns only certificates the stored bytes decode to and validCert accepts; absent keys are a miss |
| `CertCache.CachePut` | src/autocert/autocert.go:532-565 | writes the encoding under the certKey's name and nothing else; no write for an unencodable key |
| `CertCache.EncodedDecodes` | src/autocert/autocert.go:485-565 | what was encoded decodes to the same key, whole chain and leaf, and to nothing else |
| `CertCache.OtherWritesKeep` | src/autocert/autocert.go:998-1051 | no sequence of writes and removals under other slots disturbs an entry |
| `CertCache.RoundTrip` | src/autocert/autocert.go:485-565 | cacheGet after cachePut, with any writes under other keys in between, returns the same key, chain and leaf |
| `Hello.SupportsECDSALoop` | src/autocert/autocert.go:334-378 | the three loops decide: an ECDSA scheme if schemes are listed, P-256 if curves are listed, and some ECDSA suite |
| `Hello.TrimmedDotIsInner` | src/autocert/autocert.go:263-265 | the component check accepts exactly the names with a dot that has something other than dots on both sides |
| `Hello.Classify` | src/autocert/autocert.go:254-303 | when a hello is rejected, answered with a token certificate or served under which certKey |
| `Hello.BareHelloIsRsa` | src/api.go:167-168 | the API's hello, with a server name only, asks for an RSA certificate |
| `Renewal.RenewBefore` | src/autocert/autocert.go:1141-1146 | the configured value if it exceeds the jitter, else 30 days |
| `Renewal.Next` | src/autocert/renewal.go:130-138 | lies in [0, max(0, expiry-now-renewBefore)] and exceeds expiry-now-renewBefore-jitter |
| `Renewal.RetryDelay` | src/autocert/renewal.go:66-69 | the wait after a failure lies in [jitter/2, jitter) |
| `Renewal.BeginBounds` | src/autocert/renewal.go:55-71 | when the k-th consecutive failing attempt can begin |
| `Renewal.EnoughAttempts` | src/autocert/renewal.go:55-71 | attempts number 0 to floor(renewBefore/(jitter+D+late)) have all begun by expiry, if the first begins by expiry-renewBefore, each takes at most D and its timer is at most `late` late (0 for timers on time) |
| `Renewal.AttemptsAreSpaced` | src/autocert/renewal.go:66-70 | no more than one attempt per half jitter |
| `Renewal.StartedInTime` | src/autocert/renewal.go:32-39 | the first attempt begins by expiry-renewBefore exactly when the loop is started by then, and then that many attempts begin by expiry |
| `Renewal.StepsTidy` | src/autocert/renewal.go:32-71 | firing, entering, re-arming and stopping keep at most one callback armed, waiting or running |
| `Renewal.StoppedStaysOut` | src/autocert/renewal.go:43-60 | a callback that had gone off before stop does not enter `do` |
| `Manager.Manager.Cert` | src/autocert/autocert.go:453-481 | an existing entry is returned unchanged; otherwise an accepted cached certificate becomes the entry, or nothing changes |
| `Manager.Manager.CertState` | src/autocert/autocert.go:583-599 | joins an existing entry, or claims a new locked one with a fresh key for the calling thread |
| `Manager.Manager.Finish` | src/autocert/autocert.go:601-626 | publishes an acceptable chain under the cell's key, or schedules the removal one minute later, and unlocks |
| `Manager.Manager.RemoveFailed` | src/autocert/autocert.go:605-619 | the callback's effect with both defensive checks |
| `Manager.Manager.Renew` | src/autocert/autocert.go:1021-1034 | registers and starts a loop unless one is registered |
| `Manager.Manager.StopRenew` | src/autocert/autocert.go:1038-1045 | every registered loop is taken out and stopped, except that one with a running callback is waited for: it is out of the map, and the rest is untouched |
| `Manager.Manager.PutCertToken` | src/autocert/autocert.go:930-938 | token in memory, and in the cache if that write works |
| `Manager.Manager.DeleteCertToken` | src/autocert/autocert.go:942-950 | removes both |
| `Manager.Manager.TokenCert` | src/autocert/autocert.go:286-297 | memory first, then what the shared cache holds for the token key; nothing only if that decodes to nothing usable |
| `Manager.Manager.PutHTTPToken` | src/autocert/autocert.go:970-981 | token in memory under its path and in the cache under the path's base |
| `Manager.Manager.DeleteHTTPToken` | src/autocert/autocert.go:987-994 | removes both |
| `Manager.DomainRenewal.Start` | src/autocert/renewal.go:32-39 | arms one timer unless one is set |
| `Manager.DomainRenewal.Enter` | src/autocert/renewal.go:55-65 | enters `do` only if the timer field is set |
| `Manager.DomainRenewal.TryCache` | src/autocert/renewal.go:94-108 | adopts the cached certificate, with its key, exactly if the cache holds one whose next renewal is more than renewBefore+jitter away; then more than 2*renewBefore+jitter is left |
| `Manager.DomainRenewal.AdoptIssued` | src/autocert/renewal.go:114-127 | an issued chain is adopted exactly if it could be written to the cache, and then both hold it |
| `Manager.DomainRenewal.UpdateState` | src/autocert/renewal.go:76-81 | entry and loop key change together |
| `Manager.DomainRenewal.Rearm` | src/autocert/renewal.go:65-71 | the next deadline: the wait `do` returned, or after an error a fresh draw in [jitter/2, jitter) |
| `Manager.DomainRenewal.Stop` | src/autocert/renewal.go:43-51 | clears the timer field and takes back a timer that has not gone off, or has to wait because a callback holds timerMu |
| `ManagerRuns.RemovalFindsOwnEntry` | src/autocert/autocert.go:605-618 | the callback finds its own failed entry: neither defensive check is ever taken |
| `ManagerRuns.StarterIsFirst` | src/autocert/autocert.go:1024-1027 | a renewal goroutine never finds a loop registered for its certKey |
| `ManagerRuns.InstallKeeps` | src/autocert/autocert.go:473-478 | filling from the cache or by renewal keeps the store invariant |
| `ManagerRuns.ClaimKeeps` | src/autocert/autocert.go:656-662 | claiming keeps it |
| `ManagerRuns.CompleteKeeps` | src/autocert/autocert.go:622-625 | publishing keeps it, and the certKey was not installed before |
| `ManagerRuns.AbandonKeeps` | src/autocert/autocert.go:602-620 | failing keeps it, with the removal pending for the cell that failed |
| `ManagerRuns.ExpireKeeps` | src/autocert/autocert.go:607-618 | the removal keeps it and touches only its own certKey |
| `ManagerRuns.PublishKeeps` | src/autocert/autocert.go:622-625 | a successful issuance keeps the whole invariant: entry, answers, renewal goroutine, back-off |
| `ManagerRuns.GiveUpKeeps` | src/autocert/autocert.go:598-620 | a failed issuance keeps it |
| `ManagerRuns.FillKeeps` | src/autocert/autocert.go:461-480 | a cache fill with its renewal goroutine keeps it |
| `ManagerRuns.AdoptKeeps` | src/autocert/renewal.go:76-81 | an adoption by a renewal loop keeps it |
| `ManagerRuns.StepKeeps` | src/autocert/autocert.go:453-663 | each of the 22 steps keeps the invariant |
| `ManagerRuns.RunKeeps` | src/autocert/autocert.go:453-663 | the invariant holds in every reachable state of every interleaving |
| `ManagerGuarantees.EntryPhases` | src/autocert/autocert.go:581-663 | every entry is claimed by the one thread issuing for it, failed with an empty chain and its own removal pending, or installed with a chain accepted for its certKey and key |
| `ManagerGuarantees.RemovalDeletesOwnEntry` | src/autocert/autocert.go:605-619 | along a run a removal deletes the failed entry it was scheduled for and nothing else |
| `ManagerGuarantees.RenewalStartsOnce` | src/autocert/autocert.go:1013-1034 | each certKey gets exactly one renewal goroutine, when it is installed |
| `ManagerGuarantees.RunEvolves` | src/autocert/autocert.go:1155-1178 | along a run an unlocked certState never changes, an installed certKey stays installed, a stopped loop stays out of `do` |
| `ManagerGuarantees.SingleFlight` | src/autocert/autocert.go:587-599 | at most one thread issues for a certKey at a time |
| `ManagerGuarantees.SameAnswerForAll` | src/autocert/autocert.go:589-593 | all handshakes answered from one certState get the same key, chain and leaf, or none is served |
| `ManagerGuarantees.LoopsCoherent` | src/autocert/renewal.go:74-81 | each loop's key is the key of the installed entry, and it has exactly one callback, in one form, until it is stopped |
| `ManagerGuarantees.NoRenewalAfterStop` | src/autocert/renewal.go:41-60 | no `do` begins after stop returned, in any continuation |
| `ManagerGuarantees.RenewalInstalls` | src/autocert/renewal.go:91-128 | a successful `do` installs an accepted chain for the loop's key; from the cache, with more than 2*renewBefore+jitter left |
| `RenewalRuns.RetryAfterWait` | src/autocert/renewal.go:65-70 | in every run the attempt after a failed one begins no earlier than the wait drawn for it, in [jitter/2, jitter) |
| `RenewalRuns.RunAttemptsFit` | src/autocert/renewal.go:55-71 | the failed attempts of any loop in any run form the sequence the attempt bound is about |
| `RenewalRuns.RunHasEnoughAttempts` | src/autocert/renewal.go:55-71 | so the attempt bound holds in every run in which the first attempt begins by expiry-renewBefore |
| `RenewalRuns.RunKeepsFresh` | src/autocert/autocert.go:479-479 | a renewal goroutine that has not run yet was given the expiry of the certificate installed for its certKey |
| `RenewalRuns.FirstDeadline` | src/autocert/renewal.go:32-39 | starting a loop arms one timer, due no later than max(now, expiry-renewBefore) and after expiry-renewBefore-jitter, with the expiry of the installed leaf |
| `RenewalRuns.StartedLoopRenewsInTime` | src/autocert/renewal.go:130-138 | so for a loop started by expiry-renewBefore whose first callback runs on time the attempt bound holds, with no assumption about the first attempt |
| `RenewalRuns.NextDeadline` | src/autocert/renewal.go:94-128 | after a successful renewal the next timer is due by the new certificate's expiry in the same way, counted from the adoption |
| `RenewalRuns.RetryDeadline` | src/autocert/renewal.go:65-71 | after a failed attempt the one next timer is due between half the jitter and the jitter later |
| `RenewalRuns.StaysRegistered` | src/autocert/autocert.go:1021-1045 | a loop stays registered under its certKey until stopRenew takes it out |
| `ManagerGuarantees.BackoffBeforeRetry` | src/autocert/autocert.go:601-620 | after a failed issuance the next one for that certKey starts at least one minute later |
| `ManagerGuarantees.BackoffAnswersMissing` | src/autocert/autocert.go:1166-1172 | until then a lookup ends at the failed entry with an error that is not a cache miss |
| `ManagerGuarantees.RemovalScheduled` | src/autocert/autocert.go:601-608 | a failed issuance schedules the removal of its entry for exactly one minute later, and in every run it stays scheduled until it happens |
| `ManagerGuarantees.RetryAfterMinute` | src/autocert/autocert.go:608-618 | once that minute is over the failed entry can go, and then the certKey can be claimed again |
| `ManagerGuarantees.ServedCertificateFits` | src/autocert/autocert.go:299-321 | whatever its source, a served certificate names the normalised host, matches its key and is ECDSA exactly when the client supports it |
| `ManagerGuarantees.ServedCertificateWasValid` | src/autocert/autocert.go:1245-1252 | a served leaf was within its validity period at some moment no later than now |
| `HandshakePaths.EveryHandshakeHasARoute` | src/autocert/autocert.go:299-322 | in every run the steps of each handshake form one of the source's routes (lookup; after a miss the host policy; then join, no key, or a claim and its issuance), and it is where that route leads |
| `HandshakePaths.PolicyComesFirst` | src/autocert/autocert.go:313-316 | no handshake joins, claims or fails to make a key before the host policy allowed its host |
| `HandshakePaths.RefusedForGood` | src/autocert/autocert.go:305-316 | a host the policy refuses, a cache error that is not a miss and a failed key generation end in a refusal that stays |
| `HandshakePaths.AnswerStays` | src/autocert/autocert.go:299-322 | a handshake that is answered keeps its answer |
| `HandshakePaths.WaitsOnEntryFound` | src/autocert/autocert.go:453-461 | a waiting handshake waits on what was the entry for its certKey when it looked |
| `HandshakePaths.ReadAnswers` | src/autocert/autocert.go:455-461 | and is answered, once the lock is free, with that certState's chain, or that the certificate is missing |
| `HandshakePaths.GeneratedKeyFits` | src/autocert/autocert.go:639-662 | a claimed entry is locked by the claiming thread, has no chain and a key of the type its certKey asks for |
| `HandshakePaths.HandshakeNotStuck` | src/autocert/autocert.go:453-627 | in every reachable state a handshake not answered yet can make a step of its own, or the thread issuing for the certState it waits on can |
| `Challenges.FulfillKnowsSupportedTypes` | src/autocert/autocert.go:863-874 | tls-alpn-01 comes first, http-01 and dns-01 after it exactly if they may be tried; types are distinct; fulfill knows exactly these and writes each one's response to its own place |
| `Challenges.PickChallenge` | src/autocert/autocert.go:854-861 | the first challenge of the type, or none if there is none |
| `Challenges.NextChallenge` | src/autocert/autocert.go:744-748 | the first type not yet tried that the authorization offers, with its first challenge; every type passed over was not offered |
| `Challenges.PicksIncrease` | src/autocert/autocert.go:723-748 | the preference indices tried are strictly increasing |
| `Challenges.EveryTypeConsidered` | src/autocert/autocert.go:749-755 | up to the last choice each type was tried, or was not offered when its turn came |
| `Challenges.TryChallenge` | src/autocert/autocert.go:756-772 | provision at the place for the challenge's type, accept, wait, stopping at the first failure; success exactly if all three work; the removal of the response is deferred exactly when it was provisioned, whatever becomes of the rest |
| `Challenges.ChosenIsTried` | src/autocert/autocert.go:756-772 | in a run whose requests are those of its choices, a chosen challenge whose response could be made is accepted, and awaited unless accepting failed |
| `Challenges.OneRound` | src/autocert/autocert.go:729-772 | one round either decides or goes on with a later challenge type, and leaves deferred what its requests ask for |
| `Challenges.Verify` | src/autocert/autocert.go:715-774 | at most len(types)+1 Authorize calls; success exactly if the last authorization is valid or its challenge worked out, failure exactly if Authorize failed, the authorization is invalid or no type is left, and every other round had a challenge that did not work out; the requests made are exactly those of the choices, in order, each accepted right after its response was put where its type's is looked for; on every exit the deferred calls deactivate the list of all authorizations obtained and remove each provisioned response once, last first |
| `Challenges.SatisfyOrder` | src/autocert/autocert.go:809-842 | proceeds only when each pending authorization had a challenge of its own provisioned, accepted and awaited; retries exactly after a challenge that did not work out, with no further choice in the round; fails at the first authorization that cannot be read or has no type left; the requests are those of the choices, and their removals are left deferred |
| `Challenges.PendingOrder` | src/autocert/autocert.go:803-850 | a pending order is either satisfied and then waited for, or its round ends early for one of those reasons |
| `Challenges.OneOrder` | src/autocert/autocert.go:787-850 | one round either decides or goes on with a later challenge type, unless nothing was pending and the order did not become ready; the order's deactivation is deferred before its status is looked at |
| `Challenges.VerifyRFC` | src/autocert/autocert.go:778-852 | at most len(types)+1 AuthorizeOrder calls plus one per round that had nothing pending and failed WaitOrder; every round but the last ended with a challenge that did not work out or a satisfied order that did not become ready; when an order is returned, and why none is; each challenge is accepted right after its response was put where its type's is looked for; on every exit the authorization list of each order obtained is deactivated once and each provisioned response removed once, last first |
| `Challenges.CleansUpBalances` | src/autocert/autocert.go:761-761 | a run that removes each provisioned response once has each removal after its provisioning |
| `Challenges.UnwindCleansUp` | src/autocert/autocert.go:718-795 | unwinding the deferred calls, last first, removes what the run provisioned, once each, and hands over each list once |
| `TokenRuns.VerifyMayBegin` | src/autocert/autocert.go:715-774 | what verify does, with its deferred calls, is a run that may overlap with others |
| `TokenRuns.VerifyRFCMayBegin` | src/autocert/autocert.go:778-852 | and so is what verifyRFC does |
| `TokenRuns.RunKeeps` | src/autocert/autocert.go:900-1011 | in every reachable state each token in memory is owed a cleanup |
| `TokenRuns.StoredExactly` | src/autocert/autocert.go:928-1011 | at every moment a token is stored exactly if the last step with an effect on it was a put or the late effect of a cancelled put |
| `TokenRuns.MemoryExactly` | src/autocert/autocert.go:928-994 | at every moment a token is in memory exactly if it is no TXT record and no cleanup of it ran since it was provisioned last |
| `TokenRuns.GoroutinesBalance` | src/autocert/autocert.go:905-923 | cleanups, cancelled puts and cancelled deletes still at work are exactly those started less those over |
| `TokenRuns.RunsInOrder` | src/autocert/autocert.go:715-774 | a run makes its requests in order, one in each of its steps, whatever overlaps |
| `TokenRuns.LeftExactly` | src/autocert/autocert.go:928-1011 | once all runs, cleanups and goroutines of cancelled calls are over the token maps are empty, and a token is left exactly if a delete of it failed since it was last stored, or a cancelled put stored it after its last delete |
| `TokenRuns.LandingWasCancelled` | src/autocert/cache.go:80-94 | a late effect needs a put that returned cancelled |
| `TokenRuns.CancelledPutOutlivesCleanup` | src/filedb.go:50-69 | a run in which a token stays although no delete failed |
| `TokenRuns.NothingLeftBehind` | src/autocert/autocert.go:928-1011 | if no delete fails and no put returns cancelled, then nothing is left in memory, cache or database once all is over, even if runs for one domain overlap |
| `CAServer.AuthzURLBase` | src/autocert/internal/acmetest/ca.go:224-224 | path.Base of an authorization URL gives back the domain if and only if it is a nonempty path segment |
| `CAServer.ScanAllValid` | src/autocert/internal/acmetest/ca.go:477-497 | the pass over an order's authorizations finds them all valid exactly when each exists and is valid, and refuses exactly when one is invalid, if all exist |
| `CAServer.ScanRefused` | src/autocert/internal/acmetest/ca.go:478-492 | the pass refuses exactly if an authorization is invalid and none before it is missing |
| `CAServer.SearchStrings` | src/autocert/internal/acmetest/ca.go:366-367 | binary search in the sorted whitelist finds a name exactly if it is there |
| `CAServer.Unique` | src/autocert/internal/acmetest/ca.go:542-552 | the nonempty strings of the list, each once |
| `CAServer.Server.Authz` | src/autocert/internal/acmetest/ca.go:395-412 | an existing authorization is kept, a new one is pending |
| `CAServer.Server.CreateOrder` | src/autocert/internal/acmetest/ca.go:211-232 | a pending order listing the authorizations of its identifiers |
| `CAServer.NewOrderOpens` | src/autocert/internal/acmetest/ca.go:211-232 | a new order comes after the others, pending, with its identifiers' authorization URLs in order; unseen identifiers get a pending authorization and nothing else changes |
| `CAServer.Server.ValidateChallenge` | src/autocert/internal/acmetest/ca.go:459-498 | sets the authorization and updates every pending order |
| `CAServer.ValidationSettles` | src/autocert/internal/acmetest/ca.go:451-499 | a validation sets its one authorization; a pending order becomes ready exactly if all it lists is valid then, invalid exactly if one is invalid with none missing before it, and is unchanged otherwise |
| `CAServer.Server.CountValid` | src/autocert/internal/acmetest/ca.go:477-493 | the inner loop stops at the first missing or invalid authorization |
| `CAServer.Server.MatchWhitelist` | src/autocert/internal/acmetest/ca.go:360-375 | true exactly if the whitelist is empty or has every name |
| `CAServer.Server.Authorized` | src/autocert/internal/acmetest/ca.go:416-428 | true exactly if every name has a valid authorization |
| `CAServer.Server.FinalizeOrder` | src/autocert/internal/acmetest/ca.go:293-337 | issues exactly for a stored, ready order and a readable request whose names are all allowed and authorized, under the next serial and with exactly the names asked for or else the common name; which refusal is for which reason; no order changes unless it issues |
| `CAServer.IssuedExactly` | src/autocert/internal/acmetest/ca.go:293-337 | a certificate request gives the order its certificate exactly if the order is stored and ready, the request readable, every name it asks for allowed and authorized and signing works; the leaf has all alternative names of the request, or the common name if there are none, and no other; a serial is used up even if signing fails; nothing else changes |
| `CAServer.HandleKeepsWellFormed` | src/autocert/internal/acmetest/ca.go:168-175 | finalize URL exactly in ready and valid, leaf and certificate URL exactly in valid, serials distinct |
| `CAServer.HandleAdvances` | src/autocert/internal/acmetest/ca.go:470-497 | one request moves an order along pending-ready, pending-invalid or ready-valid or leaves it; new orders are pending |
| `CAServer.ReadyMeansAllValid` | src/autocert/internal/acmetest/ca.go:476-497 | an order leaves pending only in a validation: to ready when all its authorizations are valid at that moment, to invalid when one is invalid |
| `CAServer.IssuedNamesAuthorized` | src/autocert/internal/acmetest/ca.go:302-334 | every nonempty name in an issued leaf has a valid authorization and is on the whitelist, if there is one |
| `CAServer.RunWellFormed` | src/autocert/internal/acmetest/ca.go:168-175 | well-formedness holds after any requests |
| `CAServer.RunAdvances` | src/autocert/internal/acmetest/ca.go:470-497 | statuses only move forward (a subset of section 7.1.6 of RFC 8555), and an issued leaf is never replaced |
| `CAServer.ValidOrderWasAuthorized` | src/autocert/internal/acmetest/ca.go:493-496 | every ready or valid order became ready at a moment when all its authorizations were valid |
| `Issuance.TokensOfRun` | src/autocert/autocert.go:930-938 | a token in a manager or in the shared cache was provisioned by fulfill before |
| `Issuance.TokensExactly` | src/autocert/autocert.go:928-950 | a manager holds a token in memory exactly if the last of its calls for the name put it there |
| `Issuance.ValidityOfRun` | src/autocert/internal/acmetest/ca.go:451-466 | a valid authorization goes back to a dial that reached a manager holding a provisioned token |
| `Issuance.LastValidationDecides` | src/autocert/internal/acmetest/ca.go:459-466 | an authorization has the outcome of the validation of its domain that ended last |
| `Issuance.IssuedOnlyIfProvisioned` | src/autocert/internal/acmetest/ca.go:293-334 | a leaf naming d is issued only after a dial for d reached a manager that held a tls-alpn-01 token for d which fulfill had provisioned (section 3 of RFC 8737) |
| `Issuance.IssuanceHappens` | src/autocert/autocert.go:667-711 | the manager's own way (order, provision, validation, request with the domain as common name) is a run, and it ends with a certificate for exactly that domain |
| `Locks.StepKeeps` | src/autocert/autocert.go:453-461 | a step of a thread that obeys the lock order keeps the order and mutual exclusion |
| `Locks.CanStepExactly` | src/autocert/autocert.go:453-461 | what it takes to step: for a writer that nobody else has the lock, for a reader that nobody else has it for writing or waits for that, for a wait that the other thread is over |
| `Locks.WaitsUpwards` | src/autocert/autocert.go:595-601 | whoever holds up a thread can step or is stuck strictly further up the order, waiting writers included |
| `LockPaths.PathInOrder` | src/autocert/autocert.go:286-1045 | every path takes its locks in order: the handshake paths with and without a key, token requests, issuance as any sequence of its actions, every way through a renewal, stopping, the removal callback, the CA's validation and requests, and calls of the database |
| `LockPaths.InOrderNeutral` | src/autocert/autocert.go:453-461 | code that takes its locks in order gives them all back |
| `LockPaths.PathMayStart` | src/autocert/autocert.go:286-1045 | so a thread on any path may start wherever the threads it waits for exist |
| `LockPaths.IssuingInOrder` | src/autocert/autocert.go:667-711 | an issuance, with any number of its actions in any order, keeps the order under a timer or cell lock and waits for the CA with no lock held that the CA's handshake needs |
| `LockPaths.GuardHeld` | src/autocert/autocert.go:286-1045 | which lock each guarded path holds from its first operation to its last: a renewal its timerMu, starting and stopping loops renewalMu, token requests and removals challengeMu through the cache call, a lookup stateMu |
| `LockPaths.IssuerHoldsCell` | src/autocert/autocert.go:589-627 | a handshake that issues holds its entry's lock for writing through every request to the CA, response and wait |
| `LockPaths.ClaimUnderState` | src/autocert/autocert.go:644-662 | and takes that lock while it holds stateMu, so nobody finds the new entry unlocked |
| `LockPaths.WaitsUnderCell` | src/autocert/autocert.go:453-461 | a handshake that waits for a certState looks it up under stateMu and then takes the entry's lock for reading |
| `LockPaths.ActionHolds` | src/autocert/autocert.go:928-981 | an issuance sets the client up under clientMu, reads the types and puts responses under challengeMu, the cache call included |
| `LockPaths.RenewalStores` | src/autocert/renewal.go:76-81 | a renewal that adopts or stores a certificate takes stateMu to do so |
| `LockPaths.DialsWithoutLock` | src/autocert/internal/acmetest/ca.go:451-460 | the CA dials back with no lock held |
| `LockPaths.ThreadFollowsCode` | src/autocert/autocert.go:453-461 | in every run a thread goes through its code from the first operation to the last and holds what that says |
| `LockPaths.IssuancesExclude` | src/autocert/autocert.go:589-627 | in no reachable state are two threads in the middle of an issuance for the same entry |
| `LockPaths.AwaitedIsOver` | src/autocert/internal/acmetest/ca.go:451-466 | a thread gets past its wait only when the validation or handshake it waits for is over |
| `LockPaths.CaThreadsAreKnown` | src/autocert/internal/acmetest/ca.go:451-466 | the CA's validation and the handshake it makes are threads that may be waited for |
| `LockPaths.NoDeadlock` | src/autocert/autocert.go:286-297 | whatever code the threads run, as long as it takes locks in order: in every reachable state what an unfinished thread waits for leads, after finitely many threads, to one that can step, the CA's validations and handshakes included |
| `LockPaths.LocksExclude` | src/autocert/autocert.go:930-932 | a lock held for writing has one holder |
| `Text.JoinSplit` | src/api.go:34-36 | the parts joined by the separator are the string again |
| `Text.HostnameEnd` | src/api.go:24 | a host name the pattern accepts is nonempty and does not end in a dot |
| `Text.HostnameByChars` | src/api.go:24 | the pattern accepts exactly the strings of letters, digits, hyphens and dots with a letter or digit at both ends and on both sides of every dot |
| `Text.LowerFolds` | src/api.go:122 | two names have the same lower-case form exactly if they differ in the case of letters only, and that form has no capitals |
| `DynDns.LastAddressesRead` | src/memdb.go:28-42 | after any writes the addresses read are the last ones put for the domain, whatever was written elsewhere |
| `DynDns.LastTextsRead` | src/memdb.go:51-72 | the texts read are the last ones put, or none after a deletion |
| `DynDns.MemoryDatabase.PutIPAddresses` | src/memdb.go:34-42 | replaces the list of the one domain |
| `DynDns.MemoryDatabase.PutTXTValues` | src/memdb.go:57-65 | replaces the texts of the one domain |
| `DynDns.MemoryDatabase.DeleteTXTValues` | src/memdb.go:67-72 | removes the texts of the one domain |
| `DynDns.MemoryDatabase.DoesDomainExist` | src/memdb.go:16-26 | exactly if the domain has an address or a text |
| `DynDns.PutTXTRecord` | src/api.go:229-234 | one text value for the domain |
| `DynDns.FlattenLoop` | src/api.go:27-39 | the parameters split at commas, in order |
| `DynDns.FlattenJoins` | src/api.go:27-39 | the values have no comma, and joined by commas are the parameters joined by commas |
| `DynDns.HaveAddressesChanged` | src/api.go:41-62 | true exactly if the sets of addresses differ, though only printed forms and map sizes are compared |
| `DynDns.API.ParseAddresses` | src/api.go:102-111 | all addresses in order, or nothing if one does not parse |
| `DynDns.AcceptedExactly` | src/api.go:87-111 | a request is accepted exactly if it names one to twenty hosts and one or more addresses that all parse, and its addresses are those, in order |
| `DynDns.API.StoreOne` | src/api.go:113-141 | one host name: stored under its lower-case form and reported changed exactly if its set of addresses changed, or rejected |
| `DynDns.API.V1Update` | src/api.go:87-146 | which requests are rejected and why; otherwise each line rejects a name that is no host name or tells whether the host's set of addresses changed (not if an earlier line named it in any letter case), every host named has the new addresses, and nothing else changed; rejected requests change nothing |
| `DynDns.GetAddressRecords` | src/dns.go:27-59 | one record for each address of the family, in order, unless a record is refused |
| `DynDns.FamilyInOrder` | src/dns.go:27-59 | the members of a family are picked at strictly increasing indices, and none is left out |
| `DynDns.FamiliesPartition` | src/dns.go:27-59 | the A and AAAA answers together hold every stored address as often as it is stored, and none of the other family |
| `DynDns.GetTXTRecords` | src/dns.go:61-72 | one record for each value, in order |
| `DynDns.ProcessQuery` | src/dns.go:74-134 | the response for the question: a name error exactly if there are no records and the domain has no data; a TXT question is answered with one record for each text, in order, under the name asked and with the text as its data |
| `DynDns.StoreHostsAt` | src/api.go:113-141 | a domain's list after an update is the new one if one of the valid host names is it, else the old one |
| `DynDns.ReplayAddresses` | src/api.go:87-141 | after any history the stored list is that of the last accepted request naming the domain |
| `DynDns.LastRequestCounts` | src/api.go:87-141 | the addresses of a domain are those of the last accepted request that named it, none before the first |
| `DynDns.ReplayValues` | src/api.go:225-241 | after any history the texts are those of the last challenge put, unless deleted since |
| `DynDns.LastTextCounts` | src/api.go:225-241 | the pending text of a domain is that of the last put, none after a deletion or before the first put |
| `DynDns.QueryNameNormalised` | src/dns.go:20-25 | any letter case, with or without the final dot, leads to the same lower-case domain |
| `DynDns.AnswersAreLastAccepted` | src/dns.go:86-103 | after any history, and however the host is written, the response to an A or AAAA question has a record for each IPv4 or each other member of the last accepted list, in order, with the name asked, the type and the printed address, and fails only if a record is refused |
| `DynDns.AnswersArePendingTexts` | src/dns.go:107-116 | after any history, in any letter case and with or without the final dot, the response to a TXT question has one record for each challenge text pending under the domain's lower-case form, in order, with the name asked, type TXT and the text itself |
| `DynDns.ChallengeTextIsAnswer` | src/api.go:229-241 | a challenge text that was put last for a lower-case domain is the one answer to a TXT question for it, unless its record is refused |
| `DynDns.RejectedChangesNothing` | src/api.go:87-111 | a rejected request leaves the database alone |
| `DynDns.AcceptedNonempty` | src/api.go:97-111 | an accepted list is never empty |
| `DynDns.EverSet` | src/api.go:113-141 | a domain has addresses exactly if some accepted request named it |
| `DynDns.NameErrorExactly` | src/dns.go:118-127 | a name error exactly if no accepted request ever named the domain and no challenge text is pending |
| `DnsReads.StaysStored` | src/memdb.go:34-42 | once an update stored a domain it has addresses for ever, however steps interleave |
| `DnsReads.NoNameErrorAfterUpdate` | src/dns.go:86-127 | a query begun after an update of its domain never reports a name error, whatever runs between its reads (section 2.1 of RFC 2308) |
| `DnsReads.NameErrorHasNoAnswers` | src/dns.go:118-133 | no response pairs a name error with answers, and the SOA stands exactly where answers are missing (sections 2.1 and 2.2 of RFC 2308) |
| `DnsReads.AnswersWereTrueOnce` | src/dns.go:86-116 | the answers are those of one moment of the query; a name error means one moment without addresses and one without texts |
| `DnsReads.ChallengeTextAnswered` | src/dns.go:107-116 | in every run a TXT question whose last read comes after a challenge text was put, and before it is changed, is answered with that text |
| `DnsReads.StoredAddressesAnswered` | src/dns.go:94-103 | in every run an address question whose last read comes after an update stored the domain, and before another does, is answered with that update's addresses of the family, in order |
| `DnsReads.EachHostStored` | src/api.go:113-129 | an update passes its host names from the first to the last, each valid one stored by a step of its own with the request's addresses |
| `DnsReads.AloneIsUpdate` | src/api.go:113-129 | an update that runs without interruption is v1update |
| `DnsReads.AloneIsProcessQuery` | src/dns.go:74-134 | a query between whose reads nothing writes its domain is processQuery |
| `DnsReads.ExistenceIsTorn` | src/memdb.go:16-26 | a query overlapping an update can report a name error for a domain that exists throughout |
| `DnsReads.NameErrorByReads` | src/dns.go:86-127 | in every run a query reports a name error if and only if there was no address at its first read, no text at its second and no record for the question at its third |
| `DnsReads.AnsweredAfterReads` | src/dns.go:86-116 | every answered query made these three reads, in order |
| `DnsReads.NameErrorUntorn` | src/memdb.go:16-26 | if nothing writes the domain between the two reads of its existence, a name error means it did not exist then; if nothing writes it up to the last read, exactly then |
| `DnsReads.TornNeedsBothWrites` | src/memdb.go:16-26 | a name error for a domain that exists throughout the two reads needs an update that stores it and then the deletion of its text between them |
| `FileStore.StepKeepsPuts` | src/autocert/cache.go:67-95 | at each phase the temporary file holds the bytes written so far, and exists exactly while it should |
| `FileStore.StepKeepsFinals` | src/autocert/cache.go:85-86 | under a key lies the finished file of a renamed Put of that key |
| `FileStore.StoredStep` | src/autocert/cache.go:80-87 | what each system call makes of the value stored under a key |
| `FileStore.RunKeeps` | src/autocert/cache.go:43-136 | both hold in every reachable state, with and without removal of temporary files |
| `FileStore.StoredChangesAtOnce` | src/autocert/cache.go:80-87 | the value of a key becomes the whole data of a Put of that key in its rename, disappears in a Delete of that key, and changes in no other step: never to partial data |
| `FileStore.CancelledEarlyNeverStores` | src/autocert/cache.go:81-84 | a Put cancelled before its check never renames |
| `FileStore.ReadsAreAtomic` | src/autocert/cache.go:43-63 | a reader sees a miss, a cancellation, an error, or the whole value its key had at some moment during the call; a miss only if it had none at some moment |
| `FileStore.StoredIsComplete` | src/autocert/cache.go:67-95 | what is stored is the whole data of a Put of that key |
| `FileStore.NoTemporaryFilesLeft` | src/autocert/cache.go:76-87 | DirCache has no temporary file once its Puts are over and no removal failed |
| `FileStore.FileDatabaseKeepsUnrenamed` | src/filedb.go:53-62 | FileDatabase keeps the temporary file of exactly the Puts that created one and did not rename it |
| `FileStore.OkMeansStoredUnlessCancelled` | src/autocert/cache.go:81-94 | a Put that reports success has stored if and only if its context was not cancelled at its check |
| `FileStore.PutEndsAsItsSteps` | src/autocert/cache.go:74-88 | the goroutine of a Put ends with an error exactly if creating, writing, closing or renaming failed, and has renamed exactly if that worked |
| `FileStore.PutReports` | src/autocert/cache.go:89-94 | a Put reports success only if none of these failed, an error only if one did, a cancellation only if it was cancelled |
| `FileStore.BrokenByFailure` | src/autocert/cache.go:50-62 | a Get that ends with an error had a file under its key that could not be opened or read |
| `FileStore.SuccessWithoutStoring` | src/autocert/cache.go:81-94 | a run in which a Put succeeds and nothing is stored |
| `FileStore.CancelledPutOutlivesDelete` | src/filedb.go:50-69 | a run in which a Put returns cancelled, a Delete that begins later succeeds, and then the Put's rename stores the value |
| `FileStore.FileNamesDistinct` | src/filedb.go:13-17 | address, text and certificate files never share a name |
| `DirCache.Directory.CreateTemp` | src/autocert/cache.go:122-125 | a new empty file under a temporary name; nothing stored changes; the history goes on by that step |
| `DirCache.Directory.RenameTemp` | src/autocert/cache.go:85-86 | the key's entry becomes the temporary file in one step, or nothing changes |
| `DirCache.Directory.WriteTempFile` | src/autocert/cache.go:120-136 | a complete temporary file, or a failure that leaves at most the Put's own unfinished file, and in DirCache only if its removal fails; nothing stored changes |
| `DirCache.Directory.Replace` | src/autocert/cache.go:80-87 | the rename unless the context was cancelled, then the removal |
| `DirCache.Directory.Put` | src/autocert/cache.go:67-95 | the key holds the whole data exactly if nothing failed and the context was not cancelled, every other key is unchanged, which temporary file is left; the object's history stays a run of `FileStore` |
| `DirCache.Directory.Get` | src/autocert/cache.go:43-63 | the whole stored value, or a miss |
| `DirCache.Directory.Delete` | src/autocert/cache.go:98-117 | removes the key; a missing key is not an error |

## Left out

- The HTTP and JSON shell: routing, basic authentication, redirects, listeners, request and response encoding, the private key and certificate download handlers, and the configuration. They touch none of the state the results are about.
- The `acme.Client` internals and `miekg/dns`: each call is a success, a failure or a status chosen freely, and records are values. `dns.IsFqdn` is taken as "ends in a dot"; names whose last dot is escaped are not modelled.
- X.509, PEM, GOB, key generation, signatures, IDNA and Unicode mapping: parameters, with the laws listed above.
- Real scheduling and wall-clock time: timers fire at or after their deadline in any order.
- A nil `Manager.Cache`, whose lookups miss and whose writes succeed without effect.
- `certState`, `locked` and its clearing at finer granularity than one step: exclusivity fails there.
- Equality of the cached and the served chain: the write after a handshake's issuance (`src/autocert/autocert.go:320`) may land after an immediate renewal's write, so nothing is claimed about it.
- Agreement on the account key between two Managers that share one database: `clientMu` belongs to one Manager. Account keys appear only as a cache key name and as lock operations.
- Challenges.VerifyRFC: termination needs the context's deadline, from which on AuthorizeOrder fails, because a round without a pending authorization whose order never becomes ready uses up no challenge type.
- Issuance: which responses are provisioned, when, and by which run is free; that a run of the two loops provisions only for its own domain is `Challenges.InStep`, in the contracts of Verify and VerifyRFC.
- CertCache.RoundTrip: a Put takes effect when it returns; that a cancelled Put of the same key may take effect later is in `FileStore` and `TokenRuns`, not here.
- CAServer: a challenge accepted for a type other than tls-alpn-01 panics in the source and has no step; a whitelist is sorted when it is given, as `NewCAServer` makes it.
- CAServer.Server.ValidateChallenge: the dial itself is a success or a failure chosen from outside; in `Issuance` it succeeds only at a manager that can answer the token handshake, and the certificate the manager presents is not examined, as in the source.
- DynDns.API.V1Update: the line "dnserr" for a failed database write, which MemoryDatabase never reports; database errors on the query side are left out for the same reason, and the handler's response to a record that cannot be built is `Failed`.
- DynDns: the stored lists are values, so the sharing of one address slice between host names is not modelled; the code never writes into a stored slice.
- FileStore: a temporary name is taken to be different from every key's file name and from every earlier temporary name; the return value of a cancelled Delete is not modelled, and creating the directory is part of creating the temporary file.
- FileStore.NoTemporaryFilesLeft: claimed for DirCache only, since FileDatabase keeps the file of a Put it did not rename; which files those are is `FileStore.FileDatabaseKeepsUnrenamed`.
- FileStore and DnsReads are state machines on values where the source runs goroutines over shared variables: the point there is the interleaving, which a method body does not show. `DirCache.Directory` and `DynDns.MemoryDatabase` have the same operations in place, and the history of a `Directory` is a run of `FileStore`.
- The typed getters and setters of FileDatabase beyond the names of their files: GOB encoding is not modelled. `DeleteIPAddresses`, which nothing in the repository calls.
- dbCertCache: its translation of absent bytes, whatever the error, to a cache miss is covered by the free choice of the cache's answer.
- LockPaths: `NoDeadlock` is about any code that takes locks in order; that the paths of `CodeOf` are those of the source is read off the source. The mutexes inside `acme.Client` and inside a cache other than one lock are not part of this model.
- Fairness: `LockPaths.NoDeadlock` says that some thread a stuck one waits for can always step, not that the scheduler picks it.
