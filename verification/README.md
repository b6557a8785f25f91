# AuthKit: a verified model

A Dafny 4.11 model of the stateful and concurrent parts of AuthKit, with proofs about all inputs and all runs. Run
`dafny verify dfyconfig.toml` in this directory.

The model has five parts.

**Personal-agent delegation** (the device grant of RFC 8628 with merged grants, rotating refresh tokens and revocation).
`DelegationMachine` cuts every call of the service at its `await`s: a step is one store statement, and a run is any
interleaving of the steps of any number of calls, of console revocations and of Poppy's writes to the shared tables, with
an unrelated clock per call. `DelegationInvariant` and `DelegationPreservation` give the invariant of all reachable
states; `DelegationTheorems` and `DelegationConvergence` what follows. `DelegationAgreement` and `DelegationSurvivor` say
which grant concurrent approvals are told, `DelegationLoss` which scopes they lose. `DelegationTraces` gives a run all its
states; over these, `DelegationRequests`, `DelegationExchange`, `DelegationRefresh` and `DelegationApproval` tell each
answer from the row the call found and its clock, and where rows and tokens come from. `DelegationService` is the service as
written, statement by statement, with other calls allowed between any two; each method is proved to be a path
of the machine, so the theorems speak about its answers.

**The OIDC payload adapters.** `PayloadTable` is the table and its statements, `IsoTimestamp` the text timestamps of
SQLite, `PayloadIndex` the indexed look-ups against "list everything and filter", `PayloadRuns` and `PayloadMaintenance`
what concurrent writers, the pruner and the lazy backfill do to them, `DatabaseAdapter` and `RedisAdapter` the adapters
with their loops, `SessionRenewal` renewals over whole runs, `PayloadHistory` and `RedisHistory` what a row, a document or a
reference tells of its past.

**The relying party's session.** `RelyingParty` has the live and the parked token slot and every step that touches them,
`SignedIn` who is signed in with which tokens, `SingleFlight` the refresh that concurrent requests share.

**Bounded caches.** `OpaqueCache` (introspection answers, two clocks) and `AgentDiscovery` (open-mode discovery), over
`OrderedMap`, a map in insertion order.

**The session index.** `SessionIndex`, two maps kept together.

Times are epoch milliseconds unless a comment says otherwise. Where the code reads a clock twice, both readings are
parameters. Outside answers (the IdP, the account check, signing, random values) are parameters of the step or method that
uses them; fresh random values are required to be new. Methods that let others run between their statements call a method
whose contract allows any change of the store, for the delegation service any that leaves a reachable state, so nothing
else is known afterwards.

## What the code does and its comments do not say

- `requestDevice` checks `id in cfg.scopes`, which also holds for names every object inherits, such as `toString`. A
  request can therefore carry a scope that was never configured, and so can the grant it ends in
  (`InheritedNameReachesGrant`); exactly when is `AcceptedScopesConfigured` for a request and `ScopesConfigured` for runs.
- The comment on `#converge` says that concurrent calls converge to the same grant. One grant survives in every
  interleaving (`OneGrantSurvives`), but a caller can be told another (`LateInsertDisagrees`): an election tells the
  survivor if and only if that grant existed when it read (`ElectionTellsSurvivor`), a widening if and only if its grant
  is the oldest (`WideningTellsSurvivor`). All calls agree when every one of them inserts before any election reads
  (`ApprovalsAgree`).
- Concurrent approvals can lose scopes. Both writes of a grant's text, the widening and the merge of an election, repeat
  what was read earlier and compare nothing. Two widenings of one grant (`WideningRace`), a merge over a widening
  (`MergeOverwritesWidening`) and a widening of a grant about to be revoked (`WidenedExtraRevoked`) lose what was added,
  while the caller is told that it was granted. What one write drops is `WriteDropsExactly`; when nothing is ever lost,
  `GrantKeepsScopesExactly` for one grant and `NothingLostExactly` for all live grants of a party together.
- `consume` writes back the payload it read. If the account of the row changed in between, the account index misses the
  row (`LateConsumeMisleads`).
- A prune between the look-up and the `UPDATE` of an `upsert` of an expired row loses the new payload
  (`PruneInsideUpsert`).
- The database `renewSession` never renews a row whose `expires_at` is NULL, yet answers true for it, and its last check
  compares with a clock reading from before the compare-and-set. So it can report a session whose `exp` is over, if and
  only if the row's expiry is NULL or later than its `exp` (`AnswersWithOldClock`); the rows it writes itself are such
  rows but for one millisecond in a thousand (`RenewedOutlivesExp`).
- On SQLite an expiry past the year 9999 compares as text before every ordinary date, so such a row is invisible to
  listings and is pruned (`TextTestsAreNumeric`).
- In Redis a `consume` that read a document before it was destroyed stores it again (`AddsExactly`).
- A request that waits for another's refresh takes over that copy's impersonation binding if it has none of its own
  (`OwnBindingKept`).

## Model

| member | source | states |
|---|---|---|
| `Scopes.ParseFormat` | packages/authkit-server/src/agents/config.ts:251-257 | reading back a formatted list of distinct scope tokens gives that list: nothing lost, added or reordered |
| `Scopes.FormatParseNormalForm` | packages/authkit-server/src/agents/config.ts:251-257 | reformatting is idempotent, and a text is unchanged by it if and only if it is a formatted list |
| `Scopes.MergedScope` | packages/authkit-server/src/agents/delegation_service.ts:346 | the text stored when scopes are added to a grant reads back as exactly the old scopes and the new ones |
| `Scopes.SplitRejoins` | packages/authkit-server/src/agents/config.ts:252 | no piece has a space, and the pieces joined by single spaces are the text again |
| `DelegationPreservation.StepKeeps` | packages/authkit-server/src/agents/delegation_service.ts:177-497 | every atomic step of every call keeps the invariant of the tables, the calls in flight and the history |
| `DelegationPreservation.ReachableInv` | packages/authkit-server/src/agents/delegation_service.ts:177-497 | the invariant holds in every reachable state of every interleaving |
| `DelegationTheorems.DeviceMoves` | packages/authkit-server/src/agents/delegation_service.ts:227-379 | one step moves a code along one edge (pending to approved, approved to consumed, pending to denied), only the step meant for that edge does, and no other column of the request changes |
| `DelegationTheorems.CodesOnlyMoveForward` | packages/authkit-server/src/agents/delegation_store.ts:146-161 | over any stretch of a run a code still stored has only moved forward and is for the same agent, agent user and scopes |
| `DelegationTheorems.GoneStaysGone` | packages/authkit-server/src/agents/delegation_service.ts:187 | an expired code that was deleted never comes back |
| `DelegationTheorems.TokensFollowApproval` | packages/authkit-server/src/agents/delegation_service.ts:227-267 | a token response follows an approval of the same code that returned that grant; the grant is of the approving account and of the requesting agent and agent user |
| `DelegationTheorems.OneExchangePerCode` | packages/authkit-server/src/agents/delegation_service.ts:262-266 | two token responses for one device code are one and the same call, in any interleaving |
| `DelegationTheorems.ExchangeSucceeds` | packages/authkit-server/src/agents/delegation_service.ts:227-267 | an approved, bound, unexpired code with a usable grant can be exchanged: the call runs through and consumes it |
| `DelegationTheorems.FailedSignatureKeepsCode` | packages/authkit-server/src/agents/delegation_service.ts:261-263 | a failed signature ends the call with an error, changes no row, and the same code can be exchanged next |
| `DelegationTheorems.OneRefreshPerToken` | packages/authkit-server/src/agents/delegation_service.ts:287-293 | two token responses for one refresh token are one and the same call |
| `DelegationTheorems.ReuseRevokes` | packages/authkit-server/src/agents/delegation_service.ts:283-291 | two finished calls that presented one refresh token while its grant was usable leave that grant revoked (section 4.14 of RFC 9700) |
| `DelegationTheorems.UnusedAtMostConsumed` | packages/authkit-server/src/agents/delegation_service.ts:525-536 | a grant never has more unused refresh tokens than consumed device codes bound to it |
| `DelegationTheorems.ScopesConfined` | packages/authkit-server/src/agents/delegation_service.ts:327-368 | every scope of a grant, a signed token or a verified delegation was requested by that agent and agent user, ticked by that account, and passed the configuration check |
| `DelegationTheorems.AcceptedScopesConfigured` | packages/authkit-server/src/agents/delegation_service.ts:181-184 | an accepted request names only configured scopes if and only if it names no property that every JavaScript object inherits and the configuration does not list |
| `DelegationTheorems.InheritedNameAccepted` | packages/authkit-server/src/agents/delegation_service.ts:182 | such a request exists: `toString` is accepted although no configuration lists it |
| `DelegationTheorems.ScopesConfigured` | packages/authkit-server/src/agents/delegation_service.ts:181-184 | over every run: if no accepted request names an inherited property that is not configured, every scope of every grant, signed token and verified delegation is configured |
| `DelegationTheorems.InheritedNameReachesGrant` | packages/authkit-server/src/agents/delegation_service.ts:182-364 | otherwise not: unless the configuration lists `toString`, and as long as device codes live at all, a run ends with a grant of that scope |
| `DelegationTheorems.ExchangeIsolation` | packages/authkit-server/src/agents/delegation_service.ts:234-238 | no step of an exchange by somebody else changes any row or yields tokens |
| `DelegationTheorems.RefreshIsolation` | packages/authkit-server/src/agents/delegation_service.ts:283-285 | no step of a refresh by an agent or agent user that does not own the token's grant changes any row or yields tokens |
| `DelegationTheorems.VerifyIsolation` | packages/authkit-server/src/agents/delegation_service.ts:415-452 | verification writes nothing, and yields a context only for a genuine token, to the agent and agent user of its grant and for the account of that grant, while the grant is a PACT one, unrevoked and unexpired |
| `DelegationTheorems.RevocationIsFinal` | packages/authkit-server/src/agents/delegation_service.ts:415-508 | once a grant is revoked, in any run, no exchange, refresh or verification that starts later succeeds on it, also with tokens issued by calls then in flight, and it stays revoked |
| `DelegationConvergence.OneGrantSurvives` | packages/authkit-server/src/agents/delegation_service.ts:317-369 | after any number of concurrent approvals of one party of which one inserted, in every interleaving without expiry or outside revocation, exactly one grant of the party is live: the oldest, ties by id, of those live at the start or inserted |
| `DelegationConvergence.NeverVanishes` | packages/authkit-server/src/agents/delegation_service.ts:485-489 | in such a run the election always sees a live grant, so its error cannot happen |
| `DelegationAgreement.ApprovalsAgree` | packages/authkit-server/src/agents/delegation_service.ts:479-497 | when all approvals insert before any election reads, all of them return the same grant, which ends with the union of the scopes of the grants and the latest expiry |
| `DelegationAgreement.NothingLost` | packages/authkit-server/src/agents/delegation_service.ts:492-496 | in such a run that union has every scope ticked in any of the approvals and every scope live before |
| `DelegationAgreement.WideningRace` | packages/authkit-server/src/agents/delegation_service.ts:345-349 | of two approvals that read the same grant before either widens it the second wins: nothing is lost if and only if what the first granted was in the grant already or granted to the second too |
| `DelegationAgreement.LateInsertDisagrees` | packages/authkit-server/src/agents/delegation_service.ts:479-497 | callers can be told different grants: an approval that inserts after another's election |
| `DelegationSurvivor.ElectionTellsSurvivor` | packages/authkit-server/src/agents/delegation_service.ts:479-497 | over every steady run from a quiet state to one without approvals in flight: an election picks the grant that survives if and only if that grant was in the table when it read, and its caller is told the grant picked |
| `DelegationSurvivor.WideningTellsSurvivor` | packages/authkit-server/src/agents/delegation_service.ts:340-352 | over such runs in which somebody inserts: the caller of a widening that applies is told the grant it widened, which survives if and only if no grant live at the start or inserted is older |
| `DelegationLoss.WriteDropsExactly` | packages/authkit-server/src/agents/delegation_service.ts:338-350 | in every run, the write of a widening or of a merge drops from its grant exactly the scopes that the last other write of that grant since its own read stored and that its own text lacks |
| `DelegationLoss.GrantKeepsScopesExactly` | packages/authkit-server/src/agents/delegation_service.ts:338-350 | so in every run that starts with no such write pending a grant never loses a scope if and only if no write of it drops what others stored since its read |
| `DelegationLoss.NothingLostExactly` | packages/authkit-server/src/agents/delegation_service.ts:317-369 | over every steady run from a quiet state, what the live grants of a party allow together never shrinks if and only if each write leaves what others stored since its read, and each revocation of an extra what the extra stores, to the text written or to another live grant |
| `DelegationLoss.MergeOverwritesWidening` | packages/authkit-server/src/agents/delegation_service.ts:492-495 | one election that reads before and writes after a widening of the survivor takes back what it added: exactly the scopes no live grant had at the election |
| `DelegationLoss.WidenedExtraRevoked` | packages/authkit-server/src/agents/delegation_service.ts:492-496 | and a grant widened after it was listed as an extra is revoked with what was added to it |
| `DelegationExchange.ExchangeAnswers` | packages/authkit-server/src/agents/delegation_service.ts:227-267 | over every history, how an exchange stands or ended, told from the row its look-up found and its own clock: which of them end with `invalid_request`, `access_denied`, `expired_token`, `authorization_pending` or `slow_down`, each if and only if, and that tokens need a code approved, bound and in time |
| `DelegationExchange.LateYieldsNothing` | packages/authkit-server/src/agents/delegation_service.ts:244 | an exchange of the agent's own open code that has expired by its clock is over at once with `expired_token`, changes no row, and never has tokens in any continuation |
| `DelegationExchange.ExchangeOnTheClock` | packages/authkit-server/src/agents/delegation_service.ts:227-267 | for an approved code bound to a grant usable for the agent, some continuation ends with tokens if and only if the code has not expired by the clock of the call |
| `DelegationExchange.TokensExplained` | packages/authkit-server/src/agents/delegation_service.ts:227-267 | over every history, what a token response to an exchange rests on: the look-up, then the grant as read, live by the same clock, whose columns and the configured time make the access token, then the refresh token stored until the expiry of that grant |
| `DelegationRefresh.RefreshAnswers` | packages/authkit-server/src/agents/delegation_service.ts:270-294 | over every history, how a refresh stands or ended, told from the row its look-up found and its own clock; an absent or expired token is refused at once, and tokens need an unused one |
| `DelegationRefresh.ChecksExactly` | packages/authkit-server/src/agents/delegation_service.ts:499-508 | an exchange or a refresh gets past its check if and only if the grant is one of this service's, unrevoked, in time and the agent's, and its account active; a spent token then leads to revocation |
| `DelegationRefresh.RefreshExplained` | packages/authkit-server/src/agents/delegation_service.ts:270-294 | over every history, what a token response to a refresh rests on: an unused token in time, then the grant as read, live by the same clock, then the next token stored until the expiry of that grant |
| `DelegationRefresh.VerifiesExactly` | packages/authkit-server/src/agents/delegation_service.ts:415-452 | a verification gives the context if and only if the token is genuine and in time in whole seconds, its grant live for this agent and agent user and of the token's account, and that account active |
| `DelegationRefresh.AccessTokensLapse` | packages/authkit-server/src/agents/delegation_service.ts:510-523 | over every history, a token is accepted only within the configured time of the clock of the call that signed it |
| `DelegationApproval.ApprovalAnswers` | packages/authkit-server/src/agents/delegation_service.ts:317-369 | over every history, how an approval stands or ended, told from the row its look-up found and its own clock: without a pending code in time and something requested and ticked it grants nothing |
| `DelegationApproval.InsertionExplained` | packages/authkit-server/src/agents/delegation_service.ts:338-364 | over every history, the grant an approval inserts: account, agent and agent user, exactly the scopes requested and ticked, from the clock of the call for the configured time |
| `DelegationApproval.WideningExplained` | packages/authkit-server/src/agents/delegation_service.ts:338-350 | over every history, what a widening leaves: all scopes requested and ticked, an expiry the configured time after the clock of the call, nothing else changed |
| `DelegationApproval.WidensLastUpdated` | packages/authkit-server/src/agents/delegation_service.ts:339-346 | an approval widens if and only if the party has a live grant; it is one no other was updated after, and the text to write is what it stores and what is granted together |
| `DelegationApproval.PoppyLeftAlone` | packages/authkit-server/src/agents/delegation_service.ts:127-129 | grants of the other protocol, told by their ids, are changed by no call of this service and no account's revocation of one grant |
| `DelegationApproval.GrantClocks` | packages/authkit-server/src/agents/delegation_service.ts:338-364 | over every history, each grant was created at the clock of an approval by its account and expires the configured time after the clock of one, merges included |
| `DelegationApproval.DenyFindsExactly` | packages/authkit-server/src/agents/delegation_service.ts:371-375 | a denial goes on exactly if the code found is pending |
| `DelegationApproval.DeniesExactly` | packages/authkit-server/src/agents/delegation_service.ts:376-379 | a denial answers yes exactly if the code is still pending, which is then denied by this account |
| `DelegationApproval.DenialIsFinal` | packages/authkit-server/src/agents/delegation_service.ts:371-379 | in every continuation a denied code stays denied or goes, and no exchange of it ever has tokens |
| `DelegationApproval.ConsolesRevokeExactly` | packages/authkit-server/src/agents/delegation_store.ts:223-241 | which grants each console statement revokes, and that it changes nothing else |
| `DelegationRequests.RequestsExactly` | packages/authkit-server/src/agents/delegation_service.ts:177-190 | a request is accepted if and only if some scope is asked for and each passes the configuration test; it then deletes exactly the codes expired before its clock |
| `DelegationRequests.InsertsExactly` | packages/authkit-server/src/agents/delegation_service.ts:191-224 | the row stored under a free user code; the third collision ends the request |
| `DelegationRequests.DeviceExplained` | packages/authkit-server/src/agents/delegation_service.ts:191-212 | over every history, a stored code is that of a request by its agent for the same scopes, and expires the configured time after the clock of that request |
| `DelegationRequests.CodesLeaveExactly` | packages/authkit-server/src/agents/delegation_store.ts:162-168 | a code goes if and only if another request is accepted whose clock is past its expiry |
| `DelegationRequests.LastPolled` | packages/authkit-server/src/agents/delegation_store.ts:138-140 | over every history, the time in a row is that of the last poll of the code, or none if there was none |
| `DelegationRequests.PollsArePaced` | packages/authkit-server/src/agents/delegation_service.ts:246-255 | over every history, an exchange that has to wait is told to slow down if and only if the last poll of the code is less than the configured interval ago |
| `DelegationRequests.NormalizesSpelling` | packages/authkit-server/src/agents/delegation_service.ts:132-138 | what is typed normalises to a user code if and only if its letters are those eight, in any case and with anything but letters around them |
| `DelegationServices.DelegationService.RequestDevice` | packages/authkit-server/src/agents/delegation_service.ts:177-224 | as written, with other calls between any two statements, the call is a path of the machine and its answer the outcome of that path: `invalid_scope` if and only if the request is not acceptable, else the code under one of the user codes, or an error after three collisions |
| `DelegationServices.DelegationService.InsertWithRetry` | packages/authkit-server/src/agents/delegation_service.ts:191-212 | two collisions of the user code are retried, a third ends the call; the loop is a path of the machine |
| `DelegationServices.DelegationService.ExchangeDeviceCode` | packages/authkit-server/src/agents/delegation_service.ts:227-267 | likewise for an exchange; its answer is told from the rows at the start of the call, every error of the look-up if and only if |
| `DelegationServices.DelegationService.ReadAndConsume` | packages/authkit-server/src/agents/delegation_service.ts:257-267 | an exchange from the grant on: tokens of that grant, or `invalid_grant`, or a failed signature |
| `DelegationServices.DelegationService.Consume` | packages/authkit-server/src/agents/delegation_service.ts:263-266 | the compare-and-set that consumes the code and the token response after it |
| `DelegationServices.DelegationService.Refresh` | packages/authkit-server/src/agents/delegation_service.ts:270-294 | likewise for a refresh; its answer is told from the rows at the start of the call |
| `DelegationServices.DelegationService.SpendOrRevoke` | packages/authkit-server/src/agents/delegation_service.ts:287-293 | the compare-and-set on the token: rotation for the winner, revocation of the grant for everybody else |
| `DelegationServices.DelegationService.Approve` | packages/authkit-server/src/agents/delegation_service.ts:317-329 | likewise for an approval; its answer is told from the rows at the start of the call, for the code they have for the input |
| `DelegationServices.DelegationService.Claim` | packages/authkit-server/src/agents/delegation_service.ts:331-337 | the compare-and-set that claims the code and all that follows are a path of the machine |
| `DelegationServices.DelegationService.WidenOrInsert` | packages/authkit-server/src/agents/delegation_service.ts:339-365 | from the choice of a live grant on, the call is a path of the machine |
| `DelegationServices.DelegationService.Widen` | packages/authkit-server/src/agents/delegation_service.ts:347-365 | from the write to the chosen grant on, whether it applies or not, the call is a path of the machine |
| `DelegationServices.DelegationService.InsertAndConverge` | packages/authkit-server/src/agents/delegation_service.ts:352-365 | the new grant's row, then the election |
| `DelegationServices.DelegationService.Converge` | packages/authkit-server/src/agents/delegation_service.ts:479-493 | the election on the snapshot of live grants |
| `DelegationServices.DelegationService.MergeAndRevoke` | packages/authkit-server/src/agents/delegation_service.ts:494-496 | the survivor is updated before the loop revokes the others, one by one |
| `DelegationServices.DelegationService.Bind` | packages/authkit-server/src/agents/delegation_service.ts:366-368 | the grant is bound to the code last |
| `DelegationServices.DelegationService.Deny` | packages/authkit-server/src/agents/delegation_service.ts:371-379 | a denial is a path of the machine; if it answers yes the code found for the input was pending and is now denied by this account |
| `DelegationServices.DelegationService.Verify` | packages/authkit-server/src/agents/delegation_service.ts:415-452 | a verification is a path of the machine that writes nothing; the context exactly for a genuine token in time of a live grant of this agent, else none |
| `DelegationServices.DelegationService.RevokeGrant` | packages/authkit-server/src/agents/delegation_service.ts:398-401 | revokes exactly an unrevoked grant of this account, and says so |
| `DelegationServices.DelegationService.MostRecentLive` | packages/authkit-server/src/agents/delegation_service.ts:340-342 | the choice among live grants by latest update, or none if there is none |
| `DelegationServices.DelegationService.LiveOldestFirst` | packages/authkit-server/src/agents/delegation_service.ts:485-487 | exactly the live grants of the party, oldest first, ties by id |
| `DelegationServices.DelegationService.FindByUserCode` | packages/authkit-server/src/agents/delegation_service.ts:322-323 | a row with the normalised code, or none if no row has it or the input is no code |
| `DelegationMachine.Keep` | packages/authkit-server/src/agents/delegation_service.ts:328 | exactly the requested scopes that were ticked, each once |
| `DelegationMachine.LatestExpiry` | packages/authkit-server/src/agents/delegation_service.ts:493 | the maximum of the expiries |
| `IsoTimestamp.TextTestsAreNumeric` | packages/authkit-server/src/adapters/database_adapter.ts:66-86 | with the clock in the years 0 to 9999, each of the two text comparisons selects what the numeric one would if and only if the expiry is not past the year 9999 |
| `IsoTimestamp.IsoOrder` | packages/authkit-server/src/adapters/database_adapter.ts:75-77 | for instants in the years 0 to 9999 the order of the ISO texts is the order of the instants (section 15.9.1.15 of ECMA-262 edition 5.1) |
| `IsoTimestamp.FourDigitYearsAre` | packages/authkit-server/src/adapters/database_adapter.ts:75-77 | those years as a range of epoch milliseconds |
| `IsoTimestamp.FieldsInOrder` | packages/authkit-server/src/adapters/database_adapter.ts:75-77 | later instants have later calendar fields |
| `IsoTimestamp.SignedYearSortsFirst` | packages/authkit-server/src/adapters/database_adapter.ts:75-77 | a text with a signed year sorts before every other, whichever its sign |
| `PayloadTable.OrderBy` | packages/authkit-server/src/adapters/database_adapter.ts:229 | ascending by id, and exactly the selected ids |
| `PayloadIndex.ListByAccountExact` | packages/authkit-server/src/adapters/database_adapter.ts:239-259 | the account look-up equals the filtered list, in the same order, if and only if no visible row the account owns carries another account's label |
| `PayloadIndex.ListByGrantsExact` | packages/authkit-server/src/adapters/database_adapter.ts:262-272 | the chunked grant look-up equals the filtered list as a multiset, for any cut of the grants, if and only if the rows concerned are filed under a wanted grant |
| `PayloadIndex.SortedUnique` | packages/authkit-server/src/adapters/database_adapter.ts:229 | a listing in id order is determined by its members |
| `PayloadRuns.AccountIndexInEveryRun` | packages/authkit-server/src/adapters/database_adapter.ts:239-259 | over every interleaving of upserts, consumes, renewals, deletions, prunes and backfills in which no id changes account, from any mix of labelled and NULL rows, every account look-up equals the filtered list at every moment |
| `PayloadRuns.LabelsKeptExactly` | packages/authkit-server/src/adapters/database_adapter.ts:206-213 | a single statement keeps every label right if and only if it is not a late `consume` or backfill for another account |
| `PayloadRuns.LateConsumeMisleads` | packages/authkit-server/src/adapters/database_adapter.ts:206-213 | without the hypothesis it fails: a late `consume` hides a row from its account's look-up |
| `PayloadRuns.GrantIndexInEveryRun` | packages/authkit-server/src/adapters/database_adapter.ts:262-272 | over every run in which no id changes grant, every grant look-up equals the filtered list as a multiset |
| `PayloadRuns.RevokedUntilUpserted` | packages/authkit-server/src/adapters/database_adapter.ts:219-221 | after a revocation by grant no row of any model carries the grant until it is upserted again, and every other row is untouched |
| `PayloadMaintenance.PruneInvisible` | packages/authkit-server/src/adapters/database_adapter.ts:113-128 | a prune anywhere in a run whose clock does not go back changes no later answer of any later operations, if and only if it deletes only expired rows |
| `PayloadMaintenance.PrunesExpiredOnlyWhen` | packages/authkit-server/src/adapters/database_adapter.ts:113-128 | it does so off SQLite always, and on SQLite as long as no expiry is past the year 9999 |
| `PayloadMaintenance.PruneInvisibleToFirst` | packages/authkit-server/src/adapters/database_adapter.ts:198-204 | after any later operations, look-ups by uid and by user code are unaffected as well when the value is then unique in the model |
| `PayloadMaintenance.SharedUidShows` | packages/authkit-server/src/adapters/database_adapter.ts:198-200 | with a shared uid a prune can show: an expired row no longer hides a live one |
| `PayloadMaintenance.PruneInsideUpsert` | packages/authkit-server/src/adapters/database_adapter.ts:148-154 | between the look-up and the write of one upsert a prune loses the write exactly if it deletes the row found |
| `PayloadMaintenance.StartsSpaced` | packages/authkit-server/src/adapters/database_adapter.ts:113-117 | any two prunes of one connection start at least ten minutes apart, whatever the clock does |
| `PayloadMaintenance.StartsWhenDue` | packages/authkit-server/src/adapters/database_adapter.ts:113-117 | an upsert starts a prune if and only if it is the first one or the last start is ten minutes ago |
| `PayloadHistory.FoundByIdUntilExpiry` | packages/authkit-server/src/adapters/database_adapter.ts:130-155 | what `upsert` stores is found by id exactly until it expires, and no other row changes |
| `PayloadHistory.FoundByUidAndUserCode` | packages/authkit-server/src/adapters/database_adapter.ts:198-204 | and by its uid and user code when no other row of the model has them |
| `PayloadHistory.LabelledByAccount` | packages/authkit-server/src/adapters/database_adapter.ts:141-146 | its label is the account of the payload when that is a text and not empty, else NULL |
| `PayloadHistory.BackfillLabels` | packages/authkit-server/src/adapters/database_adapter.ts:249-259 | the backfill writes that label into exactly the visible rows without one |
| `PayloadHistory.StoredExactly` | packages/authkit-server/src/adapters/database_adapter.ts:113-221 | over every run from the empty table the ids stored are those upserted and not deleted since, by id, by grant or by a prune past their expiry |
| `PayloadHistory.ConsumedStaysConsumed` | packages/authkit-server/src/adapters/database_adapter.ts:206-213 | over every run, between upserts an artefact is marked consumed if and only if it was before or a `consume` of it has run since, with the second of the last one, whatever else runs |
| `PayloadHistory.ConsumedIsSeen` | packages/authkit-server/src/adapters/database_adapter.ts:206-213 | so once consumed no later `find` shows it unused until it is upserted |
| `PayloadHistory.ColumnsStay` | packages/authkit-server/src/adapters/database_adapter.ts:165-213 | over every run, between upserts uid, user code and grant columns stay, the label changes only from NULL and the expiry only to what a renewal of it gave |
| `PayloadHistory.RenewalExtendsExactly` | packages/authkit-server/src/adapters/database_adapter.ts:177-186 | the compare-and-set extends `exp` and expiry if and only if the row still holds the payload read and has an expiry ahead |
| `PayloadMaintenance.BackfillInvisible` | packages/authkit-server/src/adapters/database_adapter.ts:249-259 | the labelling done by one account look-up, or any part of it, changes no later answer of any later operations |
| `DatabaseAdapters.Chunks` | packages/authkit-server/src/adapters/database_adapter.ts:44-48 | the chunks concatenate back to the input, none is empty, and all but the last have 500 items |
| `DatabaseAdapters.ParseRows` | packages/authkit-server/src/adapters/database_adapter.ts:290-302 | exactly the rows not expired at the second clock reading, in order, with their NULL labels marked |
| `DatabaseAdapters.DatabaseAdapter.HasAccountColumn` | packages/authkit-server/src/adapters/database_adapter.ts:93-104 | a present column is remembered for good; an absent one until the next check, a minute after the one that missed it |
| `DatabaseAdapters.DatabaseAdapter.MaybePrune` | packages/authkit-server/src/adapters/database_adapter.ts:113-117 | the prunes started are those the clock readings of the upserts call for |
| `DatabaseAdapters.DatabaseAdapter.Upsert` | packages/authkit-server/src/adapters/database_adapter.ts:130-155 | the row stored, with the label only when the column is known; the same for insert and update |
| `DatabaseAdapters.DatabaseAdapter.FindById` | packages/authkit-server/src/adapters/database_adapter.ts:194-196 | the payload of an unexpired row, else nothing |
| `DatabaseAdapters.DatabaseAdapter.Consume` | packages/authkit-server/src/adapters/database_adapter.ts:206-213 | with other calls between its look-up and its write: if the row was found unexpired, a row still there has the payload found, marked with the second of the clock, and nothing else changes |
| `DatabaseAdapters.MarkingIsConsuming` | packages/authkit-server/src/adapters/database_adapter.ts:206-213 | that write is the step of a run called a consume, and nothing else is |
| `DatabaseAdapters.DatabaseAdapter.RenewSession` | packages/authkit-server/src/adapters/database_adapter.ts:165-192 | with other calls between its accesses: it writes at most once, only over the payload it read and while live, changes nothing but `exp` and expiry and adds no row; true only if the session was live at one of its accesses; alone, exactly if the row is still live |
| `DatabaseAdapters.DatabaseAdapter.CompareAndSet` | packages/authkit-server/src/adapters/database_adapter.ts:177-186 | the one statement that writes, and exactly when it does |
| `DatabaseAdapters.AnswersWithOldClock` | packages/authkit-server/src/adapters/database_adapter.ts:165-192 | `renewSession` can report a row as renewed whose `exp` is over, writing nothing, if and only if its expiry is NULL or, in whole milliseconds, later than its `exp`; for all rows, clocks and interleavings |
| `DatabaseAdapters.LateAnswersHold` | packages/authkit-server/src/adapters/database_adapter.ts:187-191 | at any other row a late true is right: the session is still remembered at the last look |
| `DatabaseAdapters.AloneWithOldClock` | packages/authkit-server/src/adapters/database_adapter.ts:165-192 | without other calls in between, off SQLite, it happens to a row if and only if its expiry is NULL and it has an `exp` |
| `DatabaseAdapters.RenewedOutlivesExp` | packages/authkit-server/src/adapters/database_adapter.ts:182-185 | a row `renewSession` itself wrote is such a row if and only if it was not written on a whole second |
| `DatabaseAdapters.DatabaseAdapter.Destroy` | packages/authkit-server/src/adapters/database_adapter.ts:215-217 | the row goes and no other |
| `DatabaseAdapters.DatabaseAdapter.RevokeByGrantId` | packages/authkit-server/src/adapters/database_adapter.ts:219-221 | exactly the rows filed under the grant go, of every model |
| `DatabaseAdapters.DatabaseAdapter.SelectVisible` | packages/authkit-server/src/adapters/database_adapter.ts:81-86 | query and second expiry check together return exactly the visible rows in id order |
| `DatabaseAdapters.DatabaseAdapter.ListAll` | packages/authkit-server/src/adapters/database_adapter.ts:228-230 | the listing of the model |
| `DatabaseAdapters.DatabaseAdapter.ListByAccount` | packages/authkit-server/src/adapters/database_adapter.ts:239-259 | with or without the column the filtered list, when no label misleads; the table changes by the backfill at most, by all of it when no update fails |
| `DatabaseAdapters.DatabaseAdapter.Partition` | packages/authkit-server/src/adapters/database_adapter.ts:249-257 | the artefacts returned, and the unclassified ids grouped by their account |
| `DatabaseAdapters.DatabaseAdapter.ClassifyRows` | packages/authkit-server/src/adapters/database_adapter.ts:274-287 | each update only labels NULL rows of its group; failures are skipped |
| `DatabaseAdapters.DatabaseAdapter.ListByGrantIds` | packages/authkit-server/src/adapters/database_adapter.ts:262-272 | with any other calls between the queries of the chunks: only artefacts listed at one of the queries come back, each that stays listed comes back once, and when nothing changes the result is the filtered list as a multiset; repeated grants included |
| `RedisAdapters.RedisAdapter.Upsert` | packages/authkit-server/src/adapters/redis_adapter.ts:32-54 | the document, its references and its grant list with their deadlines |
| `RedisAdapters.RedisAdapter.FindByUid` | packages/authkit-server/src/adapters/redis_adapter.ts:100-104 | a uid finds exactly the document its reference leads to, if that is still there |
| `RedisAdapters.RedisAdapter.FindByUserCode` | packages/authkit-server/src/adapters/redis_adapter.ts:106-110 | likewise for a user code |
| `RedisAdapters.RedisAdapter.Destroy` | packages/authkit-server/src/adapters/redis_adapter.ts:127-129 | the document goes and nothing else |
| `RedisAdapters.RedisAdapter.Consume` | packages/authkit-server/src/adapters/redis_adapter.ts:112-125 | with others in between, the write stores what was read, marked with the second of the clock and under the deadline read, whatever is there by then |
| `RedisAdapters.RedisAdapter.TryRenew` | packages/authkit-server/src/adapters/redis_adapter.ts:59-86 | one round: the script writes only over the document read and only extends it; another round follows only if the document changed |
| `RedisAdapters.RedisAdapter.RenewSession` | packages/authkit-server/src/adapters/redis_adapter.ts:56-92 | with others running between its accesses: at most three rounds, one write at most, which only extends the document read; true only if the session was stored and remembered at one of its accesses; alone, exactly if it is |
| `SessionRenewal.NeverResurrected` | packages/authkit-server/src/adapters/database_adapter.ts:177-186 | a destroyed session stays destroyed, however many renewals had read it, until it is upserted |
| `SessionRenewal.RenewalsChangeOnlyExpiry` | packages/authkit-server/src/adapters/database_adapter.ts:177-186 | between rewrites of a session nothing of it changes but `exp` and the expiry, whatever runs |
| `SessionRenewal.RedisNeverResurrected` | packages/authkit-server/src/adapters/redis_adapter.ts:56-92 | in Redis a renewal never brings a document back nor changes more than `exp` and deadline |
| `SessionRenewal.AddsExactly` | packages/authkit-server/src/adapters/redis_adapter.ts:112-125 | a document that is absent appears exactly by an upsert of it or a `consume` that had read it |
| `RedisHistory.UpsertIsFound` | packages/authkit-server/src/adapters/redis_adapter.ts:32-54 | what `upsert` stores is found by id and user code, a session by uid as well, all with one deadline, and nothing else changes |
| `RedisHistory.UpsertIsListed` | packages/authkit-server/src/adapters/redis_adapter.ts:37-41 | codes and tokens join the list of their grant at its end, and the list takes their deadline if they have one |
| `RedisHistory.ConsumedStaysConsumed` | packages/authkit-server/src/adapters/redis_adapter.ts:112-125 | over every run, between upserts an artefact is marked consumed if and only if it was before or a `consume` of it has run since, even if it had gone in between |
| `RedisHistory.UidTellsLast` | packages/authkit-server/src/adapters/redis_adapter.ts:47-51 | over every run a uid leads to the session last stored or renewed under it, until the reference lapses |
| `RedisHistory.UserCodeTellsLast` | packages/authkit-server/src/adapters/redis_adapter.ts:42-46 | and a user code to the artefact last stored under it |
| `RedisHistory.RenewalExtendsExactly` | packages/authkit-server/src/adapters/redis_adapter.ts:66-84 | the script extends document and reference if and only if the document is still what was read |
| `RedisHistory.RemembersBySecond` | packages/authkit-server/src/adapters/redis_adapter.ts:63-65 | Redis tests a session's `exp` at the second the clock is in, so it never gives up a session before the database would |
| `RelyingParty.StopRestoresTheActor` | packages/authkit-client/providers/authkit_client_provider.ts:423-500 | over every run of logins, logouts, revocations, refreshes, impersonations, stops and host writes: stopping restores a token set if and only if every write since an impersonation was a refresh, it is then the set live at that impersonation without its binding, and otherwise both slots are dropped |
| `RelyingParty.StopRestoresExactly` | packages/authkit-client/providers/authkit_client_provider.ts:423-500 | over every run, whatever the host writes: stopping restores a token set if and only if the record of an impersonation is still parked and the live binding was not rewritten since, or last to that impersonation's nonce; it is then the set live at that impersonation without its binding |
| `RelyingParty.BannerMeansStopWorks` | packages/authkit-client/providers/authkit_client_provider.ts:507-514 | `isImpersonating` holds if and only if stopping would restore the actor, whatever the slots hold |
| `RelyingParty.LibraryKeepsCoherence` | packages/authkit-client/providers/authkit_client_provider.ts:423-548 | with library steps only, a record is parked if and only if the live set carries its binding |
| `RelyingParty.CopiedBindingRestores` | packages/authkit-client/providers/authkit_client_provider.ts:478-500 | the hypothesis is needed: a host that copies a binding back gets the actor restored |
| `RelyingParty.LoginsAnswerRequests` | packages/authkit-client/src/register_oidc_client.ts:90-112 | each login request completes at most one callback, with its own state; any other callback changes neither token slot |
| `SignedIn.SignedInExactly` | packages/authkit-client/providers/authkit_client_provider.ts:423-548 | over every run of the session's steps somebody is signed in if and only if, of the steps that sign in or out, the last one signs in |
| `SignedIn.EndedStaysEnded` | packages/authkit-client/providers/authkit_client_provider.ts:525-530 | after a logout, or a revocation of the session the id token names, both slots are empty until a login completes or the host puts a token set |
| `SignedIn.LiveTellsLastWrite` | packages/authkit-client/providers/authkit_client_provider.ts:326-548 | over every run the live token set is what the last step that wrote one wrote: the tokens of the login, of the IdP's answer to the refresh, of the refresh waited for, of the target, of the actor or of the host |
| `RelyingParty.CompleteAuthorization` | packages/authkit-client/src/authorization.ts:199-263 | a login completes if and only if every check of the callback passes |
| `RelyingParty.CallbackErrors` | packages/authkit-client/src/authorization.ts:180-263 | which error a callback ends with: each if and only if it is the first check that fails |
| `RelyingParty.AuthkitClientManager.StartSession` | packages/authkit-client/providers/authkit_client_provider.ts:543-548 | a new login drops what was parked |
| `RelyingParty.AuthkitClientManager.EndSession` | packages/authkit-client/providers/authkit_client_provider.ts:525-530 | both slots are cleared |
| `RelyingParty.AuthkitClientManager.Impersonate` | packages/authkit-client/providers/authkit_client_provider.ts:423-446 | the live set is parked and replaced under one fresh binding, or nothing changes |
| `RelyingParty.AuthkitClientManager.StopImpersonating` | packages/authkit-client/providers/authkit_client_provider.ts:478-500 | the answer and both slots, for every content of the parked slot |
| `RelyingParty.AuthkitClientManager.LoginRoute` | packages/authkit-client/src/register_oidc_client.ts:74-86 | the request is kept for the callback |
| `RelyingParty.AuthkitClientManager.CallbackRoute` | packages/authkit-client/src/register_oidc_client.ts:90-112 | the request is used up whatever the outcome; a completed one starts a session |
| `RelyingParty.AuthkitClientManager.LogoutRoute` | packages/authkit-client/src/register_oidc_client.ts:129-135 | the hint of the old session, and both slots cleared |
| `RelyingParty.AuthkitClientManager.CheckRevocation` | packages/authkit-client/src/middleware/backchannel_revocation_middleware.ts:18-39 | a session whose id token names a revoked session or user is ended, parked record included |
| `SingleFlight.ExactlyOneRefresh` | packages/authkit-client/providers/authkit_client_provider.ts:252-318 | overlapping requests of one session with one near-expiry refresh token make exactly one refresh, in every interleaving |
| `SingleFlight.AllEndAlike` | packages/authkit-client/providers/authkit_client_provider.ts:252-318 | they all end with the same id, access and refresh tokens if it succeeded, and each with its own copy unchanged if it failed |
| `SingleFlight.FinishedCopy` | packages/authkit-client/providers/authkit_client_provider.ts:271-296 | in any mix of sessions and lineages a finished request has the tokens the IdP answered to a refresh of its own session and refresh token, or its copy as it was |
| `SingleFlight.SettledByAnswer` | packages/authkit-client/providers/authkit_client_provider.ts:347-353 | over every run a refresh settles exactly by an answer of the IdP, with its access token and expiry, its id and refresh tokens where issued and those of the refreshing copy otherwise; a failure settles with nothing |
| `SingleFlight.RefreshesWhenDue` | packages/authkit-client/providers/authkit_client_provider.ts:252-264 | over every run a request refreshes or waits if and only if it has a refresh token and its access token is known to expire within a minute |
| `SingleFlight.OwnBindingKept` | packages/authkit-client/providers/authkit_client_provider.ts:277-284 | after a success a copy keeps its own binding if and only if it had one or the refreshing copy had none |
| `SingleFlight.NothingLeftInFlight` | packages/authkit-client/providers/authkit_client_provider.ts:309-317 | when every request has finished no entry is left in flight, whatever the mix |
| `SingleFlight.RunInv` | packages/authkit-client/providers/authkit_client_provider.ts:252-318 | every entry in flight is that of an unfinished request of its session, in every reachable state |
| `SingleFlight.RefreshPromises.Begin` | packages/authkit-client/providers/authkit_client_provider.ts:266-310 | wait for a refresh of the same lineage, or announce one's own |
| `SingleFlight.RefreshPromises.End` | packages/authkit-client/providers/authkit_client_provider.ts:313-316 | only the owner's own entry is removed |
| `OpaqueCache.HitsRepeatActiveAnswers` | packages/authkit-client/src/resolvers/opaque_resolver.ts:68-99 | over every run from the empty cache: a hit repeats the identity of an active introspection of that token made earlier, within its lifetime, and nothing was stored for or dropped from the token since |
| `OpaqueCache.HitsExactly` | packages/authkit-client/src/resolvers/opaque_resolver.ts:68-121 | over every run a look-up hits if and only if some active answer for the token is fresh and has since been neither replaced nor withdrawn nor found lapsed nor evicted |
| `OpaqueCache.ServedBeforeExpiry` | packages/authkit-client/src/resolvers/opaque_resolver.ts:106-120 | so if the wall clock gained nothing on the monotonic one since that introspection, a served token has not expired; if it gained, by no more than that |
| `OpaqueCache.Bounded` | packages/authkit-client/src/resolvers/opaque_resolver.ts:110-120 | over every run: never more than the maximum of entries, at most one a token, none without a cache lifetime |
| `OpaqueCache.OldestFirst` | packages/authkit-client/src/resolvers/opaque_resolver.ts:119-120 | over every run the entries stand in the order in which they were stored |
| `OpaqueCache.EvictedInRuns` | packages/authkit-client/src/resolvers/opaque_resolver.ts:110-118 | over every run an entry goes, other than by a step for its own token, only when an answer is stored into a full cache; a live one only when all are live, and it is the one stored first |
| `OpaqueCache.EvictsOldestAfterLapsed` | packages/authkit-client/src/resolvers/opaque_resolver.ts:110-118 | a live entry is evicted only from a cache full of live entries, and only the oldest |
| `OpaqueCache.OpaqueResolver.Resolve` | packages/authkit-client/src/resolvers/opaque_resolver.ts:68-99 | looks up once; a hit repeats an earlier active introspection of the run, a miss ends with what introspection says and with that step; with ttl 0 always the latter |
| `OpaqueCache.OpaqueResolver.Look` | packages/authkit-client/src/resolvers/opaque_resolver.ts:72-77 | a hit is answered, a lapsed entry goes: one step of the run |
| `OpaqueCache.OpaqueResolver.Forget` | packages/authkit-client/src/resolvers/opaque_resolver.ts:92-95 | an inactive token leaves the cache: one step of the run |
| `OpaqueCache.OpaqueResolver.Store` | packages/authkit-client/src/resolvers/opaque_resolver.ts:106-121 | nothing is stored past the token's expiry, otherwise the entry goes in last and room is made first: one step of the run |
| `OpaqueCache.OpaqueResolver.MakeRoom` | packages/authkit-client/src/resolvers/opaque_resolver.ts:110-118 | lapsed entries go first, then the oldest, only from a full cache |
| `SessionIndex.BucketsTellHistory` | packages/authkit-client/src/backchannel_logout.ts:140-171 | over every run revoking a user returns exactly the sessions registered under the user and not removed since, and no bucket is ever empty |
| `SessionIndex.SidTellsHistory` | packages/authkit-client/src/backchannel_logout.ts:140-170 | over every run revoking a sid returns exactly the session last registered under it, unless a revocation of that sid or of a user of that session has taken it out since |
| `SessionIndex.MapsAgree` | packages/authkit-client/src/backchannel_logout.ts:140-171 | with one sid and one user per session, every sid leads to a session its user's bucket holds |
| `SessionIndex.ReturnedOnce` | packages/authkit-client/src/backchannel_logout.ts:149-170 | and a session given back by one revocation is given back by none until it is registered again |
| `SessionIndex.SharedSessionReturnedTwice` | packages/authkit-client/src/backchannel_logout.ts:160-170 | a session registered under two users is given back twice |
| `SessionIndex.InMemorySessionIndex.Register` | packages/authkit-client/src/backchannel_logout.ts:140-147 | both maps after a registration |
| `SessionIndex.InMemorySessionIndex.RevokeBySid` | packages/authkit-client/src/backchannel_logout.ts:149-158 | the session returned leaves every bucket, and a bucket left empty goes |
| `SessionIndex.InMemorySessionIndex.RevokeBySub` | packages/authkit-client/src/backchannel_logout.ts:160-170 | the bucket and every sid that led into it go |
| `AgentDiscovery.OneFetchAtATime` | packages/authkit-server/src/agents/agent_identity.ts:142-154 | as long as the entry of an issuer's fetch is not evicted, callers share that fetch exactly until an hour after it started, or a minute if it failed; only then does another start |
| `AgentDiscovery.NotEvictedEarly` | packages/authkit-server/src/agents/agent_identity.ts:28-32 | the last fetch of an issuer is not evicted before a thousand others have started after it |
| `AgentDiscovery.EvictedOnlyWhenOldest` | packages/authkit-server/src/agents/agent_identity.ts:28-32 | an entry leaves the map only when its own issuer is fetched again, or as the oldest of a full map when another issuer's fetch starts |
| `AgentDiscovery.Bounded` | packages/authkit-server/src/agents/agent_identity.ts:28-32 | never more than a thousand entries, one an issuer, oldest first |
| `AgentDiscovery.SetBoundedKeeps` | packages/authkit-server/src/agents/agent_identity.ts:28-32 | adding an entry drops at most the oldest one, of a full map |
| `AgentDiscovery.Verifier.Discover` | packages/authkit-server/src/agents/agent_identity.ts:142-150 | the fetch shared or started, and the map after it |
| `AgentDiscovery.Verifier.Put` | packages/authkit-server/src/agents/agent_identity.ts:28-32 | the bounded insertion |
| `AgentDiscovery.Verifier.FetchEnded` | packages/authkit-server/src/agents/agent_identity.ts:151-153 | only a failure shortens its own entry |

## Left out

- Signatures, JWT and JWKS handling and hashing: a signature is genuine exactly if this service signed the token, a hash is taken to be injective, so secrets stand for their hashes.
- The database engine below single statements: each statement is atomic, `first()` may return any matching row, and ids, user codes and texts compare by code unit (also where the code uses `localeCompare`).
- Signing and the account check are merged with the store step before them: neither touches a table.
- Non-ASCII input of `normalizeUserCode`: letters are folded to upper case within ASCII only.
- `pendingRequest`, `listGrants`, `receipt`, paging and counting of grants: single reads without branching worth a proof.
- Fractional and non-number `expiresIn`, `grantId`, `uid` and `userCode` of payloads: modelled as integers and optional strings; `accountId` keeps its unknown type.
- Truncation of timestamps by a database that stores whole seconds: expiries are stored exactly.
- Column-blind writers next to column-aware ones over whole runs: `DatabaseAdapters.DatabaseAdapter.Upsert` states what such a write stores, the run theorems assume the column is known.
- Redis `SCAN` listing, glob patterns and `revokeByGrantId`: the deadline of a grant list is reset by each upsert, so its completeness needs hypotheses of its own; sub-second deadlines are rounded to the server's whole seconds.
- Expiry in Redis is a step of the server that removes the key, so "live" for the Redis renewal means stored and remembered.
- Two requests of one browser session that write the session store at the same time: each session object is used by one request at a time; the store's last writer wins and is not modelled.
- `handleBackchannelLogout` and `validateLogoutToken`: a chain of checks without state; the index it drives is modelled.
- `resolveDestination`, URL building and redirects of the client routes.
- The order in which the session index returns the sessions of a user: a set stands for the insertion-ordered one.
- Token lookup in requests and claims-to-identity mapping of `OpaqueResolver`: an identity is an opaque value.
- `PersonalAgentVerifier.verify`, the HTTPS checks of a fetch and the map of remote key sets: only the bounded map they share and the discovery cache are modelled.
- Client discovery, `use_can.ts`, React components, commands, vault packages, organizations, keystore rotation and the account stores.
- DelegationServices.DelegationService.Others: states only that the state stays reachable and that the caller's own call has not moved, because that is all a call may rely on; its body runs nobody.
- DelegationTheorems.ScopesConfined: "passed the configuration check" admits the inherited property names, because the code does.
- PayloadMaintenance.PruneInvisible: takes an upsert as one step; `PayloadMaintenance.PruneInsideUpsert` says what happens inside one.
