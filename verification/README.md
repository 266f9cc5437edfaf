# A verified model of the grant broker, the claim ceremony and the conformance report

This project models four components that keep state and one that only computes, and proves what their
documentation and tests promise of them.

- **Grant broker** (`packages/broker`). Agents propose grants; the broker denies, allows or sends them to an
  approver, mints one credential for an approved grant, lets it be consumed once, and closes it with one evidence
  record and retried revocations. It is modelled twice: as the steps between two awaits of any number of overlapping
  requests (`BrokerInterleaving`, over the promise-chain lock of `Locks`; `BrokerSchedules`, `BrokerReplays` and
  `BrokerHistories` state what holds of every schedule), and as the class with its in-memory store, snapshot and
  restart (`BrokerClass`, `BrokerStore`), whose runs one request after the other are the subject of `BrokerRuns`.
  `Dpop` is the replay protection both share.
- **Claim ceremony** (`packages/service/src/claim.ts`). A device polls while a person verifies a code and decides.
  Every operation reads a record and writes it back by compare-and-set; `ClaimInterleaving` ranges over every
  interleaving of those reads and writes and of the clock readings between them, `ClaimPolling` counts the polls,
  `ClaimCeremonyClass` is the class, and `ClaimCeremonyModel.PerformIsASchedule`
  ties the two together. `ClaimState` is the durable object behind it, a flat key-value store with an alarm, in
  lockstep with the in-memory store.
- **Tokens, revocation and events** (`packages/service/src/service.ts`). Registration of three kinds of identity,
  exchange of claim grants and signed assertions for tokens, validation, revocation and the retry loop that tells the
  subscribers. `Service` is the class; `ServiceTheorems` and `ServiceExchange` state what holds after any run. `Scopes`
  is the splitting and joining of scope strings on which the validation of a token depends.
- **Rate limiters** (`packages/service/src/rate-limit.ts`), the in-memory one and the database upsert.
- **Findings** (`packages/cli/src/model.ts`, `packages/cli/src/reporter.ts`). Sorting, merging and canonical form of a
  report, over real UTF-16 texts and the real joined keys.

Files that end in `_model`, and `broker_rules`, `claim_rules`, `scopes` and `stable_sort`, hold specification functions
and lemmas about them; each class method promises to be such a function of the old state. What those functions answer
is said once more without them, in terms of the inputs, the stored records and what a run has answered before: in
`BrokerLaws` and `BrokerOutcomes`, `ServiceLaws` and `ServiceLimits`, `EventDeliveryLaws` and `FindingsLaws`. `hide` at
the head of a proof keeps the definitions it does not need away from the verifier.

Signatures, hashes, URL normalisation, generated ids, clock readings, the policy engine, the authenticator, the relay
of revocations and the HTTP answers of subscribers are inputs. Ids are new where the source generates them, and
nobody signs with a key of the service or of the broker but they. `dafny verify dfyconfig.toml` checks everything.

## What turned out to be false, and when it holds

- A DPoP proof can be accepted more than once: an accepted `jti` is remembered for 300 s but its `iat` is good for
  600 s. One just accepted can be accepted again if and only if it was accepted no later than its `iat`
  (`Dpop.AcceptedAgainIff`), twice more if and only if it was accepted at the first moment it was fresh
  (`Dpop.AcceptedTwiceMoreIff`, `Dpop.ThreeTimesHappens`), and never a fourth time (`Dpop.AtMostThreeTimes`) by calls one
  after the other. But each call carries a clock reading taken before its signature is awaited. With readings at most
  `delay` old when they reach the map, `n` acceptances are possible if and only if `(n - 1) * (300 s - delay) <= 600 s`
  (`Dpop.AcceptedTimesIff`): a fourth if and only if the delay may be 100 s (`Dpop.FourTimesIff`), any number if and only
  if it may be 300 s (`Dpop.OverlapHasNoBound`). The same holds of the schedules of the broker, where completions
  under one minted credential realise these runs (`BrokerReplays.PassesTimesIff`, `BrokerReplays.FourthPassIff`).
- A fixed-window limiter does not keep to its limit in a sliding window. The clock-aligned one does if and only if the
  limit lets nothing through, the one that opens a window at the first call if and only if the limit is at most one
  (`RateLimitModel.KeepsLimitIff`). Up to twice the limit passes the first, one less the second, for every limit and
  every window (`RateLimitModel.AlignedBoundIsReached`, `RateLimitModel.AnchoredBoundIsReached`).
- A token does not always validate from issue to expiry: it does exactly if its scopes are distinct words, its subject
  is not empty and the clock is past 1970 (`ServiceTheorems.ValidIffLive`). Where authenticators
  answer distinct words and a subject, all tokens of all runs are good if and only if the supported scopes are distinct
  words (`ServiceExchange.TokensAlwaysGoodIff`); `create` accepts any non-empty list, and with `["read", "read"]` a run
  mints a token that is refused at every moment (`ServiceExchange.RepeatedScopeFails`).
- `sameScopes` accepts `[a, a]` against `[a, b]` (`Scopes.SameScopesIsOneSided`). It is equality up to order with every
  right list if and only if the left list has no repetition (`Scopes.SameScopesIsEqualityIff`).
- A refused exchange can use a claim up, since the claim is consumed before the identity, the scopes and the target are
  looked at. `ServiceExchange.ExchangeUsesClaimIff` says for every exchange of every run when the claim is used and when
  a token is paid for it; `ServiceExchange.AskingTooMuchUsesTheClaim` is a run in which it is lost.
- The merged findings and the canonical report depend on the order of the input exactly when findings that compare
  equal differ in their location, respectively in their canonical form (`FindingsOrder.DeduplicateIgnoresOrderIff`,
  `FindingsOrder.CanonicalIgnoresOrderIff`). Texts without the separator U+0000 and without empty source ids rule that
  out (`FindingsKeys.OrderDoesNotMatter`); no source id and one empty source id compare equal and are written
  differently (`FindingsKeys.EmptySourceIdConfuses`).
  `FindingsKeys.SeparatorsConfuse` is a pair with the separator for which both fail.
- The storage keys of a claim id such as `active-ids` or `user-code:x` belong to the indexes.
  `ClaimStateModel.GoodIdIsExact` says which ids are safe, and creating a claim keeps the storage sound if and only if
  its id is (`ClaimState.DurableObjectClaimState.CreateClaim`). The generated ids `claim_<uuid>` are. A swap that moves
  a deadline keeps the alarm right if and only if the earliest deadline stays
  (`ClaimState.DurableObjectClaimState.CompareAndSet`); the ceremony never moves one.
- `docs/spec/completion-scoped-grants.md:65-73` lets a grant be completed once it is approved or consumed, leaves a
  proposed one to the operator, and has the end of its time expire it. But `complete` closes a proposed grant for anyone
  (`packages/broker/src/broker.ts:271-276` and `:374-382`, which refuses denied grants only), and `expire` does not look at
  the clock (`:328-330`). A status change follows the row of its trigger and actor if and only if it is neither: a
  revoked grant was approved or consumed or the source is the operator, and an expired one was past its deadline
  (`BrokerSchedules.StatusFollowsTable`, `BrokerRuns.RequestFollowsTable`). `BrokerSchedules.AgentClosesProposed` and
  `BrokerSchedules.ExpiresEarly` are schedules that break a row; a completion under a credential and `expireDue` never do
  (`BrokerSchedules.AuthenticatedCompletionFollowsTable`, `BrokerRuns.ExpireDueFollowsTable`).
- A claim can be polled more often than its lifetime has intervals. Until its grant is used it sees at most one accepted
  poll more, and none more if the check and the write of each poll read one clock value (`ClaimPolling.PollsBeforeUse`);
  both bounds are reached for every lifetime and interval (`ClaimPolling.PollBoundsAreReached`). Once its grant is used
  it can be polled for ever (`ClaimPolling.UsedIsPolledForEver`).

## Model

| member | source | states |
|---|---|---|
| Locks.RenderInjective | packages/broker/src/store.ts:119-176 | the texts of the exchange lock, the grant locks and the subject locks never collide, so different locks have different keys |
| Locks.MutualExclusion | packages/broker/src/store.ts:240-257 | under every schedule at most one operation per key is running |
| Locks.FirstComeFirstServed | packages/broker/src/store.ts:240-257 | an operation starts only when everyone who asked for its key earlier is done |
| Locks.LockMapExact | packages/broker/src/store.ts:240-257 | the lock map holds exactly the keys somebody runs under or waits for, so deleting a key never drops a waiter |
| Locks.EmptyWhenIdle | packages/broker/src/store.ts:240-257 | once every operation has ended, whether it returned or threw, the lock map is empty |
| Locks.NoDeadlock | packages/broker/src/broker.ts:199-210 | with `subject:` nested in `grant:` some operation can always move while any is outstanding |
| Locks.DrainsCompletely | packages/broker/src/store.ts:240-257 | without new callers every schedule stops within the work outstanding, and only when every operation has ended and the map is empty |
| Locks.RefinesHeldKeys | packages/broker/src/store.ts:240-257 | seen through the set of held keys, entering changes nothing, starting takes a free key and finishing gives it back, which is all the interleaved broker relies on |
| Locks.LockTable.Enter | packages/broker/src/store.ts:241-246 | joining the chain behind whoever came last on the key, as a step of the table |
| Locks.LockTable.Finish | packages/broker/src/store.ts:248-256 | opening the gate, and deleting the key only if nobody came after |
| Dpop.ReplayGuard.Verify | packages/broker/src/crypto.ts:304-357 | a proof is refused exactly by the freshness, key, signature and replay checks in that order; the map is pruned and extended as stated |
| Dpop.ReplayGuard.Entries | packages/broker/src/broker.ts:356-367 | what is persisted is a complete list of the live entries |
| Dpop.AcceptancesApart | packages/broker/src/crypto.ts:340-357 | two acceptances of one `jti` are at least 300 000 ms apart, with any mix of sweeps and restarts between |
| Dpop.AtMostThreeTimes | packages/broker/src/crypto.ts:304-357 | no proof is accepted a fourth time in any run |
| Dpop.OnceAfterIssue | packages/broker/src/crypto.ts:304-357 | a proof first accepted strictly after its `iat` is never accepted again |
| Dpop.AcceptedAgainIff | packages/broker/src/crypto.ts:304-357 | a proof just accepted in a run is accepted again in some continuation if and only if it was accepted no later than its `iat` |
| Dpop.AcceptedTwiceMoreIff | packages/broker/src/crypto.ts:304-357 | two more acceptances are possible if and only if the first was at the first moment of freshness |
| Dpop.OverlappingApart | packages/broker/src/crypto.ts:340-357 | of overlapping calls that carry older clock readings, a second acceptance of a `jti` reaches the map no earlier than 300 000 ms after the reading of the first |
| Dpop.AcceptedTimesIff | packages/broker/src/crypto.ts:304-357 | for every number and every delay, whether a proof can be accepted that often by calls whose clock readings are at most that old when they reach the map |
| Dpop.FourTimesIff | packages/broker/src/crypto.ts:304-357 | a fourth acceptance is possible if and only if readings may be 100 s old |
| Dpop.OverlapHasNoBound | packages/broker/src/crypto.ts:304-357 | there is no bound at all if and only if they may be 300 s old |
| Dpop.StalledForEver | packages/broker/src/crypto.ts:304-357 | every proof that was fresh when the clock was read is accepted any number of times by calls that all read it then |
| Dpop.ThreeTimesHappens | packages/broker/src/crypto.ts:312-357 | a run in which one proof is accepted three times |
| Dpop.DecidesLikeLedger | packages/broker/src/crypto.ts:340-357 | every decision is the one a map that never forgets would give, so pruning loses nothing |
| Dpop.LaterReload | packages/broker/src/broker.ts:99-106 | entries saved at one time and read back later are the map without what has died by then |
| BrokerRules.ProposeNarrows | packages/broker/src/broker.ts:129-196 | a grant has the requested scope, all of it within both the registration's and the subject's, and expires after now and within the maximal lifetime; a scope outside is refused exactly when there is one |
| BrokerRules.MintedCredentialFits | packages/broker/src/broker.ts:223-306 | the credential minted for a grant passes the checks of consume and complete exactly as long as the grant is approved, respectively the credential unexpired, and the request is the granted one |
| BrokerInterleaving.StepKeepsInv | packages/broker/src/broker.ts:129-416 | every body segment between two awaits, of any request at any moment, keeps the invariant and only moves statuses forward |
| BrokerSchedules.ConsumedAtMostOnce | packages/broker/src/broker.ts:223-269 | in every schedule each grant is consumed at most once |
| BrokerSchedules.ConsumedFromApproved | packages/broker/src/broker.ts:223-269 | a consume goes from approved to consumed, had not expired when its section began, and precedes any evidence |
| BrokerSchedules.OneCredentialPerSubjectToken | packages/broker/src/broker.ts:174-215 | at most one credential is ever minted for a subject token and for a grant, over the allow path, the approval path and retries, and it says what the grant says |
| BrokerSchedules.ConsumedByItsCredential | packages/broker/src/broker.ts:198-269 | every consume was preceded by the one credential minted for its grant, and presented exactly that one |
| BrokerSchedules.OwnershipIsWriteOnce | packages/broker/src/store.ts:119-182 | from any point of a schedule on the owner of a subject token stays, and a grant approved or consumed at that point owns its token for ever |
| BrokerSchedules.KnownKeyCreatesNothing | packages/broker/src/store.ts:119-145 | once a key names a grant no overlapping exchange under it creates or signs anything |
| BrokerSchedules.StatusFollowsTable | docs/spec/completion-scoped-grants.md:65-73 | every status change of every schedule is an edge of the state machine, and the row of its trigger and actor if and only if it is neither a revocation of a proposed grant by anyone but the operator nor an expiry ahead of the deadline |
| BrokerSchedules.ExpireFollowsIff | packages/broker/src/broker.ts:328-330 | `expire` ends any active grant nobody works on, and follows its row if and only if its deadline is over |
| BrokerSchedules.ExpiresEarly | packages/broker/src/broker.ts:328-330 | a schedule in which a grant expires ahead of its deadline |
| BrokerSchedules.AgentMayCloseProposed | packages/broker/src/broker.ts:271-276 | `complete` with source `agent` closes any proposed grant nobody holds, against the table |
| BrokerSchedules.AgentClosesProposed | packages/broker/src/broker.ts:271-276 | a schedule in which that happens |
| BrokerSchedules.AuthenticatedCompletionFollowsTable | packages/broker/src/broker.ts:278-306 | a completion under a minted credential closes approved and consumed grants only, whatever overlaps it |
| BrokerReplays.ReplaysAreApart | packages/broker/src/broker.ts:259 | whatever consumes and completions overlap, a `jti` passes a second time no earlier than 300 000 ms after the clock was read for the first |
| BrokerReplays.PassesTimesIff | packages/broker/src/broker.ts:223-306 | for every number and every delay, whether some schedule of overlapping requests lets one proof pass that often with readings at most that old |
| BrokerReplays.FourthPassIff | packages/broker/src/broker.ts:278-306 | a fourth pass is possible in some schedule if and only if readings may be 100 s old |
| BrokerReplays.StalledIsScheduled | packages/broker/src/broker.ts:278-306 | a legal schedule of completions under one minted credential, with clock steps and sweeps between, for each of those runs |
| BrokerHistories.ConsumeBegins | packages/broker/src/broker.ts:223-257 | in every schedule a consume goes on to its proof if and only if it brings the credential minted for an approved grant in time and the granted request; else nothing changes |
| BrokerHistories.UseWasChecked | packages/broker/src/broker.ts:223-269 | every consume of every schedule was such a request when it began, and its proof passed later, by the clock reading of the beginning; only status and time of the grant change |
| BrokerHistories.CompletionBegins | packages/broker/src/broker.ts:278-304 | likewise for a completion under a credential |
| BrokerHistories.FinishWasChecked | packages/broker/src/broker.ts:278-306 | every completion by the agent under a credential was such a request and its proof passed later; it then closes that grant |
| BrokerHistories.CommitWasChecked | packages/broker/src/broker.ts:198-214 | a grant is approved later only on a request that found it proposed and in time and then found its subject token free or its own, with the approver named there |
| BrokerHistories.GrantWasProposed | packages/broker/src/broker.ts:129-173 | in every schedule the terms of a stored grant are those of one proposal, authorised when it was made |
| BrokerHistories.TermsStay | packages/broker/src/store.ts:161-171 | from any point of a schedule on a grant keeps its terms, whatever runs under its lock |
| BrokerSchedules.EvidenceIsFinal | packages/broker/src/broker.ts:369-416 | evidence is written once with the first caller's source and its grant stays revoked or expired |
| BrokerStore.InMemoryBrokerStore.CreateExchangeGrant | packages/broker/src/store.ts:119-145 | an idempotency key that has a grant answers it; a taken subject token refuses; otherwise the three maps change together |
| BrokerStore.InMemoryBrokerStore.ReserveSubjectToken | packages/broker/src/store.ts:173-182 | a token goes to the first grant that asks and stays with it |
| BrokerStore.InMemoryBrokerStore.UpdateDelivery | packages/broker/src/store.ts:219-238 | the first delivery with the id is patched and the copy in the evidence record follows |
| BrokerStore.InMemoryBrokerStore.TakeSnapshot | packages/broker/src/store.ts:67-83 | the snapshot lists every map completely |
| BrokerStore.InMemoryBrokerStore.Restore | packages/broker/src/store.ts:85-117 | clearing and refilling in loops gives the store the snapshot describes |
| StoreModel.SnapshotRoundTrip | packages/broker/src/store.ts:67-117 | restoring a snapshot gives back the store it was taken from, listing order included |
| StoreModel.BackoffIsCappedDoubling | packages/broker/src/broker.ts:418-453 | the delay before a retry doubles with every attempt up to its cap |
| BrokerClass.Broker.Exchange | packages/broker/src/broker.ts:129-196 | the method is its function of the store: checks, decision, creation, audit events and answer, and what a failed signature leaves |
| BrokerClass.Broker.Approve | packages/broker/src/broker.ts:198-221 | likewise for approval with the reservation of the token before the status changes |
| BrokerClass.Broker.Consume | packages/broker/src/broker.ts:223-269 | likewise for consumption with the replay check after all others |
| BrokerClass.Broker.Finalize | packages/broker/src/broker.ts:369-416 | likewise for completing, revoking and expiring, with one attempt for every delivery not done |
| BrokerClass.Broker.CompleteAuthenticated | packages/broker/src/broker.ts:278-306 | likewise for completion by the agent under its credential and proof |
| BrokerClass.Broker.ExpireDue | packages/broker/src/broker.ts:315-326 | the loop over the grants listed at the start is the fold over that list, and stops at a throw |
| BrokerClass.Broker.RetryRevocations | packages/broker/src/broker.ts:332-345 | the nested loops are the fold over grants and their due deliveries |
| BrokerClass.BrokerCoordinator.Recreate | packages/broker/src/runtime.ts:594-673 | persisting, losing the object and loading again gives the same store and the replay map without its dead entries |
| BrokerClass.BrokerCoordinator.ScheduleRetry | packages/broker/src/runtime.ts:696-712 | afterwards the alarm is no later than the due time of any undelivered revocation |
| BrokerRuns.AuditLogGivesStatus | packages/broker/src/broker.ts:185-416 | after any run folding the audit log of a grant, deliveries aside, gives its status |
| BrokerRuns.AuditLogOnlyGrows | packages/broker/src/store.ts:184-192 | the audit log at one point of a run is a prefix of the log at any later one |
| BrokerRuns.EvidenceIffFinal | packages/broker/src/broker.ts:369-416 | evidence exists exactly for revoked and expired grants, exactly if the grant names it, and mirrors the delivery map |
| BrokerRuns.OneEvidencePerGrant | packages/broker/src/broker.ts:308-416 | any mix of completing, revoking and expiring answers with one record: same id, source and timeline |
| BrokerRuns.DeliveredForever | packages/broker/src/broker.ts:418-453 | a delivered revocation never changes again |
| BrokerRuns.RequestFollowsTable | docs/spec/completion-scoped-grants.md:65-73 | one request moves each grant along at most one edge, the row of its trigger and actor if and only if it is neither a revocation of a proposed grant by anyone but the operator nor an expiry ahead of the deadline |
| BrokerRuns.ExpireDueFollowsTable | packages/broker/src/broker.ts:315-326 | what `expireDue` changes always follows the row of the ttl |
| BrokerRuns.ExpireDueLeavesNoneDue | packages/broker/src/broker.ts:315-330 | expiring what is due succeeds, expires exactly the active grants past their time and leaves none due |
| BrokerRuns.RestartsAreInvisible | packages/broker/src/runtime.ts:594-673 | removing every restart from a run changes no answer and no stored record |
| BrokerRuns.AlwaysKeyed | packages/broker/src/store.ts:67-83 | in every run each record sits under its own id and is listed once, which the snapshot relies on |
| BrokerRuns.RecreatedState | packages/broker/src/broker.ts:99-106 | what is saved after a run and read back later is the broker's store and its live replay entries |
| BrokerLaws.ConsumeAnswers | packages/broker/src/broker.ts:223-269 | after any run a consume succeeds if and only if it brings the credential minted for its grant, the grant is approved and in time, the request is the granted one, and the proof is well formed, fresh, signed by the grant's key and not live; it then marks the grant and keeps the `jti` for 300 s, and refused it leaves the records alone |
| BrokerLaws.CompletionAnswers | packages/broker/src/broker.ts:278-306 | likewise for a completion under a credential, which has to be unexpired and sent by `POST` |
| BrokerLaws.GivenOutSays | packages/broker/src/broker.ts:455-471 | every credential a run has given out says what its grant says, which is past its approval |
| BrokerLaws.LiveIffSpentLately | packages/broker/src/crypto.ts:340-357 | with one clock a `jti` is live if and only if a request that used it succeeded less than 300 s ago, restarts or not |
| BrokerOutcomes.ProposalAnswers | packages/broker/src/broker.ts:129-173 | which proposals become a grant, field by field, and which error the others get |
| BrokerOutcomes.ExchangeAnswers | packages/broker/src/broker.ts:129-196 | an exchange answers the grant of its key, refuses a taken subject token, or stores a new grant with its audit events; when a credential is answered |
| BrokerOutcomes.OneGrantPerKey | packages/broker/src/store.ts:119-145 | in every run two exchanges of an agent under one key answer one grant, the second without a credential or a trace |
| BrokerOutcomes.ApprovalAnswers | packages/broker/src/broker.ts:198-221 | which approvals succeed, what they leave, and why the others are refused |
| BrokerOutcomes.ClosingAnswers | packages/broker/src/broker.ts:369-416 | the first closing of a grant sets status, audit event, evidence and one attempt at every target; a later one answers that record and tries what is not delivered; unknown and denied grants are refused |
| BrokerOutcomes.RetryAnswers | packages/broker/src/broker.ts:332-345 | retrying tries exactly the deliveries that are neither done nor waiting, once each |
| BrokerOutcomes.AttemptedIsTried | packages/broker/src/broker.ts:418-453 | an attempt is delivered with the receipt of the relay exactly if it answered one, and else failed until two to sixty seconds later |
| ClaimInterleaving.SnapshotsAreSound | packages/service/src/claim.ts:174-198 | a record held by an operation is never newer than the stored one, and is the stored one if the versions agree |
| ClaimInterleaving.WritesAreLegal | packages/service/src/repository.ts:80-87 | every successful compare-and-set raises the version by one along a legal edge from the true current record, however long ago the clock was read for it |
| ClaimInterleaving.UsedOnceAfterApproval | packages/service/src/claim.ts:154-164 | a claim is used only after exactly one verification and then exactly one approval, and only once |
| ClaimInterleaving.OneTokenPerClaim | packages/service/src/service.ts:793-821 | however many exchanges hold a claim grant, at most one token comes of a claim |
| ClaimInterleaving.LockOutIsUnreachable | packages/service/src/claim.ts:97-110 | a pending claim has no attempt and an unused code, so the branch that denies a claim is never taken |
| ClaimInterleaving.IntervalCountsEarlyPolls | packages/service/src/claim.ts:134-145 | the interval is the initial one plus five seconds for every early poll |
| ClaimInterleaving.PollsAreSpaced | packages/service/src/claim.ts:134-146 | consecutive accepted polls are at least the interval then in force apart, as section 3.5 of RFC 8628 asks |
| ClaimPolling.PollsAreBounded | packages/service/src/claim.ts:121-152 | before its deadline a claim accepts at most the lifetime over the initial interval, rounded up |
| ClaimPolling.PollsBeforeUse | packages/service/src/claim.ts:121-152 | until its grant is used a claim accepts at most one poll more than that, over every interleaving, and none more if each poll checks and writes by one clock reading |
| ClaimPolling.PollBoundsAreReached | packages/service/src/claim.ts:121-152 | for every lifetime and interval a schedule that reaches either bound |
| ClaimPolling.UsedIsPolledForEver | packages/service/src/claim.ts:174-182 | a claim whose grant is used accepts any number of polls |
| ClaimCeremonyModel.PerformIsASchedule | packages/service/src/claim.ts:83-198 | an operation left alone stores what one schedule of the interleaved machine stores, and consumes exactly when that one does |
| ClaimCeremonyModel.NothingAfterDeadline | packages/service/src/claim.ts:174-182 | past its deadline a claim ends expired and every operation fails with the stated error, unless it is approved and used |
| ClaimCeremonyModel.AcceptedPollsAreInTime | packages/service/src/claim.ts:121-152 | with one clock reading, polls of an unused claim are accepted before its deadline only |
| ClaimCeremonyModel.PerformKeepsIndexes | packages/service/src/claim.ts:23-25 | an operation changes its own claim only and never its identity, scopes, hashes or deadline; a used grant stays used |
| ClaimCeremonyModel.VerifyAnswers | packages/service/src/claim.ts:83-111 | a verification succeeds only for a pending claim with an unused code before its deadline; the limiter counts by caller and refuses before the code is looked up |
| ClaimCeremonyClass.ClaimCeremony.Start | packages/service/src/claim.ts:50-81 | the limiter first, then one new pending claim |
| ClaimCeremonyClass.ClaimCeremony.VerifyUserCode | packages/service/src/claim.ts:83-111 | the method is the operation on the owner of the code, refusals and all |
| ClaimCeremonyClass.ClaimCeremony.Decide | packages/service/src/claim.ts:113-119 | likewise for the decision |
| ClaimCeremonyClass.ClaimCeremony.Poll | packages/service/src/claim.ts:121-152 | likewise for a poll |
| ClaimCeremonyClass.ClaimCeremony.ConsumeApprovedClaim | packages/service/src/claim.ts:154-164 | likewise for using the grant |
| ClaimCeremonyClass.ClaimCeremony.Transition | packages/service/src/claim.ts:184-198 | the compare-and-set behind every write, and which error a lost one answers |
| ClaimStateModel.GoodIdIsExact | packages/service/src/repository.ts:175-188 | exactly which claim ids have a key of their own |
| ClaimStateModel.CreateRepresents | packages/service/src/repository.ts:197-219 | writing the five entries keeps record, both indexes, id list, earliest expiry and alarm exact |
| ClaimStateModel.SweptRepresents | packages/service/src/repository.ts:255-290 | deleting the keys of expired claims and rewriting the lists represents exactly the live claims, with the alarm at the earliest |
| ClaimStateModel.MinExpiryIsMinimum | packages/service/src/repository.ts:283-288 | the next expiry is the minimum over the listed claims and is attained |
| ClaimStateModel.LookUpUserHash | packages/service/src/repository.ts:226-229 | the index holds a hash exactly if some stored claim has it, and leads to that claim |
| ClaimStateModel.UnsafeIdSpoils | packages/service/src/repository.ts:209-215 | writing a claim with an unsafe id leaves a storage that represents no set of claims |
| ClaimStateModel.ReplaceRepresentsIff | packages/service/src/repository.ts:250 | replacing a record keeps records and indexes exact, and the alarm exactly if the earliest deadline stays |
| ClaimState.DurableObjectClaimState.CreateClaim | packages/service/src/repository.ts:197-219 | refuses exactly if one of the three keys is taken, which for a safe id means that the id or one of the hashes is in use; otherwise the five entries and the alarm are written |
| ClaimState.DurableObjectClaimState.CompareAndSet | packages/service/src/repository.ts:236-252 | swaps exactly if version, id and hashes agree, whatever the id, and keeps the representation exactly if the earliest deadline stays |
| ClaimState.DurableObjectClaimState.RemoveExpiredClaims | packages/service/src/repository.ts:255-290 | removes exactly the claims with `expiresAt <= now`, counts them, and re-arms or deletes the alarm |
| ClaimState.Conflicts | packages/service/src/repository.ts:197-208 | one of the three keys is taken exactly if the id or a hash is in use |
| ClaimState.Lockstep | packages/service/src/repository.ts:61-87 | for every call the ceremony makes both repositories answer alike and end with the same claims |
| RateLimit.FixedWindowRateLimiter.Take | packages/service/src/rate-limit.ts:9-33 | the in-memory limiter is the anchored step |
| RateLimit.D1FixedWindowRateLimiter.Take | packages/service/src/rate-limit.ts:40-75 | the upsert and its returned count are the aligned step |
| RateLimitModel.LimiterIsFixedWindow | packages/service/src/rate-limit.ts:9-75 | over any run of calls both limiters let a call pass exactly while fewer than the limit passed in its window |
| RateLimitModel.SlidingBound | packages/service/src/rate-limit.ts:9-75 | at most twice the limit passes in any half-open interval of one window length |
| RateLimitModel.AnchoredSlidingBound | packages/service/src/rate-limit.ts:9-33 | one less for the limiter whose windows open with a call |
| RateLimitModel.AlignedBoundIsReached | packages/service/src/rate-limit.ts:40-75 | for every limit and window a run in which twice the limit passes within one window length |
| RateLimitModel.AnchoredBoundIsReached | packages/service/src/rate-limit.ts:9-33 | for every limit and window a run in which one less passes, so both bounds are exact |
| RateLimitModel.KeepsLimitIff | packages/service/src/rate-limit.ts:9-75 | no run exceeds the limit within any window length if and only if the limit is below one, respectively at most one |
| RateLimitModel.NoLimitNoCall | packages/service/src/rate-limit.ts:15-17 | with a limit below one nothing passes and nothing is stored |
| RateLimitModel.RefusalMeansFull | packages/service/src/rate-limit.ts:9-75 | a refusal means the limit has already passed in the current window |
| EventDeliveryModel.ListDueIs | packages/service/src/repository.ts:150-156 | the listing holds distinct due deliveries, and leaves one out only for a full page of earlier ones |
| EventDeliveryModel.RoundIsGood | packages/service/src/service.ts:705-758 | a round never touches a settled delivery and uses up the budget of every one it sends |
| EventDeliveryModel.FiringUsesBudget | packages/service/src/event-delivery-durable-object.ts:62-71 | an alarm that fires at or after its time lowers the sum of the attempts left |
| EventDeliveryModel.RetryLoopEnds | packages/service/src/event-delivery-durable-object.ts:55-71 | after at most five firings per delivery nothing is pending and the alarm is gone |
| EventDeliveryModel.AtMostFiveSends | packages/service/src/service.ts:737-754 | nothing is sent more than five times |
| EventDeliveryModel.AttemptedOk | packages/service/src/service.ts:737-754 | an accepted send is delivered with its receipt, the fifth refusal and missing records fail a delivery, and any other refusal is retried after two to sixteen seconds, doubling, so the cap of 300 never binds |
| EventDeliveryLaws.RecordFollowsAnswers | packages/service/src/service.ts:705-758 | after any firings the record of a delivery is the one its answers make: delivered by its last answer, failed by five refusals or missing records, else waiting from its last refusal |
| EventDeliveryLaws.DeliveredIffAccepted | packages/service/src/service.ts:734-754 | a delivery is delivered if and only if some send of it was accepted, and has that answer's receipt |
| EventDeliveryObject.EventDeliveryDurableObject.DeliverDueEvents | packages/service/src/service.ts:705-758 | the loop over the listed deliveries is one round |
| EventDeliveryObject.EventDeliveryDurableObject.Run | packages/service/src/event-delivery-durable-object.ts:62-71 | afterwards the alarm is at the earliest pending delivery, or deleted |
| Scopes.SplitIsClean | packages/service/src/encoding.ts:45-50 | whatever the string, what is read from it is a list of distinct words |
| Scopes.RoundTripIffClean | packages/service/src/encoding.ts:45-50 | a scope list survives being joined and split exactly if it holds distinct words |
| Scopes.OwnScopesPassIffClean | packages/service/src/service.ts:86-88 | the comparison made in validation passes for a token's own scopes exactly if they are distinct words |
| Scopes.SameScopesIsEquality | packages/service/src/service.ts:86-88 | equal length and containment one way are equality up to order when the left list has no repetition |
| Scopes.SameScopesIsEqualityIff | packages/service/src/service.ts:86-88 | the comparison is equality up to order with every right list if and only if the left list repeats nothing |
| Scopes.SameScopesIsOneSided | packages/service/src/service.ts:86-88 | with a repetition the comparison accepts lists that differ |
| ServiceModel.CreatedIsOk | packages/service/src/service.ts:193-236 | every protected resource of a created service is in normal form, so looking it up finds it again |
| Service.AgentAuthService.RegisterIdentity | packages/service/src/service.ts:344-468 | the method is its function: checks in order, three identity types, limiter and replay effects kept on failure |
| Service.AgentAuthService.StartClaim | packages/service/src/service.ts:480-496 | likewise for starting a claim |
| Service.AgentAuthService.PollClaim | packages/service/src/service.ts:506-527 | a claim grant is signed exactly for an accepted poll of an approved claim |
| Service.AgentAuthService.IdentityForExchange | packages/service/src/service.ts:793-870 | likewise for both grant types, with the claim consumed or the assertion remembered before later checks fail |
| Service.AgentAuthService.ExchangeToken | packages/service/src/service.ts:551-601 | the record is stored before the token for it is signed; every refusal leaves no token |
| Service.AgentAuthService.ValidateAccessToken | packages/service/src/service.ts:607-640 | the checks against the signed claims and the stored record, in order |
| Service.AgentAuthService.Revoke | packages/service/src/service.ts:642-677 | revocation, event and one delivery per subscriber, or nothing at all for a token that does not verify |
| ServiceRuns.RegisterFacts | packages/service/src/service.ts:344-468 | a registration adds an identity within the supported scopes at a protected resource, or none |
| ServiceRuns.ExchangeFacts | packages/service/src/service.ts:551-601 | an exchange adds exactly the record its token stands for, or nothing |
| ServiceRuns.StepKeepsInv | packages/service/src/service.ts:344-895 | every request keeps the invariant; identities and tokens stay, replay entries only move to later expiries |
| ServiceTheorems.DelegationNarrows | packages/service/src/service.ts:551-601 | after any run a token's scopes are within its claim's or assertion's, those within its identity's, those within the supported ones; its resource is its identity's and protected |
| ServiceTheorems.OneTokenFromAClaim | packages/service/src/service.ts:793-821 | two tokens are never made from one claim, and a token's grant is what its claim was made for |
| ServiceTheorems.UsedClaimPaysNothing | packages/service/src/service.ts:793-821 | a used claim pays no further token, whatever grant for it is presented |
| ServiceExchange.ExchangeUsesClaimIff | packages/service/src/service.ts:551-601 | for every exchange of a claim grant in every run: which claim it uses up, when it answers a token, and so when it is refused and uses the claim up all the same |
| ServiceExchange.AskingTooMuchUsesTheClaim | packages/service/src/service.ts:551-556 | in every usable service a run in which asking for too much is refused, uses the claim up, and no later exchange is paid for it |
| ServiceExchange.TokensAlwaysGoodIff | packages/service/src/service.ts:570-640 | where authenticators answer distinct words and a subject, every live token of every run validates if and only if the supported scopes are distinct words |
| ServiceExchange.CreatedWithAnyScopes | packages/service/src/service.ts:193-236 | `create` accepts any non-empty scope list, and the minting run of that service ends with a token that is never accepted if and only if the list is not one of distinct words |
| ServiceExchange.RepeatedScopeFails | packages/service/src/service.ts:193-236 | such a service with the scopes `read`, `read` |
| ServiceTheorems.ValidIffLive | packages/service/src/service.ts:607-640 | exactly when the access token of a record validates at a resource |
| ServiceTheorems.OnlyOwnTokensValidate | packages/service/src/service.ts:607-640 | nothing but the access token of a live record validates: no claim grant, no identity assertion, no security event token, no altered token |
| ServiceTheorems.LiveTokensValidate | packages/service/src/service.ts:570-640 | with scopes and subjects that can be written down, every token validates from issue to expiry exactly as long as it is not revoked |
| ServiceTheorems.RevokeWorksIff | packages/service/src/service.ts:642-677 | exactly when presenting a token revokes it, and that everyone subscribed then is to be told |
| ServiceTheorems.RevokedForever | packages/service/src/service.ts:625-639 | after a revocation nothing presented under the token's id validates at any later point of the run |
| ServiceTheorems.OneEventPerToken | packages/service/src/repository.ts:126-133 | a token is revoked exactly if there is an event for it, and then there is one, with its subject |
| ServiceTheorems.OneDeliveryEach | packages/service/src/service.ts:664-676 | an event has exactly one delivery for each subscriber it is for, and no others |
| ServiceTheorems.AssertionsAreUsedOnce | packages/service/src/jose.ts:269-277 | of two accepted assertions of one issuer and `jti` the second expires later, so no assertion is accepted twice by either endpoint |
| ServiceLaws.BearerExchangeAnswers | packages/service/src/service.ts:822-870 | after any run an assertion is paid for if and only if it is good, names an active identity of its own subject and of the client presenting it, and neither delegates nor requests more than that has; the token is that identity's, a good assertion is used up in any case, and a refusal leaves no token |
| ServiceLaws.ClaimTokenSays | packages/service/src/service.ts:551-601 | the token of a claim is for its identity's subject and resource and for the scopes requested of the claim's |
| ServiceLaws.LiveIffAccepted | packages/service/src/jose.ts:269-277 | in every run an assertion counts as replayed if and only if one accepted under its issuer and `jti` has not run out |
| ServiceLaws.ServiceRegistrationAnswers | packages/service/src/service.ts:380-416 | which registrations with a service token succeed, and with which identity |
| ServiceLaws.AssertionRegistrationAnswers | packages/service/src/service.ts:417-459 | likewise with an assertion, which is used up in any case |
| ServiceLaws.PollAnswers | packages/service/src/service.ts:506-527 | what a poll answers and leaves, and that a grant is signed exactly for an accepted poll of an approved claim |
| ServiceLaws.GrantFitsUntilDeadline | packages/service/src/service.ts:511-526 | the grant signed for a claim is good until the claim's deadline, and names claim and identity |
| ServiceLaws.DecisionAnswers | packages/service/src/claim.ts:113-119 | a decision is for a verified claim before its deadline, and is the one that was made |
| ServiceLaws.SignedAssertionSays | packages/service/src/service.ts:529-549 | for whom the service signs an assertion, and what it says |
| ServiceLaws.RevocationSays | packages/service/src/service.ts:642-677 | a revocation records the event of its token and moment and a first delivery for every subscriber, due at once |
| ServiceLaws.SecurityEventsSay | packages/service/src/service.ts:954-971 | what a subscriber is sent names the subject of a revoked token, under the id of a due delivery, for five minutes |
| ServiceLaws.CreationAnswers | packages/service/src/service.ts:193-236 | which options make a service, and which resources it protects |
| ServiceLimits.BucketsAreMeters | packages/service/src/claim.ts:50-92 | in every run the bucket of a caller is made of his own calls of that kind alone, whatever codes they enter and whoever else calls |
| ServiceLimits.AtMostLimitPerWindow | packages/service/src/rate-limit.ts:9-33 | of a caller whose clock does not go back a call passes if and only if fewer than the limit passed in the open window, so at most the limit passes in one |
| ServiceLimits.VerificationAnswers | packages/service/src/claim.ts:83-111 | after any run what entering a code answers and leaves: refused by the caller's own meter without a look at it, verified for a pending claim in time, and one answer for all else |
| ServiceLimits.StartingAnswers | packages/service/src/service.ts:480-496 | after any run who may start a claim, for which scopes and resource, how many a caller may start, and the claim that is made |
| ServiceLimits.AnonymousAnswers | packages/service/src/service.ts:345-380 | after any run which anonymous registrations succeed, how many a caller gets, and the identity that is made |
| StableSort.SortIs | packages/cli/src/model.ts:52-68 | sorting permutes the list into order |
| StableSort.SortStable | packages/cli/src/model.ts:52-68 | elements with equal keys keep their order |
| Findings.DeduplicateFindings | packages/cli/src/model.ts:70-109 | the loop over the map is the fold the lemmas are about |
| Findings.SummarizeFindings | packages/cli/src/model.ts:111-125 | the three counts are the numbers of findings of each severity |
| Findings.DeduplicateIs | packages/cli/src/model.ts:70-109 | the merged list has one entry for every key, namely its group merged, strictly in order, and nothing else |
| Findings.MergeAllIs | packages/cli/src/model.ts:84-105 | a group becomes its first finding with all ids of the group ascending; alone it keeps its id, else it gets the least |
| Findings.OutputIsStrict | packages/cli/src/model.ts:70-109 | no two merged findings compare equal or have the same key |
| Findings.Idempotent | packages/cli/src/model.ts:70-109 | merging a second time changes nothing |
| Findings.RuleIdsConserved | packages/cli/src/model.ts:84-105 | an id is a source id of some merged finding exactly if it was an id of some finding |
| Findings.SeveritiesKept | packages/cli/src/model.ts:70-109 | a severity occurs after merging exactly if it occurred before |
| Findings.SummaryAgrees | packages/cli/src/model.ts:111-125 | the summary has errors, warnings or infos exactly if the unmerged list had |
| FindingsOrder.DeduplicateIgnoresOrderIff | packages/cli/src/model.ts:70-109 | merging gives one result for every order of its input exactly if the leaders of each group name one location |
| FindingsOrder.CanonicalIgnoresOrderIff | packages/cli/src/reporter.ts:83-133 | the canonical findings are the same for every order exactly if findings that compare equal are written the same |
| FindingsKeys.LocationKeyInjective | packages/cli/src/model.ts:127-140 | the joined key determines a location whose texts have no separator |
| FindingsKeys.JoinInjective | packages/cli/src/model.ts:142-147 | the joined ids determine the list when none is empty or has a separator |
| FindingsKeys.OrderDoesNotMatter | packages/cli/src/model.ts:52-172 | without separators and without empty source ids neither result depends on the order of the findings |
| FindingsKeys.EmptySourceIdConfuses | packages/cli/src/model.ts:142-147 | for every finding, an empty list of source ids and a list of one empty id compare equal but are written differently |
| FindingsKeys.SeparatorsConfuse | packages/cli/src/model.ts:127-140 | two different locations with one key, for which both results depend on the order |
| FindingsLaws.SortedByImportance | packages/cli/src/model.ts:52-68 | sorting permutes, and nothing later in the list should have come first: by severity, rule id, location, message, help, reference and source ids, each by UTF-16 unit |
| FindingsLaws.MergedByImportance | packages/cli/src/model.ts:70-109 | in the merged list everything strictly precedes what follows it |
| FindingsLaws.CanonicalByImportance | packages/cli/src/reporter.ts:83-88 | and so it is in the canonical report, which has as many findings |
| FindingsLaws.ErrorsComeFirst | packages/cli/src/model.ts:46-57 | in each of the three lists errors come before warnings and those before infos |
| FindingsLaws.LocationKeyOrder | packages/cli/src/model.ts:127-140 | locations without separators are compared by document, section, line as written and path, what is absent first |
| FindingsLaws.SourceIdsOrder | packages/cli/src/model.ts:142-147 | source ids are compared as the ascending lists they are written as |
| FindingsLaws.MergedIff | packages/cli/src/model.ts:73-82 | findings without separators are merged if and only if severity, message, location, help and reference agree |
| FindingsLaws.IdsAre | packages/cli/src/model.ts:84-105 | the ids of a finding are its rule id and its source ids |
| FindingsLaws.WrittenSays | packages/cli/src/reporter.ts:106-133 | a finding is written with everything it says, its source ids each once and ascending |
| FindingsLaws.CanonicalSays | packages/cli/src/reporter.ts:83-88 | the canonical report writes every finding and nothing else |

## Left out

- Overlapping deliveries: `deliver` runs outside the lock with a copied record, so attempts and statuses of deliveries are stated for requests one after the other only.
- Overlapping coordinator requests around `resetBroker`, which the code does not serialise; restarts lie between requests.
- Clock readings within a sequential request of the broker or the service: they are one value. The interleaved machines read a moving clock at every step, and the ceremony class takes each reading apart.
- Service requests one after the other: only the ceremony, whose records are written by compare-and-set, is interleaved; tokens and events are safe because `revokeToken` and `createEvent` are single steps.
- ClaimState.Lockstep: the sweep of expired claims is a step of the durable object only, as the in-memory store has none.
- RateLimit.D1FixedWindowRateLimiter.Take: requires a window other than zero, because the source divides by it.
- ClaimState.DurableObjectClaimState.CreateClaim: requires a storage that represents a set of claims, so nothing is said of calls after an unsafe id has spoilt it.
- BrokerRules.ProposeNarrows: the policy engine is an input; its decision is any of the three.
- Iteration order of maps, except for the grants and deliveries whose order shows; times, intervals and line numbers that are not integers.
- Cryptography, JWT parsing, hashing, base64 and URL parsing: signatures are opaque, codes have distinct hashes, and normalising a resource twice changes nothing.
- Registration attempts kept for audit, metadata documents, `subscribe`'s URL checks and `receiveSecurityEvent`, which add only easy members.
- D1 adapters and migrations other than the rate-limit upsert; HTTP routing, workers, clients and middleware.
- The command line, fetchers, validators, the human reporter and release scripts.
- `constantTimeEqual`, whose point is its timing.
