# Verification of the multi-tenant backend kit

This project models the protocols and state machines of the B2B SaaS starter kit and proves properties of them that
hold over whole runs and span many use cases. Dafny 4.11; `dafny verify dfyconfig.toml` checks everything.

What is modelled, one module per component:

- **Outbox** (`EventBus`, `Outbox`, `OutboxWorker`, `DomainEvents`, `UnitOfWork`): events become rows with the business
  transaction, relays claim them in batches, workers dispatch them, a maintenance job reclaims stuck ones. `Outbox` is
  the concurrent step system, one SQL statement or transaction per step, with crashes at every point, workers that act on
  rows they read earlier, and a queue that delivers any enqueued job any number of times. `OutboxWorker` has the relay,
  the event processor and the table as classes with the loops of the code.
- **Idempotency keys** (`Idempotency`, `IdempotencyInterceptor`): claim, handler and stored response in one transaction;
  transactions interleave, wait on the unique index, time out and abort.
- **Refresh-token families** (`RefreshSessions`, `Credentials`, `Authentication`): the pure step system of login, rotation,
  reuse detection, logout, password reset and change and purges; what each of them comes to and which password works; and
  the use cases and repository that carry it out in place.
- **Tenancy, roles, API keys and the permission cache** (`Access`, `AccessUseCases`, `AccessInvariants`, `AccessProofs`,
  `AccessTheorems`, `AccessGuards`, `AccessOutcomes`, `Entities`, `AccessService`, `UseCases`, `ApiKeyToken`): every use
  case is a decision followed by one committed change with its cache invalidations; the invariant is proved change by
  change; who may do what, and what each use case comes to, is stated without reference to how it decides; the classes
  follow the code statement by statement and are proved to do exactly what the decision and the change say, rollback
  included.
- **Configuration** (`Config`, `ConfigStore`, `ConfigOverlay`, `ConfigRun`, `ConfigOrder`,
  `ConfigFailure`, `EnvOverlay`): the deep merge on documents and on JavaScript objects with their prototypes; the overlay
  of environment values as writes in place into a store of objects that may share and contain each other,
  `Object.prototype` among them.
- **Rate limiter and lease lock** (`RateLimit`, `Lock`), **HTTP client** (`HttpClient`), **object-store keys**
  (`ObjectKey`) and the **purge chains** (`Purge`), with `Users`, `Text` and `Wrappers` shared between them.

Assumptions, stated where they are used: generated ids and tokens are fresh, the clock does not run backwards, digests are
injective, a new tenant id is mentioned nowhere (not even in a cache key, since `CreateTenant` invalidates nothing), and
API-key prefixes are unique because the database has a unique constraint on them (a clash is the error `PrefixTaken`).
Files named here by path are those of the repository.

What the code does where its names or documentation suggest otherwise; the model follows the code:

- The `GET` and `HEAD` triggers of an HTTP retry policy are never consulted (`HttpClient.MethodTriggersAreIgnored`).
- The rate limiter allows at most `2 * limit - 1` calls in any interval of window length, and some call sequence reaches
  that number (`RateLimit.SlidingBound`, `RateLimit.SlidingBoundIsTight`).
- A JSON body that does not parse surfaces as a network error, and is retried as one
  (`HttpClient.UnparsableIsNetworkError`, `HttpClient.UnparsableIsRetried`).
- Deep merging is not associative when a scalar meets mappings on both sides (`Config.NotAssociative`); the exact condition
  is `Config.AssociativeIff`. A source key `__proto__` that the target does not own is lost or becomes a prototype
  (`Config.BareProtoGoesAstray`); the laws of merging are stated with the exact condition on such keys.
- The environment overlay writes in place. Where a YAML alias makes two paths lead to one mapping, or a path goes through
  `__proto__`, other paths change as well (`EnvOverlay.SharingBreaksOverlays`, `EnvOverlay.PrototypeBreaksOverlays`);
  `EnvOverlay.OverlayIff` says for which targets and paths an overlay does what its keys say,
  `EnvOverlay.OverlaySucceedsIff` when it succeeds at all, and `ConfigOrder.OrderIrrelevantIff` when the order matters.
- The idempotency fingerprint covers method, route template and body, so one key and one body sent to two resources of the
  same route count as one request (`IdempotencyInterceptor.ParametersAreIgnored`).
- Redis rounds a time to live to the nearest second, so `Retry-After` can be short by less than half a second
  (`RateLimit.RedisRetryAfterIff`, `RateLimit.RedisRetryAfterFallsShort`).

## Model

| member | source | states |
|---|---|---|
| `EventBus.InProcessEventBus.Register` | packages/platform/src/events/in-process-event-bus.ts:13-18 | A handler goes behind the earlier handlers of its type and before the catch-all ones; other types are unaffected |
| `EventBus.InProcessEventBus.RegisterAll` | packages/platform/src/events/in-process-event-bus.ts:20-22 | A catch-all handler goes last for every event type |
| `EventBus.InProcessEventBus.Dispatch` | packages/platform/src/events/in-process-event-bus.ts:24-32 | When no handler throws, the calls are those of the first event to each of its handlers in order, then those of the next event, and no others; otherwise they end right before the first handler that throws |
| `Outbox.InsertRowsAddsExactly` | packages/infrastructure/postgres/src/kernel/outbox/postgres-event-publisher.ts:26-40 | Saving drafts adds exactly their ids, each as a pending row with attempt count 0, and changes no other row |
| `Outbox.StepKeepsInvariant` | packages/infrastructure/postgres/src/kernel/outbox/outbox-relay.ts:23-121 | Every statement of relays, workers and the maintenance job, in any interleaving and with crashes, keeps the whole invariant |
| `Outbox.RunKeepsInvariant` | packages/infrastructure/postgres/src/kernel/outbox/outbox-relay.ts:23-121 | The invariant holds after every feasible run |
| `Outbox.OutboxSafety` | packages/infrastructure/postgres/src/kernel/outbox/outbox-relay.ts:39-121 | In every run: claims minus reclaims of a row is 0 exactly while it is pending and else 1; at most one terminal statement took effect; attempt count is 1 exactly when failed; processed only after some delivery ran all handlers of its event in order |
| `Outbox.RowsNeverLost` | packages/infrastructure/postgres/src/kernel/outbox/outbox-relay.ts:39-121 | From any reachable state on no row disappears or changes its event, and processed and failed rows never change |
| `Outbox.OutcomeNeedsProcessing` | packages/infrastructure/postgres/src/kernel/outbox/outbox-relay.ts:39-61 | A late complete or fail takes effect exactly when the row is processing; one that meets a reclaimed pending row changes nothing |
| `Outbox.ReclaimBetweenClaims` | packages/infrastructure/postgres/src/kernel/outbox/outbox-relay.ts:63-121 | Between any two claims of one row in a run there is a reclaim of that row |
| `Outbox.ClaimIsNotStale` | packages/infrastructure/postgres/src/kernel/outbox/outbox-relay.ts:110-118 | Right after a claim none of its rows is stale for any cut-off up to the present, so no reclaim can take it |
| `Outbox.ClaimLastsItsTime` | packages/infrastructure/postgres/src/kernel/outbox/outbox-relay.ts:63-121 | In every run more than the waiting time lies between a claim of a row and a reclaim of it with a cut-off that long ago |
| `Outbox.RowsTellTheirTimes` | packages/infrastructure/postgres/src/kernel/outbox/outbox-relay.ts:39-121 | In every run a row carries the times of its draft and of the statement that changed it last, in that order, and a processed one that time as the time of processing |
| `Outbox.DeliveredWhileClaimed` | packages/composition/src/worker/outbox/outbox-event-processor.service.ts:38-46 | In every run a delivery starts only while its row is claimed and has no outcome |
| `Outbox.GivesUpOnLastAttempt` | packages/composition/src/worker/outbox/outbox-event-processor.service.ts:48-60 | In every run a row is given up only by a delivery that was the last attempt the queue allowed |
| `Outbox.CatchOutcome` | packages/composition/src/worker/outbox/outbox-event-processor.service.ts:48-60 | An exception fails a processing row for good exactly on the last attempt, and otherwise leaves the table as it is |
| `Outbox.LostAcknowledgement` | packages/composition/src/worker/outbox/outbox-event-processor.service.ts:49-60 | A completion that is stored but whose acknowledgement is lost ends in the catch block, and even on the last attempt the row stays processed |
| `Outbox.OnlyCommitInserts` | packages/infrastructure/postgres/src/kernel/outbox/postgres-event-publisher.ts:20-41 | Only a commit adds rows, and it adds exactly the drafts of its transaction, all pending |
| `Outbox.RollbackAbandons` | packages/infrastructure/postgres/src/kernel/persistence/unit-of-work.ts:26-30 | Rolling back leaves the drafts of the transaction in no table and no other transaction |
| `Outbox.AbandonedNeverAppears` | packages/infrastructure/postgres/src/kernel/persistence/unit-of-work.ts:26-30 | An event whose transaction rolled back never becomes a row in any later run |
| `OutboxWorker.SelectOrdered` | packages/infrastructure/postgres/src/kernel/outbox/outbox-relay.ts:93-98 | ORDER BY ... LIMIT returns the smallest keys, ascending, without repetition, and all of them when fewer than the limit |
| `OutboxWorker.BatchesAreSteps` | packages/infrastructure/postgres/src/kernel/outbox/outbox-relay.ts:63-121 | What the claim and reclaim queries select is always a claim or reclaim step of the concurrent protocol |
| `OutboxWorker.OutboxTable.ClaimBatch` | packages/infrastructure/postgres/src/kernel/outbox/outbox-relay.ts:23-33 | Claims the oldest pending rows up to the batch size; exactly those become processing, stamped with the time of the claim |
| `OutboxWorker.OutboxTable.Complete` | packages/infrastructure/postgres/src/kernel/outbox/outbox-relay.ts:39-48 | Marks the row processed with its time only when it is processing |
| `OutboxWorker.OutboxTable.Fail` | packages/infrastructure/postgres/src/kernel/outbox/outbox-relay.ts:50-61 | Marks the row failed and counts the attempt only when it is processing |
| `OutboxWorker.OutboxTable.ReclaimStaleProcessing` | packages/infrastructure/postgres/src/kernel/outbox/outbox-relay.ts:63-87 | Resets the longest-waiting stale processing rows, up to the limit, and returns their number |
| `OutboxWorker.ReclaimCounts` | packages/infrastructure/postgres/src/kernel/outbox/outbox-relay.ts:63-87 | One reclaim resets exactly min(limit, stale) rows, so a short batch leaves nothing stale |
| `OutboxWorker.OutboxRelayService.Drain` | packages/composition/src/worker/outbox/outbox-relay.service.ts:61-79 | With no concurrent writer the drain enqueues every pending row exactly once in created_at order and leaves none pending |
| `OutboxWorker.ReclaimChain` | packages/composition/src/worker/maintenance/maintenance-processor.service.ts:50-77 | Re-enqueuing on a full batch, with a new cut-off each time, ends after total/limit + 1 jobs and resets exactly the rows stale at the last cut-off, each at the time of one of the jobs; no other row changes |
| `OutboxWorker.OutboxEventProcessor.Process` | packages/composition/src/worker/outbox/outbox-event-processor.service.ts:38-61 | Nothing unless the row is processing; then each handler of the event has been called with it, in order, up to the first one that throws; success completes, an error on the last attempt fails, any earlier error leaves the row for redelivery |
| `OutboxWorker.DeliveryCanFinish` | packages/composition/src/worker/outbox/outbox-event-processor.service.ts:38-61 | From any point of a delivery some schedule finishes it with the effect of one complete |
| `OutboxWorker.ClaimedRowCanBeProcessed` | packages/composition/src/worker/outbox/outbox-event-processor.service.ts:38-61 | A claimed row with a queued job can always still become processed, however many workers crashed before |
| `OutboxWorker.PendingRowCanBeProcessed` | packages/composition/src/worker/outbox/outbox-relay.service.ts:61-79 | A pending row can always be claimed, enqueued and processed by a free relay and worker, and the time of processing is stored |
| `DomainEvents.AggregateRoot.PullEvents` | packages/domain/src/shared-kernel/aggregate-root.ts:30-36 | Returns the recorded events in order and empties the buffer |
| `DomainEvents.PostgresEventPublisher.Publish` | packages/infrastructure/postgres/src/kernel/outbox/postgres-event-publisher.ts:20-41 | No events: nothing. Outside a transaction: an error. Otherwise one draft per event, in order, appended to the ambient transaction |
| `DomainEvents.DomainEventCollector.Collect` | packages/application/src/shared/domain-events/domain-event-collector.ts:13-17 | Moves each buffered event exactly once, in argument order, an aggregate passed twice contributing once; all buffers end empty |
| `DomainEvents.DistinctAreJoined` | packages/application/src/shared/domain-events/domain-event-collector.ts:13-17 | What is collected from different aggregates is their buffers, one after the other |
| `DomainEvents.RepeatedAddsNothing` | packages/application/src/shared/domain-events/domain-event-collector.ts:13-17 | An aggregate passed again contributes nothing |
| `DomainEvents.DomainEventCollector.Publish` | packages/application/src/shared/domain-events/domain-event-collector.ts:19-23 | Publishes the collected events in order, and does not need a transaction when there are none |
| `UnitOfWork.NestedWorkJoins` | packages/infrastructure/postgres/src/kernel/persistence/unit-of-work.ts:19-24 | Inside a transaction every write, nested runs and caught errors included, goes to that one transaction and nothing commits |
| `UnitOfWork.TopLevelRunIsAtomic` | packages/infrastructure/postgres/src/kernel/persistence/unit-of-work.ts:26-30 | A top-level run commits all its writes or none, whatever runs it nests and whichever of their errors it catches |
| `UnitOfWork.TypeormUnitOfWork.Begin` | packages/infrastructure/postgres/src/kernel/persistence/unit-of-work.ts:19-31 | run joins the ambient transaction or opens one, committing on return and rolling back on an error |
| `Idempotency.RunKeepsInvariant` | packages/infrastructure/postgres/src/kernel/idempotency/postgres-idempotency.store.ts:30-102 | Over all interleavings of transactions: committed keys are completed with a response, an open claim is the only one of its key, effects belong to the owner of their key |
| `Idempotency.EffectsAtMostOnce` | packages/nest-http/src/http/interceptors/idempotency.interceptor.ts:71-99 | In every run at most one transaction has committed effects under a key: the one that owns its completed row |
| `Idempotency.AnswersAgree` | packages/nest-http/src/http/interceptors/idempotency.interceptor.ts:71-99 | In every run all answers given for a key, first or replayed, are the stored response and had the same fingerprint |
| `Idempotency.AnswersAreTheHandlers` | packages/infrastructure/postgres/src/kernel/idempotency/postgres-idempotency.store.ts:63-102 | In every run every answer given for a key has the status and the text that the handler of the transaction owning the key had returned before, null for an undefined body |
| `Idempotency.CommitPublishesHandler` | packages/nest-http/src/http/interceptors/idempotency.interceptor.ts:88-99 | A commit publishes exactly its handler's writes, in order, under a key that had none |
| `Idempotency.CommittedKeyIsFrozen` | packages/nest-http/src/http/interceptors/idempotency.interceptor.ts:74-88 | Once a key is committed its row and effects never change and no handler starts under it again |
| `Idempotency.ClaimOutcome` | packages/infrastructure/postgres/src/kernel/idempotency/postgres-idempotency.store.ts:78-102 | A claim that meets a committed row replays on an equal fingerprint, reports the reused key otherwise, and writes nothing |
| `Idempotency.RefusedBecause` | packages/infrastructure/postgres/src/kernel/idempotency/postgres-idempotency.store.ts:30-61 | In every run a request is told of one in progress only while another transaction holds its key uncommitted, and of a reused key only when the key is stored with another fingerprint |
| `Idempotency.WaiterReplays` | packages/infrastructure/postgres/src/kernel/idempotency/postgres-idempotency.store.ts:30-61 | A duplicate waiting on the unique index gets the first request’s response once that commits |
| `Idempotency.AbortReleasesKey` | packages/infrastructure/postgres/src/kernel/idempotency/postgres-idempotency.store.ts:30-61 | When the first request fails its claim vanishes and the waiting duplicate may run the handler |
| `IdempotencyInterceptor.ScopesAreDisjoint` | packages/nest-http/src/http/interceptors/idempotency.interceptor.ts:112-124 | Two callers share a scope only as the same tenant, or as the same actor outside any tenant |
| `IdempotencyInterceptor.PathIsRouteOrUrl` | packages/nest-http/src/http/interceptors/idempotency.interceptor.ts:126-134 | The path of a request is the template of its route, else its URL up to the query, and never empty |
| `IdempotencyInterceptor.RefusedBeforeClaim` | packages/nest-http/src/http/interceptors/idempotency.interceptor.ts:58-64 | A request is refused without effect for its key exactly when the header carries no value of 1 to 255 characters free of control characters, and for its scope exactly when it then has neither tenant nor actor |
| `IdempotencyInterceptor.ServedByKey` | packages/nest-http/src/http/interceptors/idempotency.interceptor.ts:64-99 | A free key runs the handler and stores its writes and response together, or nothing when it fails; a taken one is answered from its row and changes nothing |
| `IdempotencyInterceptor.RetryReplays` | packages/nest-http/src/http/interceptors/idempotency.interceptor.ts:74-78 | Sending a handled request again changes nothing and replays the text the handler returned, null for an undefined one, with the status of the route, else of the reply, else 200 |
| `IdempotencyInterceptor.SameFingerprintIff` | packages/nest-http/src/http/interceptors/idempotency-fingerprint.ts:7-19 | Under one method and route two requests have the same fingerprint exactly when their bodies print the same, a missing body as null |
| `IdempotencyInterceptor.SecondRequest` | packages/nest-http/src/http/interceptors/idempotency.interceptor.ts:64-86 | After a handled request another one shares key and fingerprint exactly when scope, key, method, route and body text agree; then the text and status of the first are replayed, and with another body under the same key it is refused; no handler runs |
| `IdempotencyInterceptor.ParametersAreIgnored` | packages/nest-http/src/http/interceptors/idempotency.interceptor.ts:64-78 | On a matched route the URL takes no part: the same key and body for another resource replays the text and status of the first response |
| `IdempotencyInterceptor.ServeIsASchedule` | packages/nest-http/src/http/interceptors/idempotency.interceptor.ts:71-99 | While nobody else holds the request’s own key, what the interceptor does to rows and effects is what one schedule of the concurrent protocol does, error and replay paths included |
| `IdempotencyInterceptor.Route.Claim` | packages/infrastructure/postgres/src/kernel/idempotency/postgres-idempotency.store.ts:30-61 | Inserts the claim row unless the unique key is taken, else decides on the existing row |
| `IdempotencyInterceptor.Route.Complete` | packages/infrastructure/postgres/src/kernel/idempotency/postgres-idempotency.store.ts:63-76 | Stores the status and the text of the body, null for an undefined one, on the claim row; an error without one |
| `IdempotencyInterceptor.Route.HandleMarkedRoute` | packages/nest-http/src/http/interceptors/idempotency.interceptor.ts:55-100 | Header and scope checks, claim, handler, complete: the whole outcome and the whole new state on every path |
| `RefreshSessions.RunKeepsInvariant` | packages/application/src/identity/rotate-refresh/rotate-refresh.use-case.ts:29-70 | Login, rotate, logout, reset, change, reset requests and purges keep tokens issued, hashes unique, one user and one unrevoked session per family |
| `RefreshSessions.OneLiveSessionPerFamily` | packages/application/src/identity/rotate-refresh/rotate-refresh.use-case.ts:44-62 | In every reachable state a family has at most one unrevoked session |
| `RefreshSessions.RevokedAtIsFinal` | packages/application/src/testing/in-memory-refresh-session.repository.ts:29-47 | revokedAt is never overwritten and nothing else of a session ever changes, in any run |
| `RefreshSessions.DeadFamilyStaysDead` | packages/application/src/identity/rotate-refresh/rotate-refresh.use-case.ts:29-70 | A family with no unrevoked session never gets one again |
| `RefreshSessions.NewSessionsHaveAnOrigin` | packages/application/src/identity/rotate-refresh/rotate-refresh.use-case.ts:51-60 | A new session comes from a login in a new family or from rotating an unrevoked session of its family |
| `RefreshSessions.RotateSucceedsIff` | packages/application/src/identity/rotate-refresh/rotate-refresh.use-case.ts:30-63 | Rotation succeeds exactly when a session with the token’s hash is unrevoked and expires later than now |
| `RefreshSessions.ReuseRevokesFamily` | packages/application/src/identity/rotate-refresh/rotate-refresh.use-case.ts:38-67 | Presenting a revoked token ends in an error, yet every unrevoked session of its family is revoked now, and nothing else changes, in the committed state |
| `RefreshSessions.RefusedRotationChangesNothing` | packages/application/src/identity/rotate-refresh/rotate-refresh.use-case.ts:34-46 | Unknown and expired tokens leave the store unchanged |
| `RefreshSessions.RotationOutcomes` | packages/application/src/identity/rotate-refresh/rotate-refresh.use-case.ts:29-70 | In every reachable state the presented token decides: a revoked one gives an error and a dead family; an active one is revoked and gets a successor of the same user and family for fourteen days; anything else is an error and no change |
| `RefreshSessions.NoRotationAfterReuse` | packages/application/src/identity/rotate-refresh/rotate-refresh.use-case.ts:38-46 | After reuse detection no token of that family ever rotates again, in any later run |
| `RefreshSessions.LogoutRevokesFamily` | packages/application/src/identity/logout/logout.use-case.ts:23-37 | Logout with a stored token revokes exactly the unrevoked sessions of its family, now |
| `RefreshSessions.LogoutWithoutSession` | packages/application/src/identity/logout/logout.use-case.ts:23-37 | Logout without a token, with an empty one or with an unknown one does nothing and does not tell |
| `RefreshSessions.PasswordChangeSignsOut` | packages/application/src/identity/reset-password/reset-password.use-case.ts:57-62 | A reset or a change of an existing password leaves its user no unrevoked session |
| `RefreshSessions.OnlyLoginSignsIn` | packages/application/src/identity/login/login.use-case.ts:60-69 | Only a login of that user ends the signed-out state |
| `RefreshSessions.ResetTokenWorksOnce` | packages/application/src/identity/reset-password/reset-password.use-case.ts:43-63 | A reset token works at most once, whatever happens in between |
| `RefreshSessions.NewRequestReplacesToken` | packages/application/src/identity/request-password-reset/request-password-reset.use-case.ts:39-45 | A new reset request makes the earlier token of that user useless |
| `RefreshSessions.HonestChain` | packages/application/src/identity/rotate-refresh/rotate-refresh.use-case.ts:44-62 | Every in-time refresh with the last returned token succeeds, whatever purges and other steps interleave, if nobody replays, logs out, resets or changes that user’s password |
| `RefreshSessions.HonestChainAfterLogin` | packages/application/src/identity/login/login.use-case.ts:59-79 | From the login on: every in-time refresh with the last returned token succeeds under the same conditions |
| `Credentials.LoginOutcome` | packages/application/src/identity/login/login.use-case.ts:45-80 | In every reachable state a login succeeds exactly when a user who is not suspended has the normalised email and the hash of the password, and then stores one session of that user for fourteen days; otherwise nothing is stored and the error tells a suspended user with the right password from everything else |
| `Credentials.LastPasswordLogsIn` | packages/application/src/identity/login/login.use-case.ts:45-80 | After every run of all use cases a login succeeds exactly with the password that was last set, changed or reset for the user of that email, unless suspended |
| `Credentials.SetOrChangeOutcome` | packages/application/src/identity/set-or-change-password/set-or-change-password.use-case.ts:36-74 | The five outcomes in order; a change needs the hash of the stated current password, stores the new one and revokes all unrevoked sessions of the user; a first password revokes none |
| `Credentials.ResetOutcome` | packages/application/src/identity/reset-password/reset-password.use-case.ts:38-64 | A reset succeeds exactly with an unused, unexpired token of a user who has a password and eight new characters; it stores the new hash, uses the token up and revokes the sessions of that user, and otherwise stores nothing |
| `Credentials.RequestOutcome` | packages/application/src/identity/request-password-reset/request-password-reset.use-case.ts:28-52 | Asking for a reset always answers the same; it stores a token for an hour exactly when the email is known |
| `Authentication.RefreshSession.Revoke` | packages/domain/src/identity/refresh-session.ts:55-57 | Sets revokedAt and nothing else |
| `Authentication.PasswordResetToken.Consume` | packages/domain/src/identity/password-reset-token.ts:36-38 | Sets consumedAt and nothing else |
| `Authentication.RefreshSessionRepository.FindByTokenHash` | packages/application/src/testing/in-memory-refresh-session.repository.ts:13-21 | Finds a session with the hash exactly when there is one |
| `Authentication.RefreshSessionRepository.RevokeFamily` | packages/application/src/testing/in-memory-refresh-session.repository.ts:29-37 | Revokes exactly the unrevoked sessions of the family |
| `Authentication.RefreshSessionRepository.RevokeAllForUser` | packages/application/src/testing/in-memory-refresh-session.repository.ts:39-47 | Revokes exactly the unrevoked sessions of the user |
| `Authentication.RefreshSessionRepository.DeleteExpiredOrRevoked` | packages/application/src/testing/in-memory-refresh-session.repository.ts:49-57 | Deletes exactly min(limit, stale) sessions, none of them active |
| `Authentication.RefreshSessionRepository.PurgeChain` | packages/composition/src/worker/maintenance/maintenance-processor.service.ts:50-58 | Re-enqueuing on a full batch, with the clock read again each time, ends after total/limit + 1 jobs and leaves exactly the sessions that are not stale at its last reading |
| `Authentication.PasswordResetTokenRepository.FindByTokenHash` | packages/application/src/testing/in-memory-password-reset-token.repository.ts:13-21 | Finds a reset token with the hash exactly when there is one |
| `Authentication.PasswordResetTokenRepository.DeleteInactive` | packages/application/src/testing/in-memory-password-reset-token.repository.ts:33-41 | Deletes exactly min(limit, stale) reset tokens, none of them active |
| `Authentication.PasswordResetTokenRepository.PurgeChain` | packages/composition/src/worker/maintenance/maintenance-processor.service.ts:50-58 | The same for reset tokens: the chain ends and leaves exactly those that are not stale at its last reading of the clock |
| `Authentication.PurgesAreSteps` | packages/application/src/testing/in-memory-password-reset-token.repository.ts:33-41 | Every batch of sessions or reset tokens is a step of the session system, so its invariants and run results survive purges |
| `Purge.ChainGoesOn` | packages/composition/src/worker/maintenance/maintenance-processor.service.ts:50-58 | For any kind of row that stays stale: after a full batch, the next batch at a later time again leaves only stale rows deleted, full batches before the last, and nothing stale if it was short |
| `Purge.ChainStops` | packages/composition/src/worker/maintenance/maintenance-processor.service.ts:50-58 | A chain that has ended left exactly the rows not stale at its last time, and ran total/limit + 1 jobs |
| `Authentication.AuthenticationService.Login` | packages/application/src/identity/login/login.use-case.ts:45-81 | The login steps leave exactly the state and outcome that the session protocol prescribes |
| `Authentication.AuthenticationService.Rotate` | packages/application/src/identity/rotate-refresh/rotate-refresh.use-case.ts:29-70 | Statement by statement the code leaves exactly the specified state and outcome: rotation, with the committed revocation on reuse |
| `Authentication.AuthenticationService.Logout` | packages/application/src/identity/logout/logout.use-case.ts:23-37 | Statement by statement the code leaves exactly the specified state and outcome: logout, with a missing or empty token doing nothing |
| `Authentication.AuthenticationService.RequestReset` | packages/application/src/identity/request-password-reset/request-password-reset.use-case.ts:28-52 | Statement by statement the code leaves exactly the specified state and outcome: a reset request, silent for an unknown email |
| `Authentication.AuthenticationService.ResetPassword` | packages/application/src/identity/reset-password/reset-password.use-case.ts:38-64 | Statement by statement the code leaves exactly the specified state and outcome: a password reset |
| `Authentication.AuthenticationService.SetOrChangePassword` | packages/application/src/identity/set-or-change-password/set-or-change-password.use-case.ts:36-74 | Statement by statement the code leaves exactly the specified state and outcome: setting or changing a password; only a change revokes sessions |
| `Text.NormalizeIsIdempotent` | packages/domain/src/shared-kernel/email.ts:9-20 | Normalising an already normalised email changes nothing |
| `Text.NormalizeReads` | packages/domain/src/shared-kernel/email.ts:9-20 | Normalising cuts the white space off both ends and makes capital letters small, and does nothing else |
| `Text.HashIsInjective` | packages/application/src/testing/in-memory-password-hasher.ts:7-13 | Different passwords have different hashes |
| `AccessOutcomes.EmailReads` | packages/domain/src/shared-kernel/email.ts:9-20 | An accepted address is a local part, an at sign, a host, a dot and an ending, each non-empty and free of white space and at signs |
| `Access.CollectIsUnion` | packages/application/src/authorization/authorization.service.ts:106-121 | The nested loops over roles and permissions collect exactly the union of what the tenant’s own roles contribute, missing and foreign roles contributing nothing |
| `Access.CollectHasNoRepeats` | packages/application/src/authorization/authorization.service.ts:106-121 | Each permission is collected once |
| `Access.ReadTwice` | packages/application/src/authorization/authorization.service.ts:62-75 | A read that filled the cache is answered the same way by the next one |
| `AccessProofs.NormalizedIsBundle` | packages/domain/src/authorization/role.ts:128-140 | A role’s permissions become the catalog-ordered duplicate-free list with the same elements; empty and unknown input give exactly the two errors |
| `AccessProofs.BundleIsCanonical` | packages/domain/src/authorization/role.ts:128-140 | Two normalised permission lists with the same elements are the same list |
| `AccessProofs.PassedIsAssignable` | packages/application/src/tenancy/owner-role.ts:25-40 | Role ids that pass assertAssignable are known, nonempty after normalising and name no founded tenant’s Owner role |
| `AccessProofs.SupersedeClears` | packages/application/src/tenancy/invite-member/invite-member.use-case.ts:90-93 | After superseding, no pending invitation for that tenant and email is left |
| `AccessProofs.CommitKeepsCache` | packages/application/src/authorization/authorization.service.ts:77-85 | Each committed change plus the invalidations its use case makes keeps every cached user entry equal to recomputation |
| `AccessProofs.CommitKeepsFounded` | packages/application/src/tenancy/owner-role.ts:16-40 | Each committed change keeps each founded tenant’s Owner role with exactly the founder as holder |
| `AccessProofs.CommitKeepsInvitations` | packages/application/src/tenancy/invite-member/invite-member.use-case.ts:84-110 | Each committed change keeps at most one pending invitation per tenant and email, and distinct tokens |
| `AccessProofs.CommitKeepsKeyCache` | packages/application/src/identity/update-api-key/update-api-key.use-case.ts:46-66 | Each committed change keeps cached key entries within what the key holds, without the permission to manage keys |
| `AccessTheorems.StepKeepsInvariant` | packages/application/src/authorization/authorization.service.ts:48-121 | Every use case, successful or refused, keeps the whole tenancy, role, invitation, key and cache invariant |
| `AccessTheorems.RunKeepsInvariant` | packages/application/src/authorization/authorization.service.ts:48-121 | The invariant holds after every run from the empty stores |
| `AccessTheorems.StepIsJustified` | packages/application/src/identity/update-api-key/update-api-key.use-case.ts:32-66 | A use case commits one change that satisfies its guards, or changes nothing but the cache; the unchecked non-user branch of UpdateApiKey is never reached |
| `AccessTheorems.CachedEqualsRecomputed` | packages/application/src/authorization/authorization.service.ts:62-121 | Between any two use cases of any run, getEffectivePermissions equals as a set the recomputed union over the user’s active membership, from the cache or not |
| `AccessTheorems.OwnerForever` | packages/application/src/tenancy/create-tenant/create-tenant.use-case.ts:41-93 | A created tenant has from then on exactly one Owner-holding membership: the founder’s, active and never changed |
| `AccessTheorems.ReplaceKeepsAnOwner` | packages/application/src/tenancy/replace-membership-roles/replace-membership-roles.use-case.ts:48-65 | From any state with an active Owner, role replacement leaves at least one |
| `AccessTheorems.TenancyUniqueness` | packages/application/src/tenancy/accept-invitation/accept-invitation.use-case.ts:69-117 | In every run: one user per email, one membership per user and tenant, one unconsumed invitation per tenant and email, at most one membership per invitation |
| `AccessTheorems.RolesStaySound` | packages/domain/src/authorization/role.ts:93-152 | In every run role names are unique per tenant, system roles are as seeded, custom ones trimmed and not reserved, and each permission list is the canonical one for its elements |
| `AccessTheorems.InvitationTokenWorksOnce` | packages/application/src/tenancy/accept-invitation/accept-invitation.use-case.ts:70-110 | An invitation token that was accepted is refused in every later state |
| `AccessTheorems.KeyActorsManageNoKeys` | packages/application/src/identity/create-api-key/create-api-key.use-case.ts:34-42 | In every run an API-key actor is refused by creating, updating and revoking keys, and nothing is stored |
| `AccessTheorems.KeysNeverEscalate` | packages/domain/src/identity/api-key.ts:186-200 | In every run stored and cached key permissions are a catalog subset without identity.api_keys.manage |
| `AccessTheorems.KeyWithinGrantor` | packages/application/src/identity/create-api-key/create-api-key.use-case.ts:44-52 | What a user puts into a key, minting or updating it, is within what that user holds at that moment |
| `AccessTheorems.ExpiredKeyIsForgotten` | packages/application/src/authorization/authorization.service.ts:91-104 | Sixty seconds after its expiry a key grants nothing in any tenant, whatever was cached |
| `AccessTheorems.RevokedKeyIsForgotten` | packages/application/src/identity/revoke-api-key/revoke-api-key.use-case.ts:29-46 | A revoked key grants nothing in its own tenant from its revocation on, and nothing anywhere from sixty seconds after its revocation, in every later state and whatever was cached |
| `AccessTheorems.TokenResolvesToItsKey` | packages/application/src/identity/resolve-api-key/resolve-api-key.query.ts:24-38 | A token resolves to a key exactly when it is the token minted for it and the key is neither revoked nor expired |
| `AccessTheorems.MintedTokenResolves` | packages/application/src/identity/create-api-key/create-api-key.use-case.ts:54-77 | A minted token resolves to its own key in every later state until that key is revoked or expires |
| `AccessGuards.UserHoldsIff` | packages/application/src/authorization/authorization.service.ts:48-121 | In every reachable state a user holds a permission, by the answer of the service, exactly when an active membership of the tenant names a role of that tenant which has it |
| `AccessGuards.KeyHoldsWithin` | packages/application/src/authorization/authorization.service.ts:87-104 | In every reachable state what a key holds in its tenant was put into it, is not the permission to manage keys, and ends with its revocation or a minute after its expiry |
| `AccessGuards.KeyHoldsAll` | packages/application/src/authorization/authorization.service.ts:87-104 | A usable key holds all that was put into it, once no older answer is remembered |
| `AccessGuards.RefusedIffNotHeld` | packages/application/src/tenancy/replace-membership-roles/replace-membership-roles.use-case.ts:32-34 | In every reachable state, for users and keys: attaching a member and replacing roles need tenancy.members.manage, inviting tenancy.members.invite, the role use cases authorization.roles.manage, the key use cases identity.api_keys.manage; each is refused for it exactly when the actor does not hold it in the tenant |
| `AccessGuards.UserRefusedIff` | packages/application/src/authorization/authorization.service.ts:48-121 | A user is refused for the needed permission exactly when no active membership of the tenant names a role of that tenant which has it |
| `AccessGuards.KeySucceedsWithin` | packages/application/src/authorization/authorization.service.ts:87-104 | What a key does in its tenant was put into it, and the key is neither revoked nor expired for a minute |
| `AccessGuards.NothingNeeded` | packages/application/src/identity/create-user/create-user.use-case.ts:16-47 | Registering, founding a tenant, accepting an invitation and purging are refused for no permission |
| `AccessGuards.FailureChangesNothing` | packages/application/src/tenancy/replace-membership-roles/replace-membership-roles.use-case.ts:32-67 | A use case that fails leaves every store but the permission cache as it was |
| `AccessOutcomes.CreateUserOutcome` | packages/application/src/identity/register-user/register-user.use-case.ts:33-57 | Registering: every error with its exact condition, in order, and the user and password hash stored otherwise |
| `AccessOutcomes.CreateTenantOutcome` | packages/application/src/tenancy/create-tenant/create-tenant.use-case.ts:41-93 | Creating a tenant: every error with its condition, and otherwise the tenant, its three system roles with their names and permissions and the founder’s membership |
| `AccessOutcomes.AttachOutcome` | packages/application/src/tenancy/attach-member/attach-member.use-case.ts:42-76 | Attaching, for a holder of the permission: every error with its exact condition, in order, and the one active membership stored otherwise |
| `AccessOutcomes.InviteOutcome` | packages/application/src/tenancy/invite-member/invite-member.use-case.ts:64-120 | Inviting, for a holder of the permission: every error with its exact condition, and the invitation stored for a week with its inviter, an expired one for the same email being used up |
| `AccessOutcomes.AcceptOutcome` | packages/application/src/tenancy/accept-invitation/accept-invitation.use-case.ts:68-118 | Accepting: only an unused, unexpired token; registration errors for an unknown email, in order; and otherwise the membership with the invited roles, the new user if any and the consumed invitation |
| `AccessOutcomes.ReplaceOutcome` | packages/application/src/tenancy/replace-membership-roles/replace-membership-roles.use-case.ts:32-67 | Replacing roles, for a holder of the permission: every error with its exact condition, the last active Owner holder among them, and otherwise just the roles of that membership |
| `AccessOutcomes.CreateRoleOutcome` | packages/application/src/authorization/create-custom-role/create-custom-role.use-case.ts:32-63 | Creating a role, for a holder of the permission: name taken, blank, reserved, permissions empty or unknown, in order, and otherwise the role stored |
| `AccessOutcomes.UpdateRoleOutcome` | packages/application/src/authorization/update-custom-role/update-custom-role.use-case.ts:30-70 | Updating a role, for a holder of the permission: every error with its exact condition, in order, and otherwise the role with its new name and permissions |
| `AccessOutcomes.DeleteRoleOutcome` | packages/application/src/authorization/delete-custom-role/delete-custom-role.use-case.ts:33-56 | Deleting a role, for a holder of the permission: unknown, system or in use, and otherwise gone |
| `AccessOutcomes.CreateKeyOutcome` | packages/application/src/identity/create-api-key/create-api-key.use-case.ts:34-77 | Minting a key, for a holder of the permission: the first permission unknown or not held decides the error, then name, list and prefix; otherwise the key stored with the prefix and digest of its token |
| `AccessOutcomes.UpdateKeyOutcome` | packages/application/src/identity/update-api-key/update-api-key.use-case.ts:32-78 | Updating a key, for a holder of the permission: every error with its condition, in order, and otherwise the key with its new name and permissions |
| `AccessOutcomes.RevokeKeyOutcome` | packages/application/src/identity/revoke-api-key/revoke-api-key.use-case.ts:29-46 | Revoking a key, for a holder of the permission: unknown or revoked already, and otherwise just that key revoked now |
| `Entities.NormalizeRoleIds` | packages/domain/src/tenancy/membership.ts:170-184 | Keeps first occurrences in order; empty input is an error |
| `Access.DedupKeepsOrder` | packages/domain/src/tenancy/membership.ts:96-107 | What is kept of repeated ids comes in the order of first occurrence |
| `Entities.FirstUnknownOfDedup` | packages/domain/src/authorization/role.ts:128-137 | Dropping repetitions first does not change which permission is rejected |
| `Entities.NormalizePermissions` | packages/domain/src/authorization/role.ts:128-140 | The loops over a set and over the catalog compute the normalised bundle or the same error |
| `Entities.NormalizeKeyPermissions` | packages/domain/src/identity/api-key.ts:186-200 | The loop computes the duplicate-free list, or the error for an empty list or the manage permission |
| `Entities.Membership.ReplaceRoleIds` | packages/domain/src/tenancy/membership.ts:96-107 | Replaces the role ids by the normalised list, or fails and changes nothing |
| `Entities.Invitation.Consume` | packages/domain/src/tenancy/invitation.ts:109-127 | Succeeds exactly on an active invitation; the two errors are told apart by consumedAt |
| `Entities.Invitation.Supersede` | packages/domain/src/tenancy/invitation.ts:132-138 | Consumes an unconsumed invitation, expired or not |
| `Entities.Role.Rename` | packages/domain/src/authorization/role.ts:93-104 | System roles refuse; blank and reserved names refuse; else the name is the trimmed one |
| `Entities.Role.ReplacePermissions` | packages/domain/src/authorization/role.ts:109-119 | System roles refuse; else the normalised bundle or its error |
| `Entities.ApiKey.ReplacePermissions` | packages/domain/src/identity/api-key.ts:142-152 | Refuses on a revoked key; else the normalised permissions or their error |
| `Entities.ApiKey.Revoke` | packages/domain/src/identity/api-key.ts:154-164 | A key is revoked at most once |
| `AccessService.InMemoryCache.Get` | packages/application/src/testing/in-memory-cache.ts:11-25 | Serves an entry strictly before its expiry and evicts it afterwards |
| `AccessService.InMemoryCache.Set` | packages/application/src/testing/in-memory-cache.ts:27-31 | Stores the value until now plus its time to live |
| `AccessService.Database.FindUserByEmail` | packages/application/src/testing/in-memory-user.repository.ts:17-28 | Finds the user of the normalised email exactly when there is one |
| `AccessService.Database.FindByUserAndTenant` | packages/application/src/testing/in-memory-membership.repository.ts:33-41 | Finds the membership of a user in a tenant exactly when there is one |
| `AccessService.Database.FindByTenantAndRole` | packages/application/src/testing/in-memory-membership.repository.ts:21-27 | Returns exactly the memberships of the tenant that hold the role |
| `AccessService.Database.CountOtherActive` | packages/application/src/tenancy/owner-role.ts:45-49 | Counts the active holders of a role other than one membership |
| `AccessService.Database.FindActiveByTenantAndEmail` | packages/application/src/testing/in-memory-invitation.repository.ts:17-27 | Finds the unconsumed invitation of a tenant and normalised email exactly when there is one |
| `AccessService.Database.DeleteStaleInvitations` | packages/application/src/testing/in-memory-invitation.repository.ts:45-53 | Deletes exactly min(limit, stale) invitations, none of them active |
| `AccessService.Database.FindRolesByIds` | packages/application/src/testing/in-memory-role.repository.ts:17-29 | Returns the existing roles in the order asked for, skipping missing ids |
| `AccessService.Database.AssertAssignable` | packages/application/src/tenancy/owner-role.ts:25-40 | Reports the first role id that is the Owner role, unknown or another tenant’s |
| `AccessService.GatherIsCollect` | packages/application/src/authorization/authorization.service.ts:106-121 | Looking the roles up first and skipping foreign ones afterwards collects the same list as asking role id by role id |
| `AccessService.AuthorizationService.RoleIdsFor` | packages/application/src/tenancy/membership-roles.service.ts:17-25 | Role ids of the active membership, none otherwise |
| `AccessService.AuthorizationService.ResolvePermissions` | packages/application/src/authorization/authorization.service.ts:106-121 | The loops over roles and permissions compute the specified list |
| `AccessService.AuthorizationService.GetPermissions` | packages/application/src/authorization/authorization.service.ts:56-75 | A hit is served as it is; a miss is recomputed, for keys only while usable, and remembered for 60 seconds |
| `AccessService.AuthorizationService.Require` | packages/application/src/authorization/authorization.service.ts:48-54 | Throws exactly when the permission is not among the actor’s permissions in the tenant |
| `AccessService.AuthorizationService.InvalidateHoldersOf` | packages/application/src/authorization/authorization.service.ts:81-85 | Deletes exactly the cache entries of the holders of the role in its tenant |
| `UseCases.TenancyService.CreateUser` | packages/application/src/identity/register-user/register-user.use-case.ts:33-57 | Registering leaves exactly the state and error of the specified use case |
| `UseCases.TenancyService.AttachMember` | packages/application/src/tenancy/attach-member/attach-member.use-case.ts:42-76 | Statement by statement the code leaves exactly the specified state and outcome: attaching a member |
| `UseCases.TenancyService.InviteMember` | packages/application/src/tenancy/invite-member/invite-member.use-case.ts:64-120 | Statement by statement the code leaves exactly the specified state and outcome: inviting; a superseded invitation comes back when a later statement throws |
| `UseCases.SavedThenJoined` | packages/application/src/tenancy/accept-invitation/accept-invitation.use-case.ts:79-117 | Saving the new user first and then joining as a known user commits the same as joining as a new user in one go |
| `UseCases.TenancyService.AcceptInvitation` | packages/application/src/tenancy/accept-invitation/accept-invitation.use-case.ts:68-118 | Statement by statement the code leaves exactly the specified state and outcome: accepting; a user created on the way disappears when a later statement throws |
| `UseCases.TenancyService.PurgeStaleInvitations` | packages/application/src/tenancy/purge-stale-invitations/purge-stale-invitations.use-case.ts:24-28 | One purge deletes exactly min(limit, stale) inactive invitations and changes nothing else |
| `AccessService.Database.PurgeChain` | packages/composition/src/worker/maintenance/maintenance-processor.service.ts:50-58 | The same for invitations: the chain ends and leaves exactly those that are not stale at its last reading of the clock |
| `UseCases.PurgeIsAStep` | packages/application/src/testing/in-memory-invitation.repository.ts:45-53 | A purge of inactive invitations is a step of the modelled system, so every invariant survives it |
| `UseCases.TenancyService.ReplaceMembershipRoles` | packages/application/src/tenancy/replace-membership-roles/replace-membership-roles.use-case.ts:32-67 | Statement by statement the code leaves exactly the specified state and outcome: replacing roles, with the last-Owner guard |
| `UseCases.TenancyService.CreateTenant` | packages/application/src/tenancy/create-tenant/create-tenant.use-case.ts:41-93 | Statement by statement the code leaves exactly the specified state and outcome: creating a tenant with its three system roles and founder |
| `UseCases.TenancyService.CreateCustomRole` | packages/application/src/authorization/create-custom-role/create-custom-role.use-case.ts:32-63 | Statement by statement the code leaves exactly the specified state and outcome: creating a role |
| `UseCases.TenancyService.UpdateCustomRole` | packages/application/src/authorization/update-custom-role/update-custom-role.use-case.ts:30-70 | Statement by statement the code leaves exactly the specified state and outcome: renaming and re-permitting a role, with invalidation of its holders |
| `UseCases.TenancyService.DeleteCustomRole` | packages/application/src/authorization/delete-custom-role/delete-custom-role.use-case.ts:33-56 | Statement by statement the code leaves exactly the specified state and outcome: deleting an unused custom role |
| `UseCases.TenancyService.CreateApiKey` | packages/application/src/identity/create-api-key/create-api-key.use-case.ts:34-77 | Statement by statement the code leaves exactly the specified state and outcome: minting a key |
| `UseCases.TenancyService.UpdateApiKey` | packages/application/src/identity/update-api-key/update-api-key.use-case.ts:32-78 | Statement by statement the code leaves exactly the specified state and outcome: updating a key, with invalidation |
| `UseCases.TenancyService.RevokeApiKey` | packages/application/src/identity/revoke-api-key/revoke-api-key.use-case.ts:29-46 | Statement by statement the code leaves exactly the specified state and outcome: revoking a key, with invalidation |
| `ApiKeyToken.ParseInvertsCreate` | packages/application/src/identity/api-key-token.ts:10-26 | A minted token parses back to the prefix stored with its key |
| `ApiKeyToken.ParsedWasPrinted` | packages/application/src/identity/api-key-token.ts:18-26 | Exactly the tokens of the minted shape parse, up to letter case of the first 16 characters |
| `ApiKeyToken.CompactIdIsPublicPrefix` | packages/application/src/identity/api-key-token.ts:28-30 | A generated id yields a public prefix that parses exactly when it has at least twelve characters besides dashes |
| `ApiKeyToken.DashesDropOut` | packages/application/src/identity/api-key-token.ts:28-30 | Compacting an id drops exactly its dashes and keeps the rest in order |
| `RateLimit.InMemoryRateLimiter.Consume` | packages/application/src/testing/in-memory-rate-limiter.ts:12-25 | Opens a window or counts in it, and answers from the resulting entry |
| `RateLimit.WindowBound` | packages/application/src/testing/in-memory-rate-limiter.ts:12-25 | For call sequences of any length each window allows at most limit calls |
| `RateLimit.SlidingBound` | packages/application/src/testing/in-memory-rate-limiter.ts:12-25 | Any half-open interval of window length allows at most 2*limit-1 calls (none for a limit below 1) |
| `RateLimit.SlidingBoundIsTight` | packages/application/src/testing/in-memory-rate-limiter.ts:12-25 | For every limit and window a call sequence reaches 2*limit-1 |
| `RateLimit.RetryAfterIsExact` | packages/platform/src/rate-limit/to-rate-limit-decision.ts:6-22 | After any history a denial’s retryAfterSeconds lies in 1..window and is the least whole number of seconds after which the next call is allowed |
| `RateLimit.RemainingIsWhatIsLeft` | packages/platform/src/rate-limit/to-rate-limit-decision.ts:6-22 | After any history a call is allowed exactly while its window has allowed fewer than limit, remaining is what the window has left after it, and only a denial asks to wait |
| `RateLimit.KeysAreIndependent` | packages/application/src/testing/in-memory-rate-limiter.ts:12-25 | The answers on one key are those of the calls on that key alone |
| `RateLimit.RedisRateLimiter.Consume` | packages/infrastructure/redis/src/rate-limit/redis-rate-limiter.adapter.ts:11-33 | The INCR/EXPIRE/TTL script counts exactly as the in-memory form and answers from the time to live rounded to seconds |
| `RateLimit.RedisDecidesAlike` | packages/infrastructure/redis/src/rate-limit/redis-rate-limiter.adapter.ts:11-33 | Redis allows what the in-memory form allows, with the same remainder; the wait of a denial may be a second shorter, or a whole window when less than half a second is left |
| `RateLimit.RedisRetryAfterIff` | packages/infrastructure/redis/src/rate-limit/redis-rate-limiter.adapter.ts:11-33 | After any history a denial’s retryAfterSeconds is enough exactly when the rest of the window is under half a second, whole seconds, or at least half a second over; it is never short by half a second |
| `RateLimit.RedisRetryAfterFallsShort` | packages/infrastructure/redis/src/rate-limit/redis-rate-limiter.adapter.ts:11-33 | For every limit and window, and for every rest of the window that rounds down, some sequence of calls ends in a denial after whose retryAfterSeconds the same call is denied again |
| `RateLimit.MirrorsLater` | packages/infrastructure/redis/src/rate-limit/redis-rate-limiter.adapter.ts:11-18 | As time passes both forms forget the same windows |
| `Lock.MutualExclusion` | packages/infrastructure/redis/src/lock/redis-lock.adapter.ts:22-31 | In every run two leases on one key are never valid at the same time |
| `Lock.AcquireRefusedIffHeld` | packages/infrastructure/redis/src/lock/redis-lock.adapter.ts:22-31 | For a positive time to live, acquire is refused exactly while some valid lease on the key exists, and then changes nothing; otherwise the new lease is valid |
| `Lock.ReleaseEndsOnlyItself` | packages/infrastructure/redis/src/lock/redis-lock.adapter.ts:33-35 | Releasing ends that lease and no other; releasing one that is no longer valid does nothing |
| `Lock.LeaseIsKept` | packages/infrastructure/redis/src/lock/redis-lock.adapter.ts:22-35 | A lease stays valid until it runs out or is itself released, whatever other clients do |
| `Lock.LeaseLastsItsTime` | packages/infrastructure/redis/src/lock/redis-lock.adapter.ts:22-31 | In every run a lease is valid for exactly its time to live in seconds, short of its own release |
| `Lock.RedisLock.Acquire` | packages/infrastructure/redis/src/lock/redis-lock.adapter.ts:22-31 | Set-if-absent with expiry, returning the lease exactly when it was free; a time to live that is not positive is the error of Redis and changes nothing |
| `Lock.RedisLock.Release` | packages/infrastructure/redis/src/lock/redis-lock.adapter.ts:12-18 | Compare the token, and only then delete |
| `HttpClient.UndiciHttpClient.DispatchRequest` | packages/infrastructure/http-client/src/http-client.adapter.ts:84-116 | One attempt with its redirects: the outcome and everything fetched |
| `HttpClient.UndiciHttpClient.FollowRedirect` | packages/infrastructure/http-client/src/http-client.adapter.ts:186-210 | Follows only safe methods, redirect statuses, a location within the hop limit and the same host |
| `HttpClient.UndiciHttpClient.Send` | packages/infrastructure/http-client/src/http-client.adapter.ts:48-72 | The retry loop computes the specified attempts |
| `HttpClient.DispatchFollowsChain` | packages/infrastructure/http-client/src/http-client.adapter.ts:84-116 | One attempt fetches between one and 1 + maxRedirects times, along one chain where each fetch is the previous response’s same-host redirect; unsafe methods exactly once |
| `HttpClient.FetchBound` | packages/infrastructure/http-client/src/http-client.adapter.ts:48-72 | At most (1+maxRetries)*(1+maxRedirects) fetches, whatever the network does |
| `HttpClient.SameHost` | packages/infrastructure/http-client/src/http-client.adapter.ts:201-209 | Every fetch of a request goes to its host with its method |
| `HttpClient.OneFetch` | packages/infrastructure/http-client/src/http-client.adapter.ts:84-116 | A fetch is followed by another exactly at a redirect that may be followed; else it ends the attempt, with its status and text exactly when the reply is complete, within the size limit and parses |
| `HttpClient.AnswerIsLastReply` | packages/infrastructure/http-client/src/http-client.adapter.ts:161-184 | An attempt that gives an answer gives the status and text of the last reply it fetched |
| `HttpClient.ErrorOfFetch` | packages/infrastructure/http-client/src/http-client.adapter.ts:272-294 | Which error ends an attempt: the caller’s abort first, then the timeout, then the size limit, else a network error |
| `HttpClient.RetriedIff` | packages/infrastructure/http-client/src/http-client.adapter.ts:226-253 | The request’s own policy, else the scope’s, else two retries for safe methods and requests with an idempotency key; another attempt is made exactly while retries are left and the policy names the status or error |
| `HttpClient.WritesAreNotRepeated` | packages/infrastructure/http-client/src/http-client.adapter.ts:226-242 | A write with no policy and no idempotency key is fetched exactly once |
| `HttpClient.FirstFinalWins` | packages/infrastructure/http-client/src/http-client.adapter.ts:53-69 | The request returns the outcome of the first attempt that is final and makes no further fetch |
| `HttpClient.SomeAttemptIsFinal` | packages/infrastructure/http-client/src/http-client.adapter.ts:53-69 | With nonnegative maxRetries some attempt is final |
| `HttpClient.FallsThroughIffNegative` | packages/infrastructure/http-client/src/http-client.adapter.ts:71-71 | The throw after the loop, without any fetch, is reached exactly for a negative maxRetries |
| `HttpClient.AbortIsFinal` | packages/infrastructure/http-client/src/http-client.adapter.ts:272-276 | An error after the caller’s abort becomes the aborted error and is never retried |
| `HttpClient.ErrorsAreTranslated` | packages/infrastructure/http-client/src/http-client.adapter.ts:272-294 | Every error of a dispatch is one of four client errors, except the platform’s own for a URL that does not parse |
| `HttpClient.UnparsableIsNetworkError` | packages/infrastructure/http-client/src/http-client.adapter.ts:161-184 | An attempt whose last response, after any number of redirects, has a complete JSON body that does not parse ends in a network error unless a signal has fired |
| `HttpClient.UnparsableIsRetried` | packages/infrastructure/http-client/src/http-client.adapter.ts:53-69 | While attempts are left, such an attempt is followed by another exactly when the policy retries network errors; otherwise the request ends with that error |
| `HttpClient.MethodTriggersAreIgnored` | packages/infrastructure/http-client/src/http-client.adapter.ts:244-253 | The GET and HEAD triggers of a policy are never consulted |
| `Config.DeepMerge` | packages/shared/config/src/lib/deep-merge.ts:8-23 | The loop with recursion computes the specified merge of JavaScript objects, for any order of the entries, the inherited __proto__ accessor included |
| `Config.MergeIsTreeMergeIff` | packages/shared/config/src/lib/deep-merge.ts:8-23 | The code computes the recursive tree merge exactly when no mapping of the source has a key __proto__ where the target’s has none |
| `Config.IntoEmptyIff` | packages/shared/config/src/lib/deep-merge.ts:8-23 | Merging into the empty mapping gives the source exactly when that has no key __proto__ |
| `Config.MergeIsIdempotent` | packages/shared/config/src/lib/deep-merge.ts:8-23 | Merging the empty mapping, or a mapping into itself, changes nothing, whatever the keys |
| `Config.MergeAgainIff` | packages/shared/config/src/lib/deep-merge.ts:8-23 | For any target object and any source document, merging the same source again changes nothing exactly when no mapping that a key of the source meets, as a property or inherited from a prototype taken before, is given a prototype, at any depth |
| `Config.NoBareIsStable` | packages/shared/config/src/lib/deep-merge.ts:8-23 | That holds in particular where no mapping of the source has a bare __proto__ |
| `Config.MergeAbsorbsIff` | packages/shared/config/src/lib/deep-merge.ts:8-23 | merge(a,c) is c exactly when c overrides everything in a and has no bare __proto__ |
| `Config.NodesAssociateIff` | packages/shared/config/src/lib/deep-merge.ts:8-23 | Where neither first merge meets a bare __proto__, the two groupings agree exactly when every leaf of the middle tree between two mappings has its outer mapping overridden by the inner one |
| `Config.AssociativeIff` | packages/shared/config/src/lib/deep-merge.ts:8-23 | Both first merges are by the book and the groupings agree exactly when no first merge meets a bare __proto__ and every leaf of the middle tree between two mappings has its outer mapping overridden by the inner one |
| `Config.BareInLastRegroups` | packages/shared/config/src/lib/deep-merge.ts:8-23 | A __proto__ of the last source that the other two lack, and that is no scalar, takes effect in one grouping and not in the other |
| `Config.NoClashAssociates` | packages/shared/config/src/lib/deep-merge.ts:8-23 | The condition holds in particular on trees where no leaf meets mappings on both sides |
| `Config.NotAssociative` | packages/shared/config/src/lib/deep-merge.ts:8-23 | Three concrete trees on which merging is not associative |
| `Config.MergeReadsIff` | packages/shared/config/src/lib/deep-merge.ts:4-6 | Every path of the merged object answers as the two sources prescribe, later source first and nested mappings merged, exactly when no __proto__ is bare |
| `Config.BareProtoGoesAstray` | packages/shared/config/src/lib/deep-merge.ts:12-19 | A bare __proto__ loses a scalar and turns a mapping into the prototype of the result |
| `ConfigStore.ReadsOwnProperties` | packages/shared/config/src/lib/apply-env-overlay.ts:33-38 | While nothing was put on Object.prototype, reading a path without __proto__ reads own properties |
| `ConfigStore.SafeWriteGrows` | packages/shared/config/src/lib/apply-env-overlay.ts:28-54 | A write whose walk never uses the inherited __proto__ cannot fail; it sets one property of the last existing mapping on the path and creates mappings below it |
| `ConfigStore.AnswerLaw` | packages/shared/config/src/lib/apply-env-overlay.ts:28-54 | What every path answers after such a write, in a store with sharing and cycles: the old answer until the path takes the property that was set, then that of the new chain |
| `ConfigOverlay.UnsafeFails` | packages/shared/config/src/lib/apply-env-overlay.ts:33-53 | A write whose walk uses the inherited __proto__ fails, or puts a key on Object.prototype, or leaves its path without a value |
| `ConfigOverlay.WriteIsLocalIff` | packages/shared/config/src/lib/apply-env-overlay.ts:28-54 | A write succeeds, reads back and changes no incomparable path, whatever the value, exactly when its walk avoids the inherited __proto__, no other path leads to the property it sets, and no list with elements beside the path makes way for a mapping |
| `ConfigRun.LocalKept` | packages/shared/config/src/lib/apply-env-overlay.ts:15-23 | A local write keeps every incomparable local path local |
| `ConfigRun.OverlayIsLocalIff` | packages/shared/config/src/lib/apply-env-overlay.ts:15-23 | All writes of an overlay succeed, read back and change no path beside them, for every selection, order and values, exactly when the paths are valid, prefix-free and each local in the target |
| `ConfigFailure.WriteFailsIff` | packages/shared/config/src/lib/apply-env-overlay.ts:32-53 | A write fails exactly when its last segment is empty or its walk, followed in the objects as they are before the write, comes to Object.prototype and asks for its __proto__ with segments left |
| `ConfigFailure.GoThroughIsKept` | packages/shared/config/src/lib/apply-env-overlay.ts:15-23 | If all paths go through, then after the write at any of them the others still do |
| `ConfigFailure.RunSucceedsIff` | packages/shared/config/src/lib/apply-env-overlay.ts:15-23 | All writes of an overlay succeed, for every selection, order and values, exactly when the paths are valid, none gets stuck, and none sets a value in place of a mapping without which another gets stuck |
| `ConfigFailure.PlainDocumentGoesThrough` | packages/shared/config/src/lib/apply-env-overlay.ts:32-53 | In a document without __proto__ keys that means that the paths are valid and none goes through the __proto__ of a __proto__ with segments left |
| `ConfigOrder.WritesCommute` | packages/shared/config/src/lib/apply-env-overlay.ts:15-23 | Two writes leave the same store in both orders if neither walk comes across what the other sets |
| `ConfigOrder.WritesCommuteIff` | packages/shared/config/src/lib/apply-env-overlay.ts:15-23 | For paths without __proto__ that is exactly the condition, whatever sharing and cycles there are |
| `ConfigOrder.OrderIrrelevantIff` | packages/shared/config/src/lib/apply-env-overlay.ts:15-23 | The order of an overlay’s entries does not matter exactly when no two of its paths are in conflict |
| `ConfigOrder.PrefixOrderMatters` | packages/shared/config/src/lib/apply-env-overlay.ts:34-45 | For paths without __proto__ the order of two writes matters in every target when one path is a prefix of the other |
| `ConfigOrder.IgnoredWriteCommutes` | packages/shared/config/src/lib/apply-env-overlay.ts:32-53 | With the inherited __proto__ that fails: the write at __proto__ commutes with every write below it that does not get stuck, though the paths are in conflict |
| `ConfigOrder.LocalOverlayHasNoOrder` | packages/shared/config/src/lib/apply-env-overlay.ts:15-23 | An overlay that does what it says leaves the same store in every order |
| `EnvOverlay.CloneAnswers` | packages/shared/config/src/lib/apply-env-overlay.ts:13-13 | The deep copy answers every path as the target does, sharing and cycles included |
| `EnvOverlay.Heap.SetByPath` | packages/shared/config/src/lib/apply-env-overlay.ts:28-54 | The loop over segments changes the objects in place exactly as specified, error and partial walk included |
| `EnvOverlay.Heap.Apply` | packages/shared/config/src/lib/apply-env-overlay.ts:8-26 | The loop over entries copies the target, makes the writes in order and stops at the first error |
| `EnvOverlay.ApplyLeavesTarget` | packages/shared/config/src/lib/apply-env-overlay.ts:13-25 | The caller’s objects are never changed, whatever the overlay, even when it fails |
| `EnvOverlay.OverlaySucceedsIff` | packages/shared/config/src/lib/apply-env-overlay.ts:8-26 | Applying a record of dotted paths succeeds, for every environment and key order, exactly when in the target every path ends in a name, none gets stuck at Object.prototype, and none replaces a mapping that another one depends on |
| `EnvOverlay.CopyIsLocal` | packages/shared/config/src/lib/apply-env-overlay.ts:13-13 | A path is local in the copy exactly when it is local in the target, so the condition can be checked beforehand |
| `EnvOverlay.OverlayIff` | packages/shared/config/src/lib/apply-env-overlay.ts:8-54 | Applying a record of dotted paths gives the configuration that its keys and the environment describe, for every environment and key order, exactly when the keys are valid, prefix-free and each local in the target |
| `EnvOverlay.SharingBreaksOverlays` | packages/shared/config/src/lib/apply-env-overlay.ts:28-54 | With one mapping under two keys, a write at one path changes the other, and the last of two writes shows at both |
| `EnvOverlay.PrototypeBreaksOverlays` | packages/shared/config/src/lib/apply-env-overlay.ts:32-53 | Writing at __proto__.x of an empty mapping makes x readable in every mapping |
| `ObjectKey.BuildSucceedsIff` | packages/platform/src/file-storage/object-key.ts:17-47 | tenant and global accept exactly a valid date in the years 1000 to 9999, well-formed purpose and object id and a valid tenant id; parse then returns what was printed |
| `ObjectKey.AcceptedIsJoin` | packages/platform/src/file-storage/object-key.ts:31-47 | An accepted key is the join of its parsed parts, which satisfy the patterns |
| `ObjectKey.BuiltKeyReads` | packages/platform/src/file-storage/object-key.ts:17-29 | What tenant and global print: owner, purpose, four-digit year, two-digit month counted from 1, object id |
| `ObjectKey.PatternsRead` | packages/platform/src/file-storage/object-key.ts:11-15 | A purpose or object id has 1 to 128 small letters, digits and dashes and no dash first; a month is two digits from 01 to 12 |
| `ObjectKey.KeysAreDistinct` | packages/platform/src/file-storage/object-key.ts:17-29 | Equal accepted keys name the same owner, purpose, month and object: tenants never share a key, nor a tenant and a global one |

## Left out

- Eventual delivery after a reclaim: it depends on how the job queue treats finished jobs with the same id; the queue is an arbitrary bag of deliveries, and what is proved is safety, accounting and that a claimed row can always still be processed.
- The tenant context that the worker sets around a dispatch, and deserialisation of the stored payload: an error there counts as a handler error.
- Rollback through the in-memory unit of work of the unit tests: stores hold values and a failed transaction restores them, as the database does.
- Interleavings inside one tenancy, key or session use case: each runs as one serialised step, because the row locking of the production repositories is not visible. The outbox and idempotency SQL are modelled concurrently.
- Suspending and activating memberships, users and tenants: no modelled use case calls them.
- Referential integrity of role ids: it does not hold, since a role may be deleted while a pending invitation names it; the resolver skips missing roles, so the cache property does hold.
- Expiry of idempotency records: it is stored, but a claim never reads it.
- The tenant id that login returns for a user with a single active membership, domain events of the tenancy use cases, and mail.
- Last use of an API key: recording it changes nothing that the model reads.
- Argon2, SHA-256, JWT, Redis, TypeORM, BullMQ and NestJS internals: digest and password hash are those of the application's unit tests, of which only the injectivity is used, and the idempotency fingerprint is a hash without collisions.
- Trimming and lower-casing cover ASCII letters and the usual white space; strings are sequences of characters without normalisation.
- The SQL purges compare `expires_at` strictly, and delete in its order, where the in-memory repositories include equality; the model follows the in-memory repositories, and the chain lemmas of `Purge` hold for either comparison. A purge chain runs without concurrent writers.
- After a failed SQL statement Postgres refuses every further one in the transaction; the model of nested units of work lets a caller that caught the error go on, which is what the code itself allows.
- "Exactly once" in the HTTP results counts dispatches that reach the network: a body that cannot be encoded throws before the first fetch.
- The backoff delay between HTTP attempts, header building, body encoding, URL parsing and query strings: a URL is a parsed host and rest, or text that does not parse.
- Config.AssociativeIff: where a first merge meets a bare `__proto__` the two groupings may agree or not, and no exact condition is stated: later keys then meet what they inherit, in an order that differs between the groupings. `Config.BareInLastRegroups` gives a family in which they differ.
- ConfigOrder.WritesCommuteIff: for paths without a segment `__proto__`. Beyond them the condition is not the same one (`ConfigOrder.IgnoredWriteCommutes`); for walks that use only `__proto__` keys of the document itself, `ConfigOrder.WritesCommute` gives one direction.
- ConfigOrder.OrderIrrelevantIff: for paths without a segment `__proto__`, for the same reason; for walks that use only such keys of the document itself `ConfigOrder.OrderIrrelevant` gives one direction.
- ConfigOrder.PrefixOrderMatters: for paths without a segment `__proto__`; with one it is false (`ConfigOrder.IgnoredWriteCommutes`).
- Merging is on finite documents: two documents with a cycle of aliases under the same keys would be merged without end. Sharing inside a merged document matters only to the overlay, which is proved for every kind of sharing.
- The functions on `Object.prototype` and `Array.prototype`: none of them is a plain object, so a walk never enters one; non-plain values other than lists, and writes to a target that is not a mapping.
- What makes a tenant id a UUID: the object-key results hold for any predicate on tenant ids.
- Select-tenant, controllers, DTO mappers, validation schemas, migrations, health checks, telemetry, the frontend and the array and number utilities: plumbing, or only easy members.
