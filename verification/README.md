# Verified model of the DevOps assistant's stateful services

This project models, in Dafny, the stateful protocols of the backend (and the client end of one of
them) and proves what they guarantee over whole runs.

- `ChatStream.dfy`, `ChatStreamProofs.dfy`: the streaming chat protocol. A producer task reads the
  language-model provider, checks the stop flag and the client's connection, puts tokens on an
  unbounded queue and commits the assistant message; the response generator takes items off the queue
  and emits events. The model is a transition system: one step runs one task from one suspension
  point to the next, and the environment disconnects the client, closes the generator, times out,
  lets a commit take effect, makes calls fail and delivers cancellation. A task that has been asked to
  cancel resumes only with the cancellation or with an error.
- `StreamEvents.dfy`, `SseParser.dfy`, `ChatWire.dfy`, `EventReading.dfy`, `BodySplits.dfy`, `StreamReader.dfy`,
  `StreamEndToEnd.dfy`: the other end, from text. How the server writes an event, the client's incremental parser
  over any pieces of that text, what the parser makes of an event that has only partly arrived, when the split of a
  body into chunks matters, the reading loop, and server and client together.
- `RateLimit.dfy`: the sliding-window limiter over expiring sorted sets, against a log that is never trimmed.
- `RefreshTokens.dfy`, `RefreshTokenProofs.dfy`: refresh-token rotation with reuse detection (the scheme of section 4.14.2 of RFC 9700).
- `CircuitBreaker.dfy`, `ProviderRouting.dfy`: the provider circuit breaker, chain resolution, the routing
  loop and the picking of a provider for a stream.
- `Artifacts.dfy`: artifact versions, restore, and the migration that versions old rows.
- `BackgroundTasks.dfy`: the task lifecycle and idempotency keys.
- `ActivityFeed.dfy`: the dashboard feed built from truncated per-table queries.
- `Organizations.dfy`, `OrganizationProofs.dfy`, `OrganizationRights.dfy`: members, owners and invitations; who may
  change what, and when a change goes through.
- `Slugs.dfy`, `AuditRedaction.dfy`: the two recursive text functions.

Services that change stored rows are classes whose methods take the source's steps in the source's
order; each method is tied to a function from the old state (`After`), and the theorems are about
every sequence of calls. Database tables are sequences or maps, ids that the database draws at random
are creation numbers, and every service call is one atomic step. Times, permission outcomes, one-time
links, database answers to tie-broken queries and provider outcomes are inputs.

Where the code and its documentation or its intent part, the code is modelled, and the exact condition is
proved under which it does what was meant:

- The authentication guide (`docs/authentication.md:51-55`) says that presenting a spent refresh token
  revokes its whole family. The call does write that (`ReuseRevokesFamily`), and then raises; the route
  commits nothing and `get_db` rolls the session back, so the stored rows are as before. Runs of requests
  here are therefore runs over stored rows (`Stored`). `RolledBackIff` says that this is the one write to the
  token rows that is ever lost, `ReuseLeavesNoneIff` and `ReuseEndsFamilyIff` say exactly when the family has no redeemable
  token at a time, or ever again, and `SessionOutlivesReuse` is a run in which the session goes on.
- The backend's README says cancelled streams do not persist an assistant message. A client that leaves
  while the commit is in flight can still have its message committed without ever seeing a terminal
  event (`CancelledStreamMayPersist`); `LateCommitIff` says exactly when a commit can still come.
- The limiter bounds admitted milliseconds, not calls: a limit of two or more never stops calls that
  share a millisecond (`SharedMillisecondIsUnlimited`). `BoundsCallsIff`: it bounds calls exactly when its
  limit is at most one; `DistinctCallsAreBounded`: so it does for calls at distinct times.
- Logging out with an already rotated token leaves its session alive (`LogoutCanMissSession`);
  `LogoutEndsSessionIff` says exactly when it ends it.
- A resend can revive an expired invitation beside a newer live one (`ResendRevivesExpired`,
  `TwoLiveAreReachable`); `ResendKeepsOneLiveIff` and, over whole runs, `AlwaysOneLiveIff` say exactly
  when it does not.
- A late report can turn a failed task into a succeeded one, or the reverse (`FailureCanTurnIntoSuccess`);
  `TerminalStatusChangesIff` and, over whole runs, `TerminalStatusHoldsIff` say exactly when.
- Events behind a terminal one are ignored or applied depending on how the body was split into chunks
  (`SplitCanMatter`); a repeated error can read as another one (`RepeatedErrorCanMatter`), and an unknown
  event as an error (`LongerNameCanMatter`). `SplitIndependentIff` says of any text, and `SplitOfEventsIff` of
  any list of events, exactly when the split does not matter; for this server's streams it never does.

## Model

| member | source | states |
|---|---|---|
| ChatStreamProofs.StepKeepsInv | backend/app/services/chat_service.py:195-305 | every step of producer, consumer and environment keeps the protocol's invariant |
| ChatStreamProofs.EmittedStreamIsSound | backend/app/services/chat_service.py:195-305 | in every reachable state: `conversation` first, then tokens and heartbeats, at most one terminal event and nothing after it; the tokens are a prefix of the provider's chunks; a `completed` event means the stream ended, all chunks were emitted and the one committed message is their concatenation; an `error` event means the producer committed nothing (that these events do come is stated by the next four rows) |
| ChatStreamProofs.FailureIsReported | backend/app/services/chat_service.py:245-297 | from every reachable state with the producer in its try block before the commit took effect, the consumer in its loop and the client connected: after a failure the consumer's own steps show every token put so far, then the error, and close, with nothing committed |
| ChatStreamProofs.CommitIsReported | backend/app/services/chat_service.py:232-294 | likewise after a commit that took effect: every chunk of the provider is shown, then `completed` with the committed message's id, and the stream closes |
| ChatStreamProofs.ErrorMeansFailed | backend/app/services/chat_service.py:241-269 | an `error` event is emitted only in runs in which the producer failed inside its try block |
| ChatStreamProofs.HeartbeatIsAllThatHappens | backend/app/services/chat_service.py:279-286 | a timeout of a connected consumer emits one heartbeat and leaves everything else as it was |
| ChatStreamProofs.NothingSentAfterDisconnect | backend/app/services/chat_service.py:207-220 | once the client has gone or the generator is ending, no run puts another token on the queue |
| ChatStreamProofs.LeavingEndsStream | backend/app/services/chat_service.py:275-305 | a generator that is closed from outside, or finds the client gone, emits nothing more in any run, and closes once its cancellation of the producer is delivered |
| ChatStreamProofs.CommittedIsWholeStream | backend/app/services/chat_service.py:204-232 | the producer commits at most one message, only after the provider stream ended, with all chunks concatenated |
| ChatStreamProofs.CleanStreamEndsWithVerdict | backend/app/services/chat_service.py:275-297 | a stream that closes with no disconnect and no abort has emitted `completed` or `error` |
| ChatStreamProofs.ConsumerNeverStarves | backend/app/services/chat_service.py:270-283 | in the loop with a finished producer, the queue is never empty and still holds a non-token item |
| ChatStreamProofs.FinishedProducerLetsConsumerClose | backend/app/services/chat_service.py:275-305 | once the producer has finished, the consumer reaches the end of the generator by a bounded number of its own steps, without timeouts |
| ChatStreamProofs.DrainingCloses | backend/app/services/chat_service.py:298-305 | a generator that waits for its cancelled producer closes once the cancellation is delivered |
| ChatStreamProofs.EveryAnswerCanComplete | backend/app/services/chat_service.py:201-294 | whatever chunks the provider yields, some run shows them all in order, completes, and commits exactly their concatenation |
| ChatStreamProofs.FinalCheckGatesCommit | backend/app/services/chat_service.py:212-220 | the producer goes on to save only from its final check, with the stream ended and neither stop nor disconnect up |
| ChatStreamProofs.LateCommitIff | backend/app/services/chat_service.py:212-232 | from a state with stop or disconnect up and nothing committed, a commit is still reachable exactly when it is already in flight, or the producer is adding the message and has not been asked to cancel |
| ChatStreamProofs.CancelledStreamMayPersist | backend/app/services/chat_service.py:232-244 | a reachable run in which the client leaves during the commit: no terminal event, one committed message |
| SseParser.Parser.EmitCurrent | frontend/lib/sse/parse-sse.ts:26-40 | the event the fields amount to, if there are any, and the fields reset |
| SseParser.Parser.ProcessLine | frontend/lib/sse/parse-sse.ts:42-84 | the fields after a line, and the event it ends |
| SseParser.Parser.ConsumeCompleteLines | frontend/lib/sse/parse-sse.ts:86-111 | the fields and events after all complete lines of a text, and the unfinished rest |
| SseParser.Parser.Push | frontend/lib/sse/parse-sse.ts:114-119 | state and events are those of reading the piece character by character behind all earlier ones |
| SseParser.Parser.Flush | frontend/lib/sse/parse-sse.ts:120-133 | what the end of the text makes of the unfinished event, and a parser as new |
| SseParser.PiecesDoNotMatter | frontend/lib/sse/parse-sse.ts:114-119 | however a text is cut into pieces, the parser hands out the same events and ends in the same state |
| SseParser.FlushGivesAtMostOne | frontend/lib/sse/parse-sse.ts:120-133 | the end of the text adds at most one event |
| SseParser.FieldsAreRead | frontend/lib/sse/parse-sse.ts:26-84 | an event with any name, any id or none and data of any number of lines reads as that event, its data being the text whose lines the data fields are; an empty name is `message`, an id with a NUL is none, and nothing at all is no event |
| SseParser.IgnoredLineChangesNothing | frontend/lib/sse/parse-sse.ts:42-84 | a comment line, or a line for an unknown field, changes nothing wherever it stands in a text |
| SseParser.ReturnChangesNothing | frontend/lib/sse/parse-sse.ts:98-100 | a carriage return before a line end changes nothing in any text, unless another stands before it |
| SseParser.EncodedIsRead | backend/app/utils/sse.py:7-10 | what the server writes for one event is read as that event, and leaves nothing behind |
| SseParser.CutGivesPart | frontend/lib/sse/parse-sse.ts:114-133 | wherever the text of an event is cut, no event comes before the flush, and the flush gives exactly the part that has arrived |
| ChatWire.SourceNamesAreGood | frontend/lib/sse/chat-stream.ts:59-99 | no event name begins with another, and none holds a line end |
| ChatWire.EncodedParses | frontend/lib/sse/chat-stream.ts:55-105 | the client parses every event the server writes as that event |
| ChatWire.PartsAreSeen | frontend/lib/sse/chat-stream.ts:55-105 | what a part of an event parses to: nothing known, all of it, or, for an error, the default one |
| StreamReader.ReadBatch | frontend/hooks/streaming-chat-utils.ts:107-113 | one pushed batch is handled up to its first terminal event |
| StreamReader.ReadFlushed | frontend/hooks/streaming-chat-utils.ts:120-125 | flushed events are all handled and the last terminal one wins |
| StreamReader.ReadChatSseBody | frontend/hooks/streaming-chat-utils.ts:89-128 | for any chunks, the handler calls and the terminal are those of the text pushed until a terminal event is complete: its events up to the first terminal one, and what the flush gives |
| BodySplits.SplitIndependentIff | frontend/hooks/streaming-chat-utils.ts:89-128 | for any incremental parser and any text, every split into chunks has the same outcome exactly when, wherever the text is cut behind its first terminal event, the flush gives only events that are not handled and no other terminal |
| StreamReader.SplitOfEventsIff | frontend/hooks/streaming-chat-utils.ts:89-128 | for a body of whole events: exactly when each event behind the first terminal one is not handled, is no other terminal, and is no error but the default one |
| StreamReader.SplitCanMatter | frontend/hooks/streaming-chat-utils.ts:107-125 | a handled event or another terminal right behind a terminal one makes the outcome depend on the split, whatever follows |
| StreamReader.RepeatedErrorCanMatter | frontend/lib/sse/chat-stream.ts:92-99 | the same error twice, not the default one, makes it depend on the split: part of the second reads as the default error |
| StreamReader.LongerNameCanMatter | frontend/lib/sse/parse-sse.ts:120-133 | so does an unknown event whose name begins with that of an error, behind a completed event or another error |
| StreamEndToEnd.ClientShowsWhatWasCommitted | frontend/hooks/streaming-chat-utils.ts:89-128 | for every server run, every part of its text that arrives and every split of that into chunks: the split does not matter, the client's text is a prefix of the provider's chunks, a completed terminal names the one message the producer committed and that message is the client's text, and an error terminal means the producer committed none |
| StreamEndToEnd.ArrivedEventsTakeEffect | frontend/hooks/streaming-chat-utils.ts:89-128 | once the text of the server's first i events has arrived, in whatever chunks, their handler calls have been made, and the terminal is known if it is among them |
| StreamEndToEnd.ConversationComesFirst | frontend/hooks/streaming-chat-utils.ts:63-68 | the conversation handler is called first, with the server's id, and only once; it has been called as soon as that event has arrived whole |
| RateLimit.RateLimiter.Sweep | backend/app/core/rate_limit.py:25-26 | the key holds exactly its unexpired scores newer than the window |
| RateLimit.RateLimiter.RunScript | backend/app/core/rate_limit.py:19-41 | the script's reply and the stored set, on admission and on denial |
| RateLimit.RateLimiter.Check | backend/app/core/rate_limit.py:93-135 | the result returned and the store left, for every category, limit and time |
| RateLimitProofs.DecidesAsFullLog | backend/app/core/rate_limit.py:18-42 | for every run of calls on a clock that does not go back, the next call is admitted exactly when the never-trimmed log holds fewer than `limit` distinct milliseconds of its key in the last window, and `remaining` is what is left; an admission has no retry time and a denial nothing remaining |
| RateLimitProofs.EveryWindowWithinLimit | backend/app/core/rate_limit.py:18-42 | no window, wherever it ends, ever holds more than `limit` admitted milliseconds of a key |
| RateLimitProofs.CategoriesHaveTheirSettings | backend/app/core/rate_limit.py:80-88 | for each of the five categories admission and the bound on every minute go by that category's own setting |
| RateLimitProofs.DisabledAdmitsAll | backend/app/core/rate_limit.py:100-108 | a limiter that is switched off admits every call of every run, with the whole limit remaining, and never touches the store |
| RateLimitProofs.RetryAfterIsLeast | backend/app/core/rate_limit.py:36-41 | after a denial the same call is admitted after a whole number of seconds exactly when that number is at least `retry_after_seconds`, which lies between 1 and 60; with a limit below one it is never admitted |
| RateLimitProofs.SharedMillisecondIsUnlimited | backend/app/core/rate_limit.py:113-122 | any number of calls in one millisecond passes a limit of two or more |
| RateLimitProofs.BoundsCallsIff | backend/app/core/rate_limit.py:113-122 | no window of any run holds more admitted calls of a key than its limit, exactly when that limit is at most one |
| RateLimitProofs.DistinctCallsAreBounded | backend/app/core/rate_limit.py:113-122 | over any run in which a key's calls come at distinct times, no window holds more admitted calls of the key than its limit |
| RefreshTokens.RevokeWhere | backend/app/repositories/refresh_token_repository.py:69-109 | the bulk update marks exactly the hit rows that are not revoked yet and changes nothing else |
| RefreshTokens.AuthService.CreateRecord | backend/app/services/auth_service.py:555-580 | one fresh row is added, in the given family or a new one |
| RefreshTokens.AuthService.Login | backend/app/services/auth_service.py:89-146 | a session is issued exactly for good credentials of an active user |
| RefreshTokens.AuthService.Refresh | backend/app/services/auth_service.py:148-234 | a token is issued exactly for the genuine token of a redeemable row; the old row is marked used and linked, and the new one has its user and family and lives from now for the lifetime; the new state in every branch |
| RefreshTokens.AuthService.Logout | backend/app/services/auth_service.py:236-261 | the matching row alone is revoked |
| RefreshTokens.AuthService.RevokeToken | backend/app/repositories/refresh_token_repository.py:55-67 | one row is revoked unless it already was |
| RefreshTokens.AuthService.LogoutAll | backend/app/services/auth_service.py:263-281 | every row of the user is revoked |
| RefreshTokens.AuthService.ResetPassword | backend/app/services/auth_service.py:318-357 | a good link of an active user revokes every row of that user |
| RefreshTokens.AuthService.ConfirmEmailChange | backend/app/services/profile_service.py:143-181 | a good link of an active user revokes every row of that user |
| RefreshTokens.AuthService.ChangePassword | backend/app/services/auth_service.py:359-418 | every row of the user but the presented one is revoked |
| RefreshTokens.AuthService.RevokeSession | backend/app/services/auth_service.py:513-532 | an own row is revoked, any other is not found |
| RefreshTokenProofs.FamilyIsOnePath | backend/app/services/auth_service.py:216-222 | in every reachable table a family is exactly one `replaced_by` path of one user; all but its tail are used and linked, the tail alone is unused |
| RefreshTokenProofs.AtMostOneRedeemable | backend/app/services/auth_service.py:166-222 | at most one token of a family can be redeemed |
| RefreshTokenProofs.RefreshConservesUnused | backend/app/services/auth_service.py:216-222 | a successful refresh trades one unused token for one new one |
| RefreshTokenProofs.RunExtends | backend/app/repositories/refresh_token_repository.py:55-109 | no later request changes a stored used mark, a link, or a revocation mark and reason once written |
| RefreshTokenProofs.IssuedTokenLivesItsLifetime | backend/app/services/auth_service.py:166-222 | a token that a login or a refresh issued at time t is, after any later run, traded for a new one exactly when it is presented with its own hash and user, is neither used nor revoked, its user is active, and it is before t plus the lifetime |
| RefreshTokenProofs.RevocationIsTraced | backend/app/repositories/refresh_token_repository.py:55-109 | over every run a revoked row traces back to a request of its own user, or of who held it, that gives the mark's time and reason |
| RefreshTokenProofs.ReuseRevokesFamily | backend/app/services/auth_service.py:166-180 | in the session state the call leaves, presenting a used or revoked token leaves the whole family revoked, older marks and reasons and all other families untouched |
| RefreshTokenProofs.RolledBackIff | backend/app/core/database.py:32-40 | what a request writes to the token rows is lost exactly when it is a reuse that had something to revoke |
| RefreshTokenProofs.ReuseLeavesNoneIff | backend/app/services/auth_service.py:166-180 | in the stored rows after a reuse, the family has no redeemable token exactly when its tail was already revoked, has expired or belongs to an inactive user |
| RefreshTokenProofs.ReuseEndsFamilyIff | backend/app/services/auth_service.py:166-180 | no later run of requests and of activations of users yields a redeemable token of the family exactly when its tail was already revoked or had expired at the reuse |
| RefreshTokenProofs.SessionOutlivesReuse | backend/app/api/routes/auth.py:50-62 | a run of login, refresh, replay of the old token and a refresh with the new one: the replay is detected and the new token is still traded |
| RefreshTokenProofs.NoSessionUntilLogin | backend/app/services/auth_service.py:263-357 | after sign-out everywhere, a password reset or a confirmed e-mail change, no run without a login of that user yields a redeemable token of theirs |
| RefreshTokenProofs.PasswordChangeKeepsOnlyCurrent | backend/app/services/auth_service.py:380-409 | after a password change an own row is unrevoked exactly when it was and is the genuine presented one |
| RefreshTokenProofs.PasswordChangeEndsOtherSessions | backend/app/services/auth_service.py:380-409 | after a password change, in every later run without a login of that user, a redeemable token of theirs belongs to the family of the token that was kept; there is none when no unused token was kept |
| RefreshTokenProofs.PasswordChangeKeepsSession | backend/app/services/auth_service.py:380-409 | the kept token is as redeemable after the change as before |
| RefreshTokenProofs.LogoutEndsSessionIff | backend/app/services/auth_service.py:236-261 | logging out with a token ends its session exactly when the token is the unused one or the session was over |
| RefreshTokenProofs.RevokeSessionEndsItIff | backend/app/services/auth_service.py:513-532 | so does revoking an own session by the id of a row: it is over afterwards exactly when that row is the unused one or the session was over |
| RefreshTokenProofs.LogoutCanMissSession | backend/app/services/auth_service.py:236-261 | a run of login, refresh and logout with the old token after which the new token is redeemable |
| CircuitBreaker.ProviderCircuitBreaker.IsOpen | backend/app/services/provider_circuit_breaker.py:90-107 | the answer and the half-open transition |
| CircuitBreaker.ProviderCircuitBreaker.RecordSuccess | backend/app/services/provider_circuit_breaker.py:109-124 | the stored state after a success |
| CircuitBreaker.ProviderCircuitBreaker.RecordFailure | backend/app/services/provider_circuit_breaker.py:126-145 | the stored state after a failure |
| CircuitBreaker.CheckKeepsInv | backend/app/services/provider_circuit_breaker.py:90-107 | a check keeps the agreement of the stored circuits with the trace, and its answer is the one the trace calls for |
| CircuitBreaker.FailureKeepsInv | backend/app/services/provider_circuit_breaker.py:126-145 | so does a recorded failure |
| CircuitBreaker.SuccessKeepsInv | backend/app/services/provider_circuit_breaker.py:109-124 | so does a recorded success |
| ProviderRouting.ResolveProviderChain | backend/app/services/provider_service.py:202-267 | by table entries: a named provider is refused exactly when the organization switched it off or nobody knows it; otherwise the organization's own policy decides, else the platform's, else the default alone |
| ProviderRouting.ResolveNames | backend/app/services/provider_service.py:244-263 | the loop yields the usable names of the first occurrences, with their configurations |
| ProviderRouting.DistinctIsFirstOccurrences | backend/app/services/provider_service.py:246-251 | the deduplication keeps the same names, no repeats, in order of first appearance |
| ProviderRouting.PolicyChainIsSound | backend/app/services/provider_service.py:244-267 | a policy's chain is non-empty and repeats no name; it holds exactly the usable names in order, or the default alone when there is none |
| ProviderRouting.PolicyChainIsEligible | backend/app/services/provider_service.py:244-267 | by table entries: the chain holds exactly the policy's non-empty names that neither the organization nor the platform switched off, each with the organization's row if there is one, else the platform's; or the default without a row |
| ProviderRouting.OwnPolicyShadowsPlatform | backend/app/services/provider_service.py:232-239 | tables that differ only in other policies than the organization's own for the operation, the platform's among them, give the same chain |
| ProviderRouting.GenerateWithRouting | backend/app/services/provider_service.py:288-335 | the loop's answer and the circuits and trace it leaves |
| ProviderRouting.ResolveStreamProvider | backend/app/services/llm/gateway.py:81-93 | the first provider whose circuit lets it through |
| ProviderRouting.FirstHealthyServes | backend/app/services/provider_service.py:288-335 | the first provider that is neither open nor fails transiently decides the answer; each earlier one was skipped, or called once with one failure recorded; no later one was touched |
| ProviderRouting.FirstClosedIsPicked | backend/app/services/llm/gateway.py:86-93 | a stream gets the first provider whose circuit is not open, and none exactly when all are; the trace tells each one passed over and the one let through |
| ProviderRouting.CircuitFollowsTrace | backend/app/services/provider_circuit_breaker.py:90-145 | over every serial run a provider is passed over exactly when its trailing failures have reached the threshold and the recovery time since the last of them has not passed; the failure count is that run of failures and the circuit is closed exactly below the threshold |
| ProviderRouting.HealthFollowsTrace | backend/app/services/provider_circuit_breaker.py:90-145 | over every serial run the stored state, counts, last category, last success and last twenty latencies of a provider are what its trace says; half open is exactly a call let through above the threshold and not yet recorded |
| Artifacts.ArtifactService.CreateVersion | backend/app/repositories/artifact_version_repository.py:68-89 | one row is appended to the version table |
| Artifacts.ArtifactService.UpdateArtifact | backend/app/repositories/artifact_repository.py:94-114 | content and pointer of one artifact are written |
| Artifacts.ArtifactService.Create | backend/app/services/artifact_service.py:148-201 | a new artifact with version 1 as its current one |
| Artifacts.ArtifactService.AddVersion | backend/app/services/artifact_service.py:385-433 | the state and version in every branch: refused, deduplicated, appended |
| Artifacts.ArtifactService.RestoreVersion | backend/app/services/artifact_service.py:435-502 | the state in every branch: refused, or the old content appended as a new version |
| Artifacts.ArtifactService.Delete | backend/app/services/artifact_service.py:334-354 | a writable artifact is marked deleted |
| Artifacts.Backfill | backend/alembic/versions/002_orgs_artifacts_policies_audit_tasks.py:174-208 | the loop gives every row a version 1 with its content, and the pointer to it |
| ArtifactProofs.MigrateKeepsInv | backend/alembic/versions/002_orgs_artifacts_policies_audit_tasks.py:174-208 | the migrated tables satisfy the versioning invariant, with every content unchanged and one content per hash |
| ArtifactProofs.NumberedVersion | backend/app/repositories/artifact_version_repository.py:16-25 | a version is found by number exactly for 1..n, and is the one at that place |
| ArtifactProofs.RunKeepsInv | backend/app/services/artifact_service.py:148-470 | every run keeps versions numbered 1..n, the pointer set exactly when n > 0 to an own version with the artifact's content, and the table append-only |
| ArtifactProofs.VersionsAreHashesPlusRestores | backend/app/services/artifact_service.py:399-470 | over any history the versions beyond one per distinct hash are exactly the successful restores |
| ArtifactProofs.VersionsFromNothing | backend/app/services/artifact_service.py:399-470 | from empty tables: versions = distinct hashes + restores |
| ArtifactProofs.OnlyWritesTouch | backend/app/services/artifact_service.py:334-470 | only a permitted call about an artifact that is not deleted changes its row or its versions |
| ArtifactProofs.DeleteIsFinal | backend/app/services/artifact_service.py:334-354 | after a permitted delete the artifact is marked, and no later run changes its content, pointer or versions |
| ArtifactProofs.DeletedIff | backend/app/services/artifact_service.py:334-354 | over any run an artifact is deleted exactly when it was before, or a permitted delete names it |
| ArtifactProofs.GeneratedHasNoVersion | backend/app/repositories/artifact_repository.py:18-42 | what a generator saves by itself has its content, no version, and none to restore |
| ArtifactProofs.AddMakesCurrent | backend/app/services/artifact_service.py:399-418 | an accepted add makes the newest version with the content's hash the current one: an existing one with the table unchanged, or else one more at the end, with the next number |
| ArtifactProofs.AddTwiceIsAddOnce | backend/app/services/artifact_service.py:399-418 | adding the same content again changes nothing |
| ArtifactProofs.OneHashOneContent | backend/app/services/artifact_service.py:399-470 | over any run, versions of one artifact with one hash hold one content |
| ArtifactProofs.AddedContentIff | backend/app/services/artifact_service.py:399-419 | an accepted add leaves the added content exactly when no version of the artifact with the same hash holds other content |
| ArtifactProofs.RestoreBringsBack | backend/app/services/artifact_service.py:448-470 | after any later history, restoring k brings back version k's content as the newest version |
| BackgroundTasks.NewestBelow | backend/app/repositories/task_repository.py:54-71 | the newest row with the key |
| BackgroundTasks.TaskService.Update | backend/app/repositories/task_repository.py:130-164 | only given fields are written and progress is clamped |
| BackgroundTasks.TaskService.CreateTask | backend/app/services/task_service.py:105-166 | the task returned and the table left |
| BackgroundTasks.TaskService.CancelTask | backend/app/services/task_service.py:238-263 | a permitted cancel of an active task sets status, `cancelled_at` and `completed_at` and leaves every other task equal; any other changes nothing |
| BackgroundTasks.TaskService.MarkRunning | backend/app/services/task_service.py:292-301 | an active task is running, with the clamped progress and its first start time; any other is left |
| BackgroundTasks.TaskService.MarkSucceeded | backend/app/services/task_service.py:303-319 | any task that is not cancelled is succeeded, with the clamped progress and this end time |
| BackgroundTasks.TaskService.MarkFailed | backend/app/services/task_service.py:321-340 | any task that is not cancelled is failed, with this end time |
| BackgroundTasks.TaskService.CleanupExpiredTasks | backend/app/repositories/task_repository.py:166-173 | exactly the expired succeeded and cancelled tasks go |
| BackgroundTaskProofs.CallMoves | backend/app/services/task_service.py:238-344 | each call makes only allowed moves, and exactly the expired succeeded and cancelled tasks disappear, at a cleanup |
| BackgroundTaskProofs.ReachableTasksAreSound | backend/app/services/task_service.py:250-344 | in every reachable table `completed_at` is set exactly for terminal tasks, `cancelled_at` exactly for cancelled ones, progress is in 0..100, and no two tasks tie on a key |
| BackgroundTaskProofs.CancelledIff | backend/app/services/task_service.py:250-263 | over any run a kept task that was active is cancelled exactly when a permitted cancel of it comes before every report on it, and then at the time of the first such cancel |
| BackgroundTaskProofs.StatusFollowsCalls | backend/app/services/task_service.py:250-340 | over any run the calls decide a kept active task's status: cancelled if such a cancel comes first, otherwise the last report's, otherwise running as soon as it was marked so |
| BackgroundTaskProofs.TerminalStaysTerminal | backend/app/services/task_service.py:250-340 | over any run a cancelled task is unchanged, a terminal one stays terminal and is never cancelled, while it is kept |
| BackgroundTaskProofs.StartIsWrittenOnce | backend/app/services/task_service.py:292-301 | over any run a start time once written is never changed |
| BackgroundTaskProofs.FailureCanTurnIntoSuccess | backend/app/services/task_service.py:303-319 | a run in which a failed task becomes succeeded |
| BackgroundTaskProofs.TerminalStatusChangesIff | backend/app/services/task_service.py:303-340 | a call changes the status of a kept terminal task exactly when it reports success of that task and it failed, or failure and it succeeded |
| BackgroundTaskProofs.TerminalStatusHoldsIff | backend/app/services/task_service.py:303-340 | over any run, a terminal task that is kept holds its status throughout exactly when no call overturns it |
| BackgroundTaskProofs.SameKeySameTask | backend/app/services/task_service.py:105-166 | two creations with one key, the second within the retention period of the task's creation, return the same task, whatever happens in between |
| BackgroundTaskProofs.KeyFindsTaskIff | backend/app/services/task_service.py:105-166 | a permitted creation returns the task its key stands for exactly when that has not ended longer ago than tasks are retained; otherwise it makes a new queued one |
| ActivityFeed.AppendRows | backend/app/services/dashboard_service.py:284-294 | one item per row, in order |
| ActivityFeed.Gather | backend/app/services/dashboard_service.py:272-392 | the merged sources outrank every row they leave out by a full feed |
| ActivityFeed.Activity | backend/app/services/dashboard_service.py:267-395 | the feed is a newest-20 of all in-range rows of all tables |
| ActivityFeed.NewestOfCover | backend/app/services/dashboard_service.py:393-395 | cutting merged truncated sources loses nothing the feed could show |
| ActivityFeed.FeedEqualsSortingEverything | backend/app/services/dashboard_service.py:267-395 | the feed's timestamps are those of sorting everything and cutting once, and no omitted row is newer than an included one |
| ActivityFeed.FeedIsScoped | backend/app/services/dashboard_service.py:61-64 | a personal feed shows only the user's own rows outside every organization, an organization's feed only its own; no deleted artifact, nothing out of range, each item with its row's fields |
| ActivityFeed.ShortFeedShowsAll | backend/app/services/dashboard_service.py:267-395 | a feed of fewer than twenty items shows every row in scope and in range |
| Organizations.OrganizationService.Create | backend/app/services/organization_service.py:74-109 | a new organization with its creator as owner exactly when the slug is valid, free and fits its column; otherwise nothing |
| Organizations.OrganizationService.Delete | backend/app/services/organization_service.py:167-186 | the organization is marked deleted exactly when it exists, is not deleted and the caller is one of its owners |
| Organizations.OrganizationService.AddMember | backend/app/services/organization_service.py:217-255 | when a member is added, and what is added |
| Organizations.OrganizationService.UpdateMember | backend/app/services/organization_service.py:257-294 | when a role changes, and to what |
| Organizations.OrganizationService.RemoveMember | backend/app/services/organization_service.py:296-327 | when a member goes |
| Organizations.ProfileService.ConfirmEmailChange | backend/app/services/profile_service.py:143-181 | a confirmed change gives the user the new address alone, unless it is another user's |
| Organizations.InvitationService.Create | backend/app/services/invitation_service.py:47-111 | when an invitation is made, and its content |
| Organizations.InvitationService.Resend | backend/app/services/invitation_service.py:134-182 | when token and expiry are replaced |
| Organizations.InvitationService.Revoke | backend/app/services/invitation_service.py:184-215 | when an invitation is revoked |
| Organizations.InvitationService.Accept | backend/app/services/invitation_service.py:217-273 | the state in every branch; on success one membership with the invited role |
| Organizations.InvitationService.Decline | backend/app/services/invitation_service.py:275-311 | the state in every branch |
| OrganizationProofs.OwnersAfterChange | backend/app/services/organization_service.py:275-318 | a role change or removal moves the owner count by what that one member contributed |
| OrganizationProofs.NeverOwnerless | backend/app/services/organization_service.py:204-318 | after any serial run every organization has an owner and nobody two memberships in it |
| OrganizationProofs.OnlyOwnersDemoteOwners | backend/app/services/organization_service.py:204-318 | ownership is taken away only by an owner's update or removal of that member |
| OrganizationProofs.OwnershipIsTraced | backend/app/services/invitation_service.py:55-84 | every owner traces back to a call that made this user an owner: creating the organization, an add or role change by someone who was an owner when acting, or accepting an owner's invitation while having the address it was sent to |
| OrganizationProofs.InvitationAfterCall | backend/app/services/invitation_service.py:134-311 | no call changes an invitation's organization, address, role or sender, or anything of one that is not pending |
| OrganizationProofs.SettledInvitationIsFrozen | backend/app/services/invitation_service.py:134-311 | an invitation that has left PENDING never changes again |
| OrganizationProofs.OtherCallsKeepOneLive | backend/app/services/invitation_service.py:70-72 | every call but a resend keeps at most one live invitation per address |
| OrganizationProofs.ResendKeepsOneLiveIff | backend/app/services/invitation_service.py:145-163 | a resend keeps that bound exactly when no other invitation for the address is live |
| OrganizationProofs.ResendRevivesExpired | backend/app/services/invitation_service.py:150-163 | inviting again after expiry and then resending the old invitation leaves two live |
| OrganizationProofs.TwoLiveAreReachable | backend/app/services/invitation_service.py:150-163 | a run from empty tables that ends with two live invitations for one address |
| OrganizationProofs.AlwaysOneLiveIff | backend/app/services/invitation_service.py:145-163 | over any run, no address ever has two live invitations exactly when no resend goes through beside another live one |
| OrganizationRights.RolesAreALadder | backend/app/services/rbac.py:27-60 | the role table is a ladder: each permission has a lowest role, and exactly that one and those above it have it |
| OrganizationRights.DeletedIff | backend/app/services/organization_service.py:167-186 | over every run an organization is deleted exactly when some call to delete it came from a user who owned it at that moment |
| OrganizationRights.OnlyManagersChangeRoles | backend/app/services/organization_service.py:204-327 | a call that changes anybody's role in an organization creates it, is this user's acceptance of an invitation, or comes from one of its owners or admins while it is not deleted |
| OrganizationRights.CreateGoesThroughIff | backend/app/services/organization_service.py:74-109 | an organization is made exactly with a valid slug of at most 100 characters that no organization has had, and its creator alone gets a role, owner |
| OrganizationRights.AddGoesThroughIff | backend/app/services/organization_service.py:217-255 | an add goes through exactly for an owner or admin (an owner, to add an owner) and a registered user who is no member; it changes that one role alone |
| OrganizationRights.UpdateGoesThroughIff | backend/app/services/organization_service.py:257-294 | a role change goes through exactly for an owner or admin (an owner, where an owner is made or changed) and a member whose demotion would leave another owner; it changes that one role alone |
| OrganizationRights.RemoveGoesThroughIff | backend/app/services/organization_service.py:296-327 | a removal goes through exactly for an owner or admin and a member, who if an owner is removed by an owner and is not the last; it changes that one role alone |
| OrganizationRights.OnlyManagersTouchInvitations | backend/app/services/invitation_service.py:55-311 | whoever makes or changes an invitation holds its token, or is an owner or admin of its organization |
| OrganizationRights.InviteGoesThroughIff | backend/app/services/invitation_service.py:47-91 | an invitation is made exactly by an owner or admin (an owner, for an owner) for an address that is no member's and has no pending, unrevoked, unexpired one |
| OrganizationRights.ResendAndRevokeGoThroughIff | backend/app/services/invitation_service.py:134-205 | a resend or a revocation goes through exactly for an owner or admin of the invitation's organization while it is pending (and, to resend, not revoked), and changes that invitation alone |
| OrganizationRights.AcceptAdmitsIff | backend/app/services/invitation_service.py:217-252 | after any run accepting makes a member exactly when the caller holds the token of a pending, unrevoked, unexpired invitation to the caller's address and is no member; then this member, with the invited role |
| OrganizationRights.DeclineSettles | backend/app/services/invitation_service.py:275-299 | declining turns an open invitation into a declined one, or an expired one once it has run out, and does nothing else |
| OrganizationRights.SettledNeverAdmits | backend/app/services/invitation_service.py:229-240 | presenting the token of an accepted, declined, revoked or expired invitation changes nothing, whatever was called in between |
| OrganizationRights.RunKeepsOneAddress | backend/app/services/profile_service.py:143-181 | over every run nobody has two addresses |
| OrganizationRights.EmailChangeGoesThroughIff | backend/app/services/profile_service.py:143-181 | an address that is free or the user's own replaces the user's old one, and nobody else's moves; another user's is refused |
| Slugs.SlugIsJoinedRuns | backend/app/services/organization_service.py:38-46 | the slug is the maximal runs of `[a-z0-9]` of the lowercased input joined by single hyphens, and there is none exactly when there are no runs |
| Slugs.SlugIsIdempotent | backend/app/services/organization_service.py:38-46 | a slug normalizes to itself |
| AuditRedaction.RedactSettles | backend/app/utils/audit_redaction.py:22-49 | the output holds no sensitive key with an unredacted value, no sensitive or long text, and nothing below the depth limit |
| AuditRedaction.UnchangedIffSettled | backend/app/utils/audit_redaction.py:22-49 | a value comes out unchanged exactly when it is already so |
| AuditRedaction.RedactIsIdempotent | backend/app/utils/audit_redaction.py:22-49 | redacting twice is redacting once, at every starting depth |
| AuditRedaction.RedactBoundsNesting | backend/app/utils/audit_redaction.py:24-40 | the output's nesting is bounded by the depth that is left |
| AuditRedaction.PlacesAreKept | backend/app/utils/audit_redaction.py:22-49 | wherever a path leads through no sensitive key, the output has at the same path the same scalar, the text or its mark, or a container of the same size and keys; and the truncation mark one level below the limit |
| AuditRedaction.MarkTellsLength | backend/app/utils/audit_redaction.py:45-46 | the mark of a long text tells its length |

## Left out

- Concurrent transactions: calls are atomic and serial, so the unlocked owner count, the breaker's read-modify-write and the worker's cached row can race outside this model.
- RefreshTokenProofs.ReuseRevokesFamily: is about the session state only and promises nothing about later requests, because the rollback undoes it; what holds of the stored rows is stated by the lemmas after it.
- Commits outside the stream's producer: a message it has added but not committed stays in the session, and whether `get_db` keeps it at the end of the request is not modelled; "committed" means by the producer.
- A commit that raises is taken not to have happened.
- Bytes and JSON: chunks are decoded text, and a JSON text is known by which key holds which string; payloads are on one line and are no object before their last character.
- Token signing, password hashing and hash functions: tokens and hashes are opaque values; the stores of one-time links are the outcome of their check.
- The rate limiter when Redis fails, and clocks that go back or lie before the epoch.
- The breaker's expiry of stored state and its fallback to memory: one reliable map is the store. Average latency is not computed.
- Routing arguments other than the chain: token estimates, output limits and quotas.
- Columns that only carry data: audit events, artifact metadata and authors, task results and error texts, e-mail sending, onboarding flags.
- Organization renaming, archiving, tags, favourites, and the listing endpoints.
- The dashboard's counts and findings; which of several rows with equal timestamps a query returns is left open.
- Letter case and white space: lowercasing acts character by character and is a parameter with the two facts about ASCII it needs; e-mail addresses are already lower case.
- The two redaction patterns are parameters; dict keys are strings, and texts are shorter than 10^400 characters.
