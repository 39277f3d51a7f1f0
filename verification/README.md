# Verified model of the memory hub's stateful core

This project models the part of the memory hub that keeps state or computes over it in ways
that are easy to get wrong, and proves what that part is for. Everything is Dafny 4; run
`dafny verify dfyconfig.toml`.

| files | what they model |
|---|---|
| `Instants`, `DateTexts` | points in time, the two ways in which the source asks whether one has passed, and the date texts that the SQL compares |
| `TokenTables`, `TokenStore`, `TokenEffects` | the OAuth tables of the SQLite metadata store, one method per transaction, and what each does to every single row |
| `OAuthProtocol`, `OAuthInvariant`, `OAuthSteps`, `OAuthIssue`, `OAuthTheorems` | refresh, code redemption and revocation as processes that make one store call at a time and interleave freely; the invariant of every run, and what follows from it |
| `OAuthLostTokens`, `OAuthTombstones`, `OAuthRevocations`, `OAuthWitness` | access tokens lost with a request that died; what kills a family, and that it does; which revocations last; runs that reach these situations |
| `OAuthEffects` | over runs: exactly which steps revoke or consume what, and that whoever is granted something presented it |
| `TokenEndpoint` | the request handlers as programs over the store, with other requests and the clock moving between any two of their store calls, shown to be runs of those processes |
| `ProviderStates`, `ProviderEffects` | pending logins at an identity provider: quotas, cleanup, single use |
| `SupersessionGraph`, `Handoffs`, `Facts`, `Relationships` | the three "who replaced whom" graphs of the store, over all runs |
| `HandoffEffects`, `FactEffects`, `RelationshipEffects` | what their calls change, column by column, and what they leave alone |
| `ChunkPayload`, `Conversations`, `AppendRuns`, `AppendWitness` | insertion and its conflicts, append by compare-and-swap, the chunk index state kept in two copies, and runs that lose an append or a mark |
| `ChunkEffects`, `ConversationEffects` | which chunks a list of ids means, what the conversation calls change, and how long a session stays imported |
| `FirstOccurrences`, `GraphExtraction`, `GraphEffects` | graph extraction as a fold with sets of seen ids, and its result against what the patterns match |
| `BracketWork`, `ProseBlocks` | the Markdown complexity estimate and the blocks it is applied to |
| `KeyScan` | the scan for protected keys over a possibly cyclic object graph |
| `LogInspection`, `LogReading`, `SessionDiscovery` | reading a log through two windows, inspecting it, and choosing the latest session |
| `Filters` | search filters and their split between provider and caller |

A stateful source class is a Dafny class whose fields are its tables. Each of its methods is
proved equal to a function on those tables, and the run-level theorems are about that function.
Requests and concurrent writers are state machines: `IsRun` says that a sequence of states starts
empty and each action leads to the next state.

Time is a number of seconds since 1970-01-01 00:00 UTC, which a `Tick` (or the environment) moves on.
A hash or digest stands for what it was computed from, so distinct inputs have distinct hashes.
Random tokens and ids are new when drawn: `create_auth_token` would clear `revoked_at` if a token hash came up twice.

## Findings

* Expiry is stored as `2024-05-01T11:00:00+00:00` (`memory/api/connect_service.py:687-688`), and the
  SQL compares that text with the text `2024-05-01 12:00:00` of `CURRENT_TIMESTAMP`. 'T' sorts after
  the blank, so on the UTC day of expiry nothing has expired yet (`DateTexts.SqlComparesDays`). An expired
  authorization code, provider state or refresh token is still consumed exactly on the day of its
  expiry (`TokenTables.ExpiredCodeIsConsumedIffSameDay`,
  `ProviderStates.ExpiredStateIsConsumedIffSameDay`, `TokenTables.ExpiredTokenIsConsumedIffSameDay`),
  hours late for instance (`OAuthWitness.LateRedemptionIsReached`,
  `ProviderStates.StateUsedHoursLate`),
  and states that expired earlier the same day use up the quota
  (`ProviderStates.GlobalQuotaCountsExpiredToday`). Refreshing is exact all the same, because its lookup
  compares instants (`TokenEndpoint.Endpoint.RefreshTokenResponse`).
* `docs/connect_ui.md:174-175` says that revoking by an access token revokes the refresh-token
  family. The code revokes the rows present and writes no tombstone on that path
  (`memory/backend/metadata_store.py:1401-1466`). The family is revoked at that moment, and it stays
  revoked in every continuation exactly when it had a tombstone already or no request is between
  consuming a token of the family and creating its successor:
  `OAuthRevocations.AccessRevocationLastsIff`. A run in which the very next step creates a usable
  refresh token of the family: `OAuthWitness.RevocationUndoneIsReached`.
* A request that dies between its two creations leaves an access token that nothing revokes until
  its own id is presented for revocation: `OAuthLostTokens.LostTokenOutlivesFamily`. A dead family
  with nothing in flight has a live token exactly when one was lost so:
  `OAuthLostTokens.DeadFamilyLiveIffLost`. A run gets there: `OAuthWitness.LostTokenIsReached`.
* Two honest refreshes at once kill the family: `OAuthTombstones.ConcurrentRefreshesKillFamily`.
* Two conflicting relationships in one batch supersede each other: among batches of distinct
  relationships that arrive unsuperseded this is the only way in which an upsert makes a cycle
  (`Relationships.UpsertAcyclicIffNoRivals`). A relationship that arrives superseded by itself makes
  one too (`Relationships.SelfSupersededArrivalMakesCycle`). Whatever the batch, it keeps the graph
  acyclic exactly when no row that stays leads back to itself over the rows written before it, and
  no relationship, when it supersedes, leads to a row that it hits: `Relationships.UpsertAcyclicIff`.
* A fact that arrives already superseded can close a cycle, for instance one superseded by the fact
  it corrects (`Facts.SupersededArrivalClosesCycle`). It does so exactly when following the stored
  links from its superseder leads to itself or to a fact it corrects: `Facts.InsertOneAcyclicIff`.
  `supersede_fact` points a fact anywhere and checks nothing; over runs that use it too the
  condition is `Facts.ChangesAcyclicIff`.
* `create_handoff` can store a predecessor that the supersession table does not know:
  `Handoffs.CreateKeepsInverseIff`. From then on the stored fields never match the table again:
  `Handoffs.FieldsInvertOverRuns`.
* An append writes back the chunk states its caller read, and the compared hash does not cover them.
  So a mark made in between survives exactly when the appended payload carries the marked state
  already (`Conversations.MarkSurvivesAppendIff`), and an append that extends the chunks it read puts
  every row back to what it was at the read (`AppendRuns.AppendRestoresRows`). In a run a conversation
  goes from fully indexed to not: `AppendWitness.AppendLosesMark`.
* `insert` overwrites without comparing: written from an earlier read, it keeps the appends that
  succeeded since exactly when what it adds begins with them
  (`AppendRuns.StaleOverwriteKeepsAppendsIff`). A run that loses one: `AppendWitness.OverwriteLosesAppend`.
* When the tail window of a log holds no lifecycle record, a shutdown between the windows is not
  seen: `LogInspection.UnseenShutdown`.
* Graph extraction raises for a name that is empty or too long after cleaning, but extracting an
  appended suffix on its own raises no more often than extracting everything again:
  `GraphExtraction.FullSucceedsIff`.

## Model

| member | source | states |
|---|---|---|
| TokenTables.GrantedScopesIdempotent | memory/api/oauth_authorization.py:439-441 | normalizing granted scopes again, as every rotation does, changes nothing |
| TokenTables.RevokeFamilyKills | memory/backend/metadata_store.py:1366-1399 | family revocation tombstones the family, revokes all its rows and their access tokens, and leaves every other family's rows as they were |
| TokenTables.RevokeAuthorizationCloses | memory/backend/metadata_store.py:1401-1466 | revoking by an access token closes over every family with a row that points at it, and writes no tombstone |
| TokenTables.LateRowIsRevokedIffTombstoned | memory/backend/metadata_store.py:1287-1318 | a row that arrives late in a revoked family is born revoked, and takes its access token with it, exactly when the family has a tombstone |
| TokenTables.ExpiredCodeIsConsumedIffSameDay | memory/backend/metadata_store.py:1246-1256 | a presentable code is consumed exactly when it is unexpired or it is still the day of its expiry |
| TokenTables.ExpiredTokenIsConsumedIffSameDay | memory/backend/metadata_store.py:1351-1358 | the same for a usable refresh token at its consumption |
| TokenTables.CodeRedeemedHoursLate | memory/backend/metadata_store.py:1246-1256 | a code for five minutes, made at ten o'clock, is redeemed at noon |
| OAuthWitness.LateRedemptionIsReached | memory/backend/metadata_store.py:1246-1256 | a run in which an expired code is redeemed two hours after its authorization |
| Instants.LaterText | memory/api/connect_service.py:687-688 | a stored expiry text is greater than the current text exactly when its date is not earlier |
| DateTexts.SqlComparesDays | memory/backend/metadata_store.py:1255-1255 | for any two instants up to the year 9999, comparing the stored expiry text with the text of the current time, calendar dates written out, is comparing their days; times of day play no part |
| DateTexts.DateTextsOrder | memory/api/connect_service.py:687-688 | date texts with leading zeros order as the dates do |
| DateTexts.DatesOrderAsDays | memory/api/connect_service.py:687-688 | the calendar dates, leap years included, order as the numbers of days |
| Instants.OpenPastExpiryIffSameDay | memory/backend/metadata_store.py:1255-1255 | the text comparison takes an expired instant for open exactly on its own day, and an unexpired one always |
| TokenStore.SQLiteTokenStore.CreateAuthorizationCode | memory/backend/metadata_store.py:1103-1134 | a code is stored once; a known code is refused and nothing changes |
| TokenStore.SQLiteTokenStore.ConsumeAuthorizationCode | memory/backend/metadata_store.py:1236-1261 | only an unspent code of the same client, redirect URI and challenge is consumed, at the latest on its day of expiry, and then it is spent |
| TokenStore.SQLiteTokenStore.CreateAuthToken | memory/backend/metadata_store.py:779-834 | the row is inserted or reset, revocation included |
| TokenStore.SQLiteTokenStore.CreateOAuthRefreshToken | memory/backend/metadata_store.py:1263-1332 | insertion with the tombstone check, in one transaction; a known token is refused |
| TokenStore.SQLiteTokenStore.OAuthRefreshToken | memory/backend/metadata_store.py:1334-1346 | the stored row, if any |
| TokenStore.SQLiteTokenStore.ConsumeOAuthRefreshToken | memory/backend/metadata_store.py:1348-1364 | consumes a row once, only while unconsumed and unrevoked, and at the latest on its day of expiry |
| TokenStore.SQLiteTokenStore.RevokeOAuthRefreshTokenFamily | memory/backend/metadata_store.py:1366-1399 | tombstone, access tokens and rows in one transaction, and whether a row changed |
| TokenStore.SQLiteTokenStore.RevokeOAuthRefreshToken | memory/backend/metadata_store.py:1468-1472 | revokes the family of the presented token; an unknown token changes nothing |
| TokenStore.SQLiteTokenStore.RevokeAuthToken | memory/backend/metadata_store.py:1008-1040 | marks one access token revoked |
| TokenStore.SQLiteTokenStore.RevokeOAuthAuthorizationForAccessToken | memory/backend/metadata_store.py:1401-1466 | the token, the tokens linked in its families and the rows of its families are revoked |
| TokenEffects.CodeIsConsumedIff | memory/backend/metadata_store.py:1246-1256 | a code is consumed exactly when its own client presents it with its own redirect URI and challenge, unspent and by its day of expiry |
| TokenEffects.ConsumingCodeChanges | memory/backend/metadata_store.py:1236-1261 | consumption spends that code, returns it as issued, and touches no other row of any table |
| TokenEffects.CreatingCodeChanges | memory/backend/metadata_store.py:1103-1134 | a new code is stored as given and nothing else changes |
| TokenEffects.TokenIsConsumedIff | memory/backend/metadata_store.py:1348-1364 | a refresh token is consumed exactly when neither consumed nor revoked, by its day of expiry; no other row of any table changes |
| TokenEffects.CreatingTokenChanges | memory/backend/metadata_store.py:1263-1332 | a new refresh token has what it is created with; only a dead family revokes it, and then of all access tokens only the one it comes with |
| TokenEffects.CreatingAccessChanges | memory/backend/metadata_store.py:779-834 | the access token is stored live as given and no other row changes |
| TokenEffects.RevokingIdChanges | memory/backend/metadata_store.py:1008-1040 | of all rows only the access token with that id is revoked |
| TokenEffects.FamilyRevocationOfAccess | memory/backend/metadata_store.py:1376-1390 | revoking a family revokes an access token exactly when a row of that family points at it |
| TokenEffects.OtherFamiliesKeepAccess | memory/backend/metadata_store.py:1376-1390 | an access token that only rows of other families point at stays as it is |
| TokenEffects.FamilyRevocationOfRows | memory/backend/metadata_store.py:1391-1399 | the family's unrevoked rows are revoked, the others keep their time, other families' rows stay, and the result says whether one was revoked |
| TokenEffects.AuthorizationFoundIff | memory/backend/metadata_store.py:1401-1434 | revocation by an access token does anything exactly when the token is stored and a refresh token points at it |
| TokenEffects.AuthorizationOfAccess | memory/backend/metadata_store.py:1435-1452 | it revokes the presented access token and the live ones linked with it in one family, and no other |
| TokenEffects.AuthorizationOfRow | memory/backend/metadata_store.py:1453-1466 | it revokes the unrevoked refresh tokens of the families that point at the presented one, and no other |
| TokenEffects.GrantedAsNamed | memory/api/oauth_authorization.py:439-441 | a scope is granted exactly when it is named and not blank, or nothing is named and it is one of the two defaults |
| OAuthIssue.StepKeepsInv | memory/api/oauth_authorization.py:333-432 | every step of every request, and of the clock, keeps the protocol invariant and clears no mark |
| OAuthIssue.RunKeepsInv | memory/api/oauth_authorization.py:152-432 | the invariant holds in every state of every interleaving |
| OAuthIssue.RunGrows | memory/backend/metadata_store.py:1236-1472 | along a run rows keep their identity, consumption and revocation are never undone, tombstones stay |
| OAuthTheorems.DeadFamilyIsRevoked | memory/backend/metadata_store.py:1281-1399 | once a family is tombstoned, in every later state of every interleaving all its rows and all access tokens linked to them are revoked |
| OAuthTheorems.LiveTokenOfDeadFamily | memory/api/oauth_authorization.py:369-432 | a live access token of a dead family belongs to an unfinished request on that family, or was lost by a request that died holding it |
| OAuthTheorems.DeadFamilyHasNoLiveToken | memory/api/oauth_authorization.py:369-432 | when the requests on a dead family have finished and none died holding a token issued in it, no access token ever issued in the family is live |
| OAuthTheorems.RevocationSparesHeldToken | memory/api/oauth_authorization.py:381-421 | a family revocation does not reach an access token that a request still holds |
| OAuthLostTokens.LostTokenOutlivesFamily | memory/api/oauth_authorization.py:381-421 | over every run a token lost while live is live in a later state exactly when no revocation of that very id came in between |
| OAuthLostTokens.DyingLosesTheToken | memory/api/oauth_authorization.py:381-421 | a request that dies holding a token changes no row: a live token is lost live |
| OAuthLostTokens.DeadFamilyLiveIffLost | memory/api/oauth_authorization.py:369-432 | with the family dead and nothing in flight on it, a token issued in it is live exactly when some request died holding one that was not revoked since |
| OAuthWitness.LostTokenIsReached | memory/api/oauth_authorization.py:333-432 | a run ends with a dead family, nothing in flight on it, and a lost live token |
| OAuthTombstones.TombstoneHasCause | memory/api/oauth_authorization.py:190-356 | in every run a family is tombstoned only by a request that earlier presented a spent token with the right client, lost its token to a race or to the end of its day of expiry between lookup and consumption, or was asked to revoke a token of the family |
| OAuthTombstones.CauseKillsFamily | memory/api/oauth_authorization.py:190-356 | the converse, for all three causes: in every run the request gets no token, and when it ends without dying the family is tombstoned and revoked |
| OAuthTombstones.ConcurrentRefreshesKillFamily | memory/api/oauth_authorization.py:345-356 | of two requests that looked up the same usable token the second to consume tombstones the family, while the first has its pair still to create |
| OAuthEffects.StepRevokesAccessIff | memory/api/oauth_authorization.py:190-432 | a step revokes a live access token exactly when it kills a family with a row that points at it, revokes by an access token of the same authorization, revokes or compensates its id, or answers with it in a dead family |
| OAuthEffects.LiveUntilRevoked | memory/api/oauth_authorization.py:190-432 | over every run a live access token is live in a later state exactly when no step in between was one of these |
| OAuthEffects.KillingSparesOtherFamilies | memory/backend/metadata_store.py:1366-1399 | when a family is killed in a run, access tokens that only other families' rows point at stay live, and the killer had a cause against this family |
| OAuthEffects.StepOnRowIff | memory/backend/metadata_store.py:1348-1466 | a step changes a stored refresh token only by revoking it for its own family or by consuming it for the request that presented it, and in no other column |
| OAuthEffects.CodeGrantWasPresented | memory/api/oauth_authorization.py:167-186 | in every run whoever holds or was answered a grant from a code presented it with its own client, redirect URI and challenge, and the grant is what the code stands for |
| OAuthEffects.RefreshGrantWasPresented | memory/api/oauth_authorization.py:333-366 | in every run whoever holds or was answered a grant from a refresh token asked for it as its own client while it was unspent, unrevoked and unexpired, and the grant goes on from its family and row |
| OAuthEffects.FamilyStandsForItsCode | memory/api/oauth_authorization.py:357-407 | in every run the refresh and access tokens of a family have, column by column, the client, owner, resource and scopes of the code that started it |
| OAuthWitness.RaceIsReached | memory/api/oauth_authorization.py:345-356 | a run reaches two such requests |
| OAuthRevocations.RevocationLastsIff | memory/backend/metadata_store.py:1287-1318 | a family that is revoked at the end of a run is revoked after every continuation exactly when it has a tombstone or no request holds a grant for a further token of it |
| OAuthRevocations.IdleRevocationLasts | memory/backend/metadata_store.py:1263-1332 | a family that is revoked while nobody holds on it stays revoked and idle in every later state of every run, without a tombstone |
| OAuthRevocations.HolderBringsRow | memory/backend/metadata_store.py:1263-1332 | without a tombstone, any run that ends with a holder continues to one with a usable row of the family |
| OAuthRevocations.AccessRevocationLastsIff | memory/backend/metadata_store.py:1401-1466 | in every run revoking by an access token revokes the family of each row that points at it, and that lasts exactly under the same condition |
| OAuthWitness.RevocationUndoneIsReached | memory/backend/metadata_store.py:1401-1466 | a run in which a revocation by access token revokes the family and the next step creates a usable row of it |
| OAuthTheorems.TokenConservation | memory/backend/metadata_store.py:1348-1364 | in every reachable state a family has at most one of: a usable refresh token, a request that consumed one and has not created its successor |
| OAuthTheorems.RotationsFormOneChain | memory/api/oauth_authorization.py:333-366 | the rows of a family are one chain without repetition that starts at its code; each token answered the presentation of the one before it; only the newest can be unconsumed |
| OAuthTheorems.OneAnswerPerCredential | memory/api/oauth_authorization.py:167-186 | no two requests are ever answered for the same code or the same refresh token |
| OAuthTheorems.ReplayKillsFamily | memory/api/oauth_authorization.py:343-356 | a request that presents a spent refresh token with the matching client, spent before its lookup or between lookup and consumption, issues nothing, and when it ends the family is tombstoned and revoked |
| OAuthTheorems.FamilyKeepsItsGrant | memory/api/oauth_authorization.py:357-407 | every row of a family has the client, owner, resource and scopes of the one code that started it, its access tokens have that owner and those scopes, and the code started no other family |
| TokenEndpoint.Endpoint.IssueAccessAndRefreshTokens | memory/api/oauth_authorization.py:369-432 | whatever others do in between, the two creations with compensation are steps of the protocol and end with the pair issued, or rejected with the first creation undone |
| TokenEndpoint.Endpoint.RefreshTokenResponse | memory/api/oauth_authorization.py:333-366 | whatever others do between its calls, the handler's calls are steps of the protocol and end answered or rejected; only a token usable and unexpired at the lookup, presented by its client, is answered, and it is answered if nobody comes between lookup and consumption; a spent token of the client gets no answer and its family is dead; an unknown, foreign or expired one changes nothing |
| TokenEndpoint.Endpoint.CodeResponse | memory/api/oauth_authorization.py:167-186 | the handler's calls are steps of the protocol; it answers exactly when the code was stored for this client, redirect URI and challenge, unspent and by its day of expiry, and creation succeeds |
| TokenEndpoint.Endpoint.OAuthRevoke | memory/api/oauth_authorization.py:190-206 | the revocation attempts, with others in between, are steps of the protocol and end answered; a refresh token's family is dead by then whatever others did; an access token found by its hash has its whole authorization revoked; a text that is neither changes only the row of the token id that it claims |
| TokenEndpoint.ServedReplayKillsFamily | memory/api/oauth_authorization.py:343-356 | whoever serves a spent token of its client, with whatever others do in between, ends rejected with the family tombstoned and revoked |
| TokenEndpoint.ServedRevocationKillsFamily | memory/api/oauth_authorization.py:190-206 | whoever serves the revocation of a refresh token, with whatever others do in between, ends with the family tombstoned and revoked |
| ProviderStates.ProviderStateStore.CreateOauthProviderState | memory/backend/metadata_store.py:1136-1202 | cleanup, both quota checks and insertion in one transaction, with expiry as the SQL compares it; a refusal undoes the cleanup too |
| ProviderStates.ProviderStateStore.ConsumeOauthProviderState | memory/backend/metadata_store.py:1204-1234 | a state is consumed, and its data returned, exactly when unconsumed, presented for its own provider and browser, and its day of expiry is not over |
| ProviderStates.QuotasHold | memory/backend/metadata_store.py:1156-1181 | in every run, whatever time passes, the states counted as active, and so the unexpired ones, never exceed the per-browser or the global limit |
| ProviderStates.EachStateIsUsedOnce | memory/backend/metadata_store.py:1204-1234 | every successful use answers an earlier creation for the same provider and browser, by the end of its day of expiry, and uses plus an unused row never outnumber creations |
| ProviderStates.ActiveStatesStay | memory/backend/metadata_store.py:1156-1161 | cleanup and other calls never remove an active state: until its day of expiry is over or it is consumed its own browser and provider can consume it |
| ProviderStates.ExpiredStateIsConsumedIffSameDay | memory/backend/metadata_store.py:1208-1217 | an unused state is consumed by its own provider and browser exactly when it is unexpired or it is still the day of its expiry |
| ProviderStates.ActiveIsUnexpiredOrExpiredToday | memory/backend/metadata_store.py:1162-1181 | the quotas count the unexpired states and those that expired earlier the same day |
| ProviderStates.GlobalQuotaCountsExpiredToday | memory/backend/metadata_store.py:1162-1172 | a creation is refused for the global quota exactly when these two together reach it |
| ProviderStates.StateUsedHoursLate | memory/backend/metadata_store.py:1136-1234 | a state for ten minutes, made at ten o'clock, is consumed at noon, and keeps another from being made until midnight |
| ProviderEffects.CreationOutcome | memory/backend/metadata_store.py:1156-1202 | a creation is refused for the quota of all, then for the quota of the browser, which counts its own rows alone, then for the state itself, and otherwise succeeds |
| ProviderEffects.CreationChanges | memory/backend/metadata_store.py:1156-1202 | a creation keeps the rows that count, removes all others and adds the state as given; a refusal changes nothing |
| ProviderEffects.ConsumptionChanges | memory/backend/metadata_store.py:1204-1234 | a state is marked exactly when stored for this provider and browser, unconsumed and by its day of expiry; nothing else changes |
| ProviderEffects.BrowserQuotaIsOwn | memory/backend/metadata_store.py:1173-1181 | rows of other browsers never use up a browser's quota |
| SupersessionGraph.AcyclicIffWalksEnd | memory/backend/metadata_store.py:2579-2667 | following replacements ends from every record exactly when there is no cycle |
| SupersessionGraph.HeadEnds | memory/backend/metadata_store.py:2579-2667 | on an acyclic graph the walk from any record reaches an unreplaced record within as many steps as there are links |
| SupersessionGraph.SinkUpdateKeepsAcyclic | memory/backend/metadata_store.py:2579-2608 | pointing any set of records at one unreplaced record makes no cycle |
| SupersessionGraph.RedirectAcyclicIff | memory/backend/metadata_store.py:2640-2667 | pointing unreplaced records at any record closes a cycle exactly when that record leads to one of them |
| SupersessionGraph.LinkKeepsAcyclicIff | memory/backend/metadata_store.py:1887-1925 | linking an unreplaced record to another closes a cycle exactly when that one already leads to it |
| SupersessionGraph.ChainsAreDisjoint | memory/backend/metadata_store.py:589-599 | with unique replacements two records share their end exactly when one replaced the other, directly or through others |
| Handoffs.HandoffStore.CreateHandoff | memory/backend/metadata_store.py:2184-2220 | stores a valid packet under a new id, else changes nothing |
| Handoffs.HandoffStore.GetHandoff | memory/backend/metadata_store.py:2222-2248 | the packet of the project, with status and successor derived from the supersession table |
| Handoffs.HandoffStore.SupersedeHandoff | memory/backend/metadata_store.py:2296-2340 | replaces a current packet of the project by a new one and links them; on any conflict both inserts are undone |
| Handoffs.RunKeepsInv | memory/backend/metadata_store.py:2184-2340 | over every run of creations and racing replacements every step keeps the stored rows, and the table is injective, acyclic, and links stored packets of one project, the younger naming the older |
| Handoffs.NothingIsRewritten | memory/backend/metadata_store.py:2184-2340 | over every run stored packets are immutable and a packet once replaced stays replaced by the same one |
| Handoffs.OneCurrentPacketPerChain | memory/backend/metadata_store.py:2250-2340 | from any packet the successor walk ends inside its project at the one current packet of its chain, and search shows that packet |
| Handoffs.PacketsFormDisjointChains | memory/backend/metadata_store.py:589-599 | packets lead to the same current packet exactly when one replaced the other, and no packet replaced two |
| Handoffs.LoserRollsBack | memory/backend/metadata_store.py:2315-2340 | of two writers that looked up the same packet the second to write fails and changes nothing |
| Handoffs.CreateKeepsInverseIff | memory/backend/handoff_records.py:12-32 | creation keeps the predecessor fields inverse to the table exactly when the new packet names no predecessor |
| Handoffs.FieldsInvertOverRuns | memory/backend/handoff_records.py:12-42 | in every run the stored predecessor fields are exactly the inverse of the supersession table as long as, and only as long as, no creation has stored a packet that names a predecessor |
| HandoffEffects.CreationChanges | memory/backend/handoff_records.py:12-32 | a packet is created exactly when its id has 1 to 128 characters and is new, and a predecessor it names is well formed and another one; it is stored as given and nothing else changes |
| HandoffEffects.ReplacementChanges | memory/backend/metadata_store.py:2310-2340 | a replacement is written exactly when its id is well formed, new and not the replaced one, and neither column of the supersession table has its value; it is stored as given but for the predecessor, and one entry is added |
| HandoffEffects.ShownAsStored | memory/backend/handoff_records.py:35-42 | a reader sees the stored packet; only a replaced one shows a successor and the status superseded |
| HandoffEffects.TwoStepsAreTheCall | memory/backend/metadata_store.py:2296-2340 | the lookup and the write with nothing in between are the store's call: a current packet of the project is replaced, else nothing changes |
| HandoffEffects.PacketWasGiven | memory/backend/metadata_store.py:2184-2340 | in every run each stored packet was given to one earlier call in the form in which it is stored, under a well-formed id |
| HandoffEffects.EntryWasLookedUp | memory/backend/metadata_store.py:2296-2340 | in every run an entry of the supersession table was written by a call that had looked the packet up in its own project while it was current |
| HandoffEffects.SuccessorsStayInProject | memory/backend/metadata_store.py:2296-2340 | in every run a successor is another packet of the same project that names the replaced one |
| Facts.FactStore.InsertFacts | memory/backend/metadata_store.py:1887-1925 | confirms, supersedes and inserts fact by fact |
| Facts.FactStore.SupersedeCorrectedFacts | memory/backend/metadata_store.py:2579-2608 | every other active fact of the statement whose object matches the corrected text points at the new fact; no other fact changes |
| Facts.FactStore.RefreshMatchingFactConfirmation | memory/backend/metadata_store.py:2610-2638 | a direct statement confirms the active facts that say the same, and nothing else |
| Facts.RunsStayGood | memory/backend/metadata_store.py:1887-1925 | over every run of batches, re-inserted ids included, supersession is acyclic and every superseder is stored |
| Facts.CorrectionsLeadToCurrentFact | memory/backend/metadata_store.py:2579-2608 | over every run, following superseded_by from any fact ends at a stored fact that nothing supersedes, and at an active one when no fact arrives deleted |
| Facts.CorrectionReplacesEveryMatch | memory/backend/metadata_store.py:2579-2608 | right after a correction no other active fact of the statement matches the corrected text, and each replaced one leads to the new fact |
| Facts.InsertOneAcyclicIff | memory/backend/metadata_store.py:1887-1925 | on any acyclic table a fact keeps the graph acyclic exactly when it arrives unsuperseded, or the stored links from its superseder lead neither to itself nor to a fact it corrects |
| Facts.InsertOneGoodIff | memory/backend/metadata_store.py:1887-1925 | it also keeps every superseder stored exactly when its own is |
| Facts.InsertAllAcyclicIff | memory/backend/metadata_store.py:1887-1925 | a batch keeps the graph acyclic throughout exactly when each fact meets that condition at its turn |
| Facts.RunsAcyclicIff | memory/backend/metadata_store.py:1887-1925 | the same over every run of batches from the empty table |
| Facts.SupersededArrivalClosesCycle | memory/backend/metadata_store.py:2674-2696 | an input that closes a cycle: a fact that arrives superseded by the fact it corrects |
| Facts.FactStore.SupersedeFact | memory/backend/metadata_store.py:2150-2169 | points an undeleted fact of the project at the given one; else nothing changes |
| Facts.ChangesAcyclicIff | memory/backend/metadata_store.py:1887-2169 | over every run of insertions and of that setter all tables passed through are acyclic exactly when every change is harmless at its turn |
| FactEffects.InsertionChanges | memory/backend/metadata_store.py:2579-2638 | exactly which stored facts an incoming one supersedes and which it confirms, by subject, predicate, owner, project, text and activity; each sets its own columns and no other column changes |
| FactEffects.OthersAreLeftAlone | memory/backend/metadata_store.py:2585-2627 | a fact of another owner, project, subject or predicate is left alone |
| FactEffects.InactiveIsLeftAlone | memory/backend/metadata_store.py:2592-2593 | so is a superseded or deleted one |
| FactEffects.BatchLeavesOthersAlone | memory/backend/metadata_store.py:1887-1925 | and so it is by a whole batch |
| FactEffects.CurrentFactIsAboutTheSame | memory/backend/metadata_store.py:1887-1925 | over every run in which an id keeps its topic, the current fact that corrections lead to has the same subject, predicate, owner and project |
| FactEffects.PointingChanges | memory/backend/metadata_store.py:2150-2169 | the setter changes the one undeleted fact, in its project, and nothing else |
| Relationships.RelationshipStore.UpsertGraphRecords | memory/backend/metadata_store.py:1965-2031 | all rows of the batch are written, then each relationship of the batch supersedes in order |
| Relationships.RelationshipStore.SupersedeConflictingRelationships | memory/backend/metadata_store.py:2640-2667 | one update per relationship of the batch, in order, without looking whether the relationship itself was superseded |
| Relationships.UpsertKeepsOneObject | memory/backend/metadata_store.py:2640-2667 | every batch, repeated ids and rivals included, keeps all active relationships of a group, owner and project at one object |
| Relationships.OneObjectOverRuns | memory/backend/metadata_store.py:1965-2031 | the same over every run of batches |
| Relationships.UpsertAcyclicIffNoRivals | memory/backend/metadata_store.py:2640-2667 | a batch with distinct ids in which nothing arrives superseded keeps supersession acyclic exactly when no two of its relationships are rivals |
| Relationships.SupersedeForAcyclicIff | memory/backend/metadata_store.py:2640-2667 | on any acyclic table superseding for one relationship closes a cycle exactly when the links from it end at a row that it hits |
| Relationships.WriteAllAcyclicIff | memory/backend/metadata_store.py:1993-2030 | writing any batch, repeated ids included, makes a cycle exactly when some row that arrives superseded and stays leads back to itself over the rows before it that stay |
| Relationships.UpsertAcyclicIff | memory/backend/metadata_store.py:1965-2031 | any batch at all keeps supersession acyclic exactly when it is harmless in both respects |
| Relationships.RunsAcyclicIff | memory/backend/metadata_store.py:1965-2031 | over every run of batches all tables passed through are acyclic exactly when every batch is harmless at its turn |
| Relationships.SelfSupersededArrivalMakesCycle | memory/backend/metadata_store.py:2025-2025 | an input without rivals that makes a cycle: a relationship that arrives superseded by itself |
| Relationships.RivalsMakeCycle | memory/backend/metadata_store.py:2640-2667 | two rivals in one batch supersede each other |
| Relationships.AcyclicOverRuns | memory/backend/metadata_store.py:1965-2031 | over every run of plain batches without rivals supersession stays acyclic and every superseder is stored |
| Relationships.JustWrittenStaysActive | memory/backend/metadata_store.py:1965-2031 | a relationship written without a rival in its batch is active afterwards |
| RelationshipEffects.SupersedingChanges | memory/backend/metadata_store.py:2647-2667 | one relationship supersedes exactly the unsuperseded rows of its group, owner and project that name another object; two columns change |
| RelationshipEffects.OthersAreLeftAlone | memory/backend/metadata_store.py:1965-2031 | a batch leaves every row alone that it neither writes nor supersedes, those of other groups, owners and projects among them |
| RelationshipEffects.FirstToSupersedeWins | memory/backend/metadata_store.py:2640-2667 | a superseded row points at the first relationship of the batch that supersedes it |
| RelationshipEffects.BatchStores | memory/backend/metadata_store.py:1993-2030 | the last row written under an id is stored in every column but the two that superseding sets |
| ChunkPayload.FirstIdsByIndex | memory/backend/metadata_store.py:91-98 | for each index the first chunk id that carries it |
| ChunkPayload.UpdateIndexChunksPayload | memory/backend/metadata_store.py:107-138 | marks exactly the chunks the ids mean and fills in ids that are missing |
| ChunkPayload.IdsByIndexSound | memory/backend/metadata_store.py:91-98 | an id filled in is one of the given ids and carries the chunk's index |
| ChunkPayload.MarkedStillMatches | memory/backend/metadata_store.py:83-138 | filling in an id never changes which chunks the ids mean |
| ChunkPayload.LastMarkWins | memory/backend/metadata_store.py:107-138 | marking twice equals marking with the last state, so marking is idempotent even when it fills in ids |
| ChunkEffects.MatchesIff | memory/backend/metadata_store.py:75-89 | the ids mean a chunk by its id or, when it has none or an empty one, by its index |
| ChunkEffects.MarkingChanges | memory/backend/metadata_store.py:107-138 | marking sets the state of exactly the chunks the ids mean; it changes no text and no index, and an id exactly where there was none and a given one carries the index |
| ChunkEffects.FirstIdForIndex | memory/backend/metadata_store.py:91-98 | and that is the first of the given ids with the index |
| ChunkEffects.IndexInId | memory/backend/metadata_store.py:141-147 | the index of an id is the number between its first colon and the next, or its end, and is read back as written |
| ChunkEffects.MadeUpIdCarriesIndex | memory/backend/metadata_store.py:2978-2985 | the id made up for a message carries the message's index, as the conversation's UUID holds no colon |
| Conversations.ConversationStore.ReplaceChildRows | memory/backend/metadata_store.py:2722-2762 | the conversation's chunk rows are deleted and rebuilt from the payload; a chunk without id or index fails the transaction |
| Conversations.ConversationStore.Insert | memory/backend/metadata_store.py:704-744 | conversation row and chunk rows together, or nothing |
| Conversations.ConversationStore.InsertNewConversation | memory/backend/metadata_store.py:1604-1643 | inserts and changes nothing else, or fails on a chunk and changes nothing, or meets a taken id, hash or session, and then decides by what others have made of the tables by the second read |
| Conversations.ConversationStore.ResolveInsertNewConflict | memory/backend/metadata_store.py:2550-2577 | the holder is looked for by hash in the project, then by session in the project, then by id; its id is returned only when hash and project are the same, new content of the same session is a session conflict, and no holder means unresolved |
| Conversations.SameContentIsFound | memory/backend/metadata_store.py:2550-2577 | while the content is stored in the project nothing is inserted and the conflict resolves to the one conversation that has it |
| Conversations.NewContentOfSessionConflicts | memory/backend/metadata_store.py:2550-2570 | new content of a session imported already is never inserted under another id and is reported as a session conflict, unless neither has a hash |
| Conversations.ReinsertionFindsTheFirst | memory/backend/metadata_store.py:1604-1710 | content once stored in a project is never stored again, and the conflict resolves to the first conversation only |
| Conversations.ConversationStore.AppendMessages | memory/backend/metadata_store.py:1645-1686 | writes only while the stored hash is the expected one; otherwise no row changes |
| Conversations.ConversationStore.MarkChunksState | memory/backend/metadata_store.py:1774-1816 | marks the conversation's rows with those ids and the payload's chunks they mean |
| Conversations.ConversationStore.IsFullyIndexed | memory/backend/metadata_store.py:1750-1766 | comparing the two counts answers whether there are rows and all are indexed |
| Conversations.WriteKeepsAgree | memory/backend/metadata_store.py:2722-2762 | writing a proper chunk list fails only on a taken hash or session and leaves table and payload in agreement |
| Conversations.MarkKeepsAgree | memory/backend/metadata_store.py:1774-1816 | marking keeps table and payload in agreement |
| Conversations.FullyIndexedMeansAllChunks | memory/backend/metadata_store.py:1750-1766 | in agreement, the query answers exactly whether the payload has chunks and all are indexed |
| Conversations.AppendForgetsMarks | memory/backend/metadata_store.py:1645-1686 | an append gives the same result whether or not chunks were marked since its caller read |
| Conversations.MarkSurvivesAppendIff | memory/backend/metadata_store.py:1645-1686 | a marked chunk has the marked state after an append exactly when the appended payload's chunk with that id carries it already |
| Conversations.AppendFullyIndexedIff | memory/backend/metadata_store.py:1645-1686 | a conversation is fully indexed after an append exactly when the appended payload has chunks and says so of all of them |
| ConversationEffects.WriteSucceedsIff | memory/backend/metadata_store.py:704-744 | a conversation is written unless another one of the same project has its content or its session, or a listed chunk lacks its id or index |
| ConversationEffects.WriteSparesOtherRows | memory/backend/metadata_store.py:2722-2762 | chunk rows of other conversations stay, but for one whose id is written anew |
| ConversationEffects.ListedChunkIsStored | memory/backend/metadata_store.py:2741-2762 | a listed chunk is stored with its own index, text and state, or as pending |
| ConversationEffects.WriteKeepsOneRow | memory/backend/metadata_store.py:511-520 | whatever a payload lists, there is never more than one row for an index of a conversation |
| ConversationEffects.LastChunkWins | memory/backend/metadata_store.py:2741-2762 | and it is that of the last chunk with the index, unless its id comes again later |
| ConversationEffects.OneRowPerMessage | memory/backend/metadata_store.py:2973-2995 | without a chunk list there is one pending row for each message, with its index and text, and no other |
| ConversationEffects.AppendChanges | memory/backend/metadata_store.py:1645-1686 | an append succeeds exactly on the expected hash when nothing clashes; it sets content and project, keeps the imported session, and touches no other conversation |
| ConversationEffects.MarkChanges | memory/backend/metadata_store.py:1774-1816 | marking changes the state of the conversation's own rows with those ids and of the payload's chunks they mean, and nothing else |
| ConversationEffects.InsertNewIff | memory/backend/metadata_store.py:1604-1643 | inserted as new exactly when the id is unused and it can be written |
| ConversationEffects.HolderIff | memory/backend/metadata_store.py:2558-2562 | a conflict is put down to the content in the project, else to a named session in the project, else to the id |
| ConversationEffects.VerdictIff | memory/backend/metadata_store.py:2565-2577 | its id is returned exactly for the same content and project; new content of the same session is a session conflict |
| AppendRuns.NoLostAppends | memory/backend/metadata_store.py:1645-1686 | in every interleaving, whole overwrites included, the stored messages are the last whole write followed by exactly the later successful suffixes, once each, in success order |
| AppendRuns.HistoryOnlyGrows | memory/backend/metadata_store.py:1645-1686 | over every run a stored history only grows at the end exactly when every overwrite extends what it overwrites |
| AppendRuns.HistoryGrowsByAppends | memory/backend/metadata_store.py:1645-1686 | between two states without a whole write the history grew by exactly the suffixes that succeeded |
| AppendRuns.StaleOverwriteKeepsAppendsIff | memory/backend/metadata_store.py:704-744 | an overwrite that extends an earlier read keeps the appends since then exactly when what it adds begins with them |
| AppendRuns.AppendSucceedsIffUnchanged | memory/backend/metadata_store.py:1645-1686 | a swap passes exactly when the conversation still reads as it was read and the write meets no constraint; a failed one changes no row |
| AppendRuns.TableAndPayloadAgree | memory/backend/metadata_store.py:704-1816 | over every run of insert, insert_new, append and mark with proper chunk lists the chunk table agrees with the payloads chunk by chunk |
| ConversationEffects.RunsKeepOneRow | memory/backend/metadata_store.py:511-520 | in every run the chunk table has at most one row for an index of a conversation |
| AppendRuns.AppendRestoresRows | memory/ingestion/mvp_ingestion.py:1886-1934 | in every run an append that extends the chunks it read puts every chunk row of the conversation back to what it was at the read |
| AppendRuns.StoredContentIsFound | memory/backend/metadata_store.py:1604-1710 | in every state of every run stored content resolves to the one conversation that has it, and a session is never imported a second time |
| ConversationEffects.SessionStaysImported | memory/backend/metadata_store.py:1662-1681 | in every run a conversation keeps the session it was imported from until it is overwritten, whatever is appended or marked |
| ConversationEffects.SessionIsImportedOnce | memory/backend/metadata_store.py:1604-1686 | so new content of that session never enters the project under another id meanwhile |
| AppendWitness.OverwriteLosesAppend | memory/backend/metadata_store.py:704-744 | a run in which an overwrite from an earlier read loses an append |
| AppendWitness.AppendLosesMark | memory/backend/metadata_store.py:1645-1686 | a run in which an append turns a fully indexed conversation into one that is not, without adding a chunk |
| GraphExtraction.Extractor.AddEntity | memory/advanced_memory.py:462-484 | keeps the first entity of each id and returns the id either way; raises exactly when it would keep one that breaks the length limits |
| GraphExtraction.Extractor.AddRelationship | memory/advanced_memory.py:486-528 | offers both ends as entities, then keeps the first relationship of each id; raises exactly when a record it would keep breaks a length limit |
| GraphExtraction.ExtractMemoryGraph | memory/advanced_memory.py:440-569 | the loop with its two sets of seen ids returns the first occurrences among all candidates, in order, and raises exactly when one of them breaks a length limit |
| GraphExtraction.IncrementalEqualsFull | memory/advanced_memory.py:440-569 | extracting an appended suffix gives what full extraction would add: all its relationships, and its entities that the prefix did not have |
| GraphExtraction.FullFitsIff | memory/advanced_memory.py:385-569 | with any text functions, full extraction succeeds exactly when the prefix's does and all that it adds passes the checks |
| GraphExtraction.FullSucceedsIff | memory/advanced_memory.py:385-578 | with text functions that keep the length of a cleaned text, as the source's do, full extraction succeeds exactly when extracting the prefix and extracting the suffix do |
| GraphExtraction.RelationshipEndsAreExtracted | memory/advanced_memory.py:486-528 | both ends of every relationship are among the entities of the same call |
| GraphEffects.RelationFoundIff | memory/advanced_memory.py:530-564 | a relation is found exactly when its pattern matches, with the subject the extractor supplies or rules out, and with the types and confidence of that relation |
| GraphEffects.RelationshipWasSaid | memory/advanced_memory.py:486-528 | every extracted relationship states what one message says: texts, index, id, conflict group and both ends |
| GraphEffects.SaidIsExtracted | memory/advanced_memory.py:530-564 | and everything a message says is extracted under its id |
| GraphEffects.EndsAreRightWayRound | memory/advanced_memory.py:496-518 | the subject id is made from the subject and has its type, and the object id from the object |
| GraphEffects.EntityWasNamed | memory/advanced_memory.py:462-484 | every extracted entity is named by a message, as a tool, a provider or an end of a relation |
| GraphEffects.NamedIsExtracted | memory/advanced_memory.py:530-564 | and everything named is extracted under its id |
| GraphEffects.RecordsFitIff | memory/advanced_memory.py:385-402 | records are refused for a name that is empty or beyond 256 characters, or an object beyond 512 |
| BracketWork.MarkdownBracketWork | tools/prepare_mkdocs.py:147-165 | the estimate divided by 3 is the sum over all positions of the number of open unescaped brackets |
| BracketWork.QuadraticBound | tools/prepare_mkdocs.py:147-165 | that sum is at most n(n+1)/2 for a text of length n |
| BracketWork.BoundIsReached | tools/prepare_mkdocs.py:147-165 | n opening brackets reach the bound |
| BracketWork.SplittingNeverRaises | tools/prepare_mkdocs.py:125-165 | splitting a text at a newline never raises the estimate |
| BracketWork.BracketCountsIffEven | tools/prepare_mkdocs.py:147-165 | a bracket changes the depth exactly when an even number of backslashes stands before it, down to zero; no other character does |
| ProseBlocks.MarkdownProseBlocks | tools/prepare_mkdocs.py:109-144 | the loop yields the runs with their first line numbers and joined texts |
| ProseBlocks.RunsAreTheMaximalRuns | tools/prepare_mkdocs.py:125-144 | the blocks are exactly the maximal runs of non-blank lines, in order |
| ProseBlocks.FileSumAtMostWhole | tools/prepare_mkdocs.py:65-86 | the sum over the blocks is at most the estimate of the joined text |
| ProseBlocks.ValidateMarkdownComplexity | tools/prepare_mkdocs.py:53-86 | the first block beyond its limit is reported, else a sum beyond the file limit, else the file is accepted |
| ProseBlocks.AcceptedIffWithinLimits | tools/prepare_mkdocs.py:53-86 | accepted exactly when every block and the sum are within the limits |
| ProseBlocks.WholeWithinLimitIsAccepted | tools/prepare_mkdocs.py:27-86 | a text within the block limit as a whole is accepted however it falls into blocks |
| ProseBlocks.ShortTextsAreAccepted | tools/prepare_mkdocs.py:27-29 | no text of up to 815 characters exceeds the block limit |
| ProseBlocks.ShortestRejectedText | tools/prepare_mkdocs.py:27-29 | a text of 816 characters can |
| ProseBlocks.AcceptedIffRunsFit | tools/prepare_mkdocs.py:27-86 | accepted exactly when no maximal run's estimate exceeds a million and their sum does not exceed two |
| ProseBlocks.ReportedBlockIsFirst | tools/prepare_mkdocs.py:53-86 | the block reported is the first maximal run beyond the limit, by its first line and with its estimate |
| ProseBlocks.FittingBlocksCanBeTooMuch | tools/prepare_mkdocs.py:27-29 | three fitting blocks that together are rejected |
| KeyScan.FindForbiddenKeys | memory/plugin_contracts.py:90-111 | the worklist ends on every object graph, cyclic or not, and finds exactly the protected string keys reachable from the root |
| KeyScan.EdgeIff | memory/plugin_contracts.py:90-109 | the scan goes from a mapping to its values and from a list or tuple to its items, and nowhere else |
| KeyScan.HoldsIff | memory/plugin_contracts.py:8-18 | a mapping holds a protected key when one of its keys is one of the nine texts |
| KeyScan.CleanPayloadHasCleanMessages | memory/plugin_contracts.py:63-76 | when the whole payload is clean every message is |
| KeyScan.ValidatePluginConversationOutput | memory/plugin_contracts.py:63-76 | accepted exactly when clean with non-empty, well-formed messages; each refusal has exactly its cause, and the scans of single messages never raise |
| KeyScan.GoodMessageIff | memory/plugin_contracts.py:70-74 | a good message is a dict whose role and text are strings |
| LogInspection.BoundedJsonlRecordReader.Read | memory/import_discovery.py:273-291 | the decodable lines of the head window, then, in a longer file, of the tail window |
| LogInspection.RecordsArePieces | memory/import_discovery.py:283-290 | an LF after a CR changes no record, so a cut between them does no harm |
| LogReading.LinesAreReadBack | memory/import_discovery.py:283-290 | lines put together with any ends are read back one by one |
| LogReading.SeenIs | memory/import_discovery.py:273-283 | a log within the limit is read whole, a longer one at both ends |
| LogInspection.HeadRecords | memory/import_discovery.py:273-291 | a head window whose cut line does not decode reads a prefix of the file's records |
| LogInspection.TailRecords | memory/import_discovery.py:273-291 | a tail window whose cut line does not decode reads a suffix of the file's records |
| LogInspection.CopilotCliAdapter.Inspect | memory/import_discovery.py:420-453 | the first valid header and whether the last lifecycle record is a shutdown; nothing once a start or resume record carries no object |
| LogReading.TerminalIff | memory/import_discovery.py:423-437 | a session is over exactly when a shutdown has no start, resume or message record after it |
| LogReading.HeaderIff | memory/import_discovery.py:443-448 | a header needs an object with a session id and a readable start time, the data's or else the record's |
| LogReading.InspectionIff | memory/import_discovery.py:420-453 | exactly when the inspection reports which session, time and state |
| LogInspection.BoundedInspectionIsWhole | memory/import_discovery.py:269-453 | with a valid header in the head window the bounded inspection equals that of the whole log, overlapping windows included, exactly when the file fits, the tail window holds a lifecycle record, or the records between the windows leave the state as it was |
| LogInspection.UnseenShutdown | memory/import_discovery.py:420-453 | a log whose shutdown lies between the windows is reported as open, for any lines |
| SessionDiscovery.ImportDiscoveryService.DiscoverLatest | memory/import_discovery.py:540-596 | returns the safe artifact that is newer than all others; a possibly active one that nothing outdates stops the search, and the greatest path of such is named; equally new safe ones are reported as ambiguous |
| SessionDiscovery.OutcomesAreExclusive | memory/import_discovery.py:569-596 | each outcome is reported exactly when its condition holds, and the artifact returned is the only one it can be |
| SessionDiscovery.FoundIff | memory/import_discovery.py:569-596 | a path is returned exactly for the safe artifact that is newer than every other inspected one |
| SessionDiscovery.MayBeActiveIff | memory/import_discovery.py:569-583 | a session is named as possibly active exactly when it is unsafe, nothing is newer, and it has the greatest path of all such |
| SessionDiscovery.UnsafeIff | memory/import_discovery.py:253-266 | unsafe exactly while not shut down, written less than the waiting time ago, and, for Codex, not archived |
| Filters.SplitKeepsMeaning | memory/backend/contracts.py:36-81 | a payload matches a filter exactly when it matches both parts of its split |
| Filters.SplitPartitionsFields | memory/backend/contracts.py:26-81 | the parts' fields are the filter's fields inside and outside the set |
| Filters.OnlyReadsItsFields | memory/backend/contracts.py:42-65 | the selected part decides on the selected payload fields alone as on the whole payload |
| Filters.TwoStagesAreOne | memory/backend/contracts.py:36-65 | filtering hits by one part and then by the other keeps the same hits in the same order as filtering once |
| Filters.FilteringKeepsMatches | memory/backend/contracts.py:42-65 | filtering keeps exactly the hits that match, each where it was |
| Filters.RefusedIff | memory/backend/contracts.py:42-65 | a payload is refused exactly when one field of the filter fails its test on the value under that key |
| Filters.AnyIffSomeOfferedEquals | memory/backend/contracts.py:43-52 | one of several is matched exactly when the value, or an item of a list, equals one of them; a list equals no scalar |
| Filters.RangeIff | memory/backend/contracts.py:56-64 | a range is closed, an absent bound bounds nothing, and a missing value is in no range |
| Filters.TruthIff | memory/backend/contracts.py:53-55 | false are a missing value, the empty text, zero, false and the empty list |

## Left out

* Each store method is one atomic step, which is what SQLite's write lock gives when the
  transaction writes before it reads. `revoke_oauth_authorization_for_access_token` and
  `mark_chunks_*` with an empty id list read before they write; what another connection could do
  in between is not modelled.
* The PostgreSQL and MongoDB stores; SQL text, migrations, connections and JSON encoding.
* Timestamps are whole seconds, as the stored texts are; a comparison in the source against the clock's
  microseconds is one against its second.
* TokenEndpoint.Endpoint.RefreshTokenResponse: a database error in lookup, consumption or
  revocation ends the handler; the runs of `OAuthProtocol` have it as the `Abort` action. Of database
  errors the handlers model only the failing second creation. The successful answer is about a
  token that nobody touches between lookup and consumption.
* Access rows are keyed by their token id. The endpoint reads an `access` row by the hash of the whole text
  and the `jti` without checking it; both are parameters of a request (`OAuthProtocol.Presented`).
  An empty text makes no store call and is not modelled.
* OAuthTheorems.DeadFamilyHasNoLiveToken: assumes that no request died holding a token issued in the
  family; what holds otherwise is `OAuthLostTokens.DeadFamilyLiveIffLost`.
* TokenTables.RevokeAuthorizationCloses: states a closure over the rows present, because the code
  writes no tombstone on that path.
* ProviderStates.QuotasHold: assumes the same two limits on every call, as the configuration gives them.
* Facts.RunsStayGood: excludes facts that arrive superseded and `supersede_fact`; with them
  `Facts.ChangesAcyclicIff` gives the exact condition. SQL's `LIKE` is an arbitrary relation on texts.
* Relationships.UpsertAcyclicIffNoRivals: is about batches with distinct ids in which nothing arrives
  already superseded; for every other batch `Relationships.UpsertAcyclicIff` has the condition.
* Handoffs: redaction and validation of packet fields other than the ids, and the text query of the
  search, are not modelled.
* AppendRuns.TableAndPayloadAgree: assumes chunk lists with distinct non-empty ids and distinct
  indexes whose ids no other conversation uses; of the fallback chunks made from messages
  `ConversationEffects.OneRowPerMessage` says what is stored. An append without an expected hash is an `Overwrite`.
* ChunkPayload.UpdateIndexChunksPayload: recognizes ASCII digits in chunk ids, while `isdigit`
  accepts other digits too.
* The message table and upstream thread ids of conversations.
* Conversations.ConversationStore.AppendMessages: an append leaves the session column as it is, and the
  session in the payload is taken to be the same, as callers carry the metadata on.
* GraphExtraction.ExtractMemoryGraph: the regular expressions and the text cleaning are an
  uninterpreted function from a text to its matches; derived ids are injective.
* GraphExtraction.FullSucceedsIff: that case folding does not shorten a cleaned text is a hypothesis
  (`GraphExtraction.KeepsLength`), because the text functions are uninterpreted.
* ProseBlocks.MarkdownProseBlocks: starts from the list of lines; the Markdown preprocessors that
  blank out code and the splitting into lines are not modelled. Files are validated one by one.
* LogInspection.CopilotCliAdapter.Inspect: JSON decoding of a line and the parsing of a timestamp
  are uninterpreted; the adapters for other clients are not modelled.
* SessionDiscovery.ImportDiscoveryService.DiscoverLatest: starts from the artifacts that the
  scanner found and the adapter accepted; paths are ordered numbers and the file metadata in the result is dropped.
* Filters.SplitKeepsMeaning: `str` of a payload value is an uninterpreted function; values that
  cannot be hashed are not modelled. The translations into provider queries are not modelled.
* HTTP routing, PKCE, OIDC, dynamic client registration, cookies, templates, the CLI, importers,
  ingestion, vector stores, redaction and scoring: libraries and I/O, or members with little to prove.
