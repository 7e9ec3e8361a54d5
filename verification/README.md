# TaskFlow: a verified model of its protocols

TaskFlow is a task manager with a React client, an Express API and background workers. This project
models the parts of it that have to be right over whole runs and proves what they promise:

- **The tamper-evident audit chain.** `canonical` prints a value with sorted keys, each record is
  signed with an HMAC over the previous hash and its own canonical text, winston writes it as a JSON
  line, and the verifier script reads the lines back, groups, sorts and walks them.
- **Refresh tokens.** The server rotates them in separate lookup, check, revoke and store steps; the
  client shares one refresh among concurrent 401s and retries each request once.
- **The report e-mail**, guarded by a Redis claim that expires.
- **The task store** with its deletion trigger, role scoping, and the dashboard list that is patched
  locally after each call.
- **The event stream** and its consumer group.

Text is a sequence of UTF-16 code units; a JavaScript object is an ordered list of members with an
explicit `undefined`. The HMAC is an arbitrary function to 64 units, passed as a parameter: nothing
assumes it injective, and results name the collision they would need. Protocols are total step
functions over explicit states; a run is any sequence of events, and an event that is not enabled
changes nothing. Clocks, random ids, and whether a database, Redis or network call succeeds are inputs
of the events. Beside each step function stands the code in its own form (`AuditLog`, `VerifyChain`,
`Api`, `Tokens`, `Worker`, `Database`, `TaskList`, `Redis`), whose methods change fields in place and
are proved to do exactly what the step functions say.

| file | content |
|---|---|
| `JsText`, `JsValues`, `CanonicalJson`, `CanonicalText`, `JsonParser`, `JsonGrammar`, `LogLine` | text, values, the printers and what they print, `JSON.parse` and the grammar it accepts, round trips |
| `AuditRecords`, `ChainVerifier`, `ChainLaws` | one record, the verifier against its specification, laws of the verdict |
| `HonestChain`, `TamperEvidence`, `ErrorReport`, `AuditContext`, `LogReader`, `LogVerdict` | completeness, soundness, the error list, request contexts, the script and its verdict |
| `TokenServer`, `TokenOverlap`, `TokenLedger`, `AuthController` | rotation on the server |
| `ApiClient`, `ApiOutcomes`, `ApiModule`, `Session` | the client, what its requests come to, and both sides together |
| `ReportEmail`, `ReportWorker` | the e-mail claim |
| `Options`, `TaskStore`, `TaskAnswers`, `TaskIsolation`, `TaskHistory`, `TaskReport`, `TaskMirror`, `TaskController` | the task store |
| `EventStream`, `EventConsumer` | the stream and its consumers |

## What the proofs found

- **An intact log can be reported as tampered.** `canonical` prints `null` for a member that is
  `undefined`, while `JSON.stringify` drops it, so the recomputed hash differs. The verdict survives the
  log if and only if no object member of a record is `undefined` (`LogLine.CanonicalSurvivesLog`,
  `HonestChain.HonestCompleteness`). `fromRequest` produces such a member for a request without a
  User-Agent header, and one such request fails the whole log (`AuditContext.RequestLogVerifies`).
- **Two overlapping refreshes redeem one token twice**: exactly when both look it up before the first
  revoke is written (`TokenOverlap.BothSucceedExactly`; `TokenOverlap.OverlapRedeemsTwice` is such a run).
  While the refreshes of a token do not overlap, it is redeemed at most once
  (`TokenOverlap.RedeemedAtMostOnce`, `TokenLedger.OrderlyRotation`).
- **A failed user lookup during a refresh ends a valid session**: it is answered 401, which the client
  takes for a refusal, while the token stays live (`Session.LookupFailureEndsSession`, reachable from
  every logged-in state by `Session.LookupFailureReached`).
- **A late release can send two e-mails within a day.** It is not enough that each send settles before
  its claim expires; the `DEL` after a failed send removes whatever claim is there
  (`ReportEmail.ReleaseHarmsExactly`). Two mails can follow exactly when the owner of that claim has
  mailed, is sending or is about to release (`ReportEmail.LateReleaseExactly`;
  `ReportEmail.LateReleaseMailsTwice` is such a run).
- **The stream does not redeliver.** Comments in `eventStream.js` (lines 9, 56 and 93) promise
  at-least-once delivery, but the loop reads only `>`: an entry is abandoned exactly by a failing
  handler, an unreadable payload, an acknowledgement that is not applied, a crash, or a lost read reply
  (`EventStream.AbandonedExactly`), and then stays pending for ever (`EventStream.AbandonedForever`). Each
  entry reaches at most one handler call, and the length bound drops entries that nobody has read
  (`EventStream.UnreadAreLost`).

## Model

| member | source | states |
|---|---|---|
| JsonParser.CanonicalRoundTrip | backend/src/utils/audit.js:56-69 | parsing the canonical text of any value gives the value back, keys sorted and `undefined` read as null, with the same JSON meaning |
| JsonParser.CanonicalInjective | backend/src/utils/audit.js:56-69 | two values have the same canonical text exactly when they are the same JSON value, objects unordered |
| CanonicalJson.CanonicalIsPlain | backend/src/utils/audit.js:56-69 | the recursive printer is plain printing of the value with all keys sorted |
| CanonicalJson.NormalUnique | backend/src/utils/audit.js:53-69 | sorted form is unique: equal meaning forces equal value |
| JsText.LessMeans | backend/src/utils/audit.js:59-64 | one key sorts before another if and only if it is a proper prefix of it or has the smaller code unit where the two first differ |
| CanonicalText.CanonicalKeysAscend | backend/src/utils/audit.js:56-69 | read back from the canonical text, the members of every object at any depth stand in that order of their keys |
| CanonicalText.QuoteSpelling | backend/src/utils/audit.js:56-69 | a string is printed unit by unit: as it is unless it is a quote, a backslash, below 0x20 or half a surrogate pair, and then by the escape that JSON.stringify uses |
| CanonicalText.CanonicalTidy | backend/src/utils/audit.js:56-69 | canonical text has no white space outside strings |
| JsonParser.PlainRoundTrip | backend/scripts/verify-audit.js:32-37 | the JSON parser inverts printing on every value without `undefined`: nesting, escapes, lone surrogates, numbers |
| JsonParser.ParsedValueIsJson | backend/scripts/verify-audit.js:32-37 | whatever text is parsed, the result has distinct keys at every level and no `undefined` |
| JsonGrammar.ParseExactly | backend/scripts/verify-audit.js:32-37 | a text is parsed to a value if and only if it is a JSON text of RFC 8259 (integers only) that denotes this value, the last of repeated members counting |
| LogLine.LineRoundTrip | backend/scripts/verify-audit.js:32-37 | a value printed as a JSON line and parsed back loses exactly its undefined members |
| LogLine.CanonicalSurvivesLog | backend/src/utils/audit.js:53-69 | the canonical text survives the log line if and only if no object member at any depth is `undefined` |
| AuditRecords.RecordFacts | backend/src/utils/audit.js:95-118 | the record built by one `audit` call carries its chain id, number, link and a verifying hash although the context is spread over it, and describes the call field by field |
| AuditRecords.RecordContent | backend/src/utils/audit.js:100-113 | for any context: under `action`, `result`, `timestamp`, `category`, `chainId` and `seq` stand the argument, the clock and the place in the chain, under `actor`, `resource` and `requestId` the argument when truthy and null otherwise, unless the context has the name; `metadata` is there exactly when truthy; `prevHash` is the link |
| AuditRecords.ContextReadBack | backend/src/utils/audit.js:110 | every other member of the context is read back from the record |
| AuditRecords.RecordMembers | backend/src/utils/audit.js:100-114 | the record has these members and no others |
| AuditRecords.HashContent | backend/src/utils/audit.js:72-76 | `hash` is the HMAC of the link followed by the canonical text of the record without it |
| AuditRecords.FromLineFacts | backend/src/utils/audit.js:128-163 | logging and parsing leave the chain fields as they were and drop exactly the undefined members of the signed part |
| AuditRecords.SignedSurvivesLog | backend/src/utils/audit.js:72-76 | the verifier recomputes the signed message if and only if the record has no undefined member |
| ChainVerifier.VerifyRecord | backend/src/utils/audit.js:143-156 | the three checks and their errors in order; against an expected link and number there is no error exactly when the record carries both and its hash verifies |
| ChainVerifier.RecordErrorsExactly | backend/src/utils/audit.js:143-156 | each of the three errors is reported if and only if its field differs, with the record's number, in the source's order |
| ChainVerifier.VerifyGroup | backend/src/utils/audit.js:139-160 | the walk with running expectations computes the recursive error list, resynchronising after each record |
| ChainVerifier.SortBySeq | backend/src/utils/audit.js:140 | with numeric seq the result is a permutation, ascending, and records of one number keep their order |
| ChainVerifier.GroupByChain | backend/src/utils/audit.js:129-136 | the grouping loop builds one group per chain id and loses no audit record |
| ChainVerifier.GroupsOfFor | backend/src/utils/audit.js:129-136 | the groups are exactly the chains: each holds all records of its chain id in input order, ids that are not primitive get groups of one |
| ChainVerifier.GroupsInOrder | backend/src/utils/audit.js:129-138 | the groups, and so the errors, come in the order in which the chains first appear |
| ChainVerifier.NoErrorsAccepts | backend/src/utils/audit.js:128-163 | the walk over the sorted groups is silent if and only if every chain can be arranged with seq i at position i, linked and verifying |
| ChainVerifier.VerifyChain | backend/src/utils/audit.js:128-163 | `ok` holds exactly for acceptable logs; `chains`, `checked` and, for numeric seq, the whole error list |
| ChainLaws.OrderIndependent | backend/src/utils/audit.js:128-163 | the verdict does not depend on the order of the input |
| ChainLaws.IgnoresOtherRecords | backend/src/utils/audit.js:129-133 | records of another category make no difference |
| ChainLaws.DisjointLogs | backend/src/utils/audit.js:128-163 | logs without a common chain verify together exactly when each verifies alone |
| ChainLaws.ChainsCounted | backend/src/utils/audit.js:162 | `chains` is the number of different chain ids |
| HonestChain.AuditLog.Audit | backend/src/utils/audit.js:95-118 | one call appends one record linked to the previous hash and advances the state, for any event; the record says what the call said; with an allowed context it carries the next number and verifies |
| HonestChain.HonestIntact | backend/src/utils/audit.js:79-118 | the records of any sequence of calls form an intact chain |
| HonestChain.HonestCompleteness | backend/src/utils/audit.js:79-163 | any interleaving of the lines of any processes verifies if and only if no record has an undefined member, absent collisions |
| HonestChain.HonestCounts | backend/src/utils/audit.js:128-163 | `checked` is the number of calls and `chains` the number of processes that emitted |
| TamperEvidence.SignedDetermines | backend/src/utils/audit.js:72-76 | with links of one length, equal signed messages mean equal records up to key order, and conversely |
| TamperEvidence.Anchoring | backend/src/utils/audit.js:72-163 | two intact chains with the same last hash are equal record by record, or contain two different messages with one hash |
| TamperEvidence.AnchoredLogs | backend/src/utils/audit.js:128-163 | two accepted logs that each hold a chain, both ending in one hash, hold the same chain record by record, whatever else they hold and in any order, or exhibit a collision |
| TamperEvidence.ExactAcceptance | backend/src/utils/audit.js:95-163 | if every verifying hash is on a message some process signed, accepted logs are exactly those whose chains are prefixes of what the processes emitted |
| ErrorReport.Localisation | backend/src/utils/audit.js:139-160 | changing contents in an honest chain yields one hash mismatch per changed record and no other error |
| ErrorReport.ErrorAccounting | backend/src/utils/audit.js:139-160 | for any multiset of records of an honest chain, the exact error list: a pair at each first record after a gap and at each surplus copy, none for a missing tail |
| ErrorReport.BreaksCount | backend/src/utils/audit.js:139-160 | the number of breaks is the number of gaps before a kept record plus the surplus copies |
| AuditContext.ContextDecides | backend/src/utils/audit.js:95-118 | with sound other fields, a record is free of undefined members exactly when its context is |
| AuditContext.ContextsDecide | backend/src/utils/audit.js:95-163 | for any processes and any interleaving, with the other arguments sound, the log verifies if and only if no call's context has an undefined member |
| AuditContext.FromRequestContent | backend/src/utils/audit.js:169-174 | the record of a call made for a request has the address, method, path and user agent each under its own name |
| AuditContext.RequestLogVerifies | backend/src/utils/audit.js:169-174 | the log of calls made for requests verifies if and only if every request had all four fields, User-Agent included |
| LogReader.ReadLog | backend/scripts/verify-audit.js:31-41 | the line loop collects exactly the audit records, in order, and every one is proper JSON |
| LogReader.ReadLineExactly | backend/scripts/verify-audit.js:32-37 | a line counts if and only if, trimmed, it is a JSON text whose value has the category AUDIT, and then for that value |
| LogReader.SplitExactly | backend/scripts/verify-audit.js:31 | for every text, ended by a line feed or not, the lines are the one list without line feeds that joins to it |
| LogReader.TrimExactly | backend/scripts/verify-audit.js:32 | trimming removes ECMAScript's white space at both ends and nothing else |
| LogReader.VerifyAudit | backend/scripts/verify-audit.js:19-58 | exit code 2 without key or records, 0 exactly when all chains verify, else 1 |
| LogReader.LogRoundTrip | backend/scripts/verify-audit.js:31-41 | writing records as lines and reading the file gives each record as its line says, none lost or split |
| LogVerdict.TextVerdict | backend/scripts/verify-audit.js:19-58 | from calls to exit code: the text of any interleaving of the processes' lines with lines of other kinds, its last line ended or not, gives 2 without key or call, 0 if and only if every record is clean, else 1 |
| TokenServer.RevokedForever | backend/src/models/user.model.js:109-119 | a revoked row stays revoked in every run |
| TokenServer.NoRedemptionAfterRevoke | backend/src/controllers/auth.controller.js:120-156 | no refresh whose lookup follows a completed revoke succeeds, in any interleaving |
| TokenServer.LogoutRevokes | backend/src/controllers/auth.controller.js:163-173 | a written logout revokes the row of its token and leaves every other row, token and handler as it was |
| TokenOverlap.NoRefreshAfterLogout | backend/src/controllers/auth.controller.js:120-173 | over all runs, no refresh whose lookup follows a written logout of its token is granted |
| TokenOverlap.RedeemedAtMostOnce | backend/src/controllers/auth.controller.js:120-156 | a token whose own refreshes do not overlap and whose revokes are written is redeemed at most once, whatever logouts, failed writes and requests about other tokens interleave |
| TokenOverlap.LookupDecides | backend/src/controllers/auth.controller.js:131-149 | a handler neither late nor with a failed user lookup succeeds if its lookup read the row live, and is refused if not, in every interleaving |
| TokenOverlap.BothSucceedExactly | backend/src/controllers/auth.controller.js:131-149 | two finished handlers of one token, neither late nor with a failed lookup, both succeed if and only if both lookups come before the first written revoke |
| TokenLedger.Conservation | backend/src/controllers/auth.controller.js:18-31 | in every interleaving, with any writes failing, a user's live rows are the rows inserted minus the rows flipped to revoked |
| TokenLedger.OrderlyRotation | backend/src/controllers/auth.controller.js:120-173 | when no two requests about one token overlap and writes succeed, no token is redeemed twice, and a user with no rotation between its two writes has as many live rows as sessions opened minus live tokens logged out; other tokens and users overlap freely |
| AuthController.ScriptIsRotation | backend/src/controllers/auth.controller.js:120-156 | the interleaved handler run without interruption does exactly what the sequential handler does |
| AuthController.NoSecondRotation | backend/src/controllers/auth.controller.js:147-149 | a token whose revoke was written is refused when presented again |
| AuthController.Tokens.Refresh | backend/src/controllers/auth.controller.js:120-156 | the handler over mutable tables computes `Rotation` |
| AuthController.Tokens.IssueTokens | backend/src/controllers/auth.controller.js:18-31 | a fresh token is signed and handed out even if its row was not stored |
| AuthController.Tokens.LogOut | backend/src/controllers/auth.controller.js:163-173 | exactly the presented token's row is revoked, which is the `Logout` step of the interleaved server |
| AuthController.IssuedIsRedeemable | backend/src/models/user.model.js:87-107 | an issued token is exchanged by a later refresh if and only if its row was stored and neither expiry has passed; no other token's lookup changes |
| AuthController.RefreshAfter | backend/src/controllers/auth.controller.js:18-156 | a session opened now and refreshed `d` later gets a new token if and only if its row was stored, `d` is below the token's lifetime and at most the row's |
| AuthController.RefreshEffect | backend/src/controllers/auth.controller.js:120-156 | a granted refresh hands out a token of the presented token's own user, with both lifetimes from now, and revokes the presented token alone; a refused one changes nothing |
| AuthController.Tokens.FindToken | backend/src/models/user.model.js:98-107 | error, missing and found are told apart and the row is the stored one |
| AuthController.Tokens.Revoke | backend/src/models/user.model.js:109-119 | flips exactly one row and keeps all others |
| ApiClient.SingleFlight | frontend/src/services/api.js:20-86 | at most one refresh call is under way and `refreshPromise` is set exactly while one is |
| ApiClient.AtMostOneRetry | frontend/src/services/api.js:95-132 | each request fetches its endpoint at most twice, the second time only after a successful refresh |
| ApiClient.SharedOutcome | frontend/src/services/api.js:79-86 | all requests that joined a refresh see the same outcome |
| ApiClient.ClearedOnlyOnRefusal | frontend/src/services/api.js:31-77 | tokens are cleared only by the app itself or after a refresh answered 401 or 403 |
| ApiOutcomes.WaitsExactly | frontend/src/services/api.js:110-112 | a request waits for a refresh if and only if it was answered 401, carries a token, was not tried again yet and a refresh token is stored; it shares the refresh under way or starts one with the stored token |
| ApiOutcomes.ResumeExactly | frontend/src/services/api.js:111-121 | a request resumed after a renewal is fetched once more, after a refusal it ends the session, after any other failure it is an HTTP error, and nothing else changes |
| ApiOutcomes.RetriedExactly | frontend/src/services/api.js:95-132 | in every run a request fetches twice if and only if the refresh it waited for renewed the tokens, and reports the session over if and only if that refresh was refused |
| ApiOutcomes.ConcludesExactly | frontend/src/services/api.js:95-132 | which event gives which verdict: success only an OK answer to the fetch under way, unreachable only no answer, session over only a refused refresh, everything else an HTTP error |
| ApiOutcomes.VerdictFromEvent | frontend/src/services/api.js:95-132 | over whole runs a request has a verdict if and only if one such event gave it that one and nothing came after |
| ApiOutcomes.CallResult | frontend/src/services/api.js:36-86 | over whole runs a refresh has a result if and only if its one answer means it: renewed tokens, refused, or try again later |
| ApiOutcomes.ReplyTokens | frontend/src/services/api.js:36-77 | after an answer the store holds the new pair, nothing after a refusal, and otherwise what it held |
| ApiModule.Api.RefreshAccessToken | frontend/src/services/api.js:79-86 | joins the refresh under way, or starts exactly one with the stored token |
| ApiModule.Api.RefreshAnswered | frontend/src/services/api.js:36-77 | the rest of `doRefresh` for each kind of answer; the token disappears only on a refusal |
| ApiModule.Api.RefreshFinally | frontend/src/services/api.js:81-83 | the promise is cleared when its call is over |
| ApiModule.Api.Responded | frontend/src/services/api.js:107-132 | when a response leads to a refresh, and what every other one does |
| ApiModule.Api.Refreshed | frontend/src/services/api.js:111-121 | retry after a renewal, session end after a refusal, soft failure otherwise |
| Session.StoredTokenIsLeaf | frontend/src/services/api.js:36-86 | while no refresh is in flight, the stored token is the one unrevoked leaf of the session's rotation chain |
| Session.SignedOutForever | backend/src/controllers/auth.controller.js:163-173 | once the user has signed out, the browser holds no token and every token of the session is dead on the server, in every continuation |
| Session.TokensAfter | frontend/src/services/api.js:36-77 | the browser ends with the granted token, with none after a refusal, and with its old one after a server error or a request that never arrived |
| Session.RefusedOnlyFor | backend/src/controllers/auth.controller.js:124-145 | a refresh of this session is refused if and only if the token or its row has expired or the user lookup failed |
| Session.LookupFailureEndsSession | backend/src/controllers/auth.controller.js:142-145 | a failed user lookup clears the client's tokens although the token is still live |
| Session.LookupFailureReached | backend/src/controllers/auth.controller.js:131-145 | from every logged-in state with an unexpired token, one request answered 401 leads there |
| ReportEmail.MailsADayApart | backend/src/services/report.service.js:124-145 | any two mails of one job come from claims at least 86400 seconds apart, over all interleavings, retries and crashes |
| ReportEmail.OnlyHolderDeletes | backend/src/services/report.service.js:82-85 | a live claim is deleted only by the attempt that holds it |
| ReportEmail.CrashedForGood | backend/src/services/report.service.js:124-145 | an attempt that crashes leaves its claim in place and never mails or releases again |
| ReportEmail.ReleaseHarmsExactly | backend/src/services/report.service.js:82-85 | a release deletes another attempt's live claim if and only if it comes after its own claim expired while a claim is held |
| ReportEmail.LateReleaseExactly | backend/src/services/report.service.js:124-145 | after any timely run, a late release lets two mails out less than a day apart, in some timely continuation, if and only if the owner of the deleted claim has mailed under it, is sending, or is about to release |
| ReportWorker.Worker.ClaimSend | backend/src/services/report.service.js:75-79 | the claim is won exactly when none is held, and then lasts from now |
| ReportWorker.Worker.Notify | backend/src/services/report.service.js:124-145 | an undisturbed attempt is a run of the protocol: skipped exactly while a claim is held, the claim kept after a mail and gone after a released failure |
| ReportWorker.SecondAttempt | backend/src/services/report.service.js:75-145 | a second delivery of the job mails if and only if 86400 seconds have passed or the first send threw and its claim was deleted |
| TaskStore.NewestFirstSorts | backend/src/models/task.model.js:83-96 | a listing holds the visible rows, each once, newest first |
| TaskStore.LatestFirstSorts | backend/src/models/task.model.js:195-208 | the deletion log holds the visible entries, each once, latest first |
| TaskStore.CreateThenGet | backend/src/controllers/task.controller.js:22-97 | a created task is read back with the given fields under its new id; no other row changes |
| TaskStore.UpdateThenGet | backend/src/controllers/task.controller.js:72-158 | after an update the given fields are read back, absent ones are kept, `updated_at` moves, no other row changes |
| TaskStore.DeleteThenGet | backend/src/controllers/task.controller.js:72-218 | a deleted task is not found by anyone, its last fields are the new log entry, no other row changes |
| TaskStore.FailureChangesNothing | backend/src/controllers/task.controller.js:22-218 | a request that is not answered with success has changed no table |
| TaskStore.HandleKeyed | backend/src/models/task.model.js:120-164 | every request keeps the primary key |
| TaskAnswers.PermittedSucceeds | backend/src/controllers/task.controller.js:16-218 | for the ADMIN and the owner of a stored task, with a working database: get answers the row, a non-empty update one row, delete success |
| TaskAnswers.GetAnswers | backend/src/controllers/task.controller.js:72-97 | 400 for a malformed id, 404 exactly when the row is missing, unreadable or another user's, else the row |
| TaskAnswers.UpdateAnswers | backend/src/controllers/task.controller.js:103-158 | the refusals in the source's order, each with its exact condition, and success in every other case |
| TaskAnswers.DeleteAnswers | backend/src/controllers/task.controller.js:164-218 | the refusals in the source's order, each with its exact condition; otherwise the row is gone and one log entry added |
| TaskAnswers.CreateAnswers | backend/src/controllers/task.controller.js:22-47 | a creation is refused only for its body or by the database, and the new row belongs to the user who asked |
| TaskAnswers.ListAnswers | backend/src/models/task.model.js:83-96 | the ADMIN is shown every task, a USER exactly its own, each once, newest first |
| TaskAnswers.ListDeletedAnswers | backend/src/models/task.model.js:195-208 | the deletion log by the same rule, latest deletion first |
| TaskIsolation.OwnStep | backend/src/controllers/task.controller.js:22-237 | one request by one user in two stores that agree on that user's rows: same answer, and they still agree |
| TaskIsolation.ForeignStep | backend/src/controllers/task.controller.js:16-218 | a request of another USER changes nothing that this USER can see |
| TaskIsolation.Noninterference | backend/src/controllers/task.controller.js:16-237 | for a USER, agreeing stores and any runs with the same own requests, other USERs doing different things in each, give the same answers throughout and still agree |
| TaskIsolation.ForeignLooksMissing | backend/src/controllers/task.controller.js:83-90 | a foreign id and a missing id give the same answer and the same state |
| TaskIsolation.FindVisible | backend/src/models/task.model.js:103-112 | finding by id and then checking access is finding among the visible rows |
| TaskHistory.LiveOrLogged | supabase/migrations/004_security_hardening.sql:28-41 | over all interleavings the created ids are the disjoint union of live and logged ids, each once |
| TaskHistory.LoggedWithLastValues | supabase/migrations/004_security_hardening.sql:28-41 | every log row is a copy of what the last successful create or update of that task returned, owner included |
| TaskHistory.OneDeleteSucceeds | backend/src/controllers/task.controller.js:164-218 | of any concurrent deletes of one task exactly one answers success if the row is gone, none otherwise, the rest 404 or 500 |
| TaskHistory.OnlyOwnerOrAdmin | backend/src/controllers/task.controller.js:103-218 | whatever changes a row in any interleaving is a statement of its creator or of an ADMIN |
| TaskHistory.OwnersStay | backend/src/models/task.model.js:40-65 | a row's owner never changes |
| TaskHistory.UninterruptedIsHandle | backend/src/controllers/task.controller.js:103-218 | the two steps without interruption are the sequential handler |
| TaskMirror.OwnCall | frontend/src/hooks/useTasks.js:37-54 | after one call, successful or not, prepending, mapping or filtering the old listing gives the new one |
| TaskMirror.ListIsListing | frontend/src/hooks/useTasks.js:37-54 | with advancing creation times the local list equals the server's listing, order included, after any own calls mixed with calls of other USERs |
| TaskMirror.StatsMatchReport | frontend/src/hooks/useTasks.js:62-67 | after any such run the dashboard's counts are the totals of a report built from the server's listing at that moment, and add up |
| TaskReport.BuildReport | backend/src/services/report.service.js:18-47 | the counting loop yields the report of the rows: the number of rows of each status, of rows due before now and not completed, and the completion rate; a failed query fails the job |
| TaskReport.Percentage | backend/src/services/report.service.js:37-38 | the completion rate is the nearest whole percentage, halves up, and 0 without tasks |
| TaskReport.RoundedQuotient | backend/src/services/report.service.js:38 | rounding a quotient computed with an error below half a task gives that percentage, except that an exact half may come out one lower |
| TaskReport.CountsOrderless | backend/src/services/report.service.js:28-34 | the counts do not depend on the order of the rows |
| TaskController.Database.CreateTask | backend/src/controllers/task.controller.js:22-47 | the handler over the mutable table: new state and answer of the specified request |
| TaskController.Database.GetTaskById | backend/src/controllers/task.controller.js:72-97 | an answered row is stored under the asked id and the user's own or the ADMIN's to see, and every such row is answered |
| TaskController.Database.UpdateTask | backend/src/controllers/task.controller.js:103-158 | checks in the source's order, then the update, with new state and answer; the owner and the ADMIN succeed |
| TaskController.Database.DeleteTask | backend/src/controllers/task.controller.js:164-218 | checks in the source's order, then the delete, with new state and answer; the owner and the ADMIN succeed |
| TaskController.Database.InsertRow | backend/src/models/task.model.js:120-129 | appends exactly the returned row, or nothing |
| TaskController.Database.UpdateRow | backend/src/models/task.model.js:137-147 | changes exactly the named row and returns it, fails if it is gone |
| TaskController.Database.DeleteRow | backend/src/models/task.model.js:154-164 | removes the row and logs its old values together, or neither |
| TaskController.TaskList.CreateTask | frontend/src/hooks/useTasks.js:37-41 | the list is adjusted exactly after a success |
| TaskController.TaskList.UpdateTask | frontend/src/hooks/useTasks.js:43-47 | the list is adjusted exactly after a success |
| TaskController.TaskList.DeleteTask | frontend/src/hooks/useTasks.js:49-54 | the list is adjusted exactly after a success |
| EventStream.Conservation | backend/src/events/eventStream.js:45-102 | entries added since group creation are undelivered, pending, acknowledged, or trimmed before delivery, each exactly one of these |
| EventStream.OldEntriesIgnored | backend/src/events/eventStream.js:45-52 | an entry published before the group was created is never pending, acknowledged, lost, handled or held, in any run |
| EventStream.GroupCovers | backend/src/events/eventStream.js:45-52 | what the group accounts for is exactly what was published from its creation on |
| EventStream.ReadsUpToTen | backend/src/events/eventStream.js:71-76 | a read hands out the oldest unread entries, at most ten |
| EventStream.HandledAtMostOnce | backend/src/events/eventStream.js:67-102 | each entry reaches at most one handler call; acknowledged implies handled successfully; a failed one is pending |
| EventStream.AbandonedExactly | backend/src/events/eventStream.js:71-97 | in every reachable state an event abandons an entry if and only if it is a failing handler or unreadable payload at the head, an unapplied acknowledgement, a crash with the entry in hand, or a read whose reply is lost |
| EventStream.AbandonedBySomeEvent | backend/src/events/eventStream.js:71-97 | over whole runs an entry is abandoned if and only if one of these events of the run abandoned it |
| EventStream.PassedEntries | backend/src/events/eventStream.js:67-102 | every entry the group has passed is acknowledged, in some consumer's hands, abandoned, or was trimmed |
| EventStream.AbandonedForever | backend/src/events/eventStream.js:71-76 | such an entry stays pending in every continuation and is never handled again |
| EventStream.LostOnlyWhenFull | backend/src/events/eventStream.js:26-28 | an entry is lost undelivered only when ten thousand newer ones exist |
| EventStream.UnreadAreLost | backend/src/events/eventStream.js:26-28 | any number of entries is lost if that many more than ten thousand are published and none is read |
| EventStream.CollectFields | backend/src/events/eventStream.js:80-81 | the pairwise loop builds the map in which a later value of a name wins and an odd last name has no value |
| EventStream.FieldsRoundTrip | backend/src/events/eventStream.js:26-35 | a consumer collects exactly the fields that were published |
| EventConsumer.BatchOutcome | backend/src/events/eventStream.js:77-97 | after a batch exactly the handled and acknowledged entries have left pending, whatever failed in between |
| EventConsumer.Redis.ProcessBatch | backend/src/events/eventStream.js:77-97 | the loop over one batch is a run of the protocol's steps and leaves the consumer ready to read |
| EventConsumer.Redis.ReadNew | backend/src/events/eventStream.js:71-76 | the oldest unread entries become pending for this consumer |
| EventConsumer.Redis.CreateGroup | backend/src/events/eventStream.js:45-52 | the group starts at the end of the stream, and an existing group is left alone |
| EventConsumer.Redis.PublishEvent | backend/src/events/eventStream.js:23-42 | a publish adds one entry, or answers null and changes nothing |

## Left out

- The inside of HMAC, SHA-256, bcrypt and JWT signing: the HMAC is an arbitrary function, a signed token a fresh number with its claims.
- Numbers are integers printed in decimal; fractions, exponents, precision beyond 2^53 and negative zero are not modelled, and JavaScript's moving integer-like keys to the front of an object is not either.
- ChainVerifier.VerifyChain: when some `seq` is not a number the comparison may be NaN and the sort order is unspecified, so only the verdict is stated, not the error list.
- HonestChain.HonestCompleteness: contexts that carry `category`, `chainId`, `seq`, `hash`, `level` or `message` are excluded; the source spreads the context over its own fields and would let it overwrite them.
- TaskReport.Percentage: computed exactly; the source divides doubles, and `TaskReport.RoundedQuotient` says what that can change.
- JsonGrammar.ParseExactly: the grammar of integers only; a text with a fraction or an exponent is refused.
- TokenOverlap.NoRefreshAfterLogout: supposes that the token had been issued when it was logged out; a refresh that had already looked it up may still succeed, as `TokenOverlap.LookupDecides` says.
- LogReader.ReadLog: a line with a fraction or an exponent in a number does not parse in this model and is skipped, while the source reads it.
- LogReader.VerifyAudit: judges the records that `ReadLog` reads, so the same lines are missing from its verdict.
- TaskIsolation.Noninterference: assumes that random row ids do not repeat, and leaves ADMINs out of the run, who may change anyone's rows.
- TaskMirror.ListIsListing: assumes that calls do not overlap and creation times differ; with equal times the database's order is unspecified.
- TokenLedger.OrderlyRotation: needs requests about one token not to overlap; `TokenOverlap.BothSucceedExactly` says what happens otherwise.
- TokenOverlap.BothSucceedExactly: supposes both lookups are answered by the database; a failed one is answered 500 and nothing is redeemed.
- AuditContext.ContextsDecide: supposes that the arguments other than the context carry no undefined value, and that the context does not carry `metadata` or `prevHash`.
- Session.StoredTokenIsLeaf: assumes one tab, that an answer to a served refresh arrives, and that a rotation's two writes succeed.
- Session.SignedOutForever: supposes that the user signs out while no refresh is under way and that the logout is written.
- ReportEmail.MailsADayApart: assumes that a send that throws delivered nothing.
- AuthController.Tokens, ReportWorker.Worker and TaskController.Database run their handlers without interruption; interleaving is in the step functions.
- A database write that succeeds although its reply is lost.
- The audit records and events that the task handlers write as side effects, and the text of messages and e-mails.
- Winston beyond adding `level` and `message`, the rate limiter, request ids, metrics, configuration and shutdown.
- Request validation beyond which fields an update carries; trimming of titles.
- Deleting users with its cascades, several browser tabs sharing one store, and the profile fetch when the app starts.
- Redis, BullMQ and Supabase beyond the single atomic operation used; reclaiming pending entries, which the source never does.
