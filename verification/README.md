# agro-iam: a verified model of its protocols

agro-iam is a multi-tenant identity and access service in Go with a small browser client. This project models
the parts of it that keep state over time and proves what they promise, over every run.

- **Audit chain** (`Decimal`, `FieldJoin`, `Json`, `AuditChain`, `AuditLog`, `AuditRuns`, `AuditVerdict`,
  `AuditService`). Each tenant's log is a hash chain. `Record` reads the tail in one transaction and appends in
  another, so writers race, and only `UNIQUE (tenant_id, seq)` and one retry keep the chain. The state machine of
  `AuditLog` has any number of calls moving in steps; `AuditRuns` states what holds after every run and `AuditVerdict`
  which runs the verifier accepts; the class `AuditService` is proved to be a run of that machine.
- **Refresh-token families** (`RefreshTokens`, `AuthService`, `RefreshRace`, `RefreshRivals`), the rotation scheme of
  section 4.14.2 of RFC 9700. `RefreshTokens` has each `Login` and `Refresh` as one step, with a fault possible at
  every repository call, before or after it takes effect. `RefreshRace` splits `Refresh` into its read, its revocation
  and its insert and interleaves any number of calls; `RefreshRivals` says exactly what that costs.
- **Browser client and server** (`BrowserClient`, `ApiClient`, `BrowserSession`, `BrowserRuns`,
  `BrowserIdentity`). One client with any number of requests, refreshes and logins under way, the token table
  behind it, other parties, lost replies, abandoned requests, page loads and a storage that may throw.
- **Rate limiter** (`RateLimit`, `RateLimitFailover`, `RateLimiter`). The in-memory buckets, the Redis script and
  the failover between them, against an independent reading of the arrival log as greedy windows.
- **Tenant isolation** (`TenantPool`, `WithTenant`, `TenantRows`, `TenantRepos`). A pool of connections with a
  transaction-local setting, the row policies, and repositories whose campaign statements name no tenant.
- **Password strings** (`Base64`, `PasswordHash`). The PHC printer and parser, with unpadded base64 (sections 3.2
  and 4 of RFC 4648).

How the pieces fit: what the source computes is a function, what it does step by step is a machine with a total
`Step` (an event that is not possible leaves the state alone, so a run is any list of events), and what it does
by changing fields is a class whose methods are proved equal to those functions and steps. Failures are values of
`Fault`: a call is `Healthy`, `Lost` before it took effect, or `AckLost` after it did.

SHA-256, Argon2id, the time printer, the JSON printer, Go's and jsonb's spelling of numbers, UUID spelling, jsonb
key order and text collation are parameters. The laws assumed of them (`Lawful`, `LawfulDb`, `Sized`) are true of the
real functions, and so is `Unsplittable`, which the tamper theorems need: no JSON text ends in a separator and another
JSON text, because a separator stands inside a string literal. No law says that SHA-256 has no collisions. Where two
histories could differ only through a collision, the theorem says which two entries collide. Random values are drawn
fresh: a draw that repeats an earlier value does not happen.

## What the proofs found

- The chain does not cover `id` and `severity`. A row can be rewritten under its stored hash exactly when a field of
  it other than the payload holds a `|`, and the last hash commits to the history exactly when no row does
  (`ForgeableIffSeparator`, `HeadCommitsIff`). A writer can check that before the call; `Record` does not.
- The number that `VerifyChain` returns is not the verdict: it is 0 with an error exactly when the first broken row
  is nil or stored with seq 0.
- An entry reads back with its hashed fields unchanged exactly when its ids are spelled as the uuid column spells
  them and every number of its payload is one that jsonb keeps. With an upper-case id, or a negative zero in the
  payload, the verifier reports the honest writer's own row (`HonestWriterIsReported`, `NegativeZeroIsReported`).
- A `Record` whose commit acknowledgement is lost returns an error and leaves its row.
- With the calls of `Refresh` interleaved, two holders of one token can both end with a live successor: `Revoke`
  is unconditional, and the step that gives a token its second rival is exactly the fatal one
  (`WithoutOverlapOneLiveToken`, `SecondRivalIsFatal`).
- Reuse detection is final exactly when no call is between its read and its insert for the family
  (`KillIsFinalIff`). A single rotation is enough to miss: a replay that reads between the revocation and the
  insert kills the family, and the insert then adds a live member (`BusyKillIsReachable`). So the threat model in
  the comment of `DecideRotation` needs the calls not to overlap, replays included.
- Replaying a token after its expiry is taken for theft if it had been rotated, because being revoked is looked at
  first and the clock has no say (`ExpiredChangesIff`, `ReplayIsTheftAtAnyTime`); `DECISIONS.md` lines 254-255 say it
  must not be.
- The client is taken for a thief in exactly the steps named by `Breaks`: a successor lost after the revocation, or
  an abandoned request that still rotates a token the client will present again, or that arrives after its token was
  rotated and kills a live family. Other abandoned requests can show the server a rotated token too, but change no
  row (`NeverMistakenForTheft`). `DECISIONS.md` line 253 mentions only that a login is then needed.
- A logout is undone by the reply of an open refresh exactly when that can still bring a token, a login when it can
  still bring a token or a wipe (`StepStaysIff`, `UnsettledGoesAstray`). During a refresh that has already failed
  both are safe.
- The in-memory limiter lets through at most 2·L − 1 calls of limit L per window length, one less than documented.
  With failover it is 4·L − 2 for a window of whole milliseconds and 4·L − 1 otherwise. All three are reached for
  every L. Below a millisecond Redis bounds nothing (`BoundedIffWide`). `Retry-After` is too short exactly when the
  remaining wait is a positive whole number of seconds, for the buckets and for Redis.
- A base64 text decodes and re-encodes to itself exactly when it has no line breaks and no stray bits; the PHC
  parser ignores text behind the version and behind the parameters.

## Model

| member | source | states |
|---|---|---|
| Decimal.FormatRoundTrip | internal/application/services/audit_chain.go:57 | the printed sequence number reads back as the number, for every integer |
| Decimal.FormatInjective | internal/application/services/audit_chain.go:57 | different sequence numbers print differently |
| FieldJoin.JoinInjective | internal/application/services/audit_chain.go:55-65 | two lists are equal when their joins are, if outside one position each pair of fields is equal, whatever it holds, or holds no separator |
| FieldJoin.UnambiguousIffOneLooseField | internal/application/services/audit_chain.go:55-65 | the join of n fields determines them if and only if at most one position may hold the separator |
| FieldJoin.DeterminedIffPlain | internal/application/services/audit_chain.go:55-65 | one list of n fields is the only list of n fields with its join, whatever the other fields hold, if and only if none of its fields holds a separator or n is 1 |
| Json.BytewiseIsTotalOrder | internal/application/services/audit_chain.go:41 | the key order of the canonical writer is a total order |
| Json.BytewiseLeqIff | internal/application/services/audit_chain.go:41 | in that order a prefix comes first, and otherwise the first character that differs decides |
| Json.DecodeEncode | internal/application/services/audit_chain.go:37-41 | writing a decoded value in any key order and reading it again is the identity |
| Json.CanonicalIffSameValue | internal/application/services/audit_chain.go:26-42 | two documents have one canonical form if and only if they decode to the same value |
| Json.RespellTwiceIff | internal/application/services/audit_chain.go:26-32 | reading a value after it was kept is reading the original if and only if every number of it is one the keeper keeps |
| Json.CanonicalSurvivesStorageIff | internal/application/services/audit_chain.go:26-32 | whatever key order and decimals the column uses, the canonical form of the stored document is that of the original if and only if every number is one the column keeps |
| Json.CanonicalIdempotent | internal/application/services/audit_chain.go:26-42 | canonicalizing twice is canonicalizing once |
| Json.CanonicalIgnoresMemberOrder | internal/application/services/audit_chain.go:26-42 | swapping neighbouring members with different keys, at any place in an object, does not move the canonical form |
| Json.CanonicalKeepsLastDuplicate | internal/application/services/audit_chain.go:37-41 | of two members with one key, anywhere in an object, only the later one counts |
| AuditChain.VerifyChainEntries | internal/application/services/audit_chain.go:75-100 | no error if and only if the list is numbered 1..n, linked from genesis and every hash recomputes; otherwise the first broken position, everything before it a good chain, its reason, and its stored number, which is 0 if and only if the row is nil or stored with 0 |
| AuditChain.BrokenRowReportedAsZero | internal/application/services/audit_chain.go:84-86 | any list whose first broken row is stored with seq 0 is reported by the number 0 together with an error |
| AuditChain.HashInputText | internal/application/services/audit_chain.go:46-65 | the hash input is the nine fields written out in order with a separator between each two, null for no payload and the time to the microsecond |
| AuditChain.CanonicalBytesDetermineMeaning | internal/application/services/audit_chain.go:33-42 | two payloads have the same canonical bytes if and only if they mean the same JSON value, an empty payload meaning null |
| AuditChain.InputDeterminesFields | internal/application/services/audit_chain.go:53-68 | an entry with no separator outside its payload and any other entry with the same hash input have the same hashed fields |
| AuditChain.HeadCommitsToHistory | internal/application/services/audit_chain.go:53-100 | an accepted chain with no separator outside its payloads and any other accepted chain with the same last hash have the same length and agree on every hashed field of every entry, or two entries equally far from the heads are a collision |
| AuditChain.HeadCommitsIff | internal/application/services/audit_chain.go:53-100 | the last hash of an accepted chain commits to its history in that sense if and only if no entry of it holds a separator outside its payload |
| AuditChain.SameHistorySameVerdict | internal/application/services/audit_chain.go:75-100 | conversely, lists that agree on the hashed fields get the same verdict: id, severity, payload spelling and time below a microsecond are not covered |
| AuditChain.TamperedRowIsReported | internal/application/services/audit_chain.go:94-96 | a row with no separator outside its payload, replaced by any row with other hashed content and the same stored hash, is the first broken position, unless the contents collide |
| AuditChain.ForgeableIffSeparator | internal/application/services/audit_chain.go:53-100 | a row of an accepted chain can be replaced by one with other hashed fields, without a collision and with the whole chain still accepted, if and only if it holds a separator outside its payload |
| AuditChain.PipesBreakTheCommitment | internal/application/services/audit_chain.go:55-65 | the smallest case: two entries with different action and entity type have one hash input |
| AuditLog.StoredRowKeepsHashedFields | internal/infrastructure/postgres/audit_repo.go:35-43 | append followed by list keeps everything the hash covers if and only if the ids are spelled as the uuid column spells them and every number of the payload is one that jsonb keeps |
| AuditLog.StoredRowReadsBack | internal/infrastructure/postgres/audit_repo.go:35-107 | append followed by list gives back, field by field, the id of the row, the ids as the column spells them, the payload as jsonb stores it, the time to the microsecond, and action, entity, severity, number and hashes as they were |
| AuditLog.NegativeZeroIsNotKept | internal/application/services/audit_chain.go:37-41 | a payload with a negative zero has a number that jsonb does not keep |
| AuditLog.NewestIsLast | internal/infrastructure/postgres/audit_repo.go:58-78 | in a numbered log the tail query returns the last inserted row, numbered by the count |
| AuditLog.TakenIffStale | migrations/000002_audit_chaining.up.sql:46-47 | the unique constraint refuses a number exactly when the writer's tail is no longer the newest row |
| AuditLog.AppendKeepsChains | internal/infrastructure/postgres/audit_repo.go:30-51 | an insert that the constraint admits extends its tenant's chain and touches no other tenant's |
| AuditLog.RunKeepsInv | internal/application/services/audit_service.go:46-96 | after any run of any requests every tenant's rows are numbered and linked and every call in progress holds a tail that once was the newest row |
| AuditRuns.EveryRunIsNumbered | internal/application/services/audit_service.go:46-96 | for any writers, tenants, requests, interleaving and faults, what the list query returns is numbered 1..n and linked from genesis |
| AuditRuns.RowsOnlyGrow | internal/infrastructure/postgres/audit_repo.go:14-15 | the log is append-only: every later table has the earlier one as a prefix |
| AuditRuns.OneRowPerSuccess | internal/application/services/audit_service.go:35-97 | a call that succeeded has exactly one row, with the columns of its request (ids as the uuid column spells them, NULL for empty, severity "info" by default) and the hash of the entry made from it; a call that failed or still runs has none, except when only the commit acknowledgement was lost |
| AuditRuns.SuccessIsListed | internal/application/services/audit_service.go:35-97 | after any run the list of the tenant has an entry with action, entity, ids and severity of each successful call |
| AuditRuns.FinishedForAReason | internal/application/services/audit_service.go:35-97 | every outcome goes back to an event of the call that explains it: success to an acknowledged append, a failed append to that failure, a bad payload to a payload that is no JSON |
| AuditRuns.RowsAreWritten | internal/application/services/audit_service.go:69-82 | every row was written by an append of its own call, under the id drawn there, and has the time which that call had read, to the microsecond |
| AuditRuns.SinceIsTheCountAtBegin | internal/application/services/audit_service.go:35-37 | the count a call remembers is its tenant's number of rows at the event that began it |
| AuditRuns.ConflictMeansTwoOthersCommitted | internal/application/services/audit_service.go:82-96 | a call that ends with the conflict error saw two rows of its tenant appear during its run, by two different other calls |
| AuditRuns.ConflictMeansProgress | internal/application/services/audit_service.go:82-96 | in any set of calls that contains all finished calls of a tenant, if one ended with the conflict error then two others of the set wrote a row |
| AuditRuns.CreatedFollowsSeq | internal/application/services/audit_service.go:47-82 | under a monotone clock created_at is nondecreasing in seq within each tenant, for any requests |
| AuditVerdict.EveryRunVerifies | internal/application/services/audit_service.go:46-96 | if the database can store every committed request of a tenant as it was hashed, the verifier accepts the tenant's log, after any run |
| AuditVerdict.RowAcceptedIff | internal/application/services/audit_chain.go:90-96 | the stored row of an entry, separators in its action and entity included, passes the verifier's hash comparison if and only if the database can store the entry as it was hashed, or the two collide |
| AuditVerdict.AcceptedIffRequestsSurvive | internal/application/services/audit_service.go:46-111 | after any run the verifier accepts a tenant's log if and only if every committed row comes from a request whose ids and numbers the database keeps, or whose hash input collides with what is read back |
| AuditVerdict.HonestWriterIsReported | internal/application/services/audit_chain.go:94-96 | one successful call with an id spelled differently, or a number that is not kept, makes the verifier reject the log unless there is a collision |
| AuditVerdict.NegativeZeroIsReported | internal/application/services/audit_chain.go:94-96 | the same for a payload with a negative zero, whatever the ids |
| AuditService.AuditRepo.Append | internal/infrastructure/postgres/audit_repo.go:30-51 | the insert: conflict exactly when the number is taken, otherwise one row at the end, column by column; what each fault leaves behind |
| AuditService.AuditRepo.Tail | internal/infrastructure/postgres/audit_repo.go:58-78 | number and hash of a row of the tenant whose seq no row of the tenant exceeds, or none if the tenant has no row |
| AuditService.AuditRepo.ListByTenant | internal/infrastructure/postgres/audit_repo.go:84-115 | the loop returns the tenant's rows by ascending seq with NULLs read back, or nothing and an error when the query, a scan or the commit fails |
| AuditService.AuditService.Record | internal/application/services/audit_service.go:35-97 | the call, with everything others do meanwhile, is one run of the machine; it follows the order tail, clock, append, again after a conflict, and ends in the outcome the machine gives, explained by an event of the call |
| AuditService.AuditService.VerifyChain | internal/application/services/audit_service.go:102-111 | refused without a tenant, failed when the list fails; otherwise no error if and only if the stored rows form a chain, and the number is the stored seq of the first broken row |
| RefreshTokens.StepKeepsInv | internal/application/services/auth_service.go:127-218 | every login and refresh, with any faults, keeps ids and hashes unique and every family a linear chain |
| RefreshTokens.EveryFamilyIsOneChain | internal/application/services/auth_service.go:161-192 | in every run each family is one rotation chain of one user and tenant with at most one unrevoked member |
| RefreshTokens.ChainStartsAtLogin | internal/application/services/auth_service.go:59-104 | no row was ever replaced by the first member of a family |
| RefreshTokens.EveryFamilyBeganWithALogin | internal/application/services/auth_service.go:61-104 | in every run each row goes back to a login with valid credentials for its own user and tenant, which began its family |
| RefreshTokens.SessionsComeFromLogins | internal/application/services/auth_service.go:127-213 | a session out of a refresh, after any run, is for a user and tenant that logged in with valid credentials, in the family of that login |
| RefreshTokens.LoginSessionIff | internal/application/services/auth_service.go:61-117 | a login gives a session if and only if the credentials are valid and nothing fails; invalid ones change nothing and are the only ones refused |
| RefreshTokens.SessionRow | internal/application/services/auth_service.go:96-192 | the row found under the token of a session: unrevoked, without successor, with the drawn id, hash and expiry, and the user, tenant and family of the account or of the presented row |
| RefreshTokens.SessionIsRotatableIff | internal/application/services/auth_service.go:183-192 | presented next without faults, the token of a session gives a session if and only if it is before the expiry drawn with it |
| RefreshTokens.UnauthorizedIff | internal/application/services/auth_service.go:127-159 | a refresh answers 401 if and only if nothing was presented, or the token is unknown, expired or revoked, a rotated one only when its family update was acknowledged |
| RefreshTokens.RotationKillsFamilyIff | internal/application/services/auth_service.go:180-192 | after an attempt to rotate, the family has no live member if and only if the revocation took effect and the successor was not stored |
| RefreshTokens.DeadForGood | internal/application/services/auth_service.go:127-218 | a family without a live member never gets one again, in any run |
| RefreshTokens.LostStoreKillsForGood | internal/application/services/auth_service.go:183-192 | a lost insert after the revocation leaves the family without a usable token in every later state |
| RefreshTokens.ReplayKillsForGood | internal/application/services/auth_service.go:148-156 | presenting a rotated token, with the family update taking effect, leaves no live member of the family in any later state |
| RefreshTokens.ExpiredChangesIff | internal/application/services/auth_service.go:145-159 | presenting an expired token gives no session and changes the table if and only if it had been rotated, its family has a live member and the family update takes effect |
| RefreshTokens.ReplayIsTheftAtAnyTime | internal/application/services/refresh.go:88-100 | a token rotated once and presented again kills its live family, and the call does exactly the same at every other time, before or after the expiry |
| RefreshTokens.RefreshChangesIff | internal/application/services/auth_service.go:127-192 | a refresh changes the table if and only if it presents a rotated token of a family with a live member and the family update takes effect, or it rotates a live unexpired token as far as the revocation |
| RefreshTokens.RoleFailureBurnsNothing | internal/application/services/auth_service.go:161-174 | with a failed role lookup or random draw there is no session, and the table changes only if the call kills a family, which is decided before |
| RefreshTokens.RunPersists | internal/infrastructure/auth/refresh.go:69-88 | through any run a row keeps its place, identity and expiry, and stays revoked and replaced once it is |
| RefreshTokens.NoHolderSurvivesReuse | internal/application/services/refresh.go:84-95 | when two holders present one token value in either order, with anything in between, no token of the family yields a session afterwards |
| AuthService.RefreshTokenStore.Store | internal/infrastructure/auth/refresh.go:28-37 | the insert adds the row unless its id or hash exists; what each fault leaves behind |
| AuthService.RefreshTokenStore.FindByHash | internal/infrastructure/auth/refresh.go:39-67 | a row of the table that has that hash, or none if no row has it |
| AuthService.RefreshTokenStore.Revoke | internal/infrastructure/auth/refresh.go:69-78 | exactly the row with that id becomes revoked with that successor, whatever it was before |
| AuthService.RefreshTokenStore.RevokeFamily | internal/infrastructure/auth/refresh.go:80-88 | exactly the rows of the family become revoked, their successors untouched |
| AuthService.ValidIffSameKey | internal/application/services/auth_service.go:61-79 | for an account whose string was made from a password the credentials are valid if and only if nothing is empty, the account is active, and the given password derives the same key |
| AuthService.AuthService.Check | internal/application/services/auth_service.go:61-79 | the early exits decide exactly whether the credentials are valid |
| AuthService.AuthService.Login | internal/application/services/auth_service.go:61-117 | invalid credentials are refused and change nothing; valid ones give a session exactly when nothing fails, and the new row has user and tenant of the account, the new family and the drawn expiry; the table and the outcome are those of the login step |
| AuthService.AuthService.Refresh | internal/application/services/auth_service.go:127-218 | a session means that the presented token was stored, unrevoked and unexpired, and that the last row is its successor with user, tenant and family kept and the drawn expiry; table and outcome are those of the refresh step, in that order of faults |
| RefreshRace.RacesKeepInv | internal/application/services/auth_service.go:132-192 | with read, revocation and insert interleaved freely, history, phases and rows stay consistent |
| RefreshRace.UninterruptedIsAtomic | internal/application/services/auth_service.go:127-192 | a call that nobody interrupts leaves the table as the one-step refresh does, for every pattern of faults |
| RefreshRace.LoginIsAtomic | internal/application/services/auth_service.go:96-104 | so does a login that has passed its checks |
| RefreshRace.SuccessorsBoundedByEarlyReaders | internal/application/services/auth_service.go:132-192 | a token gets at most as many successors as calls read it as rotatable before its first revocation committed |
| RefreshRace.SuccessorsInheritIdentity | internal/application/services/auth_service.go:178-192 | every successor has an earlier, revoked parent row with the same user, tenant and family |
| RefreshRace.RevokedForGood | internal/infrastructure/auth/refresh.go:69-88 | through any continuation no revocation is undone and no row changes its user, tenant, family or origin |
| RefreshRivals.WithoutOverlapOneLiveToken | internal/application/services/auth_service.go:132-192 | if no token of a family has two rivals, calls that read it as rotatable and still exchange it or have, all members of that family but the newest are revoked, whatever happens to other families |
| RefreshRivals.SecondRivalIsFatal | internal/infrastructure/auth/refresh.go:69-78 | the step that gives a token of a family its second rival can be continued by the two rivals alone to two live tokens of that family |
| RefreshRivals.OverlapLeavesTwoLiveTokens | internal/infrastructure/auth/refresh.go:69-78 | from any state in which two calls hold an allowing read of one family, their next four statements can leave two live tokens of it |
| RefreshRivals.OverlapIsReachable | internal/application/services/auth_service.go:132-145 | such a state is reached by one login and two calls |
| RefreshRivals.ExtinctForGood | internal/application/services/auth_service.go:132-192 | a family without a live member and without a call exchanging one of its tokens stays so in every continuation |
| RefreshRivals.KillIsFinalIff | internal/application/services/auth_service.go:148-156 | after the family update took effect the family is dead in every continuation if and only if no call is between its read and its insert for it |
| RefreshRivals.BusyKillIsReachable | internal/application/services/auth_service.go:148-192 | a state in which one call is about to kill a family and another about to store a member is reached with a single rotation under way |
| BrowserSession.SessionIsStored | internal/application/services/auth_service.go:183-213 | the token of a returned session is a new unrevoked row of the presented token's family |
| BrowserSession.PresentedRow | internal/application/services/auth_service.go:161-213 | what a refresh makes of an unrevoked token it was given, for every pattern of faults |
| BrowserRuns.StepIsSafeIff | internal/web/static/api.js:45-63 | a step keeps every token the client holds usable if and only if it is none of the steps in Breaks |
| BrowserRuns.NeverMistakenForTheft | internal/web/static/api.js:45-88 | through any run without such a step no family of this client is revoked as a whole, the token of an open refresh is never a rotated one, and an abandoned request that arrives with a revoked token changes no row |
| BrowserRuns.StoredIsNewest | internal/web/static/tokens.js:53-71 | whenever no refresh is open, the stored token is unrevoked and the newest of its family |
| BrowserRuns.BreakRevokesTheFamily | internal/web/static/api.js:45-63 | after any such step the client has a way on, with no further fault on the server, in which its family is revoked for good |
| BrowserRuns.NobodyWaitsInVain | internal/web/static/tokens.js:83-99 | in every run, lost replies and breaking steps included, no request waits for a refresh that is not under way |
| BrowserRuns.OneRefreshServesAll | internal/web/static/tokens.js:83-99 | as long as a request waits, in a page that stays, at most one refresh request goes out, and none if it is out already; two requests that wait at one moment are woken together, never one renewed and the other turned down |
| BrowserRuns.OneRetryPerRequest | internal/web/static/api.js:72-83 | as long as the page stays, a request is retried at most once, and never after a failed refresh or without an access token |
| BrowserRuns.WaiterGetsTheOutcome | internal/web/static/api.js:76-83 | whoever waits for a refresh is retried, with the access token of that moment, if and only if the refresh brought in a session, and otherwise gets its first 401 |
| BrowserRuns.RequestVerdict | internal/web/static/api.js:65-88 | as long as the page stays, a request succeeds if and only if its last reply was no 401, and is turned down if and only if its last reply was a 401 and it had no access token, had been retried, or came back from a failed refresh |
| BrowserRuns.VerdictStays | internal/web/static/api.js:65-88 | a request that is over keeps its verdict |
| BrowserRuns.PageLoadForgets | internal/web/static/tokens.js:45-52 | after a page load, until a refresh or login brings in a session, every request goes out without an access token and none starts a refresh |
| BrowserRuns.NoRetryWithoutRenewal | internal/web/static/api.js:76-83 | through any run, as long as no refresh has brought in a session, no request is retried |
| BrowserIdentity.StepStaysIff | internal/web/static/api.js:92-109 | a step keeps both tokens, and whatever is on its way, with the family of the last delivered login if and only if it is no logout while the refresh can still bring a token, no login while it can still bring one or wipe, and no rejected write of either or of a wipe |
| BrowserIdentity.UnsettledGoesAstray | internal/web/static/api.js:45-109 | every step excluded there can be continued, without a fault on the server, to a state with no refresh open in which the stored token and the session disagree |
| BrowserIdentity.StoredIsNewestOfTheLogin | internal/web/static/api.js:45-109 | in runs without such steps, with no refresh open, a token is stored if and only if there is a session, and it is the unrevoked newest of that session's family |
| BrowserIdentity.FromPageLoad | internal/web/static/api.js:39-109 | the same for every run that begins with a page load, with nothing or a live token in storage |
| BrowserIdentity.LogoutIsUndone | internal/web/static/api.js:106-109 | a logout while a live token is on its way to the server ends with both tokens set |
| BrowserIdentity.LoginIsOverwritten | internal/web/static/api.js:92-104 | a login delivered while a live token is on its way ends with a token of the earlier session stored |
| ApiClient.TokenStore.GetRefresh | internal/web/static/tokens.js:53-59 | the stored token, or none when storage throws |
| ApiClient.TokenStore.SetRefresh | internal/web/static/tokens.js:60-71 | the token replaces the stored one, none removes it, a throwing storage changes nothing, and no other key is touched |
| ApiClient.TokenStore.Clear | internal/web/static/tokens.js:72-79 | the access token is gone in any case, the stored one when storage works, and no other key is touched |
| ApiClient.Api.Refresh | internal/web/static/tokens.js:87-99 | callers join the flight under way or open one |
| ApiClient.Api.OnResponse | internal/web/static/api.js:72-88 | a 401 to a first fetch that carried a token joins the refresh; any other reply ends the request, as a success exactly if it is no 401 |
| ApiClient.Api.OnRefreshed | internal/web/static/api.js:76-82 | a settled refresh leads to one retry with the token of that moment, or to the first 401 |
| ApiClient.Api.RunFlight | internal/web/static/api.js:45-52 | the flight presents what storage holds when it runs, or rejects |
| ApiClient.Api.OnRefreshReply | internal/web/static/api.js:53-63 | a 401 wipes both tokens, another error changes none, a session sets both |
| ApiClient.Api.OnSettled | internal/web/static/tokens.js:91-95 | the slot is freed and every waiter gets the one outcome |
| ApiClient.Api.OnLoginReply | internal/web/static/api.js:98-103 | a session sets both tokens, an error none |
| ApiClient.Api.Logout | internal/web/static/api.js:106-109 | both tokens are dropped and nothing else |
| RateLimit.BucketsFollowWindows | internal/infrastructure/redis/ratelimit.go:68-79 | after any log the bucket of a key holds the rank of its last call and the end of the greedy window that call lies in |
| RateLimit.AllowedIffRankWithinLimit | internal/infrastructure/redis/ratelimit.go:51-89 | a call is allowed if and only if it has no limit or its rank in its greedy window is within its own limit |
| RateLimit.KeysDoNotInteract | internal/infrastructure/redis/ratelimit.go:68-76 | the answer to a call is the one it gets when no other key was ever used |
| RateLimit.PerWindowBound | internal/infrastructure/redis/ratelimit.go:68-81 | of the calls in one window at most L of those with limit L are allowed, whatever the clock does |
| RateLimit.IntervalBound | internal/infrastructure/redis/ratelimit.go:63-89 | with stamps in order and one window length, any closed interval of that length holds at most 2 L - 1 allowed calls of limit L, whatever other limits share the key |
| RateLimit.LongIntervalBound | internal/infrastructure/redis/ratelimit.go:63-89 | an interval one tick longer than the window holds at most 2 L allowed calls of limit L |
| RateLimit.BoundIsReached | DECISIONS.md:437-438 | for every limit L and every positive window, a log with 2 L - 1 allowed calls in one interval of that length |
| RateLimitFailover.ScriptIsMemory | internal/infrastructure/redis/ratelimit.go:97-106 | on one clock the script's counter of a key and its verdict are those of the bucket |
| RateLimitFailover.SidesFollowTheirLogs | internal/infrastructure/redis/ratelimit.go:93-112 | the buckets depend only on the calls without a reply, the counters only on the calls whose script ran |
| RateLimitFailover.FailoverBound | internal/infrastructure/redis/ratelimit.go:51-126 | for every pattern of Redis failures, replies lost after the script ran included, and every window of at least a millisecond, at most 4 L - 1 calls are let through in an interval of one window length, and 4 L - 2 if the window is a whole number of milliseconds |
| RateLimitFailover.FailoverBoundIsReached | internal/infrastructure/redis/ratelimit.go:51-126 | both numbers are reached, for every limit and every window of at least a millisecond |
| RateLimitFailover.SubMillisecondIsUnlimited | internal/infrastructure/redis/ratelimit.go:97-119 | with windows below a millisecond on a key every call that Redis answers is let through |
| RateLimitFailover.BoundedIffWide | internal/infrastructure/redis/ratelimit.go:91-126 | what is let through is bounded by 4 L - 1 if and only if the window has at least a millisecond, or is negative, when there is no interval |
| RateLimitFailover.TwinsAgree | internal/infrastructure/redis/ratelimit.go:91-126 | without failures on a key, on a millisecond clock, Redis and the buckets answer its calls alike, whatever happens on other keys |
| RateLimiter.RateLimiter.AllowMemory | internal/infrastructure/redis/ratelimit.go:63-89 | the map of bucket objects and the verdict change as the bucket machine says; Retry-After is the rest of the window, never negative |
| RateLimiter.RateLimiter.AllowRedis | internal/infrastructure/redis/ratelimit.go:93-126 | counters, buckets and verdict change as the failover machine says; Retry-After is the script's remaining time, or after a failure that of the bucket |
| RateLimiter.RateLimiter.AllowCall | internal/infrastructure/redis/ratelimit.go:51-60 | no limit means no bucket; otherwise Redis when there is a client, the buckets when there is none; Retry-After of a denial is the script's remaining time when Redis answered and the bucket's otherwise |
| RateLimiter.WaitingTheHeaderSufficesIff | internal/http/middleware.go:216-225 | a client denied by a bucket that waits as the header says finds a new window if and only if the rest of the window was not a positive whole number of seconds |
| RateLimiter.WaitingTheRedisHeaderSufficesIff | internal/infrastructure/redis/ratelimit.go:117-125 | the same for a denial by the script, whose wait comes from the key's remaining time |
| RateLimiter.SharedCounterIff | internal/http/middleware.go:173-197 | two calls share a counter if and only if both are a login or a refresh from one address, or both are other API calls with the claims of one user of one tenant |
| RateLimiter.LimitedIff | internal/http/middleware.go:173-197 | a call has a counter if and only if it is a login, a refresh, or an API call with claims |
| RateLimiter.PortIsStripped | internal/http/middleware.go:209-212 | the port is cut from an IPv4 address, so the key does not depend on it |
| RateLimiter.BracketedPortIsStripped | internal/http/middleware.go:201-208 | the port is cut from a bracketed IPv6 address and the brackets stay |
| RateLimiter.NoPortStays | internal/http/middleware.go:199-213 | an address without a port stays as it is |
| TenantPool.IdleMeansNoTenant | internal/infrastructure/postgres/db.go:41-55 | in every run, with failing binds, bodies, commits and rollbacks, no idle connection resolves to a tenant or is inside a transaction |
| TenantPool.StatementsRunUnderTheirTenant | internal/infrastructure/postgres/db.go:50-69 | in every run every statement inside a transaction resolved to exactly the tenant passed in, and every other statement to none |
| WithTenant.ConnPool.Body | internal/infrastructure/postgres/db.go:62-64 | the body's statements are sent in order up to the first failure |
| WithTenant.OneEnd | internal/infrastructure/postgres/db.go:50-69 | the script begins, binds, and has one end, the last thing sent: a commit if and only if begin, bind and every query went well |
| WithTenant.QueriesAre | internal/infrastructure/postgres/db.go:62-64 | the queries sent are those up to and including the first that fails |
| WithTenant.ConnPool.WithTenant | internal/infrastructure/postgres/db.go:50-69 | whatever others do in between, the call sends begin, bind, the body and exactly one end, commit only after a clean body, holds no connection afterwards, and returns the error of the step that failed |
| TenantRows.OthersAreInvisible | migrations/000001_init.up.sql:165-171 | an operation of another tenant, as the uuid column tells tenants apart, leaves a tenant's view alone, even with the same ids |
| TenantRows.OwnRunsOnView | internal/infrastructure/postgres/campaign_repo.go:15-22 | a tenant's operation, under any spelling of its id, answers and acts as if its own rows were the whole database |
| TenantRows.RunRestrictsToOwn | internal/infrastructure/postgres/campaign_repo.go:47-142 | any run, seen by one tenant, is the run of that tenant's operations on its own rows |
| TenantRows.Noninterference | internal/infrastructure/postgres/campaign_repo.go:47-142 | two histories that differ only in other tenants' rows and operations give a tenant the same answers |
| TenantRows.NoContextNoEffect | migrations/000001_init.up.sql:15-33 | with an empty tenant nothing is shown, inserted, changed or deleted |
| TenantRows.ApplyKeepsKeys | migrations/000001_init.up.sql:86-98 | every operation keeps (id, tenant) unique |
| TenantRows.RunKeepsKeys | migrations/000001_init.up.sql:86-98 | and so does every run |
| TenantRows.CreatedIsFound | internal/infrastructure/postgres/campaign_repo.go:93-107 | a created campaign is what its tenant finds under that id, under any spelling of both, whatever other tenants did since |
| TenantRows.CreatedLotIsFound | internal/infrastructure/postgres/lot_repo.go:85-99 | the same for a lot |
| TenantRows.UpdatedIsFound | internal/infrastructure/postgres/campaign_repo.go:113-128 | an updated campaign is found, whatever others did since, with name, season, start and end of the update and the creation time it had |
| TenantRows.DeletedIsGone | internal/infrastructure/postgres/campaign_repo.go:130-142 | a deleted campaign is not found any more under any spelling, whatever others did since |
| TenantRows.FindCampaignIff | internal/infrastructure/postgres/campaign_repo.go:47-66 | a find answers a row if and only if it is the row of that tenant and id, and changes nothing |
| TenantRows.FindLotIff | internal/infrastructure/postgres/lot_repo.go:39-58 | the same for a lot |
| TenantRows.CreateIff | internal/infrastructure/postgres/campaign_repo.go:93-107 | a create adds exactly that row, both times set to now, if and only if the tenant is registered and has no row with that id; the answer for every case |
| TenantRows.CreateLotIff | internal/infrastructure/postgres/lot_repo.go:85-99 | the same for a lot |
| TenantRows.UpdateIff | internal/infrastructure/postgres/campaign_repo.go:113-128 | an update replaces the four mutable columns of the named row, keeps its creation time and touches no other row; not found if and only if there is none |
| TenantRows.DeleteIff | internal/infrastructure/postgres/campaign_repo.go:130-142 | a delete removes the named row and no other; not found if and only if there is none, and then nothing changes |
| TenantRows.ListCampaignsIsComplete | internal/infrastructure/postgres/campaign_repo.go:68-91 | the list has every campaign of the tenant as often as the table and no other row, latest start first and those without a start last |
| TenantRows.ListLotsIsComplete | internal/infrastructure/postgres/lot_repo.go:60-83 | the list has every lot of the tenant as often as the table and no other row, by name in the collation of the database |
| TenantRepos.CampaignRepo.FindByID | internal/infrastructure/postgres/campaign_repo.go:47-66 | the answer of the find operation, with its error cases |
| TenantRepos.CampaignRepo.List | internal/infrastructure/postgres/campaign_repo.go:68-91 | the loop returns the whole ordered cursor |
| TenantRepos.CampaignRepo.Create | internal/infrastructure/postgres/campaign_repo.go:93-107 | table and answer of the create operation |
| TenantRepos.CampaignRepo.Update | internal/infrastructure/postgres/campaign_repo.go:113-128 | table and answer of the full-row replace; not found when no row was affected |
| TenantRepos.CampaignRepo.Delete | internal/infrastructure/postgres/campaign_repo.go:130-142 | table and answer of the delete; not found when no row was affected |
| TenantRepos.LotRepo.FindByID | internal/infrastructure/postgres/lot_repo.go:39-58 | the answer of the find operation under policy and explicit tenant |
| TenantRepos.LotRepo.List | internal/infrastructure/postgres/lot_repo.go:60-83 | the loop returns the whole ordered cursor |
| TenantRepos.LotRepo.Create | internal/infrastructure/postgres/lot_repo.go:85-99 | table and answer of the create operation |
| Base64.DecodeEncode | internal/infrastructure/auth/password.go:58-59 | decoding what was encoded gives the bytes back, for every byte string |
| Base64.SymbolTable | internal/infrastructure/auth/password.go:58-59 | the alphabet is A to Z, a to z, 0 to 9, plus and slash, in this order |
| Base64.SameBits | internal/infrastructure/auth/password.go:58-59 | the four sextets of a group are its 24 bits, highest first |
| Base64.TestVectors | internal/infrastructure/auth/password.go:58-59 | the vectors of section 10 of RFC 4648 for one, two and six bytes, without padding |
| Base64.BreaksAreIgnored | internal/infrastructure/auth/password.go:82-89 | a line break anywhere in a text does not change what it decodes to |
| Base64.DecodesIff | internal/infrastructure/auth/password.go:82-89 | a text without line breaks decodes if and only if it has only alphabet symbols and none left dangling |
| Base64.ReencodesIffCanonical | internal/infrastructure/auth/password.go:82-89 | a text is the encoding of what it decodes to if and only if it has only alphabet symbols, no dangling symbol and no stray bits |
| PasswordHash.ScanPrinted | internal/infrastructure/auth/password.go:73-78 | scanning a printed number gives it back, and what follows it, if and only if it fits 64 bits |
| PasswordHash.SpacesAndPlusAreSkipped | internal/infrastructure/auth/password.go:73-78 | spaces and a plus sign before a number do not change the scan |
| PasswordHash.HashText | internal/infrastructure/auth/password.go:43-61 | the string is the prefix with version 19, 65536 KiB, one pass and four lanes, then salt and the 32-byte key in base64; no salt, no string |
| PasswordHash.FiveDollars | internal/infrastructure/auth/password.go:67-70 | a string without exactly five dollar signs is refused |
| PasswordHash.SixPartsRefused | internal/infrastructure/auth/password.go:67-89 | six parts are refused if and only if the algorithm or version is another, the parameters do not scan, or salt or key is no base64 |
| PasswordHash.ParsePrint | internal/infrastructure/auth/password.go:56-89 | parsing a printed string gives exactly its parameters, salt and key if the version is 19 and the numbers fit 64 bits, and the matching refusal otherwise |
| PasswordHash.ParsePadded | internal/infrastructure/auth/password.go:72-80 | the same with any text behind the version and behind the parameters, which is ignored |
| PasswordHash.PrintInjective | internal/infrastructure/auth/password.go:56-60 | printed strings whose numbers fit 64 bits are equal only if parameters, salt and key are |
| PasswordHash.VerifyUsesStoredParameters | internal/infrastructure/auth/password.go:63-95 | verification derives with the parameters in the string, cut to 32, 32 and 8 bits, whatever the constants are |
| PasswordHash.CandidateAcceptedIffSameKey | internal/infrastructure/auth/password.go:49-96 | a stored hash accepts a candidate if and only if both passwords derive the same key |
| PasswordHash.OwnPasswordAccepted | internal/infrastructure/auth/password.go:49-96 | a hash accepts the password it was made from, for any salt and deterministic derivation |

## Left out

- Foreign libraries: SHA-256, Argon2id, JWT signing and checking, and random generation are parameters, laws or
  freshness hypotheses.
- The JSON grammar and string escapes (jsonb refuses a NUL character): a document is a tree, and a number in it is a
  literal. How Go prints a literal after reading it as a float64, and how jsonb prints it, are parameters. The
  RFC3339 printer is a parameter that is injective and prints no separator.
- A payload that is an empty, non-nil byte slice: jsonb rejects it, which appears only as a failing append.
- The `FOR UPDATE` lock of the tail read: it ends with its own transaction, before the append, so no theorem may
  rest on it.
- 64-bit wrap-around of seq after 2^63 - 1 rows of one tenant.
- `ListRecent` and `Latest`: the list of `ListByTenant` from the other end, behind two argument checks.
- Signals and breach sinks (`EmitSignal`, `breach.go`, `sinks.go`): fail-open, they change none of the state here.
- Role resolution is one call that may fail. The lookup of an account by tenant and email is an input of the login; a
  failed lookup finds nothing. A panic of the key derivation counts as no verdict.
- `NewRefreshToken` and `newUUIDish`: formatting of random bytes; the protocols only need values not drawn before.
- A token value stands for its SHA-256 digest, so two values with one digest are the same token.
- RateLimit.IntervalBound: takes the stamps as nondecreasing in the order in which the lock is taken; the clock is
  read before the lock, so the source does not enforce this.
- AuditVerdict.AcceptedIffRequestsSurvive: asks that no committed request of the tenant holds a separator in its tenant
  or actor id, which a uuid column would refuse; the refusal itself is a failing append.
- RateLimitFailover.FailoverBound: takes the limiter's clock and the Redis clock as one, and does not model keys lost
  on a Redis restart or several processes with buckets of their own.
- The mutex of the limiter: calls are atomic in the order of its lock.
- BrowserRuns.NeverMistakenForTheft: one page at a time, and each refresh one step on the server; two pages that
  share storage are two clients outside this model.
- The bodies of API replies, `session()`, the JWT payload decoder, `onSessionLost` and the views.
- A browser that repeats a POST on its own.
- TenantRows.Noninterference: covers campaigns and lots. Users, applications and audit row ids depend on other tenants
  by design (a global email, a single-column operator key, one global counter).
- `ValidatePhcFormat`, a helper of the tests that reads the same fields.
- Malformed UUIDs and values that a column type rejects are failing calls; `updated_at` of a lot, which nothing ever
  updates; the order in which equal rows are listed, which is insertion order here and unspecified in SQL.
- TenantPool: a body that itself sets `app.tenant_id`, which no repository does.
- PasswordHash.ParsePrint: strings are sequences of characters; bytes that are not UTF-8 are not modelled.
- HTTP handlers, routing, request bodies, logging, configuration, migrations as programs, seed data and charts.
