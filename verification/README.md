# Token and session lifecycle of the auth service

A Dafny model of how the service issues, rotates, revokes and accepts tokens, and of the counters,
locks, one-time tokens and idempotency protocol around that. `dafny verify dfyconfig.toml` checks it all.

## What is modelled

**The interleaved machine** (`Machine`). Any number of processes run Login (from the point where the
credentials were right), Refresh, Logout, LogoutAll, ForgotPassword and ResetPassword. One step of a
process is one SQL statement, one Redis command or pipeline, or one draw of fresh values, in the order of
`internal/usecase/auth.go:115-229` and `internal/usecase/internal.go:58-125`. Every statement may succeed,
fail without effect, or take effect and lose its answer (`Fault`). A run is any list of events: time
passing, a call arriving, a process taking a step. Ghost history records lineage, the Revoke statements
that changed no row, the access tokens signed, the jtis banned and the password updates.

- `Slices` shows what one step does to each component; `Lineage` proves the invariant of all runs from it.
- `Conservation`, `FamilyDeath`, `Revival` and `TokenSafety` prove the laws of all interleavings. `Race`
  shows that the conservation bound is reached.
- `SessionRace` runs a bulk delete of sessions against a save.
- `Atomic` gives the closed form of each call when it runs alone, by running the machine.

**The service** (`AuthService`, with the stores in `RefreshTable`, `Sessions`, `OneTimeTokens`,
`UserTable`, `Counters` and `Lockout`). Classes with the source's methods, updated in place. The object
carries the machine's state as ghost state: `Valid()` says that the stores are what some run of the
machine has made of them, and every call's contract says that it continues that run (`Continues`) and which
session and family it draws, so the laws over runs carry from one call to the next: `StaysDead`,
`SignedOutHolds` and `StaysBanned` say so. `Journeys` says what a client sees over several calls, in the fields
of the tables, the answers and the clock alone; `Expiry` says how long tokens last in every run.

**Traces of timed calls** (`Counters`, `Lockout`, `Mail`): bounds over half-open intervals of any trace.
`LockoutRace` is the lockout for overlapping logins, one Redis command a step.

**Idempotent registration**: `Idempotency` is `RunIdempotent` for any number of interleaved clients of one
cache key; `IdempotentRequest` is its body over the store, proved equal to a lone client of that machine;
`Registration` puts the service's Register into it, and `IdempotencyKeys` is the key space. `Reruns` says
exactly when the function is entered again.

## Assumptions

- One monotone clock in milliseconds; a row or key is live iff `now < expiry`. Durations are not negative.
- Each SQL statement, each transaction, each Redis command, the Lua script and each Redis pipeline is
  atomic. In `Machine` and `AuthService` a pipeline takes effect as a whole or not at all; in `Sessions` each of
  its commands has a fate of its own, and `SavePartsKeepIff`, `DeletePartsKeepIff` and `DropPartsKeepIff` say
  exactly which fates the session index survives.
- `token.Hash` is injective, so a raw token is represented by its digest. `uuid.New` returns fresh values,
  never the zero UUID. Digests of new refresh tokens need not be fresh: the UNIQUE constraint is modelled.
- An access token verifies iff this service signed it. NumericDate keeps whole seconds. EXPIRE takes whole
  seconds, at least one; SET keeps milliseconds.
- A password is represented by what bcrypt compares it with. Email normalisation and the Unicode classes
  are parameters; the classes are assumed to keep white space and the colon apart from letters and digits.
- The refresh TTL is one that EXPIRE does not truncate. `Sessions.DeleteAllMissesIffTruncated` shows that
  this is exactly what the session index needs.

## Where the code differs from what one might expect

- The comment at `pkg/httputil/http.go:110` says that `fn` is executed once per cache key. It is not:
  `Idempotency.SecondRunPossible`. `Reruns.EnteredAgainIff` says in which reachable states `fn` can be entered
  again while a cached answer stands; `MutualExclusion` and `RerunsReadEarlier` say what holds of all runs.
- The comment at `pkg/httputil/http.go:146` says that only ASCII is kept. Every Unicode letter and digit is,
  so a sanitised key can have up to 131 bytes: `IdempotencyKeys.LongKey`. Keys keep to 128 bytes exactly if
  no character beyond ASCII is kept (`KeysFitIffAscii`); which keys do not is in `KeyOverflowsIff`.
- "One unrevoked token per family" is false under interleaving (`Race.TwoTokensPossible`), because `Revoke`
  does not report how many rows it changed. `Conservation.TokensConserved` is the law that holds, and
  `AuthService.AuthService.FamiliesAreChains` gives back the plain statement for atomic calls. Two tokens of a
  family can come to be accepted at once exactly if the family is not dead (`Revival.TwoAcceptedIffUndead`).
- The lock outlives the failure counter exactly if the lockout is at least one second
  (`Lockout.LockOutlivesCounterIff`), because the counter's window is rounded to seconds and the lock is not.
- Bulk deletion of sessions is not atomic with its listing: `SessionRace.SaveEscapesIffUnlisted` says which
  sessions escape it, and `LoginEscapesLogoutAll` that one can, from every state in which the user has a
  listed session.
- A bound of 2 * max - 1 failures per counter window is false for lockouts under a second where max is 1, and
  under half a second where it is larger (`Lockout.FailuresKeepIff`). It is false for overlapping logins too, by
  no more than the failures that race with a lock (`LockoutRace.FailuresBounded`): any number can be recorded at
  once exactly if the email is not locked or that many logins are past the check (`LockoutRace.OvershootsIff`).
- After a failed query `GetRevokedFamily` returns a pointer to the zero UUID together with the error, and
  Refresh ignores the error; `AuthService.AuthService.NoNilFamily` shows that the statement then run is harmless.

## Model

| member | source | states |
|---|---|---|
| Conservation.TokensConserved | internal/usecase/auth.go:146-167 | In every interleaving with faults: unrevoked tokens of a family + calls about to save one <= 1 + Refresh-issued Revokes that changed no row |
| Conservation.AtMostOneToken | internal/repository/postgres/refresh.go:44-48 | Where no such Revoke hit zero rows, two unrevoked tokens of one family are the same token |
| Conservation.ChildrenBounded | internal/usecase/auth.go:158-164 | In every interleaving a token has at most one child plus one per wasted Revoke on it; without waste a family's tree is a chain |
| Race.TwoTokensPossible | internal/usecase/auth.go:151-161 | From any state with an accepted token, two overlapping Refresh calls reach exactly one unrevoked token more in its family at the price of exactly one wasted Revoke: whatever was wasted before, the bound moves by what the race gains |
| Race.BothRevoke | internal/usecase/auth.go:151-158 | Two calls that both look a token up before either revokes it both go on to issue from it |
| Revival.TwoAcceptedIffUndead | internal/usecase/auth.go:151-161 | In every reachable state: some continuation has two tokens of the family accepted at once if and only if the family is not dead |
| Revival.AcceptedDoubles | internal/usecase/auth.go:151-161 | From every state with an accepted token, a continuation with two accepted tokens in its family |
| Lineage.TokensFormATree | internal/usecase/auth.go:138-161 | In every interleaving every token descends from its family's one login token; every ancestor has the same grant and was revoked before the descendant was created; unrevoked tokens are leaves |
| Lineage.FamilyIsTree | internal/usecase/internal.go:110-120 | The same from the invariant, by induction along the parents |
| Lineage.SessionAndFamilyAgree | internal/usecase/internal.go:93-118 | Across all refresh rows and session blobs of any reachable state, session and family determine each other and both determine the user |
| Lineage.RevocationIsFinal | internal/repository/postgres/refresh.go:44-60 | A revoked row is never changed again, whatever runs |
| Lineage.RunKeeps | internal/usecase/auth.go:115-229 | Every run keeps the invariant (ids, lineage, bans, what each process may rely on), and records only grow |
| Slices.StepSlices | internal/usecase/internal.go:87-125 | One statement changes tokens, families, sessions, bans, reset tokens and wasted revocations only in the stated ways |
| FamilyDeath.DeathIsPermanent | internal/usecase/auth.go:151-161 | A family with no live token and no process able to save one stays so in every continuation |
| Revival.DeadIffNeverAccepted | internal/usecase/auth.go:151-164 | A family is dead if and only if no continuation ever has one of its tokens accepted |
| Revival.UndeadAccepted | internal/usecase/internal.go:87-120 | For every family that is not dead, a continuation in which one of its tokens is accepted |
| FamilyDeath.ReplayEndsFamily | internal/usecase/auth.go:151-157 | A Refresh that presents a revoked token, with no call holding the family, kills the family for ever once its RevokeFamily takes effect |
| FamilyDeath.ReplayRun | internal/usecase/auth.go:151-157 | The steps of such a Refresh revoke exactly the tokens of the family |
| FamilyDeath.RevokeUserEndsFamilies | internal/usecase/internal.go:58-61 | After RevokeAllForUser took effect, in any interleaving, an accepted token of the user is of a family drawn later or of one that a call was holding |
| FamilyDeath.SignedOutNeedsLogin | internal/usecase/auth.go:211-229 | For a signed-out user, every token accepted later is of a family that a later login drew |
| TokenSafety.AcceptedIffNotBanned | internal/usecase/auth.go:251-261 | In every run an access token is accepted iff it was signed here, has not expired and no Logout banned its jti |
| TokenSafety.LoggedOutStaysOut | internal/usecase/auth.go:170-173 | Once the blacklist write took effect, the jti is rejected at every later moment of every run |
| TokenSafety.ResetTokensSingleUse | internal/repository/postgres/onetime.go:46-58 | In every interleaving each password update spends its own unexpired reset token, issued to that user; updates never outnumber tokens |
| Expiry.RefreshGoesOnIff | internal/repository/postgres/refresh.go:25-31 | In every interleaving a Refresh goes on with the token presented iff it is stored, not revoked, and was saved less than one refresh TTL ago |
| Expiry.AccessTokensBounded | internal/infrastructure/jwt/jwt.go:47-68 | In every interleaving an access token names the user who owns its session and expires at a whole second no later than one access TTL from now |
| Expiry.SignStep | internal/infrastructure/jwt/jwt.go:47-68 | Only the signing step signs: the grant's user and session, and an expiry within the last second of the access TTL |
| Expiry.ResetTokenIssued | internal/usecase/auth.go:201 | A stored reset token expires 3600000 ms after its insert |
| Expiry.ResetGoesOnIff | internal/repository/postgres/onetime.go:47-58 | A ResetPassword goes on to its update iff the token is stored, unused and expires after now |
| Atomic.IssueAlone | internal/usecase/internal.go:87-125 | issueTokens run alone, for every fate of each statement: tables, sessions and signed tokens at its end, by a run of the machine |
| Atomic.LoginAlone | internal/usecase/auth.go:137-143 | A login run alone draws a family and a session and ends as issueTokens does |
| Atomic.RotateAlone | internal/usecase/auth.go:158-166 | A Refresh that finds its token, run alone, for every fate of each statement |
| Atomic.ReplayAlone | internal/usecase/auth.go:152-157 | A Refresh that finds no token, run alone; a failed query leads to the zero family |
| Atomic.RotationLeaves | internal/usecase/auth.go:158-164 | What a rotation leaves of its family: the old token if Revoke had no effect, the new one if its insert took effect, otherwise nothing |
| Atomic.RefreshNeverAdds | internal/usecase/auth.go:146-167 | For every table, also one that a race has left with several unrevoked tokens, every token presented and an error at any statement: a Refresh leaves no family with more unrevoked tokens than before |
| Atomic.RefreshIsLocal | internal/usecase/auth.go:146-167 | A Refresh leaves the unrevoked tokens of every other family as they are |
| Atomic.LogoutAlone | internal/usecase/auth.go:170-180 | Logout run alone: ban, cookie token and session, each by the fate of its own statement |
| Atomic.RevokeAllAlone | internal/usecase/internal.go:58-61 | revokeAllSessions run alone, both statements tried whatever happens to the first |
| Atomic.ConsumeAlone | internal/usecase/auth.go:215-225 | ResetPassword up to its update, run alone |
| Atomic.ForgotAlone | internal/usecase/auth.go:201-204 | The reset-token insert, run alone |
| RefreshTable.RefreshRepo.Save | internal/repository/postgres/refresh.go:17-23 | Inserts an unseen hash and nothing else; a taken hash is an error that changes nothing |
| RefreshTable.RefreshRepo.GetByHash | internal/repository/postgres/refresh.go:25-31 | Finds exactly a row that is not revoked and whose expiry is after now |
| RefreshTable.RefreshRepo.GetRevokedFamily | internal/repository/postgres/refresh.go:33-42 | The family of a revoked row; none if there is none; the zero UUID after an error |
| RefreshTable.RefreshRepo.Revoke | internal/repository/postgres/refresh.go:44-48 | Leaves the hash revoked and every other row unchanged; success does not say that a row changed |
| RefreshTable.RefreshRepo.RevokeFamily | internal/repository/postgres/refresh.go:50-54 | Leaves no unrevoked token in the family and other families unchanged |
| RefreshTable.RefreshRepo.RevokeAllForUser | internal/repository/postgres/refresh.go:56-60 | Leaves no unrevoked token of the user and other users unchanged |
| Sessions.DeleteAllIsScan | internal/infrastructure/redis/stores.go:80-94 | Where index and scan agree, bulk delete removes exactly the user's live sessions, now and at every later time |
| Sessions.SaveKeepsIndex | internal/infrastructure/redis/stores.go:53-70 | Save keeps index and scan in agreement, and the index expires no earlier than what it lists |
| Sessions.DeleteKeepsIndex | internal/infrastructure/redis/stores.go:72-78 | Delete keeps the agreement and removes one session from the scan |
| Sessions.TimeKeepsIndex | internal/infrastructure/redis/stores.go:65-67 | The agreement survives the passing of time: no session outlives its index |
| Sessions.NewOwnerKeepsIndex | internal/usecase/auth.go:138 | Drawing a fresh session id keeps the agreement |
| Sessions.SaveDuringBulkDelete | internal/infrastructure/redis/stores.go:80-94 | On the store: a session saved between SMEMBERS and the pipeline breaks the agreement and escapes later bulk deletes exactly if it was not listed |
| SessionRace.SaveEscapesIffUnlisted | internal/usecase/internal.go:58-61 | In every run of the machine in which a bulk delete and a save overlap so, with any time between the statements: the session lives until it expires in every continuation that does not itself save it again or log it out, bulk deletes included, iff it was listed neither by this bulk delete nor by another that is still to drop it |
| SessionRace.RunKeepsListed | internal/infrastructure/redis/stores.go:64-92 | In every interleaving, an index and a bulk delete list only sessions of their own user |
| SessionRace.IndexSurvivesIffListed | internal/infrastructure/redis/stores.go:80-94 | In every such run that had index and scan in agreement, they agree afterwards iff it was listed |
| SessionRace.LoginEscapesLogoutAll | internal/usecase/auth.go:183-187 | From every reachable state in which a user has a listed session: LogoutAll can run to its end without an error and leave an overlapping login's session live, out of reach in that sense |
| Sessions.DeleteAllMissesIffTruncated | internal/infrastructure/redis/stores.go:65-82 | A saved session can outlive its index, so that bulk delete misses it, exactly when EXPIRE truncates the TTL |
| Sessions.SessionStore.SaveSession | internal/infrastructure/redis/stores.go:54-70 | The store after SET, SADD and EXPIRE, each with its own fate; SADD to a missing key makes an index without expiry |
| Sessions.SessionStore.DeleteSession | internal/infrastructure/redis/stores.go:72-78 | The store after DEL and SREM, each with its own fate |
| Sessions.SessionStore.DeleteAllForUser | internal/infrastructure/redis/stores.go:80-94 | The loop deletes the listed sessions whose DEL takes effect, then the index; an error of the listing or an empty index changes nothing |
| Sessions.SavePartsKeepIff | internal/infrastructure/redis/stores.go:64-69 | A save that takes effect in part keeps index and scan in agreement iff SET has no effect or the index lists the session and lasts as long |
| Sessions.FatesKeepIff | internal/infrastructure/redis/stores.go:64-69 | Without regard to the store: iff SET takes effect only together with SADD and EXPIRE |
| Sessions.DeletePartsKeepIff | internal/infrastructure/redis/stores.go:73-76 | A delete that takes effect in part breaks the agreement iff SREM does without DEL on a live session of the user |
| Sessions.DropPartsKeepIff | internal/infrastructure/redis/stores.go:87-92 | A bulk delete that takes effect in part keeps it iff the index goes only when all live sessions of the user go |
| Sessions.SamePartsAreWhole | internal/infrastructure/redis/stores.go:64-78 | Commands of one fate are the whole pipeline or nothing |
| OneTimeTokens.OneTimeRepo.Create | internal/repository/postgres/onetime.go:40-44 | Inserts an unused token under the UNIQUE hash |
| OneTimeTokens.OneTimeRepo.Consume | internal/repository/postgres/onetime.go:46-58 | Succeeds iff the token is stored, not used and expires after now; answers its owner, and leaves it used now |
| UserTable.UserRepo.CreateWithRole | internal/repository/postgres/user.go:19-50 | All or nothing; a taken email is a conflict; emails stay unique |
| UserTable.UserRepo.GetByEmail | internal/repository/postgres/user.go:52-57 | Finds the one account of the email iff there is one |
| UserTable.UserRepo.UpdatePassword | internal/repository/postgres/user.go:59-71 | Changes the password of that user only; not found if no row |
| UserTable.UserRepo.MarkEmailVerified | internal/repository/postgres/user.go:73-85 | Marks that user only; not found if no row |
| AuthService.AuthService.Sound | internal/usecase/auth.go:115-229 | Between calls, the stores satisfy the machine's invariant |
| AuthService.AuthService.FamiliesAreChains | internal/usecase/auth.go:146-167 | In atomic runs a family has at most one unrevoked token and each token at most one child |
| AuthService.AuthService.StaysDead | internal/usecase/auth.go:151-157 | A family that was dead at an earlier moment of the object's run is dead now, whatever calls came between: each call's contract says that it continues the run |
| AuthService.AuthService.SignedOutHolds | internal/usecase/auth.go:210-229 | After a reset or LogoutAll signed a user out, a token of that user that is live now is of a family that a later Login drew |
| AuthService.AuthService.StaysBanned | internal/usecase/auth.go:170-173 | A jti banned at an earlier moment is banned now |
| AuthService.AuthService.SignedHolds | internal/usecase/auth.go:251-261 | An access token signed at an earlier moment says the same now |
| AuthService.AuthService.NewIsNotBanned | internal/usecase/auth.go:170-173 | A jti that has not been drawn has not been banned |
| AuthService.AuthService.NoNilFamily | internal/usecase/auth.go:153-154 | Revoking the zero family after a failed query changes nothing |
| AuthService.AuthService.OwnerOf | internal/usecase/internal.go:114-118 | The grant of a stored token is the one its login drew, and its session belongs to its user |
| AuthService.AuthService.IssueTokens | internal/usecase/internal.go:87-125 | Succeeds iff every statement does; then the row lasts one refresh TTL and the access token names the grant's user and session and expires at a whole second within the access TTL; what each failure exit has left behind in the three places |
| AuthService.AuthService.CheckCredentials | internal/usecase/auth.go:119-137 | Moves the lockout guard by exactly one attempt; passes iff no lock of the email is unexpired and some active account has this email and this password; which error otherwise |
| AuthService.AuthService.OpenSession | internal/usecase/auth.go:138-143 | Opens a family whose only unrevoked token is the new one, keeping every invariant at every failure exit |
| AuthService.AuthService.Login | internal/usecase/auth.go:115-144 | A pair is answered iff no lock of the email is unexpired, some active account has this email and this password, every statement succeeds and the hash is new; then its row and claims are those of that account, a new family and session, with the stated lifetimes; otherwise which error, and what moves |
| AuthService.AuthService.LoginAs | internal/usecase/auth.go:119-143 | The same for a normalised email, by the lockout guard and the tables |
| AuthService.AuthService.Rotate | internal/usecase/auth.go:158-166 | The presented token is exchanged for one successor or the family is left with what its faults allow; index and lineage are kept |
| AuthService.AuthService.DetectReplay | internal/usecase/auth.go:152-157 | Revokes the family of a revoked token and changes nothing else, even after a failed query |
| AuthService.AuthService.Refresh | internal/usecase/auth.go:146-167 | A pair is answered iff the token is stored, not revoked, expires after now, every statement succeeds and the new hash is unseen; then the old row is revoked now and the new row and claims are of the same grant, with the stated lifetimes; empty, unknown, expired and revoked tokens otherwise; a replay revokes the whole family and leaves it dead |
| AuthService.AuthService.RefreshHash | internal/usecase/auth.go:150-166 | The whole call for every fate of each statement, by tables, sessions and signed tokens |
| AuthService.AuthService.ParseAccess | internal/usecase/auth.go:251-261 | Accepts iff signed here, unexpired, never banned by any Logout, and the blacklist answered: an error of the blacklist rejects |
| AuthService.AuthService.Logout | internal/usecase/auth.go:170-180 | Bans the jti while unexpired, revokes the cookie token and removes exactly this session, each regardless of the other errors |
| AuthService.AuthService.BanAccess | internal/usecase/auth.go:171-173 | The ban lasts exactly to the token's own expiry, and none is written after it |
| AuthService.AuthService.EndSession | internal/usecase/auth.go:174-177 | Removes exactly this session from the live ones and revokes the cookie token |
| AuthService.AuthService.LogoutAll | internal/usecase/auth.go:182-187 | Signs the user out and removes exactly the user's live sessions |
| AuthService.AuthService.RevokeAllSessions | internal/usecase/internal.go:58-61 | The same for its two statements, either of which may fail |
| AuthService.AuthService.ClearedIsSignedOut | internal/usecase/internal.go:58-61 | With all of a user's tokens revoked and no call under way, every family of the user is dead |
| AuthService.AuthService.SpendResetToken | internal/usecase/auth.go:215-225 | The token is spent even if the update then fails; the password changes iff the update took effect |
| AuthService.AuthService.ResetPassword | internal/usecase/auth.go:210-229 | Success means the token was usable and is spent, its user's password is set, and that user is signed out and has no live session; failure leaves sessions and refresh tokens alone |
| AuthService.AuthService.ConsumeEmailQuota | internal/usecase/internal.go:144-157 | One limiter call for the normalised address, none while email is off; which error on refusal |
| AuthService.AuthService.Register | internal/usecase/auth.go:88-113 | Exactly when the account and its token are inserted, even by a failing call, and exactly when the call succeeds, the provider's answer included; rate limited iff the quota is refused, a conflict iff an account has the email, in that order; counters and messages move as the mail model says |
| AuthService.AuthService.SendTransactional | internal/usecase/internal.go:159-166 | One message to the normalised address, none while email is off; an error of the provider is the call's error |
| AuthService.AuthService.SendResetLink | internal/usecase/auth.go:198-207 | A token within the quota, and a message to the stored address after the token was saved |
| AuthService.AuthService.ForgotPassword | internal/usecase/auth.go:189-208 | Nothing happens for an unknown address; for a known one, its token and message |
| AuthService.AuthService.IssueReset | internal/usecase/internal.go:76-85 | The token is stored iff the insert took effect, with one hour to live |
| AuthService.AuthService.VerifyEmail | internal/usecase/auth.go:231-245 | Exactly when the owner of an unused, unexpired token is marked verified, and the token is spent |
| Journeys.RegisterThenLogin | internal/usecase/auth.go:134 | After a registration the address logs in with that password and with no other; a wrong one opens nothing |
| Journeys.ResetThenLogin | internal/usecase/auth.go:211-229 | After a reset the account logs in with the new password and with no other |
| Journeys.FailThenLogin | internal/usecase/auth.go:119-137 | After one wrong password the right one gets in iff max is more than one or the lockout has passed, and that clears count and lock; otherwise the account is locked |
| Journeys.LoginThenParse | internal/infrastructure/jwt/jwt.go:47-68 | The access token of a login is accepted up to a second before the access TTL has passed, and rejected from then on |
| Journeys.RefreshThenParse | internal/infrastructure/jwt/jwt.go:47-68 | The same for the access token of a rotation, which names the user of the token presented |
| Journeys.ParseLater | internal/usecase/auth.go:251-261 | An access token signed at any earlier moment, whatever calls came between, is accepted iff it has not expired and is not banned |
| Journeys.LogoutThenParse | internal/usecase/auth.go:170-173 | After a logout the access token is rejected at every later moment, even if the blacklist fails |
| Journeys.LoginThenRefresh | internal/usecase/auth.go:146-167 | The refresh token of a login is exchanged within one refresh TTL and refused from then on |
| Journeys.RefreshTwice | internal/usecase/auth.go:151-157 | A token presented a second time is refused, and its successor revoked |
| Journeys.ReplayThenRefresh | internal/usecase/auth.go:151-157 | After a replay the successor is refused as well |
| Journeys.ForgotThenReset | internal/usecase/auth.go:190-229 | A reset token is taken for 3600000 ms after ForgotPassword and is invalid from then on |
| Journeys.RegisterThenVerify | internal/usecase/auth.go:104 | A verification token marks its account within 86400000 ms |
| AuthService.AuthService.ClearedKeepsIndex | internal/infrastructure/redis/stores.go:80-94 | revokeAllSessions keeps index and scan in agreement whichever of its commands fail |
| AuthService.AuthService.OnlyToken | internal/usecase/auth.go:158-164 | In atomic runs an unrevoked token is the only one of its family |
| Counters.AllowedByWindows | internal/infrastructure/redis/stores.go:24-37 | At most what the open window has left, plus the limit per window that can still open |
| Counters.IntervalBound | internal/infrastructure/redis/stores.go:147-154 | Whatever the calls before, an interval of any length T allows at most limit * (ceil(T / W) + 1), W the window in whole seconds, at least one |
| Counters.WindowBound | internal/infrastructure/redis/stores.go:147-154 | Over one effective window, at most twice the limit |
| Counters.CounterCountsHits | internal/infrastructure/redis/stores.go:25-29 | A stored counter is the number of hits, denied ones included, since the one that opened its window, and no later hit prolongs it |
| Counters.FirstHitsAllowed | internal/infrastructure/redis/stores.go:147-154 | Of the hits of one window exactly the first `limit` are allowed: hit number n iff n is at most the limit |
| Counters.WindowCounts | internal/infrastructure/redis/stores.go:25-29 | In a window that a hit opens, the stored count is the number of hits and the expiry one window after its opening |
| Counters.CounterStore.IncrExpire | internal/infrastructure/redis/stores.go:31-37 | INCR, with the expiry set on the first hit only, in whole seconds with a floor of one |
| Counters.RateLimiter.Allow | internal/infrastructure/redis/stores.go:148-154 | Allows iff the count after this hit, one more than the unexpired count or one, is at most the limit; an error is neither |
| Types.WholeSecondsBounds | internal/infrastructure/redis/stores.go:32-35 | Truncation never lengthens a TTL of a second or more, and shortens none that is whole seconds |
| Lockout.FailuresBounded | internal/usecase/auth.go:119-137 | For every lockout, every interval length T and whatever went before, with no successful login in it: failures recorded <= ceil(T / lockout) + (max - 1) * ceil(T / W) + what the open counter still takes below max + lock writes lost, W the counter window |
| Lockout.WindowFailuresBounded | internal/infrastructure/redis/stores.go:117-131 | For a lockout of a second or more, an interval as long as the counter window holds at most 2 * max - 2 recorded failures (1 if max is 1), plus lost lock writes |
| Lockout.FailuresKeepIff | internal/infrastructure/redis/stores.go:31-36 | No run has more than 2 * max - 1 failures in one counter window, lost lock writes aside, exactly if the lockout is at least a second (half a second where max is 2 or more) |
| Lockout.FewFailuresNeverLock | internal/infrastructure/redis/stores.go:122-131 | From a guard with nothing against an email, fewer than max recorded failures never lock it |
| Lockout.SuccessStartsAnew | internal/usecase/auth.go:137 | After a successful login whose clearing takes effect, fewer than max further failures do not lock |
| Lockout.LocksEnd | internal/infrastructure/redis/stores.go:127-129 | No lock lasts longer than the lockout after the last attempt |
| Lockout.OneTooManyAtOnce | internal/infrastructure/redis/stores.go:122-131 | For max 1 and any shorter lockout: two failures in one window |
| Lockout.OneTooManyAcross | internal/infrastructure/redis/stores.go:122-131 | For max 2 or more and any lockout under half a second: a run with 2 * max failures in one window |
| LockoutRace.FailuresBounded | internal/usecase/auth.go:120-135 | With lock check, counter script and lock write as separate steps of any number of logins: the bound of Lockout.FailuresBounded plus the failures whose login was past its check when a lock was written or due |
| LockoutRace.WindowFailuresBounded | internal/infrastructure/redis/stores.go:117-131 | In every interleaving, for a lockout of a second or more: at most 2 * max - 2 failures in one counter window (1 if max is 1) plus lost lock writes plus those raced failures |
| LockoutRace.OvershootsIff | internal/usecase/auth.go:120-135 | In any state, while no time passes and nothing is cleared: more than m failures of an email can be recorded if and only if it is not locked or more than m of its logins are already past the check |
| LockoutRace.LockedRun | internal/infrastructure/redis/stores.go:117-120 | Behind a lock, at most the logins already past their check are recorded |
| LockoutRace.AnyNumberOverlaps | internal/usecase/auth.go:120-135 | From any state in which an email is not locked, for every n and every policy, n overlapping logins are all recorded at one moment |
| LockoutRace.AttemptAlone | internal/usecase/auth.go:119-137 | The steps of a login that runs alone are the atomic attempt of Lockout |
| LockoutRace.AloneNeverRaces | internal/usecase/auth.go:120-135 | A login that counts before anything else happens does not race, unless a lock was due when it checked |
| Lockout.RecordedWithin | internal/infrastructure/redis/stores.go:117-131 | The same from any state of lock and counter, by the locks and counter windows that still fit |
| Lockout.LockOutlivesCounterIff | internal/infrastructure/redis/stores.go:122-131 | A live count at the maximum has a live lock expiring no earlier, in every run, iff the lockout is at least one second |
| Lockout.LoginLockout.IsLocked | internal/infrastructure/redis/stores.go:117-120 | True iff a lock has not expired |
| Lockout.LoginLockout.RecordFailure | internal/infrastructure/redis/stores.go:122-131 | Count and lock after one failure, for every fate of the two commands |
| Lockout.LoginLockout.Clear | internal/infrastructure/redis/stores.go:133-139 | Removes lock and count of the email |
| Mail.SentOnGrant | internal/usecase/internal.go:144-166 | Messages to an address never outnumber the quotas granted for that address |
| Mail.QuotasApart | internal/usecase/internal.go:148-149 | Different addresses have different quotas |
| Mail.SendsBounded | internal/usecase/auth.go:93-108 | Over runs of Register and ForgotPassword among other limited requests, an interval of any length T sees at most limit * (ceil(T / W) + 1) messages to an address |
| Idempotency.MutualExclusion | pkg/httputil/http.go:115-132 | While no lock expires under its holder, at most one client is inside fn |
| Idempotency.RerunsReadEarlier | pkg/httputil/http.go:112-132 | After a cache write that took effect and until it expires, fn runs only in clients whose first read came before the write or got no answer |
| Idempotency.OneBody | internal/delivery/http/handler/auth.go:39-51 | In every interleaving all 201 answers to a registration under one key carry the same body, and Register returned one only once |
| Idempotency.BodiesAreResults | pkg/httputil/http.go:111-142 | For any fn, every 201 answer is a body that fn returned |
| Idempotency.SecondRunPossible | pkg/httputil/http.go:110-132 | A run from the start in which fn is entered again after a successful cache write, no lock expired: fn is not executed once per key |
| Reruns.EnteredAgainIff | pkg/httputil/http.go:110-132 | In every reachable state with an answer standing in the cache, as long as no time passes and first reads are answered: a further client enters fn in some continuation iff some client is past a missed read and the lock is free or held by a client |
| Reruns.CanEnter | pkg/httputil/http.go:116-131 | In any state, whatever the cache holds: a client past its missed read enters fn without time passing if the lock is free or held by a client |
| IdempotentRequest.RunIdempotent | pkg/httputil/http.go:111-133 | A request answers and leaves its two keys exactly as a lone client of the machine, and touches no other key |
| IdempotentRequest.Begin | pkg/httputil/http.go:111-123 | Calls fn exactly if the first read misses and the lock is won; the answer without it, and the lock left behind, for every fate of each command |
| IdempotentRequest.Complete | pkg/httputil/http.go:124-132 | Answer, cache and lock after fn has returned, for every fate of each command |
| IdempotentRequest.AloneAnswers | pkg/httputil/http.go:111-133 | What a lone client of the machine answers and leaves behind, for an arbitrary fn and for Register |
| Registration.RegisterOnce | internal/delivery/http/handler/auth.go:39-51 | A registration under a key, through the service's own Register, is a lone client of the registration machine whose email is taken iff the users table has it |
| Registration.Run | internal/usecase/auth.go:88-113 | Register answers a body, and takes the email, exactly as the machine's insert and return do |
| Journeys.RequestTwice | pkg/httputil/http.go:108-133 | Within 300000 ms a repeated request gets the first body, or, if that could not be stored, calls fn again or is refused while the lock stays; after that it calls fn |
| Journeys.RequestFails | pkg/httputil/http.go:124-129 | A failed request leaves nothing behind: the next one calls fn at once |
| Journeys.RequestReadsAgain | pkg/httputil/http.go:116-120 | A request that does not get the lock is answered by its second read |
| Journeys.RequestLocked | pkg/httputil/http.go:115-123 | While a lock is held and nothing is cached, a request is refused |
| IdempotentRequest.WriteCached | pkg/httputil/http.go:135-142 | Answers from the cache iff the entry is live and starts a JSON object |
| IdempotentRequest.IdempotencyStore.SetNX | internal/infrastructure/redis/stores.go:173-175 | Sets the key iff it is free; reports it iff the answer arrived |
| IdempotencyKeys.SanitizeIdempotencyKey | pkg/httputil/http.go:146-159 | The loop computes the specification function |
| IdempotencyKeys.SanitizedIsPrefix | pkg/httputil/http.go:147-158 | The result is the shortest prefix of the kept characters of the whole key that has 128 bytes, or all of them |
| IdempotencyKeys.SanitizedBounds | pkg/httputil/http.go:144-159 | At most 131 bytes, 128 if the last character is ASCII; only kept characters, so no colon |
| IdempotencyKeys.KeyOverflowsIff | pkg/httputil/http.go:150-156 | A key has more than 128 bytes iff one of its kept characters straddles byte 128 |
| IdempotencyKeys.PlainKeyUnchanged | pkg/httputil/http.go:146-158 | A key of at most 128 ASCII letters, digits, underscores and hyphens is returned as it is |
| IdempotencyKeys.LongKey | pkg/httputil/http.go:150-156 | 127 underscores and any kept character are kept whole, with 127 bytes more than that character |
| IdempotencyKeys.KeysFitIffAscii | pkg/httputil/http.go:144-146 | Every sanitised key fits into 128 bytes iff only ASCII characters count as letters and digits |
| IdempotencyKeys.SanitizeIdempotent | pkg/httputil/http.go:147-159 | Sanitising twice is sanitising once |
| IdempotencyKeys.CacheKeysInjective | internal/delivery/http/handler/auth.go:49-51 | The cache key determines sanitised key and body hash, and no lock key is a cache key |
| IdempotencyKeys.NamespacesDisjoint | internal/infrastructure/redis/stores.go:15-22 | Keys under different prefixes never meet |

## Left out

- HTTP plumbing, request decoding and validation, cookies, configuration loading, RBAC, audit log, telemetry and health checks.
- Cryptography and encodings: bcrypt, SHA-256, JWT serialisation, random bytes; a failure of `token.Random` counts as a failure of the statement beside it, and one of `password.Hash` as a failure of that call's next statement.
- The content of messages: only the recipients of messages that the mail provider takes are kept. A service with email on and no provider, which sends nothing, is not modelled.
- The roles, permissions and email in session blobs and claims, and `ExpiresIn`: nothing modelled reads them.
- `GetAuthProfile`: its only effect here is the failure exit of issueTokens, a fault that covers the missing row.
- Soft deletion of users: no code sets `deleted_at`. Accounts are never deactivated by the service either, so `is_active` is only read.
- What the code does not promise: an `is_active` check in Refresh, or access tokens ended by LogoutAll.
- Empty jti or absent expiry at Logout: Logout runs behind ParseAccess on tokens that carry both.
- Zero or negative durations (a lockout of zero among them), for which the Redis client chooses other commands.
- Pipelines that take effect in part, or between whose commands others run, in `Machine` and `AuthService`: `Sessions` gives each command a fate, but the machine's step is the whole pipeline.
- Register and VerifyEmail are atomic calls of `AuthService`. Login is interleaved in two machines: its lock check, counter and lock write in `LockoutRace`, its draw of ids and what follows in `Machine`.
- Sessions.DeleteAllIsScan: for stores in which index and scan agree, which is proved of all atomic calls; under interleaving it can fail, and SessionRace says when.
- Lockout.FailuresBounded: for logins one at a time; LockoutRace.FailuresBounded is the law for overlapping ones.
- Mail.SendsBounded: each Register or ForgotPassword is one operation; whether it sends after its quota is a choice, which covers every failure exit.
- Idempotency.RerunsReadEarlier: for bodies that can be served from the cache, which is what the handler's JSON objects are.
