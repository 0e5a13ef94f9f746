# Identity service: a Dafny model and its proofs

This project models the core of a Go identity service and proves what its
documentation promises: refresh-token rotation with replay detection, one-time
tokens, password changes that end every session, the printed Argon2id hashes,
and the migration loader and runner.

`dafny verify dfyconfig.toml` checks everything.

## What is modelled

**Tables and transactions.** `Tables` holds the five tables with the CHECK,
UNIQUE, PRIMARY KEY and REFERENCES constraints of the schema. `Transactions`
says what each repository transaction does to them. `Repositories.Repository`
is the repository: a class with the five tables as fields, whose methods run
the statements in the order of the code on working copies and commit by
assigning them back. Each method is proved equal to its transaction, errors
included. `Preservation` proves what every transaction keeps.

**Whole runs.** `History` makes one atomic step of each transaction and adds
an observer who remembers every hash generated, every refresh hash issued to
each session in order, every access token handed out and the password behind
each credential. `Lineage`, `Lifetimes`, `OneTimeTokens` and `Passwords` prove
claims about all runs from an empty database. `Outcomes` tells the answer and
every changed field of every call on the rows themselves. `Services.Service` is the
application service: each call is shown to be such a step (or nothing), given
what the clock, generator, hasher, signer and mailer return.

**Interleavings.** `RotationRace`, `ResetTokenRace` and `PasswordRace` take the
transactions apart into statements and locks, for rotation against rotation,
reset requests and recoveries against each other, and the read, check and
compare-and-set of a password change. `RowLocks` is what they share.
`RotationHistory` shows that interleaved rotations, with the rest of the service
around them, leave the tables of a serial run in commit order, so that the claims
about serial runs carry over.

**Hashes.** `Text` has decimal numbers, unpadded base64 (sections 3.2 and 4 of
RFC 4648) and splitting; `Argon2id` is the printer, the parser and the hasher.

**Migrations.** `FileNames` is the pattern of file names, `Loader` the loader and
`Duplicates` two directories that show a limit of it. `MigrationSteps` says what the runner
does to a database over an arbitrary type of schema, `Runners.Runner` is its
code, `MigrationRuns` proves claims about runs in which binaries of different
ages share a database. `Sorting` is the sort both use.

## Assumptions

- The token generator never returns a hash twice, and SHA-256 maps issued
  tokens to different hashes: a token is represented by its hash.
- Argon2 is a deterministic function with output of the requested length; its
  values are otherwise unknown. Where `PasswordRace` needs it, a hash printed
  with a salt of its own differs from every earlier hash.
- The clock never goes back, but only where a lemma says `TimelyReachable`.
- Something outside the service may block a user, mark it as deleting or
  soft-delete it (`Transactions.Sanction`). It sets neither `pending` nor
  `active` and touches neither `version` nor `email_verified_at`.
- READ COMMITTED with row locks, as stated at the head of `RotationRace`. The
  code sets no isolation level, so this is PostgreSQL's default. A transaction
  that waits may be aborted at any point.
- The migration advisory lock makes the calls of all runners a sequence.
  Where a lemma says `Undone`, a down script that runs after its up script
  restores the schema. Migration scripts leave `schema_migrations` alone.

## Results that differ from what one might expect

- A refresh whose signing fails has still rotated the token: the caller holds
  only the old one, and presenting it again ends the session
  (`Lineage.UnsignedRefreshEndsSession`).
- Verification looks at the token, its expiry and `deleted_at` but not at the
  status, so an account blocked before it was verified is activated.
  `OneTimeTokens.WhatActivates` gives the exact condition and
  `OneTimeTokens.BlockedAccountIsActivated` a run that gets there.
- The loader notices a second file of one version and direction only after a
  body. `Loader.Loadable` is the exact condition for success,
  `Loader.EmptyDuplicateDependsOnOrder` says how an empty file is accepted in
  front of the others and refused behind them, and
  `Duplicates.DuplicateUpFiles` has a directory of each kind.
- A password change whose update has to wait for the credential row re-checks the
  hash when it gets the row, but the account row is joined and not locked: if the
  account is blocked meanwhile, the change still commits.
  `PasswordRace.CommitIsSerial` says that a commit equals the change run alone at
  that instant exactly if the account is still usable, and
  `PasswordRace.OvertakenSucceeds` has the run. The hash is never overwritten
  unseen either way (`PasswordRace.NoLostUpdate`).
- `Down(a)` then `Down(b)` need not equal `Down(a + b)`: if a script fails after
  the first min(a, b) have run, the one call takes everything back and the two do
  not. `MigrationRuns.DownAdds` says exactly when they agree, in terms of the
  scripts and the recorded rows, and `MigrationRuns.DownAddsFails` is an input
  where they differ. Where no script fails they always agree
  (`MigrationRuns.DownAddsWithoutFailures`).

## Model

| member | source | states |
|---|---|---|
| Repositories.Repository.CreateRegistration | internal/identity/adapters/postgres/repository.go:27-92 | the three inserts and every way a constraint rejects one; all or nothing |
| Repositories.Repository.VerifyEmail | internal/identity/adapters/postgres/repository.go:94-200 | uses up the token and activates the account, or names the reason and changes nothing |
| Repositories.Repository.FindLoginIdentity | internal/identity/adapters/postgres/repository.go:202-250 | finds the undeleted account with the address and its stored hash; fails only if there is none with a credential |
| Repositories.Repository.CreateSession | internal/identity/adapters/postgres/repository.go:252-274 | inserts the row exactly when keys, the reference and the expiry check allow it |
| Repositories.Repository.RotateRefreshToken | internal/identity/adapters/postgres/repository.go:276-377 | the whole new state and result of a rotation in every branch, including the revocation that is committed for an unusable account |
| Repositories.Repository.HandlePossibleRefreshReuse | internal/identity/adapters/postgres/repository.go:379-412 | a hash on record revokes its session once and is answered as a replay, any other changes nothing |
| Repositories.Repository.RevokeSession | internal/identity/adapters/postgres/repository.go:414-433 | revokes the owner of a current or used hash, keeping an earlier time |
| Repositories.Repository.RevokeAllSessions | internal/identity/adapters/postgres/repository.go:435-451 | revokes and counts exactly the unrevoked sessions |
| Repositories.Repository.ListSessions | internal/identity/adapters/postgres/repository.go:494-547 | each unrevoked, unexpired session of the user exactly once with the fields of its row, latest use first and equal times by id |
| Repositories.Repository.RevokeOwnedSession | internal/identity/adapters/postgres/repository.go:549-569 | revokes the session only for its owner |
| Repositories.Repository.GetPasswordCredential | internal/identity/adapters/postgres/repository.go:571-591 | the stored hash exactly for a usable account |
| Repositories.Repository.ChangePassword | internal/identity/adapters/postgres/repository.go:593-640 | compare-and-set of the hash together with revoking every session, or nothing |
| Repositories.Repository.FindPasswordResetUser | internal/identity/adapters/postgres/repository.go:642-684 | tells an unknown address from an unavailable account |
| Repositories.Repository.CreatePasswordReset | internal/identity/adapters/postgres/repository.go:686-740 | uses up the user's older reset tokens and inserts the new one, or nothing |
| Repositories.Repository.ResetPassword | internal/identity/adapters/postgres/repository.go:742-826 | replaces the hash, revokes every session and uses up the token, or names the reason |
| Repositories.ScanInOrder | internal/identity/adapters/postgres/repository.go:511-546 | the row loop yields exactly the selected rows in the order of the query |
| Repositories.UpdateByHash | internal/identity/adapters/postgres/repository.go:419-428 | the one statement with a sub-select revokes exactly the owners of the hash |
| Preservation.CreateRegistrationKeeps | internal/identity/adapters/postgres/repository.go:27-92 | keeps every constraint of the schema, every row, expiry and first timestamp |
| Preservation.VerifyEmailKeeps | internal/identity/adapters/postgres/repository.go:94-200 | the same for verification |
| Preservation.RotateRefreshTokenKeeps | internal/identity/adapters/postgres/repository.go:276-412 | the same for a rotation in all its branches |
| Preservation.ChangePasswordKeeps | internal/identity/adapters/postgres/repository.go:593-640 | the same for a password change |
| Preservation.CreatePasswordResetKeeps | internal/identity/adapters/postgres/repository.go:686-740 | the same for a reset request |
| Preservation.ResetPasswordKeeps | internal/identity/adapters/postgres/repository.go:742-826 | the same for a recovery |
| History.RunKeeps | migrations/000001_create_identity_schema.up.sql:1-70 | over every run the schema's constraints hold, no row goes away, expiries stay, and the first `revoked_at` and `used_at` are never cleared or replaced |
| Lineage.ReachableLinear | internal/identity/adapters/postgres/repository.go:256-367 | the lineage invariant holds in every reachable state |
| Lineage.ChainsAreExact | internal/identity/adapters/postgres/repository.go:256-367 | a session's issued chain is its used hashes in order followed by its current hash; no hash is in two places |
| Lineage.UsedRowsCountRotations | internal/identity/adapters/postgres/repository.go:352-367 | a session has exactly one used row for each successful rotation of the run |
| Lineage.Resolves | internal/identity/adapters/postgres/repository.go:286-324 | the newest hash finds its session, any older one only its used row |
| Lineage.RevokedNeverRotates | internal/identity/adapters/postgres/repository.go:334-336 | no hash of a revoked session rotates; the error depends on whether it was the newest; nothing changes |
| Lineage.RevocationIsPermanent | internal/identity/adapters/postgres/repository.go:400-445 | in every continuation the time of revocation stays and no hash of the session rotates |
| Lineage.ReplayIsDetected | docs/DEVELOPMENT.md:76 | once a hash has rotated, presenting it after any further steps is answered as a replay and leaves its session revoked, and nothing issued to that session rotates ever after |
| Lineage.UnsignedRefreshEndsSession | internal/identity/application/service.go:275-282 | a refresh that could not be signed hands out no access token, yet presenting its token again ends the session for good |
| Lineage.ReusedRotation | internal/identity/adapters/postgres/repository.go:386-411 | exactly what presenting a used hash does to the tables |
| Lifetimes.TimelyReachableTimed | internal/identity/adapters/postgres/repository.go:334-367 | the time invariant of sessions, used rows and access tokens |
| Lifetimes.SessionTimes | migrations/000001_create_identity_schema.up.sql:42-47 | creation <= last use < expiry = creation + TTL, used rows lie in between and in order |
| Lifetimes.AccessTokensExpire | internal/identity/application/service.go:213-290 | every access token ever issued ends before session start + both TTLs, the login one at start + access TTL, and no later than revocation + access TTL |
| Lifetimes.RotationOutcome | internal/identity/adapters/postgres/repository.go:299-377 | the answer to any hash is decided by the chain, the clock and the account; the schema never rejects a rotation |
| Lifetimes.LoginInsertOutcome | internal/identity/adapters/postgres/repository.go:256-269 | a login insert fails only for a repeated id or a missing user |
| Lifetimes.ListedIffRotates | internal/identity/adapters/postgres/repository.go:511-519 | a session is listed and its account usable exactly when its current hash would rotate |
| Lifetimes.LogoutAllEmpties | internal/identity/adapters/postgres/repository.go:440-450 | the count is the unrevoked sessions, at least the listed ones at any time; the list is empty after and a second call counts 0; other users keep theirs |
| Outcomes.LogoutOutcome | internal/identity/adapters/postgres/repository.go:414-433 | logging out with any hash a session was ever issued ends exactly that session, keeping an earlier time; an unknown hash changes nothing |
| Outcomes.LogoutIsForGood | internal/identity/adapters/postgres/repository.go:414-433 | and no continuation rotates a hash of that session |
| Outcomes.LogoutAllOutcome | internal/identity/adapters/postgres/repository.go:435-451 | which rows end, and the count |
| Outcomes.RevokeOwnedOutcome | internal/identity/adapters/postgres/repository.go:549-569 | only the owner ends a session; to anyone else it does not exist and stays as it is |
| Outcomes.LoginOutcome | internal/identity/application/service.go:213-232 | the row a login inserts, field by field, and when it is rejected |
| Outcomes.RefreshOutcome | internal/identity/adapters/postgres/repository.go:286-411 | for any hash issued to a session the answer and the rows, field by field |
| Outcomes.UnknownRefreshOutcome | internal/identity/adapters/postgres/repository.go:379-394 | a hash never issued is unknown and changes nothing |
| Outcomes.ChangeOutcome | internal/identity/adapters/postgres/repository.go:593-640 | the compare-and-set succeeds exactly for an active, undeleted account whose stored hash is the expected one, and what it then writes |
| Outcomes.RecoveryOutcome | internal/identity/adapters/postgres/repository.go:742-826 | the answer to any token from its row and its owner's row, in the order of the checks, and what a success writes |
| Outcomes.RequestOutcome | internal/identity/adapters/postgres/repository.go:686-740 | when a reset request is refused, and the rows it leaves: valid for one hour, older ones of the user used up |
| Outcomes.RegistrationOutcome | internal/identity/adapters/postgres/repository.go:27-92 | when a registration is refused and why, and its three rows field by field |
| Outcomes.VerificationOutcome | internal/identity/adapters/postgres/repository.go:94-200 | the answer to any verification token from its row and its owner's row, and the activated user it returns |
| OneTimeTokens.OneUsableReset | internal/identity/adapters/postgres/repository.go:699-735 | every reachable state has at most one usable reset token per user |
| OneTimeTokens.ResetLeavesNone | internal/identity/adapters/postgres/repository.go:815-821 | a successful recovery leaves none |
| OneTimeTokens.ResetTokenWorksOnce | internal/identity/adapters/postgres/repository.go:764-821 | a reset token changes a password at most once in any run |
| OneTimeTokens.NewerRequestInvalidates | docs/DEVELOPMENT.md:62 | a newer reset request invalidates every earlier token for ever |
| OneTimeTokens.VerificationTokenWorksOnce | internal/identity/adapters/postgres/repository.go:122-178 | a verification token activates at most once |
| OneTimeTokens.AccountsMatchTheirTokens | internal/identity/adapters/postgres/repository.go:40-178 | every account has exactly one verification token, version, verification time and status agree with its use, and none was verified later than 24 hours after registration |
| OneTimeTokens.ResetInTime | docs/DEVELOPMENT.md:62 | a recovery succeeds only within an hour of the request behind its token |
| OneTimeTokens.WhatActivates | internal/identity/adapters/postgres/repository.go:104-178 | the exact condition under which a step activates an account |
| OneTimeTokens.BlockedAccountIsActivated | internal/identity/adapters/postgres/repository.go:122-178 | a run in which a blocked, never verified account becomes active |
| Passwords.StoredHashesVerify | internal/identity/application/service.go:188-197 | in every reachable state each stored hash parses, and a candidate passes exactly if Argon2 derives from it, with the stored salt and 2, 19456, 1, 32, what it derives from the password last chosen |
| Passwords.NewPasswordEndsSessions | docs/DEVELOPMENT.md:78 | a new password revokes every session of the user for good; accounts, used hashes and everything of other users stay as they are, also if the user has no session |
| Text.DecimalRoundTrip | internal/security/password/argon2id.go:99-108 | reading back a printed number |
| Text.ScanPrinted | internal/security/password/argon2id.go:140-148 | scanning a printed number stops after it and yields it, or refuses it as too large |
| Text.Base64RoundTrip | internal/security/password/argon2id.go:105-158 | decoding undoes unpadded base64 for any bytes |
| Text.TestVectors | internal/security/password/argon2id.go:105-106 | encoded values fixed by section 10 of RFC 4648 |
| Text.SplitAt | internal/security/password/argon2id.go:129 | splitting cuts at the first separator and nowhere before |
| Argon2id.ParseHash | internal/security/password/argon2id.go:128-169 | whatever parses is within the accepted ranges and lengths |
| Argon2id.SixParts | internal/security/password/argon2id.go:129-132 | the printed layout splits into its six parts |
| Argon2id.ParamsRoundTrip | internal/security/password/argon2id.go:139-148 | the cost settings survive printing and scanning unless one does not fit its variable |
| Argon2id.PrintedParses | internal/security/password/argon2id.go:128-169 | of all hashes in the printed layout exactly those of version 19 with costs and lengths within the limits are accepted, and read back |
| Argon2id.StoredText | internal/security/password/argon2id.go:89-108 | the text stored for a password, character by character up to salt and key |
| Argon2id.ParseEncoded | internal/security/password/argon2id.go:89-169 | parsing a printed hash returns exactly the settings, salt and key, for every accepted setting |
| Argon2id.VerifyEncoded | internal/security/password/argon2id.go:110-126 | a candidate passes against a printed hash exactly if Argon2 derives the same key from it |
| Argon2id.EncodeInjective | internal/security/password/argon2id.go:89-108 | equal printed hashes have the same salt and key |
| Argon2id.Hasher.Hash | internal/security/password/argon2id.go:58-83 | the hash for the drawn salt exactly for 15 characters and at most 1024 bytes, or which error |
| Argon2id.Hasher.DummyParses | internal/security/password/argon2id.go:38-56 | checking anything against the dummy hash is decided without error |
| Services.Service.Register | internal/identity/application/service.go:100-146 | a registration step exactly when every collaborator delivers, otherwise nothing; the answer in every case, each error included; a lost mail leaves the account registered |
| Services.Service.VerifyEmail | internal/identity/application/service.go:148-161 | a verification step, or nothing for a malformed token |
| Services.Service.RejectInvalidCredentials | internal/identity/application/service.go:449-458 | the dummy check never fails: the answer is always the same |
| Services.Service.CheckPassword | internal/identity/application/service.go:177-197 | finds the undeleted account with the address if the password derives the key of the password it was last given, and otherwise fails in one way |
| Services.Service.Login | internal/identity/application/service.go:163-243 | the answer in every case, by account status and derived keys: a password with a different key gets the answer of an unknown address; then the first obstacle in the order of the checks, else the session inserted; a failed login changes no row |
| Services.Service.RefreshSession | internal/identity/application/service.go:245-291 | a rotation step followed by signing, with the answer in every case; the schema never rejects it |
| Services.Service.Logout | internal/identity/application/service.go:293-303 | a revocation step, or nothing for a malformed token |
| Services.Service.LogoutAll | internal/identity/application/service.go:305-314 | answers the number of unrevoked sessions |
| Services.Service.RevokeSession | internal/identity/application/service.go:336-345 | a step for two proper ids, nothing otherwise |
| Services.Service.HashPassword | internal/identity/application/service.go:438-447 | the printed hash exactly for 15 characters and at most 1024 bytes, or which error |
| Services.Service.CurrentHash | internal/identity/application/service.go:355-365 | the stored hash of an active, undeleted account if the password derives the right key, or exactly why not |
| Services.Service.ChangePassword | internal/identity/application/service.go:347-379 | run alone, the answer in every case, by ids, account status, derived keys and the policy of 15 characters and 1024 bytes |
| Services.Service.ForgotPassword | internal/identity/application/service.go:381-415 | silent about unknown and unavailable accounts; for a usable one a reset-request step, and the error of the step or of the mail |
| Services.Service.ResetPassword | internal/identity/application/service.go:417-436 | a recovery step for an acceptable password, otherwise nothing, with the answer in every case |
| RotationRace.AtMostOneRotation | internal/identity/adapters/postgres/repository.go:299-370 | however any number of rotations interleave, at most one commits a rotation of a given hash |
| RotationRace.LosersAreCaught | internal/identity/adapters/postgres/repository.go:321-411 | every other unfinished one is from then on aborted or ends as a replay with the session revoked |
| RotationRace.CommitIsSerial | internal/identity/adapters/postgres/repository.go:276-412 | a commit does to the tables, and reports, what the transaction does when it runs alone |
| RotationRace.RefusalIsSerial | internal/identity/adapters/postgres/repository.go:334-350 | so does a refusal that is given after both rows are locked |
| RotationRace.UnknownIsSerial | internal/identity/adapters/postgres/repository.go:379-398 | the answer that a token is unknown, given without a lock, is the one of the transaction run alone at its first lookup |
| RotationHistory.SerialStepsArePermitted | internal/identity/adapters/postgres/repository.go:27-826 | every other transaction of the service, on rows that are not locked, is a step the environment of the interleaving may take |
| RotationHistory.InterleavingIsSerial | internal/identity/adapters/postgres/repository.go:276-412 | serialisability: the tables of an interleaved run are those of the serial run of the committed transactions in commit order, a run the service can take |
| RotationHistory.RevocationSurvivesInterleaving | internal/identity/adapters/postgres/repository.go:334-411 | a session revoked at some instant of an interleaved run keeps its time, and no hash it was issued rotates |
| RotationRace.NextKeeps | internal/identity/adapters/postgres/repository.go:276-412 | the invariant of locks, hashes and program counters survives every statement of every transaction |
| ResetTokenRace.RequestIsSerial | internal/identity/adapters/postgres/repository.go:686-740 | a reset request that commits has marked every usable token there is and does what it does alone |
| ResetTokenRace.RecoveryIsSerial | internal/identity/adapters/postgres/repository.go:742-826 | so does a recovery, for all five tables |
| ResetTokenRace.RefusalIsSerial | internal/identity/adapters/postgres/repository.go:785-795 | every refusal of a recovery with both rows locked is the answer it gives alone |
| ResetTokenRace.UnknownIsSerial | internal/identity/adapters/postgres/repository.go:774-784 | so is the answer that the token is unknown, at the lookup |
| ResetTokenRace.RequestRefusalIsSerial | internal/identity/adapters/postgres/repository.go:699-716 | so is the refusal of a request before and after its wait |
| ResetTokenRace.SerialStepsArePermitted | internal/identity/adapters/postgres/repository.go:27-640 | every other transaction of the service, on accounts that are not locked, is a step the environment may take |
| ResetTokenRace.ResetTokensStaySingle | internal/identity/adapters/postgres/repository.go:699-821 | in every interleaving a user has at most one usable reset token and no token is behind two password changes |
| PasswordRace.NoLostUpdate | internal/identity/adapters/postgres/repository.go:608-627 | when a change commits, nobody has written the credential since its caller read it |
| PasswordRace.OneChangePerRead | internal/identity/application/service.go:355-378 | of all callers that read the same version at most one succeeds |
| PasswordRace.OneChangePerHash | internal/identity/application/service.go:355-378 | of all callers that read the same hash at most one succeeds |
| PasswordRace.ChangesReplaceWhatTheyRead | internal/identity/adapters/postgres/repository.go:608-627 | each successful change replaced exactly the version its caller had read |
| PasswordRace.MatchIsSerial | internal/identity/adapters/postgres/repository.go:608-627 | the update finds its row exactly when the change run alone at that instant succeeds, and refuses with its error |
| PasswordRace.LockRefusalIsSerial | internal/identity/adapters/postgres/repository.go:608-627 | a refusal after the wait is that of the change run alone |
| PasswordRace.CommitIsSerial | internal/identity/adapters/postgres/repository.go:608-639 | a commit leaves the hashes the change run alone leaves exactly if the account is still usable |
| PasswordRace.OvertakenSucceeds | internal/identity/adapters/postgres/repository.go:608-639 | a run in which the account is blocked during the wait and the change commits all the same |
| FileNames.NameParses | migrations/loader.go:13-15 | every name of the pattern is recognised and read back |
| FileNames.OnlyNamesParse | migrations/loader.go:13-15 | nothing else is |
| Loader.Classify | migrations/loader.go:39-63 | a script has a positive 64-bit version and the body of its file |
| Loader.NamedIsClassified | migrations/loader.go:44-63 | a file of the pattern is the script with the value of its digits, its name and its direction, or which error |
| Loader.OthersAreClassified | migrations/loader.go:40-49 | any other file is ignored, or refused if its name ends in .sql |
| Loader.Group | migrations/loader.go:38-84 | the grouping loop gathers each version's name and bodies, or its error says what is wrong with which files |
| Loader.Collect | migrations/loader.go:86-103 | the second loop, in any order of the map, gathers one migration per complete version or stops at an incomplete one |
| Loader.Load | migrations/loader.go:32-110 | succeeds exactly for a loadable directory, with one migration per version, strictly ascending, with both bodies; every error is justified |
| Loader.ExplainedIsUnloadable | migrations/loader.go:47-92 | each error names a real defect of the directory |
| Loader.LoadIsDetermined | migrations/loader.go:86-107 | two successful loads give the same list: the order of the map leaves no trace |
| Loader.EmptyDuplicateDependsOnOrder | migrations/loader.go:72-83 | for any loadable list an empty duplicate is accepted in front of the others and refused behind them |
| Duplicates.DuplicateUpFiles | migrations/loader.go:72-83 | two directories in the order of their names with two up files of version 1: one loads, one is refused |
| Sorting.SortedSorts | migrations/loader.go:105-107 | the sort yields a permutation in strictly ascending order |
| Runners.LoadAppliedMigrations | migrations/runner.go:242-273 | all rows, each once, by version |
| Runners.Runner.ValidateApplied | migrations/runner.go:275-300 | succeeds exactly without drift and otherwise names the first row that does not fit and why |
| Runners.Runner.Up | migrations/runner.go:53-113 | runs and records the pending scripts in order, all or nothing |
| Runners.Runner.Down | migrations/runner.go:115-181 | the sorted and clamped loop undoes the newest migration step by step, all or nothing |
| Runners.Runner.CurrentVersion | migrations/runner.go:183-196 | the greatest recorded version; creates nothing but the table |
| Runners.NewRunner | migrations/runner.go:36-51 | a runner exists exactly for a loadable directory |
| Runners.UndoAllIsRollBack | migrations/runner.go:136-166 | the loop over the sorted, clamped rows is "undo the newest" repeated |
| MigrationSteps.MisfitIsUnique | migrations/runner.go:281-297 | the reported drift is determined by list and table |
| MigrationRuns.UpReaches | migrations/runner.go:70-96 | Up takes the database exactly to the binary's list, or fails on a script and changes nothing |
| MigrationRuns.DownReaches | migrations/runner.go:136-166 | Down takes it exactly the clamped number of migrations back, exactly if the scripts it needs run, and otherwise changes nothing |
| MigrationRuns.DownSucceeds | migrations/runner.go:115-166 | on any database Down succeeds exactly without drift and if the newest scripts run one after the other |
| MigrationSteps.RunsDecides | migrations/runner.go:144-163 | the rollback loop finishes exactly if each script it meets runs |
| MigrationRuns.OldBinaryRefuses | migrations/runner.go:281-288 | a binary that does not know an applied migration names the first one and changes nothing |
| MigrationRuns.MisfitIsRefused | migrations/runner.go:275-300 | on any database a row that no embedded migration agrees with in version, name and checksum stops Up and Down, and the first such row is named |
| MigrationRuns.EditedMigrationIsRefused | migrations/runner.go:290-296 | a migration edited after it was applied is refused as different |
| MigrationRuns.UpRecords | migrations/runner.go:80-92 | after a successful Up the table has exactly the names and checksums of the list |
| MigrationRuns.BinariesStayInStep | migrations/runner.go:53-240 | whatever old and new binaries do, the applied migrations stay a prefix of the list and the schema its fold |
| MigrationRuns.FromEmpty | migrations/runner.go:53-240 | the same from an empty database |
| MigrationRuns.VersionTellsStep | migrations/runner.go:183-196 | the reported version is that of the last applied migration, and 0 exactly when none is |
| MigrationRuns.UpTwice | migrations/runner.go:70-96 | a second Up does nothing, on any database and whether or not the first succeeded |
| MigrationRuns.UpDownUp | migrations/runner.go:53-181 | rolling back and going up again restores schema and rows |
| MigrationRuns.DownAdds | migrations/runner.go:115-181 | rolling back a and then b equals rolling back a + b exactly with drift, if all a + b scripts run, or if one of the first min(a, b) fails |
| MigrationRuns.DownAddsWithoutFailures | migrations/runner.go:115-181 | they are equal on every database where no script fails |
| MigrationRuns.DownAddsFails | migrations/runner.go:115-181 | an input where they differ |

## Left out

- The gRPC server, generated code, error-to-status mapping, configuration, logging, connection pool, readiness monitor and mailer: input and output with one-branch claims. What the mailer, clock, generator, signer and random source return is a parameter.
- Cryptography itself: Argon2 is a parameter, SHA-256, Ed25519 and JWT signing appear only through the assumptions above. The whole-second rounding of the expiry inside the JWT only shortens its life and is not modelled.
- Rounding of times to microseconds by `timestamptz`, integer widths of versions and times.
- Trimming, Unicode lowercasing, address syntax and the normalisation of session metadata: an address is an opaque value with a normalised form, metadata is opaque. The check `normalized_email = lower(normalized_email)` and the re-parsing of a stored address go with it.
- Lost connections and failing commits, `GetUser`, and `ListSessions` of the application service, which only adds a check for the nil id.
- Unicode blanks in front of scanned numbers, and any claim about hash strings the printer did not print: only parsing after printing is decided.
- Deadlock freedom and liveness: a transaction that waits may be aborted.
- Repositories.Repository.RevokeSession: the serial claim is not lifted to interleavings, because it is one statement with a sub-select and takes no explicit lock first.
- Passwords.NewPasswordEndsSessions: does not cover a login that has read the old hash but not yet inserted its session, because these are two separate calls.
- ResetTokenRace.RecoveryIsSerial: the updates and the commit of a recovery are one step, as are the insert and the commit of a request; a session of the user inserted in between would have to lock the user row through its foreign key.
- RotationHistory.InterleavingIsSerial: the other transactions around the rotations take effect in one step each, on rows that are not locked; interleaving them statement by statement is done only for resets and password changes.
- Loader.Load: the directory listing cannot fail, and the records the Go code shares by reference are values of a map.
- Runners.Runner.Up: beginning, locking and committing cannot fail, and the messages logged afterwards are not modelled; the same holds for Down and CurrentVersion.
