# Account manager: the vault, the mail review pipeline and the password generator

This project models the server's three stateful cores and proves what they promise over whole runs.

**The encrypted vault.** Users, account ciphertexts, trusted devices, sessions and the in-memory key
store, driven by every authenticated route. `Auth.Handle` is one request (guard, then handler) as a
function of the tables, the caller's session, its key-store slot and the time; `AuthRuns` turns it
into runs of many sessions with a clock and server restarts. `VaultRefinement` and `VaultRuns` prove
that the ciphertext tables behave as a plain map from (user, url, login) to entry while every open
session holds its user's current key, and say exactly which events break the two together.
`VaultTables` says exactly when the tables alone stop standing for the map: an event breaks them if
and only if it stores a password in a session that holds another key than its user's. `MasterPassword`, `Backup`, `AccessHistory` and `OneTimeTokens` prove the
properties of the master-password change, of export and import, of guard access and of OAuth states
and WebAuthn challenges. The classes in `UnlockKeyStore`, `AccountsServices`, `AuthServices` and
`AuthRoutes` update their fields in place as the server does; each method is proved equal to the
function the theorems are about, up to `AuthRoutes.Server.Receive`, which takes one event of a run.
`VaultMeaning` and `AuthMeaning` say what the account services and the auth routes do column by column
and field by field, in numbers and literals, for every table and request.

**The mail pipeline.** `MailScan` has the scan loops as a fold, `MailServices` has them as loops in
classes, and `MailSteps` has every database or provider call as one step, with the rule list and the
message list of a scan as stale local snapshots, so that scans, rule edits, disconnects and reviews
interleave freely. `MailMeaning` says what accounts, rules, inserts and scans do field by field, and
traces every candidate of every run back to the listing and the active rule it came from. `MailSummary`
and `RuleMatcher` cover the summary and the matcher.

**The password generator.** The random choices are an explicit sequence of draws; the in-place
Fisher-Yates loop is proved equal to a function of the draws, for which unbiasedness and the exact
support are proved.

Idealisations, each visible as a hypothesis or a parameter:

- `Platform.Platform` is encryption, key derivation, password hashing and JSON as functions.
  `Lawful` says that opening undoes sealing and that exactly the hashed password verifies;
  `WrongKeyFails` and `JsonRoundTrips` are asked for only where needed. `ToyPlatform` gives a platform
  that obeys all of them. Random ivs and hash salts are draw numbers, KDF salts are inputs.
- Ids are issued by counters (never reused, like random UUIDs), a user's id is its position, and the
  accounts table is kept in creation order, the order `exportAccounts` sorts by.
- One request sees one clock value; the two `Date.now()` calls of `touch` are one instant. Time never
  runs backwards: every event carries the time elapsed since the one before.
- The order of the rule and account queries of a scan is an input (`ruleOrder`, `order`), constrained
  to list each row once.
- The Gmail provider is an input: what it lists, or that it fails; an action takes effect or not, and
  may report failure either way.

Two hypotheses of the vault refinement are conditions on single events, and both are proved exact for
tables and open sessions together (`VaultRuns.StepRefinesExactly`); neither event touches the tables
themselves, but the session it leaves behind breaks them as soon as it stores a password
(`VaultTables.TablesKeptExactly`): an accepted master-password change must not leave another open
session of the same user, because only the current session's key is replaced
(`apps/api/src/auth/auth.service.ts:195`), and a device login with a wrong password must not rebind a
session that is open for another user, because `userId` is assigned before the password is checked
(`apps/api/src/auth/auth.controller.ts:182-183`). A third, that no account row of the user is written
between the snapshot at `apps/api/src/auth/auth.service.ts:179` and the commit, holds by serial
requests in the runs; `Backup.StaleSnapshotExact` proves it exact for any other schedule.

Where code and documentation disagree, the model follows the code: the schema comment above
`EmailCandidate` says that candidates survive the deletion of their rule, but the relation cascades
(`prisma/schema.prisma:152`); `approve` and `exclude` accept candidates that are no longer pending; and
the limit of one to five conditions is not enforced by the server.

## Model

| member | source | states |
|---|---|---|
| VaultRuns.VaultRefines | apps/api/src/auth/auth.service.ts:26-199 | over every run of requests and restarts in which no accepted master-password change leaves another open session of the user and no failing device login rebinds an open session, the tables represent the plain map the run defines and every open session holds its user's current key |
| VaultRuns.StepRefinesExactly | apps/api/src/auth/auth.service.ts:154-199 | one event keeps tables and open sessions right together if and only if it is neither of those two, provided keys of different users, and the old and new key, differ |
| VaultRuns.StepRefines | apps/api/src/auth/auth.controller.ts:30-193 | every other event of every session keeps the refinement, for the caller and for all other sessions |
| VaultTables.TablesShownExactly | apps/api/src/accounts/accounts.service.ts:51-236 | over every run, disciplined or not, the tables stand for the plain map after each event if and only if no event stores a password under another key than its user's |
| VaultTables.TablesKeptExactly | apps/api/src/auth/auth.controller.ts:30-193 | one event keeps the map behind the tables if and only if it does not store a password under a wrong key: no login, lock, password change, expiry or restart breaks them |
| VaultTables.AccountRequestsExactly | apps/api/src/accounts/accounts.service.ts:51-236 | create, update, remove and import keep the tables if and only if they run under the user's current key, are refused by the guard, or store no password (key taken, no password given, conflict, no row, every import key taken, file does not open); otherwise no plain map is behind the tables and the user has a row that cannot be read |
| VaultTables.UnsealedSame | apps/api/src/accounts/accounts.service.ts:84-119 | a request that stores no password does the same under every key |
| VaultRuns.WrongKeyWriteLost | apps/api/src/accounts/accounts.service.ts:51-72 | the create route in such a session: it answers success, and the user's own key does not open the new row |
| VaultRuns.RowsOpen | apps/api/src/accounts/accounts.service.ts:42-49 | in a refined state each row decrypts under its owner's current password and salt to the last password written for it, rows and entries correspond one to one |
| VaultRuns.AnswersFromVault | apps/api/src/accounts/accounts.service.ts:42-245 | what each account route answers is what the plain map says: the entry read, conflict exactly when the key is taken, not-found, the exported entries, the import counts |
| VaultRuns.AcceptedIsAnswered | apps/api/src/auth/auth.service.ts:160-193 | in a refined state a change with the right password, a long enough new one and a passed guard cannot fail on a row |
| VaultRefinement.RequestRefines | apps/api/src/auth/auth.controller.ts:30-193 | any request that does not rebind an open session keeps tables and own session right |
| VaultRefinement.GuardHandsOverCurrentKey | apps/api/src/auth/guards/unlocked.guard.ts:14-28 | in a right session the guard hands over the current key of the session's user and the handler runs with it |
| VaultWitness.StrandingRun | apps/api/src/auth/auth.service.ts:195-196 | on every lawful platform, a run from the empty server in which the change succeeds, the other open session stores an account, and the owner cannot read it |
| VaultWitness.RebindingRun | apps/api/src/auth/auth.controller.ts:181-183 | on every lawful platform, a run in which a device login fails on the password, the session that was open for another user then stores an account for the device's user, and that user cannot read it |
| VaultWitness.RunsHappen | apps/api/src/common/crypto/crypto.service.ts:9-33 | the hypotheses of these two runs hold on a lawful platform |
| ToyPlatform.LawsHoldTogether | apps/api/src/common/crypto/crypto.service.ts:9-33 | all the laws assumed of the libraries (round trips of encryption and JSON, wrong keys failing, only the hashed password verifying) hold together on one platform |
| MasterPassword.ChangeAllOrNothing | apps/api/src/auth/auth.service.ts:154-199 | the change succeeds exactly when the password is right, the new one is long enough and every row of the user decrypts; then every row carries the same text under the new key, only the new password verifies, exactly the user's devices are gone and counted, and other users keep users and rows; otherwise tables, session and key stay as they were |
| Backup.ReencryptMeaning | apps/api/src/auth/auth.service.ts:181-187 | the loop succeeds exactly when every snapshot row exists and decrypts, and then rewrites exactly those rows with the same text |
| Backup.ChangeKeepsVault | apps/api/src/auth/auth.service.ts:179-193 | with a current snapshot the plain map is the same before and after, under the new key |
| Backup.StaleSnapshotExact | apps/api/src/auth/auth.service.ts:179-187 | with any snapshot, a committed change keeps the plain map if and only if every current row of the user is in the snapshot with a ciphertext of the same text |
| Vault.RepresentsOne | prisma/schema.prisma:68-89 | rows and keys determine the plain map |
| Vault.CreateRefines | apps/api/src/accounts/accounts.service.ts:51-81 | create is insertion into the map, a conflict exactly when the key is there |
| Vault.UpdateRefines | apps/api/src/accounts/accounts.service.ts:84-119 | on the tables that stand for a map, update is the change of that entry of the map, a conflict exactly when another entry has its new key; which columns it writes is `VaultMeaning.UpdateMeaning` |
| Vault.RemoveRefines | apps/api/src/accounts/accounts.service.ts:238-244 | remove deletes exactly that entry |
| Vault.ReadRefines | apps/api/src/accounts/accounts.service.ts:42-49 | reading a row answers the entry of the map |
| Vault.ImportRefines | apps/api/src/accounts/accounts.service.ts:219-235 | import is the fold of insertions, keeps the old rows as a prefix, and its counts add up |
| Backup.ImportMeaning | apps/api/src/accounts/accounts.service.ts:221-233 | existing entries stay and the first occurrence of each new key wins |
| Backup.ImportCounts | apps/api/src/accounts/accounts.service.ts:219-235 | `imported` is the growth of the vault, `imported + skipped` the number of entries |
| Backup.ImportRestarts | apps/api/src/accounts/accounts.service.ts:219-235 | an import that stops at any entry, with the earlier entries committed, and is run again leaves the rows of one uninterrupted import: the same keys in the same order, the same vault, counts that add up |
| Backup.ImportRestartable | apps/api/src/accounts/accounts.service.ts:221-233 | the same law for the plain vault the rows stand for |
| Backup.ImportTwice | apps/api/src/accounts/accounts.service.ts:225-230 | a further import imports 0 and changes no row |
| Backup.ExportImportRoundTrip | apps/api/src/accounts/accounts.service.ts:168-236 | an export imported into the empty vault of any user under any other key restores every entry in order, skipping none |
| Backup.ExportImportUnion | apps/api/src/accounts/accounts.service.ts:168-236 | into a vault that is not empty it gives the union with the destination winning |
| Backup.ExportShowsVault | apps/api/src/accounts/accounts.service.ts:168-188 | an export of represented tables succeeds and opens to the user's part of the map |
| Backup.WrongExportPassword | apps/api/src/accounts/accounts.service.ts:200-208 | another export password is answered with the bad-request error |
| VaultMeaning.CreateMeaning | apps/api/src/accounts/accounts.service.ts:51-81 | create is a conflict exactly when a row of the user has the url and the login; otherwise it adds one row with the given columns, whose password opens under the key |
| VaultMeaning.UpdateMeaning | apps/api/src/accounts/accounts.service.ts:84-119 | update is not-found exactly without such a row of the user and a conflict exactly when another row has the resulting (user, url, login); otherwise each given column of that row has the given value and each other column its old one, a non-empty password opens under the key, an absent or empty one leaves the ciphertext, and no other row changes |
| VaultMeaning.RemoveMeaning | apps/api/src/accounts/accounts.service.ts:238-244 | exactly the found row of the user goes |
| VaultMeaning.ReadMeaning | apps/api/src/accounts/accounts.service.ts:42-49 | the answer shows the columns of the found row and the text its ciphertext opens to |
| VaultMeaning.ExportMeaning | apps/api/src/accounts/accounts.service.ts:168-188 | the export fails exactly when a row of the user does not open; otherwise it is a version 1 file that opens under the export password to one entry for each row, in order, with its columns and its password |
| VaultMeaning.RowsOfCounts | apps/api/src/accounts/accounts.service.ts:173-176 | the exported rows are exactly the user's rows, each as often as the table has it |
| VaultMeaning.OpenMeaning | apps/api/src/accounts/accounts.service.ts:200-217 | a file is a bad request exactly when its version is not 1 or it does not open under the export password; otherwise its entries are what its JSON says |
| AuthRuns.LazyExpiryIsEager | apps/api/src/auth/unlock-key-store.service.ts:24-48 | over every run the lazy store gives the same answers, tables and sessions as a store that removes entries the moment they expire |
| Auth.RequestSeesLive | apps/api/src/auth/auth.controller.ts:83-120 | no single request can tell an expired entry from a removed one |
| UnlockKeyStore.UnguardedLimitExact | apps/api/src/auth/unlock-key-store.service.ts:45-48 | without the guard's touch, changing the limit agrees with eager expiry exactly when no expired entry is there or the new limit has passed too |
| UnlockKeyStore.UnguardedLimitRevives | apps/api/src/auth/unlock-key-store.service.ts:45-48 | an expired entry that an unguarded change of the limit would revive |
| AccessHistory.AccessIsHistory | apps/api/src/auth/guards/unlocked.guard.ts:14-28 | the guard passes if and only if an earlier setup, unlock, change or device login of the session is unbroken by restart, lock, logout, login as an existing user, newer grant or late use, and the last use is within the limit in force; it hands over the key granted there |
| AccessHistory.GuardHandsCurrentKey | apps/api/src/auth/guards/unlocked.guard.ts:20-27 | in disciplined runs that key is the session user's current key |
| AccessHistory.HeldStep | apps/api/src/auth/auth.service.ts:97-146 | what a session holds changes only by a restart and by its own requests, as the history rules say |
| OneTimeTokens.AcceptedIsOutstanding | apps/api/src/auth/auth.service.ts:36-40 | whatever is accepted is the latest token issued in the same session and not used since |
| OneTimeTokens.AcceptedOnce | apps/api/src/auth/auth.controller.ts:133-183 | with fresh values no OAuth state and no challenge is accepted twice, whatever the session and the route |
| OneTimeTokens.AcceptedWhereIssued | apps/api/src/auth/auth.controller.ts:133-183 | with fresh values a token is accepted only in the session that issued it, while it is the latest there |
| OneTimeTokens.HeldExactlyOutstanding | apps/api/src/auth/session.types.ts:6-17 | a session holds a token exactly when it is outstanding, although registration and login share the challenge field |
| OneTimeTokens.AcceptanceShows | apps/api/src/auth/auth.controller.ts:147-184 | acceptance is visible: a callback is accepted exactly when it is not rejected, and an answer that is not accepted changes no table, binds no user and unlocks nothing |
| AuthMeaning.AlwaysUnique | prisma/schema.prisma:32-66 | over every run no two devices share a credential or an id, and no two users a Google account |
| AuthMeaning.DeviceLoginMeaning | apps/api/src/auth/auth.controller.ts:170-185 | whichever registered device genuinely answers the outstanding challenge, with its owner's password the session opens for the owner with the owner's key and limit, with another password it is bound and not unlocked; an unknown device or a wrong answer changes neither user nor key |
| AuthMeaning.DeviceLoginOpens | apps/api/src/auth/auth.controller.ts:170-185 | over every disciplined run, any device in the table opens a session with its owner's current password, and the session then holds the owner's current key |
| AuthMeaning.RegistrationMeaning | apps/api/src/auth/webauthn.service.ts:64-102 | a registration is a duplicate exactly when some device has the credential, otherwise it adds one device of the session's user |
| AuthMeaning.RemovalMeaning | apps/api/src/auth/webauthn.service.ts:150-156 | a device is removed by its owner only, and exactly that device goes |
| AuthMeaning.AccountAnswers | apps/api/src/accounts/accounts.controller.ts:22-89 | each account route answers missing, duplicate, rejected or done exactly when the tables or the file call for it |
| AuthMeaning.CallbackMeaning | apps/api/src/auth/auth.service.ts:36-58 | the callback is rejected without the session's own state; otherwise it logs the known Google account in, locked, or keeps the unknown one for setup |
| AuthMeaning.SetupMeaning | apps/api/src/auth/auth.service.ts:60-95 | setup succeeds exactly for a session without a user, with a pending Google account that no user has, and at least 8 characters; the new user has the limit 15, only that password verifies, and the session holds its key |
| AuthMeaning.UnlockMeaning | apps/api/src/auth/auth.service.ts:97-111 | unlock succeeds exactly when the password verifies, and stores the derived key with the limit of the user's row |
| AuthMeaning.GuardMeaning | apps/api/src/auth/guards/unlocked.guard.ts:14-28 | every route but the nine open ones passes exactly for an unlocked session whose last use is at most its limit times 60000 ms ago, and is otherwise refused without a change of the tables |
| AuthMeaning.MeMeaning | apps/api/src/auth/auth.service.ts:124-132 | `me` answers whether the session is still open, extends it if it is, and locks it if it is not |
| AuthMeaning.LimitMeaning | apps/api/src/auth/auth.service.ts:140-146 | the limit is changed exactly for 1 to 240 minutes, in the user's row and this session's entry only, and the next unlock of any session of the user takes it |
| AesFraming.DecryptInvertsEncrypt | apps/api/src/common/crypto/aes.util.ts:9-26 | decrypting the framed payload gives the plaintext back |
| AesFraming.OnlyFramesDecrypt | apps/api/src/common/crypto/aes.util.ts:17-26 | a full-length payload that decrypts is byte for byte the frame of its plaintext under that key and iv |
| AesFraming.FrameLayout | apps/api/src/common/crypto/aes.util.ts:3-14 | the stored bytes are 12 of iv, 16 of tag, then the ciphertext |
| AesFraming.FramingRoundTrips | apps/api/src/common/crypto/aes.util.ts:3-26 | the framed library is a platform with the round-trip law the vault assumes |
| UnlockKeyStore.UnlockKeyStoreService.Set | apps/api/src/auth/unlock-key-store.service.ts:18-20 | stores key, limit and time for this session and touches no other entry |
| UnlockKeyStore.UnlockKeyStoreService.Touch | apps/api/src/auth/unlock-key-store.service.ts:24-36 | answers and refreshes a live entry, removes an expired one, touches no other entry |
| UnlockKeyStore.UnlockKeyStoreService.UpdateAutoLockMinutes | apps/api/src/auth/unlock-key-store.service.ts:45-48 | changes the limit of this session's entry if there is one |
| UnlockKeyStore.UnlockKeyStoreService.Delete | apps/api/src/auth/unlock-key-store.service.ts:50-52 | removes this session's entry only |
| AccountsServices.Database.CreateAccount | prisma/schema.prisma:68-89 | inserts the row, or refuses exactly when its (user, url, login) is taken |
| AccountsServices.Database.UpdateAccount | prisma/schema.prisma:68-89 | replaces the row, or refuses exactly when another row has its new key |
| AccountsServices.AccountsService.FindOne | apps/api/src/accounts/accounts.service.ts:42-49 | reads and decrypts the user's row |
| AccountsServices.AccountsService.Create | apps/api/src/accounts/accounts.service.ts:51-81 | appends the encrypted row, or reports the conflict and changes nothing |
| AccountsServices.AccountsService.Update | apps/api/src/accounts/accounts.service.ts:84-119 | writes the given columns of the user's row and no others, or reports not-found or conflict and changes nothing |
| AccountsServices.AccountsService.Remove | apps/api/src/accounts/accounts.service.ts:238-244 | deletes the user's row, or reports not-found |
| AccountsServices.AccountsService.ExportAccounts | apps/api/src/accounts/accounts.service.ts:168-188 | the backup file of all the user's rows in creation order |
| AccountsServices.AccountsService.ImportAccounts | apps/api/src/accounts/accounts.service.ts:190-236 | the loop with its two counters computes the import fold; an error other than a conflict stops it and leaves the earlier entries committed |
| AuthServices.AuthService.HandleGoogleCallback | apps/api/src/auth/auth.service.ts:36-58 | state check and consumption, login of an existing user, pending profile of a new one |
| AuthServices.AuthService.SetupMasterPassword | apps/api/src/auth/auth.service.ts:60-95 | creates the user and opens this session, or fails and changes nothing |
| AuthServices.AuthService.Unlock | apps/api/src/auth/auth.service.ts:97-111 | stores the derived key with the user's limit exactly when the password verifies |
| AuthServices.AuthService.Lock | apps/api/src/auth/auth.service.ts:113-116 | removes the key and the flag of this session |
| AuthServices.AuthService.CheckStillUnlocked | apps/api/src/auth/auth.service.ts:124-132 | touches the key of an unlocked session and keeps the flag in step |
| AuthServices.AuthService.UpdateAutoLockMinutes | apps/api/src/auth/auth.service.ts:140-146 | 1 to 240 minutes, for the user and for this session's entry |
| AuthServices.AuthService.ReencryptAccounts | apps/api/src/auth/auth.service.ts:181-187 | the transaction's loop writes rows one by one, and a failure rolls all of them back |
| AuthServices.AuthService.ChangeMasterPassword | apps/api/src/auth/auth.service.ts:154-199 | the whole change on tables, session and key store |
| AuthRoutes.UnlockedGuard.CanActivate | apps/api/src/auth/guards/unlocked.guard.ts:14-28 | passes exactly with an unlocked session and a live key, touches first, and clears the flag when it refuses |
| AuthRoutes.AuthController.WebauthnRegister | apps/api/src/auth/auth.controller.ts:141-154 | uses the challenge up before verifying the answer; a genuine answer is a duplicate exactly when some device of the table has the credential, and adds one device otherwise |
| AuthRoutes.AuthController.WebauthnAuthenticate | apps/api/src/auth/auth.controller.ts:170-185 | whichever device of the table answers the challenge binds the session to its user, and then the password decides |
| AuthRoutes.AuthController.WebauthnRemove | apps/api/src/auth/webauthn.service.ts:151-157 | succeeds exactly when the user has a device with that id; then exactly that device goes and the others keep their order, otherwise nothing changes |
| AuthRoutes.Server.Respond | apps/api/src/auth/auth.controller.ts:30-193 | guard, then handler: one request changes exactly the tables, its session and its key entry as the request function says |
| AuthRoutes.Server.Receive | apps/api/src/auth/auth.controller.ts:30-193 | one event moves the server's heap from one state of a run to the next, so the theorems about runs are about this server |
| MailSteps.Conservation | apps/api/src/mail/candidates/candidates.service.ts:60-106 | under any interleaving, rows = initial rows + what the scans report as created − what cascades removed, and (rule, message) is unique |
| MailSteps.OwnershipThroughRule | apps/api/src/mail/candidates/candidates.service.ts:82-91 | in every reachable state a candidate's rule and account exist and its account is its rule's, even after inserts from stale rule lists, so the ownership test agrees with ownership through the rule |
| MailSteps.OwnershipStable | apps/api/src/mail/candidates/candidates.service.ts:133-142 | an ownership test that passed still holds at every later step at which the row exists |
| MailSteps.RunEvolves | prisma/schema.prisma:94-157 | between any two steps of a run ids are not reused, owners do not change, settled candidates stay settled, and a candidate disappears only with its rule |
| MailSteps.NeverRequeued | apps/api/src/mail/candidates/candidates.service.ts:81-131 | once a (rule, message) pair has left PENDING it has exactly one row, never PENDING again, while its rule exists; `processedAt` is set |
| MailSteps.MailboxSafety | apps/api/src/mail/candidates/candidates.service.ts:110-123 | every logged deletion goes back to an approve request of the owning user on a candidate whose rule had the action type `delete_candidate` at that step, every logged spam report to one whose rule had `spam_candidate`, and the mailbox differs from the initial one by exactly those actions |
| MailSteps.ApproveMeaning | apps/api/src/mail/candidates/candidates.service.ts:110-123 | a completed approval adds exactly the deletion or the spam report its rule asks for, none for any other action type, and marks exactly that candidate APPROVED at the given time; one of a missing or foreign candidate, or of an unknown provider that would have to act, changes nothing |
| MailMeaning.CallMeaning | apps/api/src/mail/candidates/candidates.service.ts:113-117 | the provider call in flight changes no row, has exactly the effect the action type asks for unless the provider is unknown or fails before acting, and lets the approval go on exactly when nothing was asked or success is reported |
| MailSteps.OnlyApprovalsTouchMailbox | apps/api/src/mail/candidates/candidates.service.ts:60-117 | scans never change the mailbox, only the provider call of an approval does |
| MailSteps.ImportantNeverTouched | apps/api/src/mail/candidates/candidates.service.ts:108-117 | a message queued only by `important` rules never enters the log |
| MailSteps.ApprovedRowsActed | apps/api/src/mail/candidates/candidates.service.ts:110-123 | over every run, a row that became APPROVED has an approval whose provider call succeeded and is in the log, or whose rule asks for no mailbox action: a provider failure leaves the status unchanged |
| MailSteps.ProviderFailureChangesNoRow | apps/api/src/mail/candidates/candidates.service.ts:113-122 | a failed provider call changes no row, and its approval changes none at any later step of the run |
| MailSteps.UpdatesFollowActions | apps/api/src/mail/candidates/candidates.service.ts:113-122 | an approval that reaches its database update has its mailbox action in the log |
| MailSteps.RetryIsIdempotent | apps/api/src/mail/candidates/candidates.service.ts:110-123 | retrying approve after any number of interruptions ends with the rows and the mailbox of one clean approve |
| MailSteps.InsertStepsRefineLoop | apps/api/src/mail/candidates/candidates.service.ts:77-98 | without interleaving the insert steps compute the loop |
| MailSteps.AccountStepsRefineLoop | apps/api/src/mail/candidates/candidates.service.ts:65-103 | without interleaving one account's steps compute the loop body, failures and counters included |
| MailMeaning.RowsExplained | apps/api/src/mail/candidates/candidates.service.ts:46-97 | over every run, however it interleaves, each candidate that was not there at the start shows a message that some step listed for its account and that matched its rule as some step read it, when the rule was active and the account's; the account was active, and the asking user's, when a scan took it |
| MailMeaning.StartMeaning | apps/api/src/mail/candidates/candidates.service.ts:47-56 | a user's scan takes exactly the user's active accounts, the scheduled scan all active ones, each once with its provider |
| MailScan.ScanMeaning | apps/api/src/mail/candidates/candidates.service.ts:60-106 | a scan adds exactly the pairs each account reached before it failed, `createdCandidates` is the exact growth, old rows do not change, and each new row is pending and has the id, sender, subject and date of the message of the first contributed pair with its key |
| MailMeaning.NewRowsMeaning | apps/api/src/mail/candidates/candidates.service.ts:68-91 | each new row is a pending row of one of the scanned Gmail accounts, for a rule of that account that is active, and shows a listed message that this rule matches |
| MailMeaning.MatchesAreQueued | apps/api/src/mail/candidates/candidates.service.ts:77-91 | when nothing fails for an account, each listed message that one of its active rules matches has a row for that rule afterwards |
| MailMeaning.PairOrder | apps/api/src/mail/candidates/candidates.service.ts:77-79 | the pairs an account goes through are exactly the matching (message, rule) positions, each once, message by message and rule by rule |
| MailMeaning.ScanCounters | apps/api/src/mail/candidates/candidates.service.ts:60-105 | `scannedAccounts` counts the Gmail accounts with an active rule whose messages were listed, `failedAccounts` those with an unknown provider, a failed query, a failed listing or a failed insert |
| MailMeaning.AccountCounters | apps/api/src/mail/candidates/candidates.service.ts:65-103 | an account that is not scanned, for instance because no rule of it is active, adds nothing to `scannedAccounts`, `createdCandidates` or the table |
| MailScan.ScanAccountMeaning | apps/api/src/mail/candidates/candidates.service.ts:65-103 | one account adds exactly the prefix of its message-major pairs that it reached |
| MailScan.MatchedKeys | apps/api/src/mail/candidates/candidates.service.ts:77-79 | the pairs are exactly the listed messages with the rules that match them |
| MailScan.ContributedByOwner | apps/api/src/mail/candidates/candidates.service.ts:65-97 | what is added for a rule comes from the run of its own account |
| MailScan.FailureIsolated | apps/api/src/mail/candidates/candidates.service.ts:58-102 | one account's failure never changes which rows another account gets, nor what they contain |
| MailScan.RescanCreatesNothing | apps/api/src/mail/candidates/candidates.service.ts:93-96 | scanning unchanged mailboxes with unchanged rules again creates only rows of accounts that the first scan left unfinished, and 0 rows when it left none |
| MailScan.AddedConditionAndScan | apps/api/src/mail/rules/rules.service.ts:64-78 | a condition added to a non-empty AND rule only shrinks what the next scan queues, to an OR rule only grows it, whatever fails in other accounts |
| MailTables.InsertKeepsConsistent | prisma/schema.prisma:138-157 | an insert from a stale rule list keeps the foreign keys, the unique key and the copied account consistent |
| MailTables.CascadeOfAccount | prisma/schema.prisma:120-153 | disconnecting an account cascades to exactly the candidates that name it |
| MailTables.OwnershipAgrees | apps/api/src/mail/candidates/candidates.service.ts:133-142 | the ownership test on the copied account is ownership through the rule |
| MailTables.StatusMeaning | apps/api/src/mail/candidates/candidates.service.ts:119-130 | a status update finds the row by its id, gives it that status and time, and changes nothing else |
| MailTables.FoundMeaning | apps/api/src/mail/candidates/candidates.service.ts:133-142 | a candidate is found exactly when it exists and its account is the user's |
| MailMeaning.InsertMeaning | prisma/schema.prisma:138-157 | an insert breaks a foreign key exactly when rule or account is gone, the unique key exactly when the rule has a row for the message; otherwise one pending row with the message's fields is added |
| MailMeaning.ConnectMeaning | apps/api/src/email-accounts/email-accounts.service.ts:32-44 | one active `gmail` account of the user is added under a new id |
| MailMeaning.DisconnectMeaning | apps/api/src/email-accounts/email-accounts.service.ts:46-52 | not-found exactly for a missing or foreign account; otherwise the account goes with exactly its rules and candidates |
| MailMeaning.CreateRuleMeaning | apps/api/src/mail/rules/rules.service.ts:20-45 | a rule is created exactly on an account of the user, active, with the given fields |
| MailMeaning.UpdateRuleMeaning | apps/api/src/mail/rules/rules.service.ts:49-79 | each given field of the user's rule is written and each other stays, an empty action type writes nothing, conditions are replaced as a whole, no other row changes |
| MailMeaning.RemoveRuleMeaning | apps/api/src/mail/rules/rules.service.ts:83-89 | the user's rule goes with exactly its candidates |
| MailSummary.SummaryAgrees | apps/api/src/mail/candidates/candidates.service.ts:26-44 | each account of the user is listed once with its name, every count is the direct count of approved `important` candidates through the rules, missing groups read 0, and the total is the user's total |
| MailServices.MailDatabase.CreateCandidate | prisma/schema.prisma:138-157 | inserts a pending row or reports which constraint it breaks |
| MailServices.CandidatesService.ScanAll | apps/api/src/mail/candidates/candidates.service.ts:60-106 | the account loop with its exception boundary and three counters computes the scan fold; it counts exactly the accounts listed and the accounts failed, adds only rows for active rules that match, and leaves no such row out where nothing failed |
| MailServices.CandidatesService.QueueMatches | apps/api/src/mail/candidates/candidates.service.ts:77-98 | the message loop inserts the matching pairs in message-major order |
| MailServices.CandidatesService.QueueMessage | apps/api/src/mail/candidates/candidates.service.ts:78-97 | the rule loop inserts one message's pairs, skips duplicates, and stops at another error |
| MailServices.CandidatesService.Approve | apps/api/src/mail/candidates/candidates.service.ts:110-123 | completes exactly when the candidate is owned and its action, if any, succeeds; then the mailbox has the deletion or spam report the rule asks for and no more, and exactly that row is APPROVED; an error changes no row |
| MailServices.CandidatesService.Exclude | apps/api/src/mail/candidates/candidates.service.ts:125-131 | marks exactly the owned candidate EXCLUDED at the given time, or reports not-found |
| MailServices.RulesService.Create | apps/api/src/mail/rules/rules.service.ts:20-45 | an active rule on an owned account |
| MailServices.RulesService.Update | apps/api/src/mail/rules/rules.service.ts:49-79 | given fields replace, conditions are replaced wholesale, absent ones stay |
| MailServices.RulesService.Remove | apps/api/src/mail/rules/rules.service.ts:83-89 | removes the owned rule with its candidates |
| MailServices.EmailAccountsService.CreateFromGmail | apps/api/src/email-accounts/email-accounts.service.ts:32-44 | connects an active Gmail account of this user |
| MailServices.EmailAccountsService.Remove | apps/api/src/email-accounts/email-accounts.service.ts:46-52 | removes the owned account with its rules and candidates |
| RuleMatcher.MatchMeaning | apps/api/src/mail/rules/rule-matcher.util.ts:9-13 | a rule means its non-empty set of conditions under its operator |
| RuleMatcher.SameConditionsSameMatches | apps/api/src/mail/rules/rule-matcher.util.ts:11-12 | two lists of the same conditions, in whatever order and repetition, match the same messages |
| RuleMatcher.OperatorOrder | apps/api/src/mail/rules/rule-matcher.util.ts:8-13 | AND matches only what OR matches, and they agree on one condition |
| RuleMatcher.AddedCondition | apps/api/src/mail/rules/rule-matcher.util.ts:9-13 | adding a condition narrows a non-empty AND rule and widens an OR rule |
| RuleMatcher.FirstConditionWidens | apps/api/src/mail/rules/rule-matcher.util.ts:10 | the exception: the empty rule matches nothing |
| RuleMatcher.FindsMeaning | apps/api/src/mail/rules/rule-matcher.util.ts:21-34 | a keyword is found exactly when the lower-cased text splits around it |
| RuleMatcher.ShorterKeywordFindsMore | apps/api/src/mail/rules/rule-matcher.util.ts:21-34 | a keyword contained in another finds at least what the other finds |
| RuleMatcher.ConditionMeaning | apps/api/src/mail/rules/rule-matcher.util.ts:17-47 | for all messages and values: a condition's answer depends on one part of the message and one of its value and on nothing else, expecting absence negates expecting presence, unknown types never hold |
| RuleMatcher.ConditionAnswers | apps/api/src/mail/rules/rule-matcher.util.ts:17-47 | which way each condition answers: a keyword must occur, lower-cased, in the lower-cased subject or body, a sender condition looks for `domain` before `contains`, presence is expected unless `equals` is false |
| PasswordGenerator.ShuffleUnbiased | apps/api/src/accounts/accounts.service.ts:153-158 | of the n! draw sequences exactly one gives each permutation of n positions, for every n |
| PasswordGenerator.ShuffleMovesPositions | apps/api/src/accounts/accounts.service.ts:154-158 | what is moved where does not depend on the characters |
| PasswordGenerator.ShufflePermutes | apps/api/src/accounts/accounts.service.ts:155-158 | the shuffle keeps the multiset of characters |
| PasswordGenerator.SupportExact | apps/api/src/accounts/accounts.service.ts:122-161 | the producible strings are exactly those of length 16 by default, 8 below 8, 64 above 64 and as requested between, over the literal classes whose flag is absent or true (all four if all are off), with a character of each of them |
| PasswordGenerator.NothingConfusing | apps/api/src/accounts/accounts.service.ts:121-139 | no generated password has an I, O, l, o, 0 or 1 |
| PasswordGenerator.ShuffleInPlace | apps/api/src/accounts/accounts.service.ts:155-158 | the in-place loop computes the shuffle of its draws |
| PasswordGenerator.GeneratePassword | apps/api/src/accounts/accounts.service.ts:122-161 | the loop computes the function of the draws, and every password it returns has that length and those characters |

## Left out

- Concurrent requests inside one session, and account writes between the snapshot of a master-password change and its commit in a run: requests are serial; `Backup.StaleSnapshotExact` covers the second on the tables.
- AddedConditionAndScan: not stated when a database failure cuts short the scan of the edited rule's own account, since a failure after a fixed number of inserts would cut the two lists at different pairs.
- Encryption, key derivation, password hashing, base64, UTF-8, JSON, WebAuthn signatures and signature counters: library internals behind laws or a `genuine` flag.
- The Google and Gmail HTTP calls and token refresh: the callback's profile and the provider's listing are inputs.
- `customFields` of an account, its timestamps, and the `exportedAt` field of a backup: they play no part in the properties.
- `null` as the JSON value of a condition: the matcher's condition values are objects; fractional idle limits are outside the declared integer column.
- The list queries (`findAll`, `findPending`), settings and device lists: plain reads; guarded ones appear as `OtherGuarded`.
- The notification summary and the unused `PROCESSED` status and `UnlockKeyStoreService.get`.
- The web client, cookies, CORS and session-store persistence.
