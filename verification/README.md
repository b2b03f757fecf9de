# Rubrica: a verified model of its protocols

Rubrica is a document-signing service: an authentication API (sessions in Redis, MFA tickets, account
tokens) and a core API (documents, signature requests, billing, teams). This project models the state
machines and loops these services rest on and proves what holds in every run of them.

- **Sessions.** `RedisStore` is a keyed store with expiry. `SessionProtocol` runs every request one Redis
  command at a time, the rotation script as one command, in any interleaving, with the clock free to
  advance and requests free to die between commands. `SessionService` is the service class with requests
  one at a time, for the user's index of sessions, `SessionRaces` what interleaving costs, and
  `SessionTokens` what suspensions, account tokens and replaced tokens do under it. `MfaChallenge` is the
  ticket protocol in the same style. `Accounts` is the class of one-time account tokens and token
  versions.
- **Signature workflow.** `Workflow` gives each public method as a transaction over documents,
  versions, requests, signers, signatures, counters, audit rows and the object store, with a failure
  allowed before, inside or after the write to the store and in the commit. `WorkflowInvariant` is what all of
  them keep, `WorkflowRuns` the results about runs, and `WorkflowService` the class whose methods update the
  tables step by step and are proved equal to the transactions.
- **Billing and teams.** `Billing` is the account entity and `_apply_event`; `BillingRuns` the results over
  reordered deliveries, uploads and grace periods, `BillingStatus` what decides the status; `Webhooks` the
  two-transaction webhook under crashes and retries. `Tenants`, `TenantService` and `TenantRuns` are seats and administrators.
- **PDF walk.** `PdfWalk` is the worklist traversal of a possibly cyclic object graph (section 7.3.10 of
  ISO 32000-1).
- **Evidence and check digits.** `CanonicalJson` is the canonical text with a reader that inverts it,
  `EvidenceManifest` the producer and the verifier of evidence, `CheckDigits` CPF and CNPJ.

Where the source changes state in place the model has a class or a loop; each such method is proved against
a function of the state before, and the results are proved about that function. New ids, tokens and keys
are arguments, required only to be new; the clock is an argument or a field; decisions of code outside the
model (access checks, providers, the PDF validator) are arbitrary arguments.

## What the proofs found

- `current_session` reads the session and then the user, so a call that has already read the record can still
  validate a session revoked in between: `SessionRaces.LateValidationReached` is a run, and
  `SessionRaces.LateValidation` says exactly when. Nothing else survives a revocation.
- A `logout_all` can leave a live session of its user valid, even the one whose token it was given. In every
  interleaving a sweep can miss exactly the live sessions that are not in the set it reads
  (`SessionRaces.SweepMissesExactly`); those in it are dead when it returns. Besides a login still on its way to its
  `SADD` there are two causes, each with a run: the user's session set expires between the `SADD` and the `EXPIRE` of
  a login (`SessionRaces.LogoutAllMisses`; for a login run alone `SessionService.StoreIndexed` says exactly when), or
  the closing `DEL` of another `logout_all` removes the set after a login has added to it, with no time passing
  (`SessionRaces.LogoutAllErasesLogin`).
- Replay detection holds under interleaving: a `refresh` that finds a used marker for its token does not return before
  the session is dead (`SessionRaces.ReplayKillsSession`).
- The object store matches the rows after every run except exactly for writes torn inside `put`, whose key the caller
  never learns, clean-ups the store refuses, and commits that take effect without an answer: the clean-up then deletes
  the object of a committed row (`WorkflowRuns.StoreIsClean`, `WorkflowRuns.UploadsLeaveKeys`).
- `sign` reads the clock once for the expiry and again for the date, so a signature can be dated after the expiry of
  its request (`WorkflowRuns.SignedAfterExpiry`), though its link always resolved before (`WorkflowRuns.SignedInTime`).
- A stale subscription event is recorded as ignored but still overwrites the customer id
  (`BillingRuns.StaleEventMovesCustomer`): the customer is always the last one named by a delivery
  (`BillingRuns.CustomerIsLastNamed`). A synchronization with the provider carries no date and overwrites the plan
  whenever it comes; `BillingRuns.NewestDecides` says what is left of the newest event. The account status, unlike the
  plan, can depend on the order of delivery; `BillingStatus.OneStatusExactly` says for which events it does not.
- A completed checkout leaves paid access to an active account only: an account in its grace period loses it until the
  next invoice or subscription event (`Billing.ApplyEvent`).
- The founder of a tenant created without a joining time sorts last, so a downgrade to one seat suspends the
  founder and keeps an administrator added later (`TenantRuns.FounderIsSuspended`).
- A single wrong digit in a CNPJ can pass, at positions 0, 4 and 8 only, and in a CPF at positions 0 and 5; the
  exact conditions are `CheckDigits.CnpjBlindSpot` and `CheckDigits.CpfBlindSpot`, each position with an example.

## Model

| member | source | states |
|---|---|---|
| SessionProtocol.RotatesAtMostOnce | apps/auth_api/src/auth_api/modules/sessions/session_service.py:26-40 | under every interleaving a refresh token is rotated successfully at most once, a rotated token gives access to nothing, a live one is not marked as used, and a session has at most one validating access token and one validating refresh token |
| SessionProtocol.DeadStaysDead | apps/auth_api/src/auth_api/modules/sessions/session_service.py:104-139 | once a session's record is gone it is never renewed, even by a refresh that had read its state, and it is validated at most once by each `current_session` call that already held the record |
| SessionRaces.LateValidation | apps/auth_api/src/auth_api/modules/sessions/session_service.py:141-145 | in every reachable state a dead session is validated in some continuation if and only if a `current_session` call already holds its record and the user's token version has not moved past it |
| SessionRaces.LateValidationReached | apps/auth_api/src/auth_api/modules/sessions/session_service.py:141-145 | it happens: from an empty store a login, a `current_session` that reads the record and a `logout` that deletes it lead to a dead session that is then validated |
| SessionRaces.SweepLeavesAllDead | apps/auth_api/src/auth_api/modules/sessions/session_service.py:154-167 | when the sweep of a `logout_all` returns every session in the set it read is dead, whatever logins, rotations and revocations ran between its commands |
| SessionRaces.LoginStores | apps/auth_api/src/auth_api/modules/sessions/session_service.py:230-251 | a login run alone, command by command, does to the store what the service's function says, for any delay before its last command |
| SessionRaces.SweepMissesExactly | apps/auth_api/src/auth_api/modules/sessions/session_service.py:154-167 | in every reachable state in which a `logout_all` is about to read the user's set, a live session survives some continuation in which the call returns if and only if it is not in the set read |
| SessionRaces.LogoutAllMisses | apps/auth_api/src/auth_api/modules/sessions/session_service.py:246-246 | a run from an empty store in which the set expires inside a login, a `logout_all` with the token of a session returns and that session is still valid |
| SessionRaces.LogoutAllErasesLogin | apps/auth_api/src/auth_api/modules/sessions/session_service.py:166-166 | such a run without any time passing: a `logout_all` reads the set, a second login completes, the closing DEL removes the set, and a `logout_all` with the second session's token leaves it valid |
| SessionRaces.ReplayKillsSession | apps/auth_api/src/auth_api/modules/sessions/session_service.py:104-112 | when a `refresh` that found a live used marker returns, the session of the token is dead, whatever rotations and revocations ran between its commands |
| SessionProtocol.OutdatedNeverValidates | apps/auth_api/src/auth_api/modules/sessions/session_service.py:303-306 | once the user's token version has moved past a session no request ever validates it again; it is renewed at most by refreshes that had passed the user check |
| SessionProtocol.SuspendedNeverValidates | apps/auth_api/src/auth_api/modules/sessions/session_service.py:303-306 | while nothing makes an inactive user active again no session of that user is validated, and each is renewed at most by refreshes that had passed the user check |
| SessionTokens.ConsumptionEndsSessions | apps/auth_api/src/auth_api/modules/accounts/account_service.py:166-173 | whatever runs after a password reset or an e-mail verification, no session the user had then is validated again |
| SessionTokens.SuspendedNeverLogsIn | apps/auth_api/src/auth_api/modules/sessions/session_service.py:60-73 | while nothing makes an inactive user active again the user gets no new session |
| SessionTokens.OutOfUseIsRefused | apps/auth_api/src/auth_api/modules/sessions/session_service.py:253-257 | a `current_session`, `logout` or `logout_all` with an access token no live session has any more never gets hold of a session, however far it had got before |
| SessionTokens.ReplacedIsOutOfUse | apps/auth_api/src/auth_api/modules/sessions/session_service.py:26-40 | the access token a session has when it is rotated, revoked or replaced is such a token from then on |
| SessionTokens.RotatedTokenRenewsNothing | apps/auth_api/src/auth_api/modules/sessions/session_service.py:104-112 | a `refresh` with a token rotated before, which had not read the session yet, never rotates anything: it can only revoke |
| SessionProtocol.RunKeepsInvariant | apps/auth_api/src/auth_api/modules/sessions/session_service.py:253-257 | every run keeps that records are the ones issued, tokens belong to one session, pending logins are alone with their keys and rotations are final |
| SessionService.StoreIndexed | apps/auth_api/src/auth_api/modules/sessions/session_service.py:230-246 | a login run alone keeps every live session in its user's set, and the set outliving it, if and only if the old set does not run out between its last two commands |
| SessionService.RotateIndexed | apps/auth_api/src/auth_api/modules/sessions/session_service.py:33-38 | the rotation script keeps the index |
| SessionService.RevokeIndexed | apps/auth_api/src/auth_api/modules/sessions/session_service.py:265-275 | a revocation keeps the index |
| SessionService.IndexNamesSessions | apps/auth_api/src/auth_api/modules/sessions/session_service.py:161-162 | with the index kept, the live sessions of a user are exactly the live ones in the user's set |
| SessionService.SessionService.StoreSession | apps/auth_api/src/auth_api/modules/sessions/session_service.py:230-251 | the five commands of a login write exactly the record, the keys and the set, and keep the index; with no further request the new access token leads to the session for exactly ACCESS_TTL seconds and the new refresh token for exactly SESSION_TTL, and every other session is as before |
| SessionService.SessionService.RevokeState | apps/auth_api/src/auth_api/modules/sessions/session_service.py:265-275 | the session is gone and the index kept |
| SessionService.SessionService.Refresh | apps/auth_api/src/auth_api/modules/sessions/session_service.py:104-139 | an active user's token is rotated: the new tokens lead to the session for exactly their lifetimes, the old ones to nothing from then on, and the old refresh token's used marker reads for SESSION_TTL; an inactive user's session, or the one a used token belongs to, is ended; every other session is as before; otherwise nothing changes |
| SessionService.RotatedServes | apps/auth_api/src/auth_api/modules/sessions/session_service.py:26-40 | after a rotation, at every later time: what the new and the old tokens lead to, and how long the used marker reads |
| SessionService.RotateKeepsOthers | apps/auth_api/src/auth_api/modules/sessions/session_service.py:26-40 | a rotation leaves every other session, its tokens and the other used markers |
| SessionService.RevokedEndsOnly | apps/auth_api/src/auth_api/modules/sessions/session_service.py:265-275 | a revocation leaves nothing of its session and everything of every other |
| SessionService.SessionService.CurrentSession | apps/auth_api/src/auth_api/modules/sessions/session_service.py:141-145 | the answer is a session if and only if the token's key names it, it is live, its record has this token as its access token, and its user is active at the record's version |
| SessionService.SessionService.Logout | apps/auth_api/src/auth_api/modules/sessions/session_service.py:147-152 | exactly the session of the token is ended: its record, both its keys and its place in the set are gone, and nothing of any other session is |
| SessionService.RevokeSpares | apps/auth_api/src/auth_api/modules/sessions/session_service.py:265-275 | revoking a session of one user leaves what every access and refresh token of other users leads to, and their session sets, as they were |
| SessionService.SessionService.LogoutAll | apps/auth_api/src/auth_api/modules/sessions/session_service.py:154-167 | afterwards no session and no access token of the user is live; every session of other users, what their tokens lead to and their session sets are as before |
| MfaChallenge.FiveCodesPerTicket | apps/auth_api/src/auth_api/modules/sessions/session_service.py:75-102 | over every interleaving of attempts and clock advances at most five codes, right or wrong, are checked against one ticket |
| MfaChallenge.CompletedIsSpent | apps/auth_api/src/auth_api/modules/sessions/session_service.py:99-102 | once a call whose code was accepted is past its DEL the ticket is never readable again, later checks belong to calls that had read the challenge before, and completions are no more than checks |
| MfaChallenge.SpentOnReturn | apps/auth_api/src/auth_api/modules/sessions/session_service.py:81-102 | a call whose code is accepted, whose code is the fifth or whose number is past five does not return, unless abandoned, while the ticket can be read |
| MfaChallenge.IneligibleIsNotChecked | apps/auth_api/src/auth_api/modules/sessions/session_service.py:86-93 | while no caller's user is eligible no code is checked |
| MfaChallenge.TicketLasts | apps/auth_api/src/auth_api/modules/sessions/session_service.py:218-228 | a ticket nobody uses can be read for exactly CHALLENGE_TTL seconds |
| MfaChallenge.CompletionReached | apps/auth_api/src/auth_api/modules/sessions/session_service.py:75-102 | from an empty store a ticket is issued, a right code checked once and the ticket completed once |
| MfaChallenge.FiveCodesReached | apps/auth_api/src/auth_api/modules/sessions/session_service.py:75-102 | the bound is tight: wrong codes sent in turn are checked up to the fifth |
| MfaChallenge.NextKeepsInvariant | apps/auth_api/src/auth_api/modules/sessions/session_service.py:218-228 | a readable challenge's counter cannot restart, so numbers handed out bound the codes admitted |
| Accounts.AccountService.IssueToken | apps/auth_api/src/auth_api/modules/accounts/account_service.py:198-218 | the tokens issued before for the user and purpose are retired, those of others are as before, and the new one is the only one live |
| Accounts.AccountService.ConsumeToken | apps/auth_api/src/auth_api/modules/accounts/account_service.py:220-236 | exactly an unconsumed, unexpired token of the purpose is consumed |
| Accounts.AccountService.VerifyEmail | apps/auth_api/src/auth_api/modules/accounts/account_service.py:131-140 | a token works at most once; the account becomes verified and active with the new password, its version grows by one and nobody else's changes |
| Accounts.AccountService.ResetPassword | apps/auth_api/src/auth_api/modules/accounts/account_service.py:166-173 | the same for a reset; a user's version is always the initial one plus the tokens used for that user |
| Accounts.UseKeepsBooks | apps/auth_api/src/auth_api/modules/accounts/account_service.py:131-140 | spending a token and raising the version together keep that count, and the token had not been spent before |
| Accounts.IssueKeepsBooks | apps/auth_api/src/auth_api/modules/accounts/account_service.py:198-218 | issuing keeps one live token per user and purpose and changes no count |
| WorkflowRuns.AuditTellsStatuses | apps/core_api/src/core_api/modules/signature_request/database_workflow_service.py:340-392 | in every reachable state the status of each request and signer is the highest-ranked of its audit events read in any order, and completed and cancelled never both occur |
| WorkflowRuns.RecoveredRequestIsHighest | apps/core_api/src/core_api/modules/signature_request/database_workflow_service.py:769-770 | reading the events back finds one that marks the status and that none outranks |
| WorkflowRuns.CompletedWhenEverybodySigned | apps/core_api/src/core_api/modules/signature_request/database_workflow_service.py:531-539 | a request is completed exactly when it has a signer and all have signed; signature rows are its signed signers; with a revoked signer it is not completed |
| WorkflowRuns.FrozenHead | apps/core_api/src/core_api/modules/signature_request/database_workflow_service.py:76-103 | while a request on a live document is open or completed the head is what the request froze; the frozen bytes are stored, with their digest, exactly unless the call that committed them lost them; every signature binds that digest |
| WorkflowRuns.SignChecksNeverFail | apps/core_api/src/core_api/modules/signature_request/database_workflow_service.py:450-494 | in a reachable state signing succeeds exactly when consent is given, the link resolves, the frozen bytes are in the store and the signer, mode, representation, quota and file conditions hold: the hash, document and last-signature checks never fail |
| WorkflowRuns.SignedInTime | apps/core_api/src/core_api/modules/signature_request/database_workflow_service.py:604-609 | every signature of every run comes from one `sign` call of it, with consent, whose link was resolved before the request expired |
| WorkflowRuns.SignedAfterExpiry | apps/core_api/src/core_api/modules/signature_request/database_workflow_service.py:500-500 | a run from the start that ends with a signature dated after the expiry of its request |
| WorkflowRuns.CounterIsUnpaidSignatures | apps/core_api/src/core_api/modules/billing/billing_service.py:149-168 | a tenant's counter is the number of its committed signatures made without paid or lifetime access, which are at most five |
| WorkflowRuns.RecordsArePermanent | apps/core_api/alembic/versions/0024_immutable_signature_records.py:18-43 | versions, stored bytes, signatures, audit events, closed requests, signed signers and revocations never change; the signers of a request that left the draft are fixed; a revoked signer blocks completion for ever |
| WorkflowRuns.RevocationIsFinal | apps/core_api/src/core_api/modules/signature_request/database_workflow_service.py:340-351 | after a successful revocation, in every continuation, the signer is revoked and has no signature, no link grants access to that signer, and every link of the request answers the invited user with 410 |
| WorkflowRuns.OpenedModeStays | apps/core_api/src/core_api/modules/signature_request/database_workflow_service.py:353-381 | the mode a request is opened with is its mode in every continuation |
| WorkflowRuns.ContentStays | apps/core_api/src/core_api/modules/signature_request/database_workflow_service.py:148-163 | the bytes `get_content` answers for a version it answers in every continuation, until the document is deleted |
| WorkflowRuns.StoreIsClean | apps/core_api/src/core_api/modules/signature_request/database_workflow_service.py:36-107 | with a failure allowed at any point, the keys without a row are exactly those left by torn writes and refused clean-ups, and the rows without an object exactly those whose commit took effect unanswered and was cleaned up after; keys and rows match if and only if no call broke in one of these ways |
| WorkflowRuns.UploadsLeaveKeys | apps/core_api/src/core_api/modules/signature_request/database_workflow_service.py:71-74 | all three happen in one run: a torn write and a refused clean-up leave a key each, and an unanswered commit leaves a document without its object |
| WorkflowRuns.RunKeepsInvariant | apps/core_api/src/core_api/modules/signature_request/database_workflow_service.py:36-588 | every run of transactions keeps the whole invariant |
| WorkflowInvariant.CreateDocumentKeepsInvariant | apps/core_api/src/core_api/modules/signature_request/database_workflow_service.py:36-74 | an upload, failing anywhere, keeps heads, versions, bytes and every other table consistent |
| WorkflowInvariant.AddVersionKeepsInvariant | apps/core_api/src/core_api/modules/signature_request/database_workflow_service.py:76-107 | so does a new version, which the frozen check keeps away from open and completed requests |
| WorkflowInvariant.DeleteDocumentKeepsInvariant | apps/core_api/src/core_api/modules/signature_request/database_workflow_service.py:130-146 | so does a deletion with the cancellations it forces |
| WorkflowInvariant.CancelAllKeepsInvariant | apps/core_api/src/core_api/modules/signature_request/database_workflow_service.py:142-144 | the loop cancels exactly its rows, writes one event each and touches nothing else |
| WorkflowInvariant.AddSignerKeepsInvariant | apps/core_api/src/core_api/modules/signature_request/database_workflow_service.py:210-265 | a new signer keeps the unique index and the completion rule |
| WorkflowInvariant.OpenRequestKeepsInvariant | apps/core_api/src/core_api/modules/signature_request/database_workflow_service.py:353-381 | opening checks what the freeze rule needs |
| WorkflowInvariant.RevokeSignerLinkKeepsInvariant | apps/core_api/src/core_api/modules/signature_request/database_workflow_service.py:340-351 | a revocation keeps that no signed signer is revoked |
| WorkflowInvariant.SignKeepsInvariant | apps/core_api/src/core_api/modules/signature_request/database_workflow_service.py:450-544 | signing, failing anywhere, keeps signatures, counters, completion and audit in step |
| WorkflowInvariant.SignedKeepsCompletion | apps/core_api/src/core_api/modules/signature_request/database_workflow_service.py:531-539 | one signature takes one signer off the list, and the request is completed exactly when that empties it |
| WorkflowInvariant.DeclineKeepsInvariant | apps/core_api/src/core_api/modules/signature_request/database_workflow_service.py:580-588 | declining keeps the invariant; a declined signer may still sign |
| WorkflowService.DatabaseSignatureWorkflowService.CreateDocument | apps/core_api/src/core_api/modules/signature_request/database_workflow_service.py:36-74 | succeeds exactly for a non-empty file that passes the checks and does not break; then `get_content` answers the bytes uploaded; the step-by-step method is the transaction and keeps the invariant |
| WorkflowService.DatabaseSignatureWorkflowService.AddVersion | apps/core_api/src/core_api/modules/signature_request/database_workflow_service.py:76-107 | succeeds exactly when nothing froze the document; then the next version answers the new bytes; a broken write leaves every row as it was |
| WorkflowService.DatabaseSignatureWorkflowService.DeleteDocument | apps/core_api/src/core_api/modules/signature_request/database_workflow_service.py:130-146 | its loop cancels exactly the requests in progress, with one event each; afterwards the document is gone, none of its requests is in progress and every other row is as before |
| WorkflowService.DatabaseSignatureWorkflowService.CreateRequest | apps/core_api/src/core_api/modules/signature_request/database_workflow_service.py:165-187 | the draft freezes the version and digest of the head and has the expiry asked for, which must be in the future |
| WorkflowService.DatabaseSignatureWorkflowService.AddSigner | apps/core_api/src/core_api/modules/signature_request/database_workflow_service.py:210-265 | succeeds exactly on a draft the user is not yet invited to; the user asked for becomes a pending signer |
| WorkflowService.DatabaseSignatureWorkflowService.CreateSigningLink | apps/core_api/src/core_api/modules/signature_request/database_workflow_service.py:267-304 | the new token leads to the request, every token it had before answers 404 to everybody, and tokens of other requests are as before |
| WorkflowService.DatabaseSignatureWorkflowService.RevokeSignerLink | apps/core_api/src/core_api/modules/signature_request/database_workflow_service.py:340-351 | succeeds exactly for an unsigned signer of the request, who is revoked afterwards; every other row is as before and one event is written unless the signer was revoked already |
| WorkflowService.DatabaseSignatureWorkflowService.OpenRequest | apps/core_api/src/core_api/modules/signature_request/database_workflow_service.py:353-381 | succeeds exactly for a draft with signers, an unchanged head and a mode that is ready; the request is then open in the mode chosen |
| WorkflowService.DatabaseSignatureWorkflowService.CancelRequest | apps/core_api/src/core_api/modules/signature_request/database_workflow_service.py:383-392 | succeeds exactly for a draft or open request, which is then cancelled with its event; every other request is as before |
| WorkflowService.DatabaseSignatureWorkflowService.ResolveRequest | apps/core_api/src/core_api/modules/signature_request/database_workflow_service.py:597-624 | access is granted exactly to an unrevoked signer of the linked request, with the user's name, while the request is open and unexpired; each refusal code exactly for an unknown link, a stranger, a revocation or expiry, and a request that is not open |
| WorkflowService.DatabaseSignatureWorkflowService.View | apps/core_api/src/core_api/modules/signature_request/database_workflow_service.py:441-448 | succeeds exactly when the link grants access; a pending signer is then viewed, with one event, and every other row is as before |
| WorkflowService.DatabaseSignatureWorkflowService.Decline | apps/core_api/src/core_api/modules/signature_request/database_workflow_service.py:580-588 | with access, succeeds exactly for a signer who has not answered, who is then declined; every other row is as before |
| WorkflowService.DatabaseSignatureWorkflowService.ConsumeSignature | apps/core_api/src/core_api/modules/billing/billing_service.py:149-168 | a signature is charged exactly without paid or lifetime access, and refused at the allowance |
| WorkflowService.DatabaseSignatureWorkflowService.Authorize | apps/core_api/src/core_api/modules/signature_request/database_workflow_service.py:453-494 | the checks of `sign` in order; the charge stays only when all of them pass |
| WorkflowService.DatabaseSignatureWorkflowService.Sign | apps/core_api/src/core_api/modules/signature_request/database_workflow_service.py:450-544 | on success exactly one signature is made: the row of the signer the link leads to, the digest frozen, the date of the second clock reading, the artifact under its key, and one charge unless access is paid; otherwise the charge is taken back; it keeps the invariant |
| Billing.SyncUsagePeriod | apps/core_api/src/core_api/modules/billing/billing_service.py:881-904 | the count is cleared, and the period moved, exactly for a cycle that starts after the current period |
| Billing.ConsumeDocument | apps/core_api/src/core_api/modules/billing/billing_service.py:170-192 | an upload is refused exactly with paid access and 20, 80 or 200 files by plan, and counted exactly when metered |
| Billing.ApplyEvent | apps/core_api/src/core_api/modules/billing/billing_service.py:579-675 | what each event means: after a current subscription event paid access holds exactly for the provider statuses active and trialing, and for past_due and incomplete until the deadline; which statuses end as Unpaid, Cancelled, Paused and NotConfigured; which leave no deadline; what paid and failed invoices and checkouts do to access, deadline, plan and usage; a stale or other event changes the customer at most |
| BillingRuns.NewestDecides | apps/core_api/src/core_api/modules/billing/billing_service.py:628-660 | for any delivery order, with any invoices, uploads, checkouts and synchronizations between, the plan is the one of the newest dated subscription event as the checkouts and synchronizations delivered after it overwrite it, in order |
| BillingRuns.OrderDoesNotMatter | apps/core_api/src/core_api/modules/billing/billing_service.py:604-660 | two deliveries of the same events (distinct creation times, no checkout, no synchronization) in any orders and at any times end with the same product, subscription and schedule |
| BillingStatus.NewestThenInvoices | apps/core_api/src/core_api/modules/billing/billing_service.py:604-640 | for any delivery order the status is the one of the newest dated subscription event as the invoices, checkouts and synchronizations delivered after it changed it |
| BillingStatus.OneStatusExactly | apps/core_api/src/core_api/modules/billing/billing_service.py:604-640 | for invoice and subscription events with distinct creation times all deliveries end with one status if and only if every invoice that can be recorded stands for the same status as every other and as the newest subscription event |
| BillingStatus.FinalStatus | apps/core_api/src/core_api/modules/billing/billing_service.py:604-640 | the final status is that of an invoice or of the newest subscription event, or of a new account when there is none |
| BillingStatus.Redelivery | apps/core_api/src/core_api/modules/billing/billing_service.py:604-640 | the status of each invoice and of the newest subscription event is the final one of some delivery |
| BillingStatus.StatusDependsOnOrder | apps/core_api/src/core_api/modules/billing/billing_service.py:604-640 | such events can disagree: a paid invoice and a cancelled subscription end active in one order and cancelled in the other |
| BillingRuns.CustomerIsLastNamed | apps/core_api/src/core_api/modules/billing/billing_service.py:589-591 | after any run the customer is the one named by the last delivered event that names one and does not fail, stale or not |
| BillingRuns.StaleEventMovesCustomer | apps/core_api/src/core_api/modules/billing/billing_service.py:589-634 | a run from a new account: an event created at 2 and then one created at 1 for another customer; the second is stale and changes the customer and nothing else |
| BillingRuns.CountIsUploadsSinceReset | apps/core_api/src/core_api/modules/billing/billing_service.py:881-904 | the count is the metered uploads since the last reset |
| BillingRuns.ResetsMoveForward | apps/core_api/src/core_api/modules/billing/billing_service.py:893-904 | resets happen only at strictly increasing period starts, each of a paid cycle invoice |
| BillingRuns.UploadsAreBounded | apps/core_api/src/core_api/modules/billing/billing_service.py:170-192 | over any run metered uploads are at most the largest allowance times one plus the distinct cycle starts |
| BillingRuns.PastDueStretch | apps/core_api/src/core_api/modules/billing/billing_service.py:604-650 | while an account stays past due its deadline is set and never moves, is at most a grace period after the stretch began, and paid access lasts exactly until it |
| BillingRuns.RunKeepsGrace | apps/core_api/src/core_api/modules/billing/billing_service.py:780-788 | over any run a past-due account has a deadline and no deadline is further than the grace period from now |
| Webhooks.WebhookService.ReceiveWebhook | apps/core_api/src/core_api/modules/billing/billing_service.py:276-430 | an accepted delivery is one step of its tenant's account and no other delivery changes any; the account of no other tenant changes; which deliveries are accepted or duplicates (an invoice without an id is never accepted for a tenant), and how the event row is marked for every reply |
| Webhooks.ExactlyOnce | apps/core_api/src/core_api/modules/billing/billing_service.py:341-429 | with duplicates, crashes, failing applications and retries every event id commits at most once, is marked exactly when it committed, and the accounts are those of applying the committed events once each in order |
| Webhooks.AccountsAreRuns | apps/core_api/src/core_api/modules/billing/billing_service.py:384-429 | with duplicates, crashes, failing applications and retries the account of every tenant is the run of its committed deliveries, in order, from a new account |
| Webhooks.NewestDeliveryDecides | apps/core_api/src/core_api/modules/billing/billing_service.py:341-429 | so the plan of a tenant is the one of its newest committed subscription event as later committed checkouts overwrite it |
| Webhooks.EachEventOnce | apps/core_api/src/core_api/modules/billing/billing_service.py:288-297 | the same from any state of the tables |
| Webhooks.MarksStay | apps/core_api/src/core_api/modules/billing/billing_service.py:352-353 | a mark is for ever, and an event is marked exactly when one of its deliveries did not break |
| Webhooks.IgnoredMeansStale | apps/core_api/src/core_api/modules/billing/billing_service.py:406-408 | an event is marked as ignored exactly when it was stale when applied |
| TenantService.TenantService.RequireRole | apps/core_api/src/core_api/modules/tenant/tenant_service.py:613-619 | a gated operation passes exactly for an active member in one of the roles of a team within the limit; team management passes over the limit as well |
| TenantService.TenantService.AddMember | apps/core_api/src/core_api/modules/tenant/tenant_service.py:226-253 | succeeds exactly for an active administrator of a plan with room (three or ten seats with paid access, any number with lifetime access), a user found and not yet a member; the team then has exactly one more row, active, with the user and role asked for |
| TenantService.TenantService.InviteMember | apps/core_api/src/core_api/modules/tenant/tenant_service.py:255-289 | the same for an invitation, with its own order and codes of refusals |
| TenantService.TenantService.UpdateTeam | apps/core_api/src/core_api/modules/tenant/tenant_service.py:398-422 | succeeds exactly for a selection within the seats that keeps its administrator; the loop leaves exactly the selected members active, with their roles |
| TenantService.TenantService.UpdateMemberRole | apps/core_api/src/core_api/modules/tenant/tenant_service.py:424-460 | exactly the role of one other member who is no administrator becomes the one asked for |
| TenantService.TenantService.ReconcileSingleMemberPlan | apps/core_api/src/core_api/modules/tenant/tenant_service.py:360-396 | on a one-seat plan its loops leave only the first active administrator active |
| TenantRuns.OneSeatReconcile | apps/core_api/src/core_api/modules/tenant/tenant_service.py:360-396 | exactly one member stays active, an administrator with every other active administrator after it in the order of the query; other plans are untouched |
| TenantRuns.SurvivesExactly | apps/core_api/src/core_api/modules/tenant/tenant_service.py:360-396 | on a one-seat plan an active administrator stays active if and only if no active administrator comes before in the order of the query |
| TenantRuns.EarliestStays | apps/core_api/src/core_api/modules/tenant/tenant_service.py:360-396 | on a one-seat plan the administrator who joined first, or without joining times was created first, is the one active member left |
| TenantRuns.FounderIsSuspended | apps/core_api/src/core_api/modules/tenant/tenant_service.py:220-220 | a founder without a joining time, a professional plan, an administrator the founder adds and a downgrade: that run ends with the founder suspended and the other administrator active |
| TenantRuns.TenantKeepsAdministrator | apps/core_api/src/core_api/modules/tenant/tenant_service.py:398-460 | over every run of member, team and billing operations a tenant keeps an active administrator, and its founder stays a member with that role |
| TenantRuns.RaisesWithinLimit | apps/core_api/src/core_api/modules/tenant/tenant_service.py:226-289 | an operation that raises the active count ends within the limit of that moment, as does every successful selection |
| TenantRuns.OnlyPlansShrink | apps/core_api/src/core_api/modules/tenant/tenant_service.py:318-336 | a team goes over the limit only because the limit went down |
| TenantRuns.OneSeatAfterBilling | apps/core_api/src/core_api/modules/billing/billing_service.py:670-674 | after an applied subscription event, or a look at the team, a one-seat plan has one active member |
| PdfWalk.RejectActiveContent | apps/core_api/src/core_api/modules/document/pdf_validation.py:60-84 | on every, also cyclic, graph: accepted means nothing reachable is active or unresolvable; each refusal has a reachable witness; too complex means a complete walk inspects more than the cap; the loop ends without the cap; and a harmless document is accepted exactly within the cap |
| PdfWalk.ValidateStructure | apps/core_api/src/core_api/modules/document/pdf_validation.py:53-66 | an upload is accepted exactly when everything reachable from its trailer is harmless and a complete walk inspects at most 100,000 values |
| PdfWalk.PushEntries | apps/core_api/src/core_api/modules/document/pdf_validation.py:79-82 | the entries are pushed in order unless a key is active |
| PdfWalk.WalkRound | apps/core_api/src/core_api/modules/document/pdf_validation.py:64-84 | one round keeps that what was inspected is harmless and leads only to what was inspected or is pending |
| PdfWalk.WalkFinished | apps/core_api/src/core_api/modules/document/pdf_validation.py:64-84 | when nothing is pending everything reachable was inspected and exactly the reachable objects were visited |
| CanonicalJson.CanonicalReadsBack | apps/core_api/src/core_api/modules/signature_request/signed_pdf.py:18-19 | reading a canonical text gives the value back with sorted keys |
| CanonicalJson.LessIsLexicographic | apps/core_api/src/core_api/modules/signature_request/signed_pdf.py:18-19 | keys are ordered by code points: a proper prefix first, otherwise by the first difference |
| CanonicalJson.CanonicalInjective | apps/core_api/src/core_api/modules/signature_request/signed_pdf.py:18-19 | two values have one canonical text exactly when they are equal up to the order of keys |
| CanonicalJson.InsertionOrderIrrelevant | apps/core_api/src/core_api/modules/signature_request/signed_pdf.py:18-19 | objects that answer every lookup alike sort to the same object |
| EvidenceManifest.Verify | toolbox/verify_signed_pdf.py:29-42 | the loop accepts exactly genuine evidence with its manifest, and otherwise names the first bad item or the manifest |
| EvidenceManifest.StripUndoesInsert | toolbox/verify_signed_pdf.py:33-33 | inserting and stripping the hash gives the evidence back if and only if it had no such key |
| EvidenceManifest.AcceptsExactly | apps/core_api/src/core_api/modules/signature_request/database_workflow_service.py:505-512 | the text and manifest built from any rows are read back and accepted exactly when every stored hash is missing or right |
| EvidenceManifest.AcceptsSigned | apps/core_api/src/core_api/modules/signature_request/database_workflow_service.py:504-512 | for any number of signers the verifier accepts what `sign` builds |
| EvidenceManifest.ManifestBinds | toolbox/verify_signed_pdf.py:39-42 | without a collision among the hashed texts two accepted lists with one manifest have the same items in the same order |
| EvidenceManifest.JoinInjective | toolbox/verify_signed_pdf.py:39-39 | joining digests of one length with a bar loses nothing |
| EvidenceManifest.JoinAppends | toolbox/verify_signed_pdf.py:39-39 | the joined text has a bar between any two digests and nothing else |
| CheckDigits.WeightedSumChange | apps/auth_api/src/auth_api/modules/users/user_identifier_service.py:66-72 | changing one digit moves a weighted sum of any length by the weight times the change |
| CheckDigits.SubstitutionMovesRemainder | apps/auth_api/src/auth_api/modules/users/user_identifier_service.py:87-92 | for weights that are not multiples of 11 the remainder detects every substitution |
| CheckDigits.AcceptedCpf | apps/auth_api/src/auth_api/modules/users/user_identifier_service.py:59-74 | accepted are exactly the texts that normalize to eleven digits, not all the same, whose last two balance their weighted sums modulo 11 |
| CheckDigits.AcceptedCnpj | apps/auth_api/src/auth_api/modules/users/user_identifier_service.py:75-95 | the same for fourteen digits of a CNPJ |
| CheckDigits.CnpjSubstitution | apps/auth_api/src/auth_api/modules/users/user_identifier_service.py:75-95 | exactly which single-digit substitutions a valid CNPJ survives |
| CheckDigits.CnpjDetectsSubstitution | apps/auth_api/src/auth_api/modules/users/user_identifier_service.py:75-95 | with check digits not both 0 every substitution is rejected |
| CheckDigits.CnpjBlindSpotExists | apps/auth_api/src/auth_api/modules/users/user_identifier_service.py:75-95 | valid CNPJs one digit apart at each blind position: 0, 4 and 8 |
| CheckDigits.CpfSubstitution | apps/auth_api/src/auth_api/modules/users/user_identifier_service.py:59-74 | exactly which single-digit substitutions a valid CPF survives |
| CheckDigits.CpfBlindSpotExists | apps/auth_api/src/auth_api/modules/users/user_identifier_service.py:59-74 | valid CPFs one digit apart at each blind position: 0 and 5 |
| CheckDigits.CpfDetectsSubstitution | apps/auth_api/src/auth_api/modules/users/user_identifier_service.py:59-74 | with a first check digit other than 0 every substitution is rejected |
| CheckDigits.CpfTextSubstitution | apps/auth_api/src/auth_api/modules/users/user_identifier_service.py:59-74 | one wrong digit in the text of an accepted CPF is accepted exactly in the blind spot, and rejected otherwise |
| CheckDigits.CnpjTextSubstitution | apps/auth_api/src/auth_api/modules/users/user_identifier_service.py:75-95 | the same for the text of an accepted CNPJ |
| CheckDigits.CnpjValidatorsAgree | apps/core_api/src/core_api/modules/tenant/tenant_identity.py:14-30 | on ASCII the two validators differ if and only if the text has a letter and its digits alone form a valid CNPJ, which only the tenant service accepts |
| CheckDigits.CnpjValidatorsDiffer | apps/core_api/src/core_api/modules/tenant/tenant_identity.py:15-15 | every valid CNPJ with a letter in front is such a text |

## Left out

- The in-memory workflow class (`workflow_service.py`): the same workflow in a compact form; it alone writes EXPIRED, without an audit event.
- HTTP routers, cookies, CSRF, Turnstile, settings and pages: no state of their own.
- Stripe, SERPRO, Resend, Slack and WhatsApp clients: their answers are arbitrary arguments.
- Cryptography: a hash is a function parameter, collision-free only on the texts a result names; TOTP is an arbitrary answer.
- PDF drawing and parsing: a signed artifact is an arbitrary byte string, a PDF its object graph.
- Row locks and isolation: transactions are atomic; nothing is claimed for concurrent unlocked or failing transactions.
- The file allowance is modelled with billing, not inside the upload transaction, where it is one of the reasons to refuse.
- Payment rows (`_record_payment`) beyond the failure on an invoice without an id, and the business identity taken from the provider.
- The walk from a provider resource to its product, period and tenant: an event carries the values extracted.
- Team audit rows, invitation and billing e-mails, message catalogues: text only.
- Legacy numeric user ids and their second session set; the login rate limit.
- Letters and digits outside ASCII in identifiers; identity documents other than CPF and CNPJ.
- JSON numbers are kept as their literals: float formatting is not modelled; evidence that is not a list of objects is not modelled.
- WorkflowRuns.StoreIsClean: keys left behind and objects lost are characterized, not excluded, because the code cannot discard a key `put` never returned nor tell an unanswered commit from a failed one.
- SessionProtocol.DeadStaysDead: validations by calls that already held the record are bounded, not excluded, because the code allows them.
