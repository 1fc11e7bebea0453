# Verification of the license server's transactional core

A Dafny model of the parts of the license server that have to be right when processes crash, requests
overlap and deliveries repeat: the durable webhook outbox and its retry queue, the license and
webhook-configuration lifecycle, Stripe event processing, opaque-cursor pagination, the logical backup
and restore, and the smaller machines for key rotation, recovery codes, product history and expiry
warnings. `dafny verify dfyconfig.toml` checks the project.

## How it is built

Rows are datatypes; a session or a table is a class whose methods assign columns one statement at a time,
as the services do, and whose contracts equate the new tables with a specification function of the old
ones. What each function answers is stated once more of the rows alone, without naming it (the `Outcome`, `Effect`
and `Iff` lemmas); the promises are proved as lemmas over every run.

| file | what it holds |
|---|---|
| `Deliveries.dfy`, `DeliveryMachine.dfy`, `RetryWorker.dfy`, `RevivedRows.dfy` | one delivery row and its three actors; every interleaving of their sessions; one worker pass and how long a due row can wait; the budget of a row, fresh or revived |
| `LicenseModel.dfy`, `LicenseService.dfy`, `LicenseRuns.dfy`, `Heartbeats.dfy` | license rows and the effect of each call; the calls statement by statement with every crash point recorded; whole runs of calls; sequences of heartbeats |
| `LicenseOutcomes.dfy` | what each of these calls answers and leaves, said of the rows alone |
| `LicenseOverlap.dfy` | the same calls as sessions that load a row, work on a copy and write the columns they changed, in every interleaving |
| `OutboxDelivery.dfy` | the outbox joined to the retry queue |
| `Stripe.dfy`, `StripeConcurrency.dfy`, `StripeLicenses.dfy` | the handlers and their max-plus closed form; overlapping, repeated and aborted deliveries; the handlers as calls of the license runs |
| `Codecs.dfy`, `Pagination.dfy` | UTF-8, unpadded base64url (section 5 of RFC 4648), ISO timestamps; keyset paging over any strict order, then by opaque token |
| `KnownTexts.dfy` | the written forms of bytes, timestamps, JSON and tokens, on examples |
| `Json.dfy`, `Backup.dfy`, `Restore.dfy`, `Retention.dfy` | JSON text; the archive; full-replace restore; both retention sweeps |
| `Mfa.dfy`, `MfaOverlap.dfy` | the second factor and its recovery codes, calls one after another and in every interleaving |
| `KeyRotation.dfy`, `Products.dfy`, `ExpiryWarnings.dfy` | the smaller machines |
| `Common.dfy` | Option, Result, license status, white-space trimming |

Time is an integer number of seconds that the caller supplies; minted secrets and row ids are parameters;
an HTTP send is its outcome; the URL check, the ciphers, the digest, the TOTP check and the tar/gzip
container are oracles with the laws stated where they are needed (`Lawful`, `Injective`, `RejectsEmpty`).

## What the code does not promise

Ten properties a reader might expect are not true of the code as it stands. For each the model gives a failing
input or run and states exactly when the code does meet it.

- **Delivered is not absorbing when sessions overlap.** A session writes only the columns it changed from
  what it loaded. `DeliveredSurvivesCommitIff` gives the exact stale sessions that turn a delivered row
  into something else, `DeliveredThenAbandoned` is such a run, and `DeliveredAbsorbsWithoutOverlap`
  proves the property when no two sessions have one row open.
- **The rows ahead of a due row do not bound how long it waits.** A retry that read its clock earlier and
  commits later steps in front (`StaleRetryOvertakes`). Adding the sessions already open that can still do
  so, and the later steps that overtake, gives the bound (`DueRowIsAttempted`); when every clock is past the due time nothing overtakes later, and the bound is known when
  the row falls due (`PunctualDueRowIsAttempted`).
- **Overlapping calls on one license can leave a webhook URL without a secret, overwrite an operator's URL,
  accept a heartbeat after a disable committed, and replace a secret a client was just given.**
  `RunKeepsConfig`, `AdminWebhookStays` and `LockedRejectsChecks` of `LicenseRuns` hold when calls run one
  after another. With overlap, `CommitKeepsConfigIff` and `HeartbeatKeepsConfigIff` say which commits keep a row consistent and
  `RunKeepsConfigIff` lifts this to runs; `HeartbeatKeepsAdminIff` and `AdminWebhookStaysIff` do the same for
  an operator's webhook; `LockedAcceptsOnlyEarly` bounds what a disabled license still accepts by the
  heartbeats open when it was disabled; `HeartbeatKeepsSecretIff` says which heartbeats keep the secret they meet.
  The failing runs are `ClearedUnderHeartbeat`, `OperatorOverwritten`, `AcceptedAfterDisable` and
  `SecretReplaced`.
- **A concurrent Stripe event can lose its effect.** Two paid invoices of one customer that overlap can
  extend once (`LostExtension`). `CommitSerialIff` says of every commit of every kind of event exactly when it
  leaves what that event alone would leave, `UndisturbedRunsRefine` lifts it to whole runs, and on a database
  with one writer at a time every run is serial (`OneWriterRefinesSerial`). Exactly-once by event id needs no
  such condition (`ProcessedIffCommitted`).
- **Key migration with a current KEK that is set but unusable stores plaintext** unless the strict setting is
  on (`MigrationStoresPlaintext`). No secret is lost, and everything is encrypted exactly when the current KEK
  loads or there was nothing to encrypt (`MigrationKeepsSecrets`).
- **An edit can drop the http flag it posts**: when it clears the URL, or rotates the secret of a license that
  has no URL (`FlagLost`). `EditAppliesFlagIff` gives the exact condition over all accepted edits.
- **A renewed license is not warned again at a threshold it was warned at before** (`RenewalUnwarned`).
  `RenewedLicenseWarnedIff` says exactly when a pass warns, from the passes in all earlier terms, and once
  every threshold was used the license stays silent whatever its later terms are (`ExhaustedStaysSilent`).
- **A restore refused for its schema has already left a snapshot and one `backup:created` event**
  (`SchemaMismatchLeavesSnapshot`). `FailedRestoreKeepsData` says which failures do.
- **Overlapping calls break the promise of the recovery codes**, that none is accepted twice, those accepted belong
  to the generation in force and the rest of it is stored. A code can be accepted twice (`CodeAcceptedTwice`), a
  used one can come back (`UsedCodeReturns`), a login that overlaps a regeneration brings the retired generation
  back (`RetiredCodeReturns`), and MFA can end on without any code (`CodesCleared`). `CommitKeepsCodesIff` says
  exactly which commits keep the promise: a login by a recovery code must meet a row that is on and holds the
  digests it loaded. `RunKeepsCodesIff` lifts this to every run, and without overlap the promise always holds
  (`RunKeepsCodesWithoutOverlap`).
- **Overlapping product edits break the replay of the history** (`OverlappingRenames`);
  `OverlappingEditReplaysIff` says exactly when. Deleting a product leaves an audit event pointing at it unless
  its last license has a webhook or it has no license, because the bulk update misses events not yet flushed
  (`ProductPointersClearedIff`).

Stripe's status changes queue no webhook, so they owe no notice (`Owed`).

Where code and comments disagree the model follows the code: `_pick_threshold` picks the least threshold
not below the days left, not the largest one below them plus one
(app/scripts/send_expiry_warnings.py:54-63); the restore's schema check comes after the safety
snapshot, not before anything is touched (app/services/backups.py:100-117).

## Model

| member | source | states |
|---|---|---|
| Deliveries.SessionCopy.TryDeliver | app/webhooks.py:289-358 | one attempt assigns exactly the columns of `Attempted`: terminal on success, on an undecodable payload and on the seventh failure, otherwise rescheduled by the back-off of that attempt; true exactly when the row turned delivered |
| Deliveries.SessionCopy.RetryNow | app/routers/admin_ui/webhook_deliveries.py:87-106 | the operator's retry assigns exactly the columns of `Retried`, and refuses test rows |
| Deliveries.AttemptOutcome | app/webhooks.py:311-358 | an attempt on a pending row: a success delivers it, the seventh failure abandons it, and the n-th failure before leaves it due 1, 5, 30, 120, 720 or 1440 minutes after it |
| Deliveries.AttemptRecords | app/webhooks.py:330-353 | what is written down of the reply: its status, and its error cut to 500 characters, or a placeholder |
| Deliveries.NoAttempt | app/webhooks.py:300-325 | a payload that does not decode abandons the row without an attempt, and a row that is not pending stays as it is |
| Deliveries.RetryOutcome | app/routers/admin_ui/webhook_deliveries.py:94-103 | a test row is left alone, any other is due at once with its error cleared, and an abandoned one is pending with no attempts made |
| RevivedRows.WholeBudget | app/webhooks.py:78-86 | in every run a pending row without attempts, attempted one at a time and never before it is due, is abandoned exactly at its seventh recorded failure, at least 2316 minutes after the first |
| RevivedRows.RevivedRowHasWholeBudget | app/routers/admin_ui/webhook_deliveries.py:87-106 | an abandoned row that an operator's session revives, nobody else opening it meanwhile, is due at the retry's own clock and has that whole budget again |
| DeliveryMachine.RunKeepsInv | app/webhooks.py:289-358 | over every interleaving of attempts, retries, test sends, rollbacks and crashes, rows stay well formed, a row, its identity, a delivery time and a send are never taken back |
| DeliveryMachine.ReachableRowsAreSound | app/webhooks.py:264-358 | in every reachable state a pending row has fewer than seven attempts, so its back-off index is in range, test rows are never pending, a delivered row has a successful send that carried its identity, and all sends of a row carry the same id, URL, secret, type and data |
| DeliveryMachine.DeliveredSurvivesCommitIff | app/webhooks.py:330-358 | a commit keeps a delivered row delivered exactly when its session did not reach the seventh failure, decode a broken payload, or revive what it had loaded as abandoned |
| DeliveryMachine.DeliveredThenAbandoned | app/webhooks.py:300-353 | a concrete run in which a delivered row ends abandoned, for every deliverable row |
| DeliveryMachine.DeliveredAbsorbsWithoutOverlap | app/webhooks.py:289-358 | when no two sessions hold one row, delivered is absorbing and equals having a delivery time, over every run |
| DeliveryMachine.RunKeepsWaited | app/webhooks.py:336-358 | over every run in which only the worker opens a row, after n recorded failures at least n - 1 back-off delays have passed since the first, and only the seventh abandons it |
| DeliveryMachine.WorkerAbandonsAfter2316Minutes | app/webhooks.py:78-86 | so a never-revived row is given up at its seventh failure, at least 2316 minutes after the first, whatever all actors do to other rows |
| RetryWorker.DeliveryTable.Run | app/scripts/retry_webhooks.py:29-61 | a pass attempts and commits the selected rows in order up to the first exception, leaves the rest, exits 1 exactly when a row raised, and otherwise counts the rows that turned delivered |
| RetryWorker.ReportIsCount | app/scripts/retry_webhooks.py:48-56 | the number a pass reports is the number of its rows that turned from pending to delivered |
| RetryWorker.PassIsARun | app/scripts/retry_webhooks.py:49-53 | an undisturbed pass is a run of the delivery machine with the same table at the end |
| RetryWorker.StepPressure | app/webhooks.py:354-358 | the rows ahead of a due time and the open sessions that can still put one there grow by no more than a step overtakes with: a row enqueued or a session begun on a clock not past the due time, or a retry that hits the very schedule it loads |
| RetryWorker.TurnLeavesAhead | app/scripts/retry_webhooks.py:49-53 | a row ahead of a due time at the worker's turn is not ahead of it after the turn, whatever steps are interleaved |
| RetryWorker.TurnPressure | app/scripts/retry_webhooks.py:49-53 | the worker's turn takes its row off that pressure, with anything interleaved |
| RetryWorker.SkippedPassPressure | app/scripts/retry_webhooks.py:36-53 | a pass that skips a due row takes at least `limit` off the pressure before it, up to the steps that overtake |
| RetryWorker.PickedPassAttempts | app/scripts/retry_webhooks.py:49-53 | a pass that picks a row nobody else opens ends with exactly that attempt recorded |
| RetryWorker.DueRowIsAttempted | app/scripts/retry_webhooks.py:36-53 | a due row with r other pending rows scheduled no later is attempted within floor((r + s) / limit) + 1 complete passes, where s counts the stale sessions open at the start and the later overtaking steps, while nobody else opens its row and whatever happens to other rows |
| RetryWorker.PunctualDueRowIsAttempted | app/scripts/retry_webhooks.py:36-53 | when every other actor reads its clock past the due time, and no retry hits the very schedule it loads, s is only the number of stale sessions open at the start |
| RetryWorker.StaleRetryOvertakes | app/routers/admin_ui/webhook_deliveries.py:87-106 | a reachable state and two passes of limit 1 in which a due row with one row ahead is not attempted, because an open retry commits in between |
| OutboxDelivery.OwedNoticeIsAttempted | app/webhooks.py:264-286 | while nobody else opens its row, the worker itself attempts a notice that a committed status change, edit or deletion owes, within that bound, and records the outcome |
| OutboxDelivery.OwedNoticeIsSent | app/services/licenses.py:135-172 | every notice a committed status change, edit or deletion owes is sent with its own id, URL, secret, type and data, by the attempt scheduled after the commit, the worker or anyone else, by the end of that many passes; only the operator does not retry its row |
| OutboxDelivery.PunctualNoticeIsSent | app/services/licenses.py:135-172 | with every clock past the commit's, that number of passes is known when the first of them starts |
| LicenseService.Session.IssueLicense | app/services/licenses.py:49-129 | the new row and its event commit together or the call raises and changes nothing, at every crash point |
| LicenseService.Session.SetStatus | app/services/licenses.py:135-172 | status, event and delivery row commit together; an attempt is scheduled only when a row was queued, and only after the commit |
| LicenseService.Session.ApplyWebhookConfig | app/services/licenses.py:193-238 | the four webhook columns become those of `Configured`, or the call raises with the staged row untouched |
| LicenseService.Session.EditLicense | app/services/licenses.py:247-366 | columns, event and delivery row commit together or nothing does; one attempt is scheduled exactly when a plain field changed and URL and secret are set |
| LicenseService.Session.ConfigureWebhook | app/services/licenses.py:369-400 | the new configuration and its event commit together or nothing changes |
| LicenseService.Session.ConvertWebhookToSelf | app/services/licenses.py:403-433 | an admin URL becomes a self one with a new secret, or the call raises and changes nothing |
| LicenseService.Session.TestWebhook | app/services/licenses.py:443-480 | a test send leaves one terminal row and no license change, and schedules nothing |
| LicenseService.Session.DeleteInTx | app/services/licenses.py:500-554 | one staged deletion: row, installs, event pointers, audit event and notice, with no commit |
| LicenseService.Session.DeleteLicensesBulk | app/services/licenses.py:557-594 | all deletions and their notices become durable in one commit or none does; scheduled attempts name durable rows |
| LicenseService.ScheduledAreQueued | app/services/licenses.py:557-594 | the attempts scheduled after a batch of deletions are for exactly the rows it queued |
| LicenseService.Session.DeleteProduct | app/services/products.py:94-138 | the cascade over a product's licenses, its presets and the product pointers of the flushed events is one commit, with attempts scheduled afterwards only |
| LicenseService.Session.CheckLicense | app/services/check.py:36-153 | an accepted heartbeat commits columns, install and events together; a rejected one changes nothing; the row `LicenseOutcomes.HeartbeatAcceptedIff` says which are accepted |
| LicenseOutcomes.HeartbeatAcceptedIff | app/services/check.py:47-64 | a heartbeat is accepted exactly when its key is known, the license is neither revoked nor disabled, its date has not passed, and the address it carries, if any, has at most 500 characters and is acceptable under the row's http flag |
| LicenseOutcomes.HeartbeatReason | app/services/check.py:47-64 | the reason of each rejection, in the order unknown key, revoked, disabled, expired, address |
| LicenseOutcomes.ExpiredRejectsChecks | app/services/check.py:54-55 | after any run of calls one after another that do not move its date, a license answers no heartbeat past it |
| LicenseOutcomes.HeartbeatWebhook | app/services/check.py:59-119 | which address and secret an accepted heartbeat leaves, and which event it logs for it |
| LicenseOutcomes.SilentHeartbeat | app/services/check.py:148-152 | a heartbeat without an address leaves the license rows and logs only itself |
| LicenseOutcomes.HeartbeatRecords | app/services/check.py:121-152 | every accepted heartbeat ends with its event, leaves its install as just seen, and touches no other license, install or delivery |
| LicenseOutcomes.CandidateIs | app/services/check.py:59-60 | the address carried is the text without surrounding white space and trailing slashes |
| LicenseOutcomes.StatusOutcome | app/services/licenses.py:135-152 | a status set changes that column of that row and logs it, and nothing else |
| LicenseOutcomes.StatusNotice | app/services/licenses.py:153-169 | it queues one notice with the old and the new word, to the row's URL and secret, exactly when both are there |
| LicenseOutcomes.StatusWords | app/services/licenses.py:148-162 | each status has its own word on the wire |
| LicenseOutcomes.EditOutcome | app/services/licenses.py:268-338 | which edits are refused, and the plain fields, address, label, secret and flag an accepted one leaves |
| LicenseOutcomes.EditEffect | app/services/licenses.py:339-345 | an accepted edit changes that row alone and logs whether there is a webhook and whether its secret changed |
| LicenseOutcomes.EditNotice | app/services/licenses.py:346-362 | it queues one notice exactly when a plain field changed and the row then has a webhook |
| LicenseOutcomes.ReportedFields | app/services/licenses.py:282-290 | the fields it names are exactly those whose value changed |
| LicenseOutcomes.ConfigureOutcome | app/services/licenses.py:217-238 | the webhook columns for every URL, rotation, flag and label: refused, cleared, kept or with a new secret |
| LicenseOutcomes.WebhookCalls | app/services/licenses.py:369-433 | configuring and converting log one event each and queue nothing; converting needs an operator's address |
| LicenseOutcomes.IssueEffect | app/services/licenses.py:89-129 | a new license is active, an operator's with a secret exactly when it comes with an address, or is refused for it |
| LicenseOutcomes.TestEffect | app/services/licenses.py:443-480 | a test send is one final row to the license's webhook, or is refused without one |
| LicenseOutcomes.DeleteEffect | app/services/licenses.py:518-534 | the row and event of one deletion |
| LicenseOutcomes.DeleteNotice | app/services/licenses.py:535-550 | its notice, exactly when the row had a webhook |
| LicenseOutcomes.ProductDeletionIsLogged | app/services/products.py:119-132 | a deleted product is logged last with the number of its licenses, and its slug is free |
| LicenseRuns.RunKeepsConfig | app/services/licenses.py:193-238 | when calls run one after another, in every reachable state URL and secret are both set or both null, source 'admin' implies a URL, and a set URL is safe under the row's own http flag |
| LicenseRuns.EditKeepsProvenance | app/services/licenses.py:296-338 | a save that repeats the URL never relabels it and changes the secret exactly on an explicit rotation of a set URL |
| LicenseRuns.EditAppliesFlagIff | app/services/licenses.py:296-338 | an accepted edit leaves the http flag it posts exactly when it leaves a URL, neither clears nor rotates, or posts the flag off |
| LicenseRuns.FlagLost | app/services/licenses.py:233-238 | two edits that post the flag on and leave it off: one clears the URL, one rotates without a URL |
| LicenseRuns.NotifyingStep | app/services/licenses.py:135-172 | a committed status set, edit or deletion adds to the delivery table exactly the fresh pending rows of the notices it owes |
| LicenseRuns.OutboxStaysExact | app/services/licenses.py:339-366 | over every run with losses the durable delivery rows, test rows apart, are in one-to-one correspondence with the notices owed by committed changes |
| LicenseRuns.AdminWebhookStays | app/services/check.py:65-82 | over every run of calls one after another, a webhook an operator set keeps its URL, secret, source and flag until an operator edits, configures, converts or deletes it |
| LicenseRuns.DeletesKeepAudit | app/services/licenses.py:500-554 | a batch of deletions takes exactly the installs of its licenses, keeps every audit event with only its license pointer dropped, and adds one event per license |
| LicenseRuns.ProductPointersClearedIff | app/services/products.py:118-132 | deleting a product takes exactly its presets, and no audit event points at it afterwards exactly when it has no license or the last one deleted has a webhook, whose queue row flushes the events |
| LicenseRuns.LockedRejectsChecks | app/services/check.py:50-55 | when calls run one after another, from a committed disable or revoke to the next operation that sets the status, every heartbeat is rejected |
| LicenseOverlap.CommitKeepsConfigIff | app/services/licenses.py:193-238 | a column-wise commit of any session leaves a consistent row exactly when what it writes alone of URL and secret, source and URL, or URL and flag suits the row it meets |
| LicenseOverlap.HeartbeatKeepsConfigIff | app/services/check.py:57-119 | a heartbeat's commit leaves a consistent row exactly when it registers nothing, or the secret it relied on is still there and its URL is safe under the flag it meets |
| LicenseOverlap.RunKeepsConfigIff | app/services/check.py:36-153 | over every interleaving of calls, crashes, new rows and deleted rows, all rows are consistent in every state exactly when every commit is harmless |
| LicenseOverlap.RunKeepsConfigWithoutOverlap | app/services/licenses.py:193-238 | when no two sessions have one license open, all rows are consistent in every state |
| LicenseOverlap.FreshCommitIsEffect | app/services/licenses.py:193-238 | a session that commits on the row it loaded leaves the license rows of the same call run as one step, and raises exactly when that does |
| LicenseOverlap.HeartbeatKeepsAdminIff | app/services/check.py:65-119 | a heartbeat's commit leaves an operator's webhook as it is exactly when it loaded an operator's row or registers and mints nothing that differs |
| LicenseOverlap.HeartbeatKeepsSecretIff | app/services/check.py:95-113 | a heartbeat's commit leaves the secret it meets exactly when it carries no URL, loaded an operator's row, or loaded a secret, or the one it mints is already there |
| LicenseOverlap.AdminWebhookStaysIff | app/services/check.py:65-119 | over every run without an operator's session, an operator's webhook stays in every state exactly when every heartbeat that commits spares it |
| LicenseOverlap.AdminWebhookStays | app/services/check.py:65-82 | it stays in every state when no session that loaded the row before the operator took it is left open |
| LicenseOverlap.LockedAcceptsOnlyEarly | app/services/check.py:50-55 | while nothing sets the status, a disabled or revoked license stays so and accepts at most as many heartbeats as had loaded it before |
| LicenseOverlap.ClearedUnderHeartbeat | app/services/check.py:83-101 | a run that leaves a URL without a secret: a heartbeat loads the row, an operator clears the webhook, the heartbeat commits its URL |
| LicenseOverlap.OperatorOverwritten | app/services/check.py:65-101 | a run that leaves the heartbeat's URL in a row whose source is 'admin' |
| LicenseOverlap.SecretReplaced | app/services/check.py:97-101 | two overlapping first registrations, of which the second commit replaces the secret returned by the first |
| LicenseOverlap.AcceptedAfterDisable | app/services/check.py:50-55 | a run in which the last accepted heartbeat of a disabled license commits after the disable |
| Heartbeats.ChecksKeepOwnership | app/services/check.py:57-119 | over any sequence of heartbeats the source, status and flag never change, an admin's URL and secret never change, a present secret is never rotated, a URL is never cleared |
| Heartbeats.ChecksUpsertInstalls | app/services/check.py:121-137 | installs stay one row per install id, with the version of its last accepted heartbeat |
| Heartbeats.HeartbeatsCountAcceptedChecks | app/services/check.py:148-152 | heartbeat events equal accepted heartbeats |
| Stripe.Session.ExtendOrCreate | app/stripe_webhook.py:153-200 | the writes of a paid invoice, its audit events and license email: nothing, a customer, a license, or the newest license extended; it fails exactly when the email is taken, with nothing written |
| Stripe.Session.MarkStatus | app/stripe_webhook.py:203-218 | the loop gives the status, and one event each, to every license of the customer for this product and to no other |
| Stripe.Session.Receive | app/stripe_webhook.py:89-120 | a claimed id is answered as a duplicate and changes nothing; otherwise claim, effect and events stand or fall together |
| Stripe.OnlyNamedCustomerChanges | app/stripe_webhook.py:153-218 | an existing license row changes only if its customer carries the event's Stripe id and its product is the event's; a processed event changes nothing |
| Stripe.StatusEventMarks | app/stripe_webhook.py:203-218 | a failed payment or ended subscription gives its status to every license of the named customer for the product, with an event each, and moves nothing else |
| Stripe.PaidEventExtends | app/stripe_webhook.py:192-200 | a paid invoice of a named customer extends the license created last: active, thirty days from its date or from now, whichever is later |
| Stripe.PaidEventCreates | app/stripe_webhook.py:172-191 | without a license of the product it creates one for that customer and mails its key |
| Stripe.NewCustomerPays | app/stripe_webhook.py:158-191 | when nobody has the Stripe id and the email is unused it adds the customer with its first license |
| Stripe.TakenEmailFails | app/stripe_webhook.py:158-165 | when somebody has the email it fails and is not claimed |
| Stripe.UnknownIsClaimed | app/stripe_webhook.py:153-163 | without an email, and for any other event of an unknown customer, it is only claimed |
| Stripe.OtherEventIsClaimed | app/stripe_webhook.py:104-120 | an event of another kind is claimed and nothing more |
| Stripe.OnePaidInvoice | app/stripe_webhook.py:193-200 | one committed invoice moves only the newest license's date and status |
| Stripe.ExtensionsAreMaxPlus | app/stripe_webhook.py:193-195 | k extensions at t1..tk give max(v0 + 30k days, max of ti + 30(k - i + 1) days) |
| Stripe.PaidDateIsMaxPlus | app/stripe_webhook.py:166-200 | after any committed paid invoices of one customer the license row's own date is that closed form |
| Stripe.ExtensionGains | app/stripe_webhook.py:193-195 | every paid invoice gains at least thirty days, so the date never decreases |
| StripeConcurrency.ProcessedIffCommitted | app/stripe_webhook.py:95-120 | however deliveries interleave, repeat and abort, an id is processed exactly when one of its occurrences committed, and never two |
| StripeConcurrency.CommitSerialIff | app/stripe_webhook.py:153-218 | a commit leaves what its event alone would leave exactly when customer, newest license, its usable date and the statuses it relied on are as they were read |
| StripeConcurrency.UndisturbedRunsRefine | app/stripe_webhook.py:89-218 | a run's commits are all serial exactly when none is disturbed, and then the tables are those of the committed occurrences one by one in commit order |
| StripeConcurrency.RunKeepsTracked | app/stripe_webhook.py:153-218 | in every reachable state what an open delivery read is an earlier state of tables that only grew |
| StripeConcurrency.OneWriterRefinesSerial | app/stripe_webhook.py:104-120 | with one writer at a time every run refines its committed occurrences in commit order |
| StripeConcurrency.LostExtension | app/stripe_webhook.py:166-200 | a run of two overlapping invoices that adds thirty days once, while one after the other adds sixty |
| StripeLicenses.HandlerIsCall | app/stripe_webhook.py:153-218 | processing an event changes license rows and audit log as one operation of the license runs does, a creation, an extension or a status on the customer's licenses, or not at all |
| Pagination.ClampLimit | app/pagination.py:49-61 | any raw limit becomes one between 1 and 500: an admissible one is kept, a larger one is 500, a missing, malformed or smaller one is 100 |
| Pagination.CursorRoundTrip | app/pagination.py:64-84 | every valid timestamp and non-empty id, bars included, survives its token |
| Pagination.KeyOrder | app/pagination.py:120-131 | keys ascend with the instant and then the id, so pages start with the newest row |
| Pagination.DecodedIsValid | app/pagination.py:70-84 | whatever a cursor decodes to is a timestamp and a non-empty id |
| KnownTexts.TokenIs | app/pagination.py:64-67 | a token is the base64url of timestamp, bar and id with its padding dropped |
| Pagination.TokensMatchKeys | app/pagination.py:100-140 | following opaque tokens serves exactly what following the keys would |
| Pagination.PagesServeExactlyOnce | app/pagination.py:100-140 | with any inserts and deletes between requests, and any limits, the pages are strictly descending, serve nothing twice, and serve every key present throughout |
| Pagination.FixedTable | app/pagination.py:100-140 | on a fixed table the pages are the whole list |
| Keyset.PagesForIsCeiling | app/pagination.py:126-140 | the number of those pages is max(1, ceil(n / limit)) |
| Base64Url.StrippedRoundTrip | app/pagination.py:64-76 | dropping the padding and restoring it from the length loses nothing, and the reader inverts the writer on all bytes |
| Utf8.DecodeIsCanonical | app/pagination.py:70-84 | bytes are accepted only as the encoding of what they are read as |
| IsoTime.RoundTrip | app/pagination.py:66-80 | every valid naive timestamp, with or without microseconds, is read back from its ISO form |
| IsoTime.ParsedIsWritten | app/pagination.py:70-84 | a text read as a timestamp is the form written for it, or that form with six zeros |
| JsonText.LoadsDumps | app/backup.py:130-134 | reading what was written gives the value, for every JSON value |
| JsonText.LoadsRefusesTail | app/backup.py:213-223 | anything but space after a value is refused |
| JsonText.DumpsPrintable | app/backup.py:130-134 | the text is printable ASCII, so it holds no line break |
| Backup.LinesRoundTrip | app/backup.py:134-134 | joining lines with newlines and splitting them again is the identity on lines without any line boundary |
| Backup.LineRoundTrip | app/backup.py:180-187 | a typed row survives its line, timestamps included |
| Backup.FileRoundTrip | app/backup.py:122-135 | a table survives its file |
| Backup.WrapRoundTrip | app/backup.py:78-99 | unwrapping undoes wrapping, encrypted or not |
| Backup.BackupRoundTrip | app/backup.py:122-223 | importing an export rebuilds every table's rows exactly |
| Backup.ParsedRowsOk | app/backup.py:213-223 | whatever an import accepts is typed by the live schema |
| Backup.UnwrapOutcome | app/backup.py:86-99 | which bytes unwrap, and the reason of each refusal |
| Backup.ReadArchiveIff | app/backup.py:165-177 | an archive is read exactly when it unwraps, unpacks and names this format in version 1 |
| Backup.ParseArchiveIff | app/backup.py:200-220 | its rows are accepted exactly when the revisions agree where both are known, no table is unknown and every listed file decodes; a table not listed ends empty |
| Backup.DecodedColumns | app/backup.py:180-187 | a decoded row has each column's value by name, timestamps parsed |
| Restore.PrefixKeepsIntegrity | app/backup.py:225-233 | emptying children before parents, or filling parents before children, keeps every foreign key resolved |
| Restore.Store.Load | app/backup.py:225-237 | the load commits all rows or leaves the state before it, and every state in between keeps referential integrity |
| Restore.Store.RestoreBackup | app/services/backups.py:93-129 | phrase, manifest, snapshot, checks and load in that order, with the outcome of each refusal |
| Restore.RestoreSucceedsIff | app/services/backups.py:109-129 | a restore succeeds exactly on the typed phrase, a readable archive that fits and a load without a failing statement, and then leaves the archive's rows and its own event |
| Restore.FailedRestoreKeepsData | app/services/backups.py:93-129 | a refused or failed restore changes nothing but the snapshot's own event, present exactly when phrase and manifest passed |
| Restore.SchemaMismatchLeavesSnapshot | app/services/backups.py:109-116 | an archive of another schema revision is refused and leaves a snapshot and one event |
| Restore.SnapshotUndoesRestore | app/services/backups.py:93-129 | restoring the safety snapshot gives exactly the state before the restore plus one event |
| Retention.LocalDirectory.ApplyRetention | app/backup.py:283-296 | the files left are those listed minus the names returned, which are the policy's drop list of the scheduled archives |
| Retention.S3Drop | app/backup_s3.py:78-88 | the bucket sweep drops the same names from the same list |
| Retention.DroppedIffNotSurviving | app/backup.py:283-296 | a file is dropped exactly when it is beyond the count or older than the age limit, zero meaning no limit |
| Retention.DroppedOnce | app/backup.py:283-296 | no name is dropped twice |
| Retention.SurvivorsArePrefix | app/backup.py:283-296 | survivors are a prefix of the newest-first list |
| Retention.LocalSurvivors | app/backup.py:283-296 | pre-restore snapshots always survive, and of the scheduled archives a newest prefix |
| Retention.RerunDropsNothing | app/backup.py:283-296 | a second sweep at the same time drops nothing |
| KeyRotation.ProductTable.Run | app/scripts/rewrap_secrets.py:79-166 | exit code and table for every guard: one failing field leaves the whole table, a dry run changes nothing |
| KeyRotation.StartIff | app/scripts/rewrap_secrets.py:84-109 | which settings let a run start, end as done, or are refused |
| KeyRotation.RunSucceedsIff | app/scripts/rewrap_secrets.py:111-166 | a run past its guards exits 0 exactly when every field goes through, by settings and stored text alone; else it exits 1 and changes nothing |
| KeyRotation.StrictRunSeals | app/keystore.py:95-114 | under the strict setting a run that exits 0 leaves every field encrypted, and without a loadable current KEK it exits 0 only when there was nothing to write |
| KeyRotation.ReaderSees | app/keystore.py:117-140 | what a reader sees of a stored field: plain text, a token under its own key, or an exception |
| KeyRotation.MigratedFieldMeaning | app/scripts/rewrap_secrets.py:67-76 | a migrated field reads as its old secret, and is encrypted exactly when the current KEK loads |
| KeyRotation.MigrationKeepsSecrets | app/scripts/rewrap_secrets.py:67-76 | a successful migration leaves every product's three secrets reading as before, and every one encrypted exactly when the current KEK loads or there is none |
| KeyRotation.MigrationStoresPlaintext | app/scripts/rewrap_secrets.py:79-110 | a run the script accepts, with a current KEK that is set but not a key, that replaces an encrypted key by its plaintext |
| KeyRotation.DefaultRunSeals | app/scripts/rewrap_secrets.py:56-64 | a default run encrypts every plain field under the current key and leaves every secret readable as before |
| KeyRotation.SecondMigrationStops | app/scripts/rewrap_secrets.py:67-76 | one field already under another key stops a second migration before it changes anything |
| KeyRotation.DefaultRerunIsNoOp | app/scripts/rewrap_secrets.py:56-64 | a default run over encrypted fields changes nothing |
| Mfa.AdminMfa.StartEnrol | app/services/mfa.py:52-69 | enrolment replaces secret and codes and is not yet enabled |
| Mfa.AdminMfa.VerifyEnrol | app/services/mfa.py:81-95 | enables and stores the digests exactly on a valid code of a pending enrolment |
| Mfa.AdminMfa.VerifyLogin | app/services/mfa.py:98-120 | a login succeeds exactly when MFA is on with a secret and TOTP takes the code or its digest is stored; the digest is removed |
| Mfa.AdminMfa.Disable | app/services/mfa.py:123-135 | clears everything exactly on a code that would log in; a crash between its two commits is a login |
| Mfa.AdminMfa.RegenRecovery | app/services/mfa.py:138-150 | replaces the stored digests only on a TOTP code |
| Mfa.LoginOutcome | app/services/mfa.py:98-120 | which codes log in, from the row alone, and that exactly the digest of a used recovery code goes |
| Mfa.DisableOutcome | app/services/mfa.py:123-135 | a disable succeeds exactly when a login would, and leaves no trace of the second factor |
| Mfa.IssueOutcome | app/services/mfa.py:81-150 | codes are issued only against TOTP, and the digests stored are theirs |
| Mfa.LoginAfterRunIff | app/services/mfa.py:98-135 | after any run of calls one after another, a login or disable succeeds exactly when MFA is on and the code is TOTP's or an unused one of the generation in force |
| Mfa.RecoveryCodesAreSingleUse | app/services/mfa.py:98-150 | over every run of calls one after another no recovery code is accepted twice, ten minus the accepted codes of the generation are stored, and enabled equals having codes stored |
| Mfa.AcceptedCodeIsCurrent | app/services/mfa.py:112-119 | after calls one after another, an accepted recovery code belongs to the generation in force, to no earlier one, and was not used |
| Mfa.CandidatesTellCodesApart | app/services/mfa.py:153-162 | what is typed matches a code exactly when both normalise to the same text |
| MfaOverlap.CommitKeepsCodesIff | app/services/mfa.py:98-150 | in every interleaving, a commit keeps the promise of the codes exactly when a recovery login meets a row that is on and holds the digests it loaded, and a start or disable does not clear the digests of a row that is on, having loaded one that was off with digests |
| MfaOverlap.RunKeepsCodesIff | app/services/mfa.py:52-150 | over every run the promise holds in all states exactly when every commit is of that kind |
| MfaOverlap.RunKeepsCodesWithoutOverlap | app/services/mfa.py:52-150 | when no session loads the row while another holds it, the promise holds in all states, crashes between the two commits of a disable included |
| MfaOverlap.HarmlessCodeIsCurrent | app/services/mfa.py:112-119 | a code accepted by such a commit belongs to the generation in force, to no earlier one, and was not used |
| MfaOverlap.FreshLoginIff | app/services/mfa.py:98-120 | while the promise holds, a login on the row as it stands is accepted exactly on TOTP or an unused code of the generation in force |
| MfaOverlap.StoredCount | app/services/mfa.py:112-119 | while the promise holds and MFA is on, ten minus the codes accepted in the generation are stored |
| MfaOverlap.FreshDisableIsCall | app/services/mfa.py:123-135 | the two sessions of a disable, each on the row as it finds it, record what the call run as one step records |
| MfaOverlap.FreshCommitIsCall | app/services/mfa.py:52-150 | so does the session of every other call |
| MfaOverlap.RetiredCodeReturns | app/services/mfa.py:112-149 | a login that overlaps a regeneration, after which another code of the retired generation is accepted |
| MfaOverlap.UsedCodeReturns | app/services/mfa.py:112-119 | two overlapping logins by different codes, after which the code used first is accepted again |
| MfaOverlap.CodeAcceptedTwice | app/services/mfa.py:112-119 | two overlapping logins by one code, both accepted |
| MfaOverlap.DigestsWhileOff | app/services/mfa.py:59-68 | a regeneration that overlaps a new enrolment's start leaves digests in a row that is off |
| MfaOverlap.CodesCleared | app/services/mfa.py:59-95 | on such a row, an enrolment started and another finished meanwhile leave MFA on without any code |
| Products.Catalog.Create | app/services/products.py:40-84 | a product is created with its defaults, or refused with nothing changed |
| Products.Catalog.Update | app/services/products.py:141-222 | the row and its diff are recorded together, or the edit is refused or empty and changes nothing |
| Products.CreateOutcome | app/services/products.py:57-79 | which creations are refused and why, and the row an accepted one adds, with its defaults |
| Products.RefusedIff | app/services/products.py:162-184 | an edit is refused exactly for an empty required field, or for a new slug or prefix that does not fit or is taken |
| Products.EditLeavesTarget | app/services/products.py:186-220 | any other edit leaves exactly the row its texts ask for, an empty issuer meaning the default for the slug the product then has |
| Products.EditReaches | app/services/products.py:186-213 | an edit leaves every field at the value proposed for it and every other field as it was |
| Products.UpdateKeepsInv | app/services/products.py:177-222 | an edit keeps slugs unique and the history replayable |
| Products.HistoryReplays | app/services/products.py:141-222 | after any run of creates, edits and deletes slugs are unique and folding a product's diffs over its creation values, each old value matching the state it meets, gives its fields |
| Products.OverlappingEditReplaysIff | app/services/products.py:201-220 | an edit that loaded the row earlier keeps the history replayable exactly when every field it changes still holds what it loaded |
| Products.OverlappingRenames | app/services/products.py:201-220 | two overlapping renames after which the history no longer replays to the row |
| Products.NoOpEditRecordsNothing | app/services/products.py:201-210 | an accepted edit records nothing exactly when every given field keeps its value |
| ExpiryWarnings.EventLog.Run | app/scripts/send_expiry_warnings.py:66-142 | a pass records one event per email that went out, for licenses due a warning, up to the first that raises; a dry run or a missing email key records nothing; it exits 1 exactly when one raised, and otherwise counts its records |
| ExpiryWarnings.RecordsAreLog | app/scripts/send_expiry_warnings.py:97-133 | what a sequence of passes records is the log of their visits, each pass up to the first visit that raises |
| ExpiryWarnings.PicksLeast | app/scripts/send_expiry_warnings.py:54-63 | the chosen threshold is the least one not below the days left |
| ExpiryWarnings.DueIff | app/scripts/send_expiry_warnings.py:48-108 | a license is due a warning exactly when it is active, unexpired and the least threshold not below its days left has no record |
| ExpiryWarnings.ThresholdsDecrease | app/scripts/send_expiry_warnings.py:48-133 | while the expiry date stands, the thresholds recorded for a license strictly decrease over any sequence of passes |
| ExpiryWarnings.OneRecordPerThreshold | app/scripts/send_expiry_warnings.py:48-51 | over any sequence of passes a license has at most one record per threshold |
| ExpiryWarnings.RecordedIff | app/scripts/send_expiry_warnings.py:48-63 | after any sequence of passes a threshold is recorded for a license exactly when some pass, in any term, reached it with an email that went out |
| ExpiryWarnings.RenewedLicenseWarnedIff | app/scripts/send_expiry_warnings.py:48-133 | a further pass only appends, and it appends a license's warning exactly when it reaches the threshold with an email that goes out and no earlier pass did, in whatever term |
| ExpiryWarnings.ExhaustedStaysSilent | app/scripts/send_expiry_warnings.py:48-133 | once every threshold is recorded for a license no further pass adds a record, whatever its expiry date becomes |
| ExpiryWarnings.RenewalUnwarned | app/scripts/send_expiry_warnings.py:48-133 | a license warned in one term and renewed is in the window of its second term and gets no warning |

## Left out

- Routers, templates, cookies, rate limits, logging, migrations, deployment scripts: no property beyond plumbing.
- `deliver` itself (signing, DNS, address checks, HTTP) and the license lookup that chooses its http flag: a send is its outcome.
- Fernet, HKDF, SHA-256, TOTP and Ed25519 are oracles; tar and gzip are one container with an inverse.
- Customer resolution inside `issue_license`, and feature JSON, which is one canonical string.
- Links from "issued" events to their license, and referential integrity after a license or product is deleted: the code does not keep them.
- Aliasing and identity of ORM objects: a session holds its rows in maps and sequences.
- LicenseService.Session.DeleteProduct: foreign keys are not enforced on deletion; a database that enforces them refuses the commit when an event or a queue row still points at the product.
- LicenseRuns.RunKeepsConfig: calls run one after another; `LicenseOverlap` has the overlapping ones.
- LicenseRuns.AdminWebhookStays: likewise one call after another.
- LicenseRuns.LockedRejectsChecks: likewise one call after another.
- LicenseRuns.OutboxStaysExact: calls run one after another; an overlapping call's notice still commits with its change, to the URL the call loaded.
- LicenseOverlap.RunKeepsConfigIff: a status set on several licenses by one Stripe event is a session per row, and a commit on a row deleted meanwhile, which raises, is an abort.
- Heartbeats of overlapping sessions: installs and audit events are followed for calls one after another only.
- Key rotation while products are being edited.
- Stripe events without an id, signature checking, and whether a handler's email goes out.
- Stripe.Session.ExtendOrCreate: creation times are assumed to order a customer's licenses; of two equal ones the later row is taken, where the database may pick either.
- Heartbeats.ChecksUpsertInstalls: heartbeats of one license run one after the other, because the table has no unique constraint and two at once may insert two rows.
- LicenseService.Session.IssueLicense: license keys, their hashes and displays are part of the parameter that carries the remaining columns.
- RetryWorker.DueRowIsAttempted: a session of another actor on the waiting row ends the guarantee (`OutboxDelivery.OwedNoticeIsSent` allows attempts); only complete passes count, one that an exception ends is part of the time between them.
- OutboxDelivery.OwedNoticeIsSent: an operator's retry of the notice's row, which gives it a new schedule, ends the guarantee.
- Pagination.PagesServeExactlyOnce: `paginate` is modelled with a key function that fits its rows, which `list_customers_with_product_slugs` does not pass.
- IsoTime.RoundTrip: `fromisoformat` reads further forms that `isoformat` of a naive timestamp never writes.
- JsonText.LoadsDumps: a number is its literal; the float conversion of `json`, the number grammar on malformed text and lone surrogates are not modelled.
- Backup.FileRoundTrip: blank lines are recognised by one-byte white space, which covers every line an export writes.
- Restore of a database while deliveries or Stripe events are in progress.
- The MFA secret's own encryption and `last_used_at`; `DecryptSecret` of an unreadable one raises before any change.
- Mfa.RecoveryCodesAreSingleUse: calls one after another; `MfaOverlap` has the overlapping ones.
- Mfa.AcceptedCodeIsCurrent: likewise one call after another.
- Products.Catalog.Update: a second edit that takes a slug at the same time meets the unique constraint, which is not modelled.
- Products.Catalog.Create: the key pair, the Stripe secrets and the created event of a new product.
- ExpiryWarnings.EventLog.Run: two passes at once, and passes with different threshold lists; days left are compared exactly rather than as a float; a customer without an email is an email that did not go out.
- Pruning of old events, after which a threshold may be warned again.
