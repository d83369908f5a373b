# Verified models of dkrypt

This project models, in Dafny 4.11, the parts of the dkrypt repository whose correctness is hardest to see from
the code, and proves what those parts are for. `dafny verify dfyconfig.toml` checks all of it. Paths below are
relative to the repository's root.

Code that changes state step by step is modelled as it is: classes with the same fields, methods with the same
loops, and contracts that tie every new state to a specification function. The theorems are about those
functions, or about transition systems whose steps are the pieces of code that run without interruption.

**Crypto payments** (`Billing`, `BillingInvariants`, `CryptoPayments`, `PaymentView`, `PaymentConvergence`,
`PaymentDisagreement`, `PaymentAgreement`, `Dunning`, `DunningPoll`, `DunningSafety`, `DunningOverlap`). Provider
events for one checkout arrive in any order, repeated and overlapping, wait for their key's lock in arrival order and are handled
one at a time, while observations of deliveries under way are given up some time later. The concrete handler over
the whole stores is shown to move in lock step with a small abstract machine, and from that which stories end the
same in every run. Two promises one would make of this code are false in general, and are stated with the exact
condition under which they hold:

- Runs agree on whether the plan is active exactly when the last event is a refund, or a payment with no refund
  later than any payment, or something else when nothing was paid. They agree on whether the checkout completed
  exactly when nothing was paid or the last event pays, and on the whole view of checkout and subscription, its
  period included, exactly when nothing was paid or the last event is the only payment. A payment
  at 5 and an "expired" at 7 already disagree: handled in that order the plan is active, in the other order the
  payment is stale. When the last event is a payment and there is no refund, or the last event is a refund, all
  runs do agree on the plan.
- Polls are started by a timer that does not wait for the previous one, so two can overlap, but a poll is
  interrupted only where it awaits. The grace period bounds the plan of a stored subscription in every run exactly
  when the subscription has no next billing date, or every crypto subscription stored before it is idle: cancelled,
  or without a grace date and not active with a next billing date. Otherwise a poll can await with a copy of it in
  hand while another marks it, and then mark it again.

**Stores.** Over every sequence of customer, subscription, checkout, charge and event updates, merges and
anonymisations: one record per key, completed checkouts stay completed, charges only move forward while they stay
within the cap of 5000 (and an evicted one can come back), `occurredAt` never decreases.

**ZIP export and reading back** (`Words`, `CrcRegister`, `Crc32`, `ZipFormat`, `ZipLayout`, `ZipWriter`,
`IpaReader`, `ZipRoundTrip`, `IpaDiff`). The table-driven CRC-32 is polynomial division, the register update a
bijection; the writer and the separately written reader are inverse to each other up to order, except that an
archive whose directory starts at exactly 0xffffffff is refused by the reader; and a one-byte change is reported as
exactly that member's change. The layout is that of PKWARE APPNOTE.TXT, sections 4.3.7, 4.3.12 and 4.3.16.

**Device bridge** (`BridgeTunnels`, `BridgeShutdown`, `BridgeLosses`, `DeviceEvents`, `DeviceEventTracker`).
Clients, tunnels and the server interleave; any operation can be dropped while it awaits. The opening of a tunnel
is two steps, and the theorem says exactly what that costs: a tunnel outlives serving if and only if its opener was
dropped in between, and a cancelled one goes unawaited if and only if its closer was dropped while waiting. Both
losses are shown as runs from a fresh bridge. The event stream's lists are the last inventory folded with what
happened since, and the consumer's counts are conserved.

**Deployment rollback** (`FileSystems`, `DeploymentRollback`, `DeploymentAttempts`, `DeploymentPreparation`). Every
file operation can fail, copies can be torn, and the file system records every state it goes through, the present
one being the last; what is claimed of "every moment" is claimed of all of them. A restore can succeed from exactly
the states that are called restorable, and over any number of attempts the content live before the first is never
lost. One failure just after the live database was moved aside, though, leaves a deployment that no later restore
can bring back.

**Artifact store** (`Artifacts`, `ArtifactQuota`, `ArtifactUndo`, `ArtifactUndoTokens`, `ArtifactStores`,
`ArtifactPreview`). Eviction plans, promotion, preview and reconciliation. The preview goes by recorded sizes and
reconciling by the files' own: the exact condition under which the one names what the other evicts is proved, for
all quotas together and for each; revisions, undo tokens and the rollback of failed batches. A failed undo restores
the index exactly when no flag was written twice, and does so whatever the clock shows exactly when no token fits
what an earlier one of the batch can leave of its flag.

**Device health** (`RefreshQueue`, `HealthStabiliser`). The coalescing refresh queue, with its last look at `rerun`
and the removal of its entry as separate steps, and the masking of transient failures.

**Accounts, revenue, phrases** (`Usernames`, `Identity`, `ProfileNormalising`, `ProfileLoading`, `Profiles`, `Revenue`,
`RevenueRefunds`, `Pagination`, `PhraseMatch`). Neither normalising a profile nor loading all of them is idempotent: a
renamed profile whose username is still the provider's changes again. A merge need not keep its target, nor storing a
profile keep ids apart, and refunds can exceed the gross of a currency when charges are met in several. Each is stated
with its exact condition.

`Keyed`, `StableSort`, `Characters` and `Wrappers` are shared: records found by key, sorting, letters and digits, and
options and results.

Where a lemma has an empty body, Dafny needs no help with it; such lemmas are there to be used by others.

## Model

| member | source | states |
|---|---|---|
| CryptoPayments.EventProcessor.ObservePaymentEvent | packages/dkrypt/src/cryptoBilling.ts:186-193 | a delivery under way is counted under its key and the latest readable provider time among those under way is kept |
| CryptoPayments.EventProcessor.ReleaseObservation | packages/dkrypt/src/cryptoBilling.ts:194-197 | undoes one observation; the key's entry goes with the last one |
| CryptoPayments.EventProcessor.FindCheckoutForPayment | packages/dkrypt/src/cryptoBilling.ts:394-403 | the checkout with the payment's order id if it is this provider's, else the first with its invoice id, else none |
| CryptoPayments.EventProcessor.SavePaymentCheckout | packages/dkrypt/src/cryptoBilling.ts:382-392 | only the checkout list changes, by the upsert rules, to the payment's id, status and time |
| CryptoPayments.EventProcessor.DeactivateOtherCryptoSubscriptions | packages/dkrypt/src/cryptoBilling.ts:456-461 | the user's other crypto subscriptions, as listed before the loop, are each put through the staleness rule as cancelled |
| CryptoPayments.EventProcessor.ProcessPaymentFinished | packages/dkrypt/src/cryptoBilling.ts:309-341 | the whole new state of all stores for a finished payment: unknown, completed, unsupported, not newer than the existing subscription, or applied with its charge |
| CryptoPayments.EventProcessor.ProcessPaymentPending | packages/dkrypt/src/cryptoBilling.ts:343-347 | a pending payment never touches a completed checkout and nothing but the checkout otherwise |
| CryptoPayments.EventProcessor.ProcessPaymentFailed | packages/dkrypt/src/cryptoBilling.ts:349-380 | the whole new state for a failed, expired or refunded payment, a refund of a completed checkout revoking the subscription unless that is newer |
| CryptoPayments.EventProcessor.ProcessNowPaymentsEventLocked | packages/dkrypt/src/cryptoBilling.ts:157-184 | one delivery under its key's lock: skipped if recorded, ignored if stale or superseded, processed otherwise, and then recorded; a failing provider call changes nothing |
| PaymentView.SpeaksForItself | packages/dkrypt/src/cryptoBilling.ts:409-446 | with distinct times the provider is never asked again: an event is ignored when older than the time noted, and otherwise used as it is |
| PaymentView.HandledStep | packages/dkrypt/src/cryptoBilling.ts:157-205 | handling an unrecorded event moves (checkout, subscription) in lock step with a four-component abstract machine, whatever else is in the stores, and records the event |
| PaymentView.DeactivateLeaves | packages/dkrypt/src/cryptoBilling.ts:456-461 | cancelling the user's other subscriptions leaves this payment's subscription, the checkouts and the recorded events alone |
| PaymentView.PaidStep | packages/dkrypt/src/cryptoBilling.ts:324-334 | a first supported payment on time: a subscription active from its time, the checkout completed |
| PaymentView.RevokeStep | packages/dkrypt/src/cryptoBilling.ts:353-378 | a refund of a completed checkout ends the subscription's activity unless the subscription is newer than the refund |
| PaymentConvergence.KeyIsCheckout | packages/dkrypt/src/cryptoBilling.ts:145-150 | in every reachable state all deliveries of one story queue under the checkout's id |
| PaymentConvergence.HandleKeeps | packages/dkrypt/src/cryptoBilling.ts:157-184 | every handling keeps the run invariant, and a repeated event changes nothing or acts like a first handling |
| PaymentConvergence.RunOnCourse | packages/dkrypt/src/cryptoBilling.ts:145-205 | over every run of arrivals, handlings and releases, whatever every single handling keeps of the view stays true, the last event never being superseded |
| PaymentConvergence.FinishedLast | packages/dkrypt/src/cryptoBilling.ts:145-205 | last event a supported payment and no refund: every complete run, whatever the order, repeats and overlaps, ends with the checkout completed and the plan active |
| PaymentConvergence.RefundedLast | packages/dkrypt/src/cryptoBilling.ts:349-380 | last event a refund: every complete run ends with no active plan |
| PaymentDisagreement.AgreesExactlyWhenDecided | packages/dkrypt/src/cryptoBilling.ts:145-205 | all complete runs agree on whether the plan is active if and only if the last event is a refund, or a payment with no refund later than any payment, or anything else when nothing was paid |
| PaymentAgreement.AgreesOnAllExactly | packages/dkrypt/src/cryptoBilling.ts:145-205 | all complete runs end with the same view of checkout and subscription, noted time and status included, or even only with the same subscription and period, if and only if nothing was paid or the last event is the only payment |
| PaymentAgreement.AgreesOnCompletionExactly | packages/dkrypt/src/cryptoBilling.ts:309-341 | all complete runs agree on whether the checkout completed if and only if nothing was paid or the last event pays |
| PaymentDisagreement.PaymentFirst | packages/dkrypt/src/cryptoBilling.ts:312-313 | a run in which a payment that comes first keeps the checkout for itself, whatever is paid later |
| PaymentDisagreement.LastFirst | packages/dkrypt/src/cryptoBilling.ts:448-454 | delivering the last event first makes every other event stale |
| PaymentDisagreement.PaymentThenRefund | packages/dkrypt/src/cryptoBilling.ts:312-313 | a run in which a payment and its refund make a later payment count for nothing, since a completed checkout takes no payment |
| PaymentDisagreement.PaymentThenOverlap | packages/dkrypt/src/cryptoBilling.ts:200-205 | a run in which a refund is superseded by an overlapping later event that is then ignored, and the plan stays active |
| PaymentConvergence.StartExists | packages/dkrypt/src/billing.ts:587-596 | the starting states of these theorems exist: one fresh pending checkout and any set of events that name it |
| Dunning.DunningPoller.MarkSubscriptionPastDue | packages/dkrypt/src/cryptoBilling.ts:487-492 | past due with the grace period already running if it is, else one starting now |
| Dunning.DunningPoller.MarkSubscriptionCancelled | packages/dkrypt/src/cryptoBilling.ts:503-505 | cancelled, with nothing more to bill |
| Dunning.DunningPoller.ReconcileCryptoBilling | packages/dkrypt/src/cryptoBilling.ts:235-244 | an uninterrupted poll acts on every listed subscription in turn, by the clock read at its start, stamping each with the clock at its own turn |
| DunningSafety.BoundedExactlyWhenSheltered | packages/dkrypt/src/cryptoBilling.ts:235-258 | every interleaving of polls, interrupted where the code awaits, gives the plan at every moment exactly until first mark + grace, if and only if the subscription has no next billing date or every crypto subscription stored before it is idle |
| DunningSafety.HarmfulRun | packages/dkrypt/src/cryptoBilling.ts:235-258 | before a subscription that falls due, one earlier record that is not idle is enough: there is a run of two polls in which the subscription is marked again from an outdated copy |
| Dunning.BoundedExactlyWhenMarkedOnce | packages/dkrypt/src/cryptoBilling.ts:235-244 | run by run, beneath that: the bound holds throughout a run exactly when no poll in it marks the subscription again from an outdated copy |
| Dunning.EntitlementIsBounded | packages/dkrypt/src/cryptoBilling.ts:235-244 | with polls one after another: entitled before p + grace and never from then on, no later poll extends the grace and none brings a cancelled subscription back |
| DunningPoll.PollActsOnAll | packages/dkrypt/src/cryptoBilling.ts:235-244 | a poll that nothing interrupts does in steps exactly what the method does: every listed subscription acted on in turn |
| Dunning.FirstMarkIsDue | packages/dkrypt/src/cryptoBilling.ts:241-243 | the first mark p is made by a poll that began at or after nextBilledAt, as it comes to the subscription |
| Dunning.DuePollMarks | packages/dkrypt/src/cryptoBilling.ts:235-244 | no poll that began at or after nextBilledAt ends before the subscription was marked |
| Dunning.ListingNeverLate | packages/dkrypt/src/cryptoBilling.ts:235-243 | what a poll does before its first await it does to copies as stored: only a copy kept over an await can be out of date |
| DunningSafety.SoleIsBounded | packages/dkrypt/src/cryptoBilling.ts:235-244 | with a single subscription stored, no overlap of polls extends its grace period |
| DunningOverlap.OverlapExtends | packages/dkrypt/src/cryptoBilling.ts:249-258 | one such run, step by step: the later of two due subscriptions, stored after the other, is marked by the second poll and again by the first |
| Billing.BillingStore.UpsertBillingSubscription | packages/dkrypt/src/billing.ts:354-373 | an older update is refused and changes nothing; an accepted one patches or adds the record, keeps a known owner, and adds at most one history entry to the last 5000 |
| Billing.BillingStore.UpsertCryptoCheckout | packages/dkrypt/src/billing.ts:587-596 | the three refusals and otherwise the patched or added checkout |
| Billing.BillingStore.UpsertBillingCharge | packages/dkrypt/src/billing.ts:598-608 | refunded and succeeded charges are never taken back, an older update of a settled charge is refused, and only the newest 5000 are kept |
| Billing.BillingStore.RecordBillingEvent | packages/dkrypt/src/billing.ts:630-634 | an event is recorded once, and only the newest 5000 are kept |
| Billing.BillingStore.UpsertBillingCustomer | packages/dkrypt/src/billing.ts:331-342 | the customer is patched or added and adopts its ownerless subscriptions |
| Billing.BillingStore.MergeBillingAccounts | packages/dkrypt/src/billing.ts:479-513 | every record of the source account, checkout attempts included, becomes the target's |
| Billing.BillingStore.AnonymizeBillingUser | packages/dkrypt/src/billing.ts:401-436 | every record of the user loses its owner, and the user's checkout attempts are dropped |
| BillingInvariants.RunKeepsSound | packages/dkrypt/src/billing.ts:331-436 | over every sequence of updates there is at most one record per key in each store and no more than 5000 charges and events |
| BillingInvariants.RunKeepsCompleted | packages/dkrypt/src/billing.ts:590 | over every sequence of updates a completed checkout stays, completed |
| BillingInvariants.RunMovesForward | packages/dkrypt/src/billing.ts:601-603 | while a charge stays stored, a refunded one stays refunded and a succeeded one only becomes refunded |
| BillingInvariants.RunKeepsCharge | packages/dkrypt/src/billing.ts:606 | a charge stays stored as long as fewer than 5000 charges were put after it |
| BillingInvariants.RefundedChargeReturns | packages/dkrypt/src/billing.ts:606 | past the cap a refunded charge can be evicted and come back as succeeded |
| BillingInvariants.RunKeepsSubscription | packages/dkrypt/src/billing.ts:354-361 | over every sequence of updates a subscription is never lost, its occurredAt never decreases, and a known owner is only dropped by anonymising |
| BillingInvariants.MergeMovesEntitlement | packages/dkrypt/src/billing.ts:324-329 | merging gives the source's entitlement to the target, takes it from the source and changes no one else's |
| BillingInvariants.AnonymizeForgets | packages/dkrypt/src/billing.ts:401-436 | nothing names an anonymised user any more, no one else's checkout attempts are dropped and no one else's entitlement changes |
| Keyed.Find | packages/dkrypt/src/billing.ts:355 | the position of the first record with a key, or the length |
| Keyed.ReplaceKeeps | packages/dkrypt/src/billing.ts:358 | patching a record in place keeps keys unique and every other lookup as it was |
| Keyed.NewestKeeps | packages/dkrypt/src/billing.ts:606 | trimming to the newest records keeps keys unique and what is still found unchanged |
| Crc32.BuildTable | packages/dkrypt/src/artifactZip.ts:11-15 | entry i is i shifted through eight division steps |
| Crc32.FileChecksum | packages/dkrypt/src/artifactZip.ts:17-23 | the checksum is that of the concatenated bytes, however the stream chunks them |
| CrcRegister.TableLookup | packages/dkrypt/src/artifactZip.ts:17-23 | one table lookup does what eight bit-by-bit division steps do |
| CrcRegister.RegisterIsRemainder | packages/dkrypt/src/artifactZip.ts:17-23 | the register is always the remainder of polynomial division of what was fed so far |
| Crc32.ChecksumIsPolynomialRemainder | packages/dkrypt/src/artifactZip.ts:11-23 | for every byte sequence the table-driven checksum is the complemented remainder of the message polynomial (RFC 1952 section 8) |
| Crc32.PolynomialIsGenerator | packages/dkrypt/src/artifactZip.ts:13 | the constant is the reflected generator x^32 + x^26 + ... + 1 without its leading term |
| Crc32.PolynomialValue | packages/dkrypt/src/artifactZip.ts:13 | as a number the constant is 0xedb88320 |
| CrcRegister.UpdateIsBijection | packages/dkrypt/src/artifactZip.ts:20 | for a fixed byte the register update is one-to-one and onto |
| CrcRegister.UpdateSeparatesBytes | packages/dkrypt/src/artifactZip.ts:20 | for a fixed register different bytes give different registers |
| Crc32.SingleByteChangeDetected | packages/dkrypt/src/artifactZip.ts:17-23 | equal-length inputs that differ in exactly one byte have different checksums |
| ZipWriter.BuildLocalHeader | packages/dkrypt/src/artifactZip.ts:25-39 | the buffer written in place is the local file header of APPNOTE.TXT section 4.3.7 |
| ZipWriter.BuildCentralHeader | packages/dkrypt/src/artifactZip.ts:41-61 | the buffer written in place is the central directory header of APPNOTE.TXT section 4.3.12 |
| ZipFormat.LocalHeaderFields | packages/dkrypt/src/artifactZip.ts:25-39 | each field of the local header reads back at its offset |
| ZipFormat.CentralHeaderFields | packages/dkrypt/src/artifactZip.ts:41-61 | each field of the central header reads back at its offset |
| ZipFormat.EndRecordFields | packages/dkrypt/src/artifactZip.ts:103-111 | each field of the end record (section 4.3.16) reads back at its offset |
| ZipWriter.ValidateArtifactZipEntries | packages/dkrypt/src/artifactZip.ts:63-77 | the first problem in the order the entries are checked, or none |
| ZipLayout.ValidMeansExportable | packages/dkrypt/src/artifactZip.ts:63-77 | validation passes exactly for 1 to 100 entries of unchanged size below 4 GiB with distinct sanitised names that fit |
| ZipWriter.StreamArtifactZip | packages/dkrypt/src/artifactZip.ts:79-114 | the stream succeeds exactly when the entries are valid and the archive fits, and is then local blocks, directory and end record |
| IpaReader.ReadIpaStructure | packages/dkrypt/src/ipaStructure.ts:24-68 | succeeds or fails as a reference listing of the bytes does, and returns that listing sorted by path |
| IpaReader.FindEnd | packages/dkrypt/src/ipaStructure.ts:32-38 | the last end-record signature in the tail, scanning backwards |
| IpaReader.ReadEntries | packages/dkrypt/src/ipaStructure.ts:46-63 | the directory's records in order without folder entries, or the first malformed record's error |
| ZipRoundTrip.ArchiveLocates | packages/dkrypt/src/ipaStructure.ts:27-44 | on exported archives none of the reader's limits fires, except the ZIP64 refusal exactly when the directory starts at 0xffffffff |
| ZipRoundTrip.ArchiveReadsBack | packages/dkrypt/src/ipaStructure.ts:24-68 | reading back what was written gives every entry: sanitised name, checksum, both sizes |
| ZipRoundTrip.ExportReadsBack | packages/dkrypt/src/ipaStructure.ts:24-68 | from the exporter's input: the reader accepts the export if and only if the directory starts below 0xffffffff, and lists exactly the entries |
| ZipRoundTrip.RegionBytes | packages/dkrypt/src/artifactZip.ts:84-96 | each entry's region holds its own header, name and contents and ends where the next one starts |
| ZipRoundTrip.RecordedOffsetsLeadToEntries | packages/dkrypt/src/artifactZip.ts:83-96 | the offset recorded for each entry leads to its own header, name and data, and the regions tile the file up to the directory |
| StableSort.SortKeeps | packages/dkrypt/src/ipaStructure.ts:64 | sorting keeps every element with its count, whatever the comparison |
| IpaDiff.CompareIpaStructures | packages/dkrypt/src/ipaStructure.ts:70-85 | added, removed, changed and unchanged as the set-wise comparison by path says |
| IpaDiff.DiffConserves | packages/dkrypt/src/ipaStructure.ts:70-85 | with unique paths, added + changed + unchanged is the new listing and removed + changed + unchanged the old one |
| IpaDiff.SingleByteChangeReported | packages/dkrypt/src/ipaStructure.ts:70-85 | export, read back and compare: two exports that differ in one byte of one member differ, in the report, in exactly that member |
| BridgeShutdown.StepKeeps | packages/device-bridge/src/main.rs:1068-1201 | every step of clients, tunnel tasks and server keeps the gate, handle and server invariants |
| BridgeShutdown.NothingExecutesAfterDrain | packages/device-bridge/src/main.rs:1107-1143 | in every interleaving, once the drain is passed no operation is executing and none ever starts |
| BridgeShutdown.DrainIsSafe | packages/device-bridge/src/main.rs:1184-1197 | the drain is passed only by winning the write gate or with every client gone, and nothing executes at that moment |
| BridgeShutdown.ReturnedExactly | packages/device-bridge/src/main.rs:1165-1201 | when serving returns the tunnel map is empty and no client is left; every tunnel ever opened was cancelled iff no opener was dropped between spawning and registering, and awaited to its end iff besides no closer was dropped while waiting |
| BridgeShutdown.HeldAtDrainIsAwaited | packages/device-bridge/src/main.rs:853-864 | a tunnel in the map when the drain is passed is cancelled and its task awaited before serving returns |
| BridgeShutdown.HeldIsClosed | packages/device-bridge/src/main.rs:843-864 | a tunnel in the map at any moment, that of shutdown included, is cancelled at return, and awaited unless its closer was dropped |
| BridgeLosses.OrphanOutlives | packages/device-bridge/src/main.rs:800-851 | a run from a fresh bridge in which an opener, dropped while a closer of another tunnel holds the map, leaves a tunnel running after return |
| BridgeLosses.ClosingCanDetach | packages/device-bridge/src/main.rs:843-851 | a run from a fresh bridge in which a tunnel held at shutdown is cancelled but never awaited |
| BridgeTunnels.TunnelRegistry.CloseTunnel | packages/device-bridge/src/main.rs:843-851 | a registered tunnel is taken out, cancelled and awaited; any other id changes nothing |
| BridgeTunnels.TunnelRegistry.CloseAllTunnels | packages/device-bridge/src/main.rs:853-864 | every registered tunnel ends cancelled and awaited and no other task changes |
| DeploymentRollback.CreateDatabaseSnapshot | packages/dkrypt/src/deploymentDatabase.ts:83-109 | whatever fails, the snapshot appears at its path whole or not at all, and only the temporary and the target are touched at any moment |
| DeploymentRollback.CopyVerifiedSnapshot | packages/dkrypt/src/deploymentDatabase.ts:189-211 | whatever fails, the target is as it was or the whole snapshot, and if changed it verifies as expected |
| DeploymentRollback.PreserveCandidateDatabase | packages/dkrypt/src/deploymentDatabase.ts:150-187 | at every moment, the last included, the live content is whole at the live or the recovery path; success moves it aside, and an occupied recovery path is refused untouched |
| DeploymentRollback.RestoreCandidateFiles | packages/dkrypt/src/deploymentDatabase.ts:140-148 | only the live path is touched, and success makes it the candidate |
| DeploymentRollback.Revert | packages/dkrypt/src/deploymentDatabase.ts:251-278 | the restore's try block: success means reverted with the old content accounted for, a throw leaves it interrupted but recoverable; it succeeds only with a verifying snapshot and no recovery file in the way, and then always when no operation fails |
| DeploymentRollback.ReadManifest | packages/dkrypt/src/deploymentDatabase.ts:111-128 | a manifest is accepted only with this deployment's id, a plain database filename, its own backup name and complete verification data |
| DeploymentRollback.ClearRollbackArtifacts | packages/dkrypt/src/deploymentDatabase.ts:130-134 | only manifest and snapshot can go, and success means both did |
| DeploymentRollback.RestoreDeploymentRollback | packages/dkrypt/src/deploymentDatabase.ts:246-288 | with a fault possible at every file operation: the pre-restore content is whole at the live or recovery path at every moment and in the state it returns in; a throw before cleanup leaves manifest and snapshot intact and, once repaired, a live file that is the candidate or the verified snapshot; success means it verifies as prepared, or is absent if none was, and without faults comes exactly from restorable states |
| DeploymentAttempts.AttemptsHoldContent | packages/dkrypt/src/deploymentDatabase.ts:246-288 | over any number of restore attempts, whatever fails in them, the content live before the first is whole at the live or recovery path at every moment |
| DeploymentAttempts.RetryExactly | packages/dkrypt/src/deploymentDatabase.ts:151-187 | after an attempt that threw, the next can succeed exactly when no recovery file was left or the live database is already the promised one |
| DeploymentAttempts.RefusedForGood | packages/dkrypt/src/deploymentDatabase.ts:151 | a recovery file beside a live database that is not the promised one: every later attempt is refused and changes nothing |
| DeploymentAttempts.PreparedCanStick | packages/dkrypt/src/deploymentDatabase.ts:268-279 | a prepared deployment whose restore could succeed, after one attempt, given state by state, that fails just after the live database was moved aside: the repair puts it back, the recovery file stays, and no restore can succeed any more |
| DeploymentAttempts.StickingRestore | packages/dkrypt/src/deploymentDatabase.ts:246-283 | the restore does take that way when the one operation after the move is the only one to fail |
| DeploymentPreparation.PrepareDeploymentRollback | packages/dkrypt/src/deploymentDatabase.ts:213-244 | the live database is never touched, no state on the way nor the last has a manifest without its matching snapshot, and success leaves all a restore needs |
| DeploymentPreparation.DeploymentKeepsPrepared | packages/dkrypt/src/deploymentDatabase.ts:246-250 | whatever a deployment writes to the database, what was prepared stays prepared |
| DeploymentPreparation.PreparedIsRestorable | packages/dkrypt/src/deploymentDatabase.ts:246-260 | what was prepared can be restored, whatever the deployment wrote, unless a recovery file is in the way |
| DeploymentPreparation.RestoreUndoesDeployment | packages/dkrypt/src/deploymentDatabase.ts:272-278 | a restore that succeeds after a prepare brings back a database that verifies exactly as the one prepared, or none |
| ArtifactQuota.PlanArtifactEvictions | packages/dkrypt/src/artifacts.ts:451-479 | the shortest prefix of least-recently-used order that makes the request fit; fails exactly when the request exceeds the quota or, if asked to, when evicting everything is not enough |
| ArtifactQuota.PlanIsLeastRecent | packages/dkrypt/src/artifacts.ts:463-465 | nothing pinned or protected is evicted, and nothing before something colder |
| ArtifactQuota.TighterExtends | packages/dkrypt/src/artifacts.ts:468-472 | a tighter quota's plan extends a looser one's |
| ArtifactQuota.WithoutFrees | packages/dkrypt/src/artifacts.ts:557-558 | removing a plan by ids frees at least its bytes |
| ArtifactStores.PromotionFits | packages/dkrypt/src/artifacts.ts:557-558 | with stale records and the plan gone, the new file keeps the index within the quota |
| ArtifactStores.ArtifactStore.PromoteArtifact | packages/dkrypt/src/artifacts.ts:486-589 | a file already stored under the key is reused and touched; otherwise the promotion is refused exactly when aborted, when there is no room even after evicting all that may go, or when persisting fails, and then the old index stays; a stored file leaves the index within the quota, without stale and planned records |
| ArtifactStores.ArtifactStore.PreviewArtifactQuotaRetention | packages/dkrypt/src/artifacts.ts:363-397 | the plan without rejection for a target of at least one byte, and its totals |
| ArtifactStores.ArtifactStore.ReconcileArtifactStore | packages/dkrypt/src/artifacts.ts:642-689 | what is evicted is the plan over the re-read index, the files deleted are the staged ones, those no record names and those evicted, a failure to empty the staging directory leaves the index as it was, a size that cannot be read leaves every record as it was or as found, and a failed sweep or persist keeps the re-read index whole |
| ArtifactStores.StagingIsApart | packages/dkrypt/src/artifacts.ts:644-654 | emptying the staging directory changes nothing for an index that names no staged file |
| ArtifactPreview.PreviewTellsExactly | packages/dkrypt/src/artifacts.ts:363-373 | the preview names exactly what reconciling evicts, at every quota, if and only if before each eviction the recorded bytes left are the bytes found to be left and the same record is next, files found again after a move included |
| ArtifactPreview.PreviewTellsAtQuota | packages/dkrypt/src/artifacts.ts:451-476 | at the one quota in force, preview and reconciliation name the same records if and only if the recorded and the found bytes left exceed it before the same records |
| ArtifactPreview.UnmovedPreviewTellsExactly | packages/dkrypt/src/artifacts.ts:642-656 | with no file moved, that is: nothing can be evicted, or recorded and re-read sizes agree in total and for every candidate but the most recently used |
| ArtifactPreview.MoreFoundMisleadsPreview | packages/dkrypt/src/artifacts.ts:646-654 | when more bytes are found than recorded, by growth or by moved files found again, and anything can be evicted, the preview misleads at some quota |
| ArtifactPreview.SamePlansExactly | packages/dkrypt/src/artifacts.ts:451-476 | two lists of files lead to the same plans at every quota if and only if the same pressure weighs on the same next record |
| ArtifactPreview.PreviewIsWhatReconcileEvicts | packages/dkrypt/src/artifacts.ts:363-373 | when the disk agrees with the index throughout, preview and reconciliation name the same records, in order |
| ArtifactPreview.ResizedFileMisleadsPreview | packages/dkrypt/src/artifacts.ts:647-654 | even a single unpinned file misleads the preview when its size is not the recorded one |
| ArtifactStores.ReconciledFits | packages/dkrypt/src/artifacts.ts:667-686 | after reconciling, the index fits or nothing unpinned is left |
| ArtifactStores.PinnedStays | packages/dkrypt/src/artifacts.ts:463-465 | no plan names a pinned artifact |
| ArtifactStores.ArtifactStore.SetArtifactsFlag | packages/dkrypt/src/artifacts.ts:231-290 | pin and archive alike: unknown ids are reported, each once, and nothing changes; otherwise one stamp per changed artifact, the changed ids with what they were, and everything taken back when persisting fails |
| ArtifactStores.ArtifactStore.UndoArtifactStateChanges | packages/dkrypt/src/artifacts.ts:292-323 | each token is tested against what the ones before it left and reported as undone or conflicting, and a failed persist replays the replaced states forward |
| ArtifactUndo.HistoryIsNewer | packages/dkrypt/src/artifacts.ts:76-78 | over any history of calls and with any clock, no flag changes without a newer revision |
| ArtifactUndo.TokenSpent | packages/dkrypt/src/artifacts.ts:304-307 | once its flag has changed by any call, a token never applies again |
| ArtifactUndo.UndoSpendsToken | packages/dkrypt/src/artifacts.ts:304-312 | a token applied by a persisted undo never applies again, in its own batch or later |
| ArtifactUndo.ChangeThenUndo | packages/dkrypt/src/artifacts.ts:308-310 | a change, then anything that leaves its flag alone, then its undo restores the original time |
| ArtifactUndo.RollbackExactlyWhenSeparate | packages/dkrypt/src/artifacts.ts:314-320 | replaying the replaced states forward restores the index if and only if no flag was written twice in the batch |
| ArtifactUndo.FailedCallRestores | packages/dkrypt/src/artifacts.ts:250-255 | a failed pin or archive restores the index exactly; a failed undo does if and only if it applied no two tokens to one flag |
| ArtifactUndoTokens.FailedUndoRestoresExactly | packages/dkrypt/src/artifacts.ts:292-323 | told from the tokens handed in: a failed undo restores the index, whatever the clock shows, if and only if no token expects the state that an earlier one for its flag, the first to fit, leaves, under a revision above that one's |
| ArtifactUndoTokens.DistinctTokensRestore | packages/dkrypt/src/artifacts.ts:292-323 | in particular, tokens for distinct flags always leave a failed undo without effect |
| ArtifactUndo.DoubleUndoStays | packages/dkrypt/src/artifacts.ts:299-320 | a failed batch that undoes a change and then that undo leaves the flag changed |
| DeviceEvents.EventCounter.Next | packages/device-bridge/src/main.rs:228-230 | every draw is one more than the last |
| DeviceEvents.StreamNativeDeviceEvents | packages/device-bridge/src/main.rs:423-574 | one message per input, each with the list its inputs fold to, under strictly increasing numbers, with other streams drawing in between |
| DeviceEvents.ListedByLastWord | packages/device-bridge/src/main.rs:479-516 | a device is listed exactly when the last input to mention its id said it was there, and with that record |
| DeviceEventTracker.RustDeviceEventMetricTracker.Record | packages/dkrypt/src/deviceBridgeEvents.ts:38-54 | a repeated sequence number changes nothing; otherwise exactly the ids that left count as disconnects and those that came and had been seen before as reconnects |
| DeviceEventTracker.UsbDeviceIds | packages/dkrypt/src/deviceBridgeEvents.ts:14-21 | the distinct non-empty ids of the devices on USB |
| DeviceEventTracker.RunBalances | packages/dkrypt/src/deviceBridgeEvents.ts:38-54 | after any non-empty run of events, present + disconnects = ever seen + reconnects |
| DeviceEventTracker.FollowsTheBridge | packages/device-bridge/src/main.rs:479-520 | a consumer following a bridge stream skips nothing: after every message its ids are the USB devices of the last inventory folded with what happened since |
| HealthStabiliser.HealthCache.CacheDeviceHealth | packages/dkrypt/src/deviceHealth.ts:540-560 | the three maps after one probe |
| HealthStabiliser.CountersMean | packages/dkrypt/src/deviceHealth.ts:550-557 | over every sequence of probes the failure counter is the current run of unhealthy results and the remembered result the last healthy one |
| HealthStabiliser.ShownRule | packages/dkrypt/src/deviceHealth.ts:491-499 | a healthy result is shown at once; an unhealthy one exactly when there is no earlier good one, it is the third or later in a row, or it is reachable with a jailbreak blocker; else the last good one with only its check time updated |
| RefreshQueue.DeviceHealthRefreshQueue.RequestRefresh | packages/dkrypt/src/deviceHealth.ts:457-489 | joins the device's entry, asking for a rerun if it is running, or opens one |
| RefreshQueue.DeviceHealthRefreshQueue.ContinueLoop | packages/dkrypt/src/deviceHealth.ts:480 | runs again if asked to since the refresh began, and otherwise is finishing with the outcome of that refresh |
| RefreshQueue.NeverTwoRefreshes | packages/dkrypt/src/deviceHealth.ts:467-480 | at every moment of every run at most one refresh of a device is under way |
| RefreshQueue.CoveredExactlyWhenNotLate | packages/dkrypt/src/deviceHealth.ts:459-480 | once its entry is gone, a refresh for a request's promise started after the request if and only if it arrived before the loop's last look at rerun |
| RefreshQueue.LateRequestIsLost | packages/dkrypt/src/deviceHealth.ts:480-485 | a request between that look and the removal settles with no refresh after it |
| RefreshQueue.QueueIsSafe | packages/dkrypt/src/deviceHealth.ts:454-489 | from an empty queue, never two refreshes at once, and every settled promise carries the outcome of its last refresh |
| Usernames.AvailableUsername | packages/dkrypt/src/identity.ts:91-101 | the cleaned candidate if free, else the first free numbered one below 100000, else none |
| Usernames.ChosenIsUsable | packages/dkrypt/src/identity.ts:91-101 | a chosen name is one the rename form would accept and nobody has, and a usable candidate is kept as it is |
| Usernames.NumberedDistinct | packages/dkrypt/src/identity.ts:97 | numbered names for different numbers differ, letter case aside, however the base is cut |
| Usernames.FailsOnlyWhenCrowded | packages/dkrypt/src/identity.ts:96-100 | choosing fails only when at least 99,998 other names are in use |
| Identity.MergeIdentities | packages/dkrypt/src/identity.ts:60-70 | the fold of the identities in order, one record per key |
| Identity.WinnerIsLast | packages/dkrypt/src/identity.ts:65 | the winner of a key is the last record from OAuth or, without any, the last of all |
| Identity.MergedKeepsWinners | packages/dkrypt/src/identity.ts:60-70 | merging keeps exactly the keys there were, one record each, the winner: a Discord connection never replaces an OAuth record |
| Identity.MergedInOrder | packages/dkrypt/src/identity.ts:60-70 | the merged list is the winner of each key in the order the keys first appear |
| ProfileNormalising.PrimaryNamed | packages/dkrypt/src/identity.ts:74 | the identity shown is the winner of the key the profile's id names, if any record has it |
| ProfileNormalising.PrimaryUnnamed | packages/dkrypt/src/identity.ts:75 | otherwise it is the winner of the first key, in order of appearance, whose winner is from OAuth |
| ProfileNormalising.NormalizedTwiceExactly | packages/dkrypt/src/identity.ts:72-89 | normalising a profile twice is normalising it once if and only if its custom username, where there is one, is its username, or without one its id names its own record or the identity shown has its username |
| ProfileNormalising.RenamedChangesAgain | packages/dkrypt/src/identity.ts:78-85 | a profile whose custom username is not its username changes again when normalised again |
| ProfileNormalising.OtherIdentityChangesAgain | packages/dkrypt/src/identity.ts:74-78 | so does one without a custom username whose id names another identity with another name |
| Identity.RunKeepsNames | packages/dkrypt/src/identity.ts:157-319 | after any run of creates, links, merges, renames and deletes, usernames are unique letter case aside, unreserved and well formed |
| Identity.AssignedIsSound | packages/dkrypt/src/identity.ts:103-111 | assigning usernames on load makes them so, whatever they were, and changes nothing else |
| Identity.AssignedTwice | packages/dkrypt/src/identity.ts:103-111 | assigning again changes nothing |
| Identity.AssignedAgain | packages/dkrypt/src/identity.ts:103-111 | so assigning once more to profiles assigned theirs is the same, for distinct ids |
| ProfileLoading.LoadedTwiceExactly | packages/dkrypt/src/identity.ts:113-119 | loading what a load returned returns it again if and only if every username is still the one stored before the first load |
| ProfileLoading.SettledLoadsTwice | packages/dkrypt/src/identity.ts:113-119 | in particular when the stored usernames are sound and normalising leaves them |
| ProfileLoading.RenamedLoadsAgain | packages/dkrypt/src/identity.ts:113-119 | a renamed profile still stored under its provider's name is changed by the second load |
| Profiles.UpsertKeepsIdsExactly | packages/dkrypt/src/identity.ts:157-179 | storing a profile directly keeps ids and aliases apart exactly when no other profile answers to its id or one of its aliases |
| Profiles.RunKeepsIds | packages/dkrypt/src/identity.ts:181-319 | over any run in which profiles are created by linking identities, ids and aliases stay apart |
| Profiles.MergeResolves | packages/dkrypt/src/identity.ts:227-252 | after merging two different profiles every id resolves as before, and the source's id and aliases to the target |
| Profiles.MergeKeepsIdentities | packages/dkrypt/src/identity.ts:241-244 | a merge keeps the union of identity keys, one record each, with OAuth records unharmed |
| Profiles.MergeKeepsTargetExactly | packages/dkrypt/src/identity.ts:227-252 | a merge keeps the target reachable exactly when it does not join a profile with itself under another of its names; then the profile is deleted |
| Profiles.IdentityStore.GetAuthProfile | packages/dkrypt/src/identity.ts:207-209 | the first profile with the id or alias |
| Profiles.IdentityStore.UpsertAuthProfile | packages/dkrypt/src/identity.ts:157-179 | creates under a free username or updates keeping the username; changes nothing when no name is free |
| Profiles.IdentityStore.UpsertAuthIdentity | packages/dkrypt/src/identity.ts:181-205 | links to whoever answers to the id, or creates |
| Profiles.IdentityStore.MergeAuthProfiles | packages/dkrypt/src/identity.ts:227-252 | moves the source under a new id, or folds it into the target and removes it |
| Profiles.IdentityStore.SetAuthUsername | packages/dkrypt/src/identity.ts:299-311 | renames, or gives the first of the four refusals and changes nothing |
| Profiles.IdentityStore.DeleteAuthProfile | packages/dkrypt/src/identity.ts:313-319 | removes the one profile that answers, if any |
| Profiles.IdentityStore.NormalizeAccountUsernames | packages/dkrypt/src/identity.ts:103-111 | every profile in turn keeps its name or gets a free one, or nothing changes |
| Revenue.AddAmount | packages/dkrypt/src/billingRevenue.ts:96-103 | adds to one proper currency and ignores an improper one |
| Revenue.StripeRevenue | packages/dkrypt/src/billingRevenue.ts:170-293 | the totals, count and completeness of the invoices read |
| Revenue.GrossIsContributions | packages/dkrypt/src/billingRevenue.ts:217-282 | the gross of every currency is the sum of what each counted invoice contributes: in its own the larger of the amount paid and its itemised payments, elsewhere the itemised payments |
| RevenueRefunds.WithinGrossExactly | packages/dkrypt/src/billingRevenue.ts:231-288 | whatever is refunded of the charges, refunds stay within the gross of a currency if and only if what was paid on charges first met in it, in any currency, is no more than what the invoices contribute to it |
| RevenueRefunds.TotalBounded | packages/dkrypt/src/billingRevenue.ts:286-288 | for any payments, refunds are at most what was paid on charges first met in the currency, and the gross is what the invoices contribute |
| RevenueRefunds.RefundedInFull | packages/dkrypt/src/billingRevenue.ts:257-276 | and with every charge refunded in full they are exactly that |
| RevenueRefunds.RefundedWithinGross | packages/dkrypt/src/billingRevenue.ts:286-288 | in particular, with one currency per charge, 0 <= refunded <= gross in every currency, so the net is never clamped |
| RevenueRefunds.TwoCurrencyChargeExceeds | packages/dkrypt/src/billingRevenue.ts:257-276 | the smallest case beyond the condition: one charge without a currency, met through payments in two |
| Revenue.CryptoRevenue | packages/dkrypt/src/billingRevenue.ts:157-168 | counted charges add their amount, refunded ones also as a refund |
| Revenue.CryptoWithinGross | packages/dkrypt/src/billingRevenue.ts:157-168 | crypto refunds stay within the gross in every currency |
| Pagination.ListAllPages | packages/dkrypt/src/billingRevenue.ts:126-140 | the exact concatenation of the pages up to the last one, or an error at the first page that leads nowhere or after a thousand |
| Pagination.ServedListIsRead | packages/dkrypt/src/billingRevenue.ts:126-140 | from a server that pages through one list, the whole list is read if it fits into a thousand pages, and otherwise reading stops with an error |
| Pagination.MapWithConcurrency | packages/dkrypt/src/billingRevenue.ts:142-149 | batched mapping is in-order mapping, for every batch size and with failures |
| Pagination.MappedEach | packages/dkrypt/src/billingRevenue.ts:142-149 | in-order mapping gives each value's result at its place when every operation succeeds |
| Pagination.MappedFails | packages/dkrypt/src/billingRevenue.ts:142-149 | as soon as one operation fails, the mapping fails |
| PhraseMatch.CanonicalAppName | packages/autoinstall/sources/FreeInstallConfirmation.h:3-18 | the canonical form is the text's lower-cased words joined by single spaces |
| PhraseMatch.CanonicalTwice | packages/autoinstall/sources/FreeInstallConfirmation.h:3-18 | canonicalisation is idempotent |
| PhraseMatch.LabelContainsCanonicalPhrase | packages/autoinstall/sources/FreeInstallConfirmation.h:20-26 | the padded substring test over the label's canonical form, with its two refusals |
| PhraseMatch.AcceptsExactlyRuns | packages/autoinstall/sources/FreeInstallConfirmation.h:20-26 | for a non-empty canonical phrase the test accepts exactly when the phrase's words are consecutive words of the label |
| PhraseMatch.CanConfirmFreeInstallForNames | packages/autoinstall/sources/FreeInstallConfirmation.h:28-49 | accepts exactly a free app freshly observed with the store heading, one of the names as consecutive words of a label, no currency sign and an install button |

## Left out

- ArtifactPreview.PreviewTellsExactly: the disk is as reconciling finds it once the staging directory is empty; see ArtifactStores.StagingIsApart.
- ArtifactStores.ArtifactStore.PromoteArtifact: a reused artifact is only touched; linking it to a project, project quotas, metadata and warnings are not modelled, nor are failures to read, hash or move the staged file.
- ArtifactQuota.PlanArtifactEvictions: sizes and times are integers; sorting is by the comparison given, as a stable sort.
- CryptoPayments.EventProcessor.ProcessNowPaymentsEventLocked: one clock reading per handled event; audit records, notifications and a notification that throws are not modelled.
- PaymentAgreement.AgreesOnAllExactly: all events carry one payment id and distinct readable times; the view is the checkout's completion, noted time and status, and the subscription's activity, start and next billing date.
- Dunning.DunningPoller.ReconcileCryptoBilling: the polling of pending checkouts that precedes the loop is not part of it.
- DunningSafety.BoundedExactlyWhenSheltered: another poll may go on at any await. Where a poll awaits after a mere cancellation, which itself waits for nothing, the code gives way for one microtask only, so that the harmful overlap then needs another poll's continuation queued already.
- Dunning.EntitlementIsBounded: assumes no payment events meanwhile; the polling of pending checkouts that precedes it in the same function is not part of this model.
- BillingInvariants.RunKeepsSubscription: an upsert may replace a known owner by another; it only never drops one.
- Billing.BillingStore.AnonymizeBillingUser: the address made from a digest of the user id is a parameter.
- DeviceEvents.StreamNativeDeviceEvents: the counter is unbounded where the code's wraps after 2^64 numbers, lists are maps rather than sequences in id order, and retry delays are left out.
- DeploymentPreparation.PrepareDeploymentRollback: a database and its sidecar files are one content, kept by a snapshot; leftover sidecars of a removed database are not modelled.
- BridgeShutdown.ReturnedExactly: read locks may be taken while a writer waits and operations may hold the tunnel map at the same time, which allows more interleavings than the code's fair locks do.
- RefreshQueue.QueueIsSafe: a refresh function that calls the queue again before it first awaits is not modelled.
- Identity.MergedKeepsWinners: an identity is its provider, id, username and source; optional keys that an older record could lend a newer one are left out.
- Usernames.ChosenIsUsable: lower-casing is ASCII's, and a character outside the basic plane counts once.
- Revenue.StripeRevenue: amounts are integer minor units, without rounding or non-finite values; totals are a map, not a sorted list, warnings are left out except for the completeness flag, and so is adding up the two providers.
- Pagination.ListAllPages: the server answers the same request in the same way each time.
- PhraseMatch.CanonicalAppName: letters and digits are ASCII's.
- PhraseMatch.CanConfirmFreeInstallForNames: list members that are not strings, and numbers other than zero or not, are not told apart; button titles are trimmed of ASCII blanks only, where the code trims every whitespace and newline character.
- ZipLayout.ValidMeansExportable: sizes are integers; names are their UTF-8 bytes, and a file's contents do not change between its two readings.
- IpaReader.ReadIpaStructure: paths are compared as bytes whatever the encoding flag says, and the locale's comparison is an arbitrary one.
- Keyed.Find: JavaScript records are values in a list field; aliasing between a stored record and one handed out is not modelled.
- Creating checkouts, cancelling by hand, linking customers, entitlement resolution across plans and the migration of stored files: easy next to what is modelled.
- SQLite, sockets, HTTP, streams, SSH and processes, configuration, mail and notifications, sessions, encryption and signatures: foreign calls, or plumbing with no deep property.
- Registering, removing and cancelling requests by id in the device bridge: a request can be dropped at any moment in the model, whoever asks for it.
- Removing an identity from a profile, display names, avatars and update times.
