# Solovey UI: concurrent services, modelled in Dafny

A Dafny 4.11 model of the stateful core of the panel: the client IP limit, the
token-use debouncer, the audit writer, second-factor login, session windows,
credential generations, traffic accounting, the API token snapshot, the reorder
of configuration arrays, and the realtime hub.

Code that works under a lock is modelled twice. A class holds the same fields as
the Go type, and each of its methods is one locked region (or one loop) proved
equal to a function on values. A state machine then applies those functions as
events in any order, one event per locked region, database transaction, timer
callback or write outcome, and the main results are proved over all event
sequences. An event that is not possible in a state leaves it as it is, so a
result about all sequences is a result about all schedules.

| files | source |
|---|---|
| `IpMonitorState`, `IpMonitor`, `IpHistory`, `IpAdmission`, `IpAgreement`, `IpExact`, `IpSightings` | `ipmonitor/` |
| `TokenUseState`, `TokenUseDebouncer`, `TokenUseRuns`, `TokenUseKept`, `TokenUseCircuit` | `service/token_use_debouncer.go` |
| `AuditQueue`, `AuditWriter`, `AuditRuns` | `service/audit_writer.go`, `service/runtime.go` |
| `MfaState`, `MfaStore`, `MfaRuns`, `MfaSessions` | `service/mfa.go` |
| `SessionWindow`, `SessionCheck`, `Generations` | `web/session_store.go`, `api/session.go`, `service/user.go` |
| `Traffic`, `ClientTraffic` | `service/stats.go` |
| `TokenSnapshot`, `Reorder`, `Hub` | `api/apiV2Handler.go`, `service/reorder.go`, `realtime/hub.go` |

`dafny verify dfyconfig.toml` checks the whole project.

## Where the code does less than a reader may expect

- Token use: the last use of a token can be lost in two ways, and in no other
  (`LastUseKeptIff`). A requeued batch replaces a pending update only if it is
  strictly newer, so of two uses in one second the last can give way
  (`TieLosesNewest`). Writes are not ordered, so an earlier use can be stored
  over a later one (`LateWriteLosesLatest`). With clocks that do not go back both
  need two batches on their way at once (`OneBatchKeepsNewest`).
- Audit: a stop caller drains the writer even if its deadline has passed. A batch
  whose write then fails for good is lost without being counted
  (`DeadlineLosesBatch`). Two callers at once can lose what was queued
  (`RaceLosesRemainder`). `SuccessorGetsRemainderIff` says exactly when nothing
  is lost; one caller that waits for the loop loses nothing.
- Client sightings: a batch is written over the stored time without comparing, so
  two batches in flight can move it back (`LateCommitMovesBack`);
  `StoredIsLatestIff` says exactly when the stored time is the latest.
- Sessions: saving session values writes back the stamp they were loaded with, so
  it can undo the clamp to the absolute expiry (`SaveUndoesClamp`,
  `ClampIsPermanentIff`). It also lifts a revocation, and nothing else does
  (`StepKeepsRevokedIff`, `RevokedStays`).
- Sessions: a remembered, authenticated login under an explicit legacy age that
  ends after seven days starts with an idle expiry past its absolute one, and no
  other login does (`LoginStartsClosedIff`).
- Generations: a generation stored as 0 reads as 1, so counting it up to 1 ends
  no session (`EndsSessionsIff`). The counters wrap at 64 bits (`GoesBackIff`).
  The update of the first user saves the whole row it read, outside any
  transaction: it may raise nothing, take a generation back, or make ended
  sessions valid again (`SaveEndsSessionsIff`, `StaleSaveGoesBackIff`,
  `SaveRevivesIff`).
- Second factor: a recovery code used while the clock reads 0 stays unused
  (`ConsumedAgainIff`). An enrollment begun on an outdated row can delete the
  codes in use, turn the factor off or lock the administrator out
  (`BeginAfterAcknowledgeDropsCodes`, `BeginAfterFirstAcknowledgeTurnsOff`,
  `BeginAfterDisableLocksOut`); `StaleBeginKeepsUseIff` and
  `InterleavedConsistentIff` say exactly when it does no harm. Outdated
  confirmations and rotations of the codes never do (`StaleConfirmIsCurrent`,
  `StaleRotateHarmless`).
- Traffic: buckets fail to tile a window that ends before 1970 or whose last
  bucket overflows 64 bits (`TilesIff`, `LastSecondDoesNotTile`).
- API tokens: the second look at the token's identity never decides anything;
  the revision alone does (`AuthorizesIffNoReload`).

## Model

| member | source | states |
|---|---|---|
| `IpMonitor.Monitor.CacheAddIp` | ipmonitor/policy.go:191-201 | a cached entry gains one source; a client without an entry gains none |
| `IpMonitor.Monitor.RecordLocked` | ipmonitor/record.go:25-31 | the observation becomes pending and known to the cached entry |
| `IpMonitor.Monitor.Record` | ipmonitor/record.go:5-22 | records only if no fence was raised since the revision was read |
| `IpMonitor.Monitor.CollectPending` | ipmonitor/policy.go:59-101 | the loop adds exactly the client's pending sources |
| `IpMonitor.Monitor.CollectFlushing` | ipmonitor/policy.go:59-101 | the nested loops add exactly the client's sources of all batches in flight |
| `IpMonitor.Monitor.AdmitPrepared` | ipmonitor/policy.go:59-101 | the decision, and the slot it reserves, are one atomic step; a refusal changes nothing (who is accepted: `DecisionIff`, `AdmissionExact`) |
| `IpMonitor.Monitor.StartLoad` | ipmonitor/policy.go:106-143 | a load starts only for a missing or expired entry under the current revision |
| `IpMonitor.Monitor.Install` | ipmonitor/policy.go:106-143 | a loaded entry is installed only if nothing was fenced since its load began |
| `IpMonitor.Monitor.InstallWarmUp` | ipmonitor/policy.go:145-161 | the warm-up entries replace the cache only under an unchanged revision |
| `IpMonitor.Monitor.InvalidateCache` | ipmonitor/policy.go:203-208 | drops one entry and fences every load and decision in progress |
| `IpMonitor.Monitor.InvalidateAllCache` | ipmonitor/policy.go:212-217 | drops every entry and fences every load and decision in progress |
| `IpMonitor.Monitor.ResetCaches` | ipmonitor/state.go:67-89 | forgets everything held in memory, batches in flight included, and fences |
| `IpMonitor.Monitor.BeginFlush` | ipmonitor/persistence.go:266-275 | moves all pending observations into one new batch |
| `IpMonitor.Monitor.MergeBack` | ipmonitor/persistence.go:327-339 | the loop merges one client's observations back by latest sighting |
| `IpMonitor.Monitor.Requeue` | ipmonitor/persistence.go:288-299 | a failed batch returns to pending; an unknown batch changes nothing |
| `IpMonitor.Monitor.Publish` | ipmonitor/persistence.go:303-325 | the loop makes one client's written sources known to its entry |
| `IpMonitor.Monitor.Commit` | ipmonitor/persistence.go:303-325 | a written batch is published and fenced; an unknown batch changes nothing |
| `IpHistory.FlushSnapshot` | ipmonitor/persistence.go:341-374 | the stored rows are the old ones with the batch written over them; each client's reported sighting is the maximum of its batch |
| `IpHistory.FlushClient` | ipmonitor/persistence.go:341-374 | one client's observations are written over the rows, no other row changes, and its newest sighting is found |
| `IpHistory.CollectHistory` | ipmonitor/persistence.go:117-163 | the load yields exactly the stored sources, or fails as a whole if any legacy row cannot be resolved |
| `IpHistory.StoredWritten` | ipmonitor/persistence.go:341-374 | writing a batch adds exactly its sources to a client's history |
| `IpHistory.StoredShrinks` | ipmonitor/persistence.go:30-54 | clearing or pruning never adds a source |
| `IpAdmission.RunWellFormed` | ipmonitor/persistence.go:218-339 | in every run batch numbers stay fresh and the revision never goes back |
| `IpAdmission.RunGuarded` | ipmonitor/policy.go:59-143 | for a client whose enforcing policy stays: in every run its sources are within the bound, and so is what its cached entry or load covers; the step behind the limit |
| `IpAdmission.StartGuarded` | ipmonitor/policy.go:145-161 | a cold start and a warm start both begin in that invariant |
| `IpAdmission.LimitHolds` | ipmonitor/policy.go:59-143 | in every interleaving of admissions, loads, flushes, commits, requeues, invalidations and resets the distinct sources stored, pending and in flight stay within the limit (or the history already there) |
| `IpAgreement.RunCovered` | ipmonitor/policy.go:59-161 | every event keeps cache agreement, for every client: policy edits, plain recording, clears, prunes, replaced databases and later warm-ups included |
| `IpAgreement.RunGrows` | ipmonitor/policy.go:145-161 | while the revision stays, what is held only grows and the database only gains what is held, so what a warm-up has read still covers when it is installed |
| `IpAgreement.CacheAgrees` | ipmonitor/policy.go:106-161 | from a cold or warm start, in every run, every cached entry and every load of the current revision that enforces a limit covers, with what is held, the whole stored history of its client |
| `IpAgreement.DecisionCountsAll` | ipmonitor/policy.go:59-101 | hence an unknown source is admitted under a limit only if it fits beside all sources known for the client |
| `IpExact.DecisionIff` | ipmonitor/policy.go:59-101 | in every state a source is accepted exactly under the revision that was read, with an unexpired entry, and if no limit is enforced, the source is known, or fewer than `limit` are |
| `IpExact.RunExact` | ipmonitor/policy.go:59-161 | in every run that takes no rows of the client away under its entry, the entry holds nothing that is not stored, pending or in flight, warm-ups included |
| `IpExact.AdmissionExact` | ipmonitor/policy.go:59-143 | in every such run, from a cold or warm start, a source is accepted exactly if no limit is enforced, it is stored, pending or in flight, or fewer than `limit` sources are |
| `IpExact.LimitIsReached` | ipmonitor/policy.go:59-143 | for a client without history the first `limit` distinct sources are accepted one after the other, and the next one is refused |
| `IpExact.LoadFindsPolicy` | ipmonitor/persistence.go:117-163 | a finished load enforces a limit exactly if the stored policy is enabled, enforcing and positive, and only then brings the history |
| `IpExact.LoadAfterReset` | ipmonitor/state.go:67-89 | after a reset a load finds the policy and history of the new database, and nothing else is held in memory |
| `IpHistory.LegacyRowsAgree` | ipmonitor/privacy.go:66-83 | rows of the old and the new form stand for the same source |
| `IpAdmission.RunStaysSafe` | ipmonitor/persistence.go:218-339 | a source that is stored, pending or in an unwritten batch stays in one of these places |
| `IpAdmission.AcceptedNeverLost` | ipmonitor/policy.go:59-101 | an accepted observation survives every later run that removes nothing; a refused one leaves no trace |
| `IpAdmission.BatchUntouched` | ipmonitor/persistence.go:266-299 | a batch in flight is, whenever looked at, the snapshot that was taken |
| `IpAdmission.RequeueRestores` | ipmonitor/persistence.go:288-339 | requeue restores every source with the later sighting, touches no other, and is idempotent |
| `IpAdmission.RevisionGrows` | ipmonitor/policy.go:203-217 | the revision is monotone along a run |
| `IpAdmission.FencedDecision` | ipmonitor/policy.go:59-101 | a decision that accepts saw no invalidation, commit, warm-up or reset since it read its revision |
| `IpAdmission.StaleBatchInert` | ipmonitor/state.go:67-89 | a batch taken before a reset cannot change memory afterwards, by requeue or commit; that its transaction does not reach the new database is an assumption of the model |
| `IpSightings.StepKeepsIff` | ipmonitor/persistence.go:303-374 | a step loses the time of a sighting exactly when a merge, a write over the row, a clear, a prune or a forgotten batch takes the only one left; nothing lost comes back |
| `IpSightings.SightingKeptIff` | ipmonitor/persistence.go:218-374 | after every run the time of the last accepted sighting is pending, in a batch or stored exactly when no step has lost it since |
| `IpSightings.StoredIsLatestIff` | ipmonitor/persistence.go:341-374 | once nothing about a source is in memory its stored time is that of the last accepted sighting exactly when no step has lost it since |
| `IpSightings.LateCommitMovesBack` | ipmonitor/persistence.go:341-374 | two batches written in the other order than they were taken move the stored time back |
| `TokenUseDebouncer.TokenUse.constructor` | service/token_use_debouncer.go:40-50 | starts empty, with the default interval for a non-positive one |
| `TokenUseDebouncer.TokenUse.Schedule` | service/token_use_debouncer.go:88-98 | arms a timer for the current epoch unless one is armed or the debouncer retired |
| `TokenUseDebouncer.TokenUse.StopTimer` | service/token_use_debouncer.go:192-202 | disarms the current timer |
| `TokenUseDebouncer.TokenUse.Record` | service/token_use_debouncer.go:75-86 | keeps the use and schedules; id 0 and a retired debouncer are ignored |
| `TokenUseDebouncer.TokenUse.Bounce` | service/token_use_debouncer.go:100-132 | a callback turned away at the gate re-arms only in its own epoch |
| `TokenUseDebouncer.TokenUse.TimerCircuitOpen` | service/token_use_debouncer.go:220-237 | a callback stops when stale or when the failure circuit is open, in which case it re-arms |
| `TokenUseDebouncer.TokenUse.TakePending` | service/token_use_debouncer.go:180-190 | only a callback of the current epoch takes the pending uses |
| `TokenUseDebouncer.TokenUse.FlushTake` | service/token_use_debouncer.go:138-178 | a flush takes all pending uses and starts a new epoch |
| `TokenUseDebouncer.TokenUse.MergeLocked` | service/token_use_debouncer.go:269-275 | the loop keeps for each token the strictly newer update, else the pending one |
| `TokenUseDebouncer.TokenUse.RequeueAfterWriteError` | service/token_use_debouncer.go:239-252 | a failed batch is merged back, the circuit is open until the end of the backoff, older callbacks are void and a timer is armed |
| `TokenUseDebouncer.TokenUse.CloseFailureCircuit` | service/token_use_debouncer.go:254-267 | a success closes the circuit and re-arms a delayed timer |
| `TokenUseDebouncer.TokenUse.Reschedule` | service/token_use_debouncer.go:100-132 | after a timer flush a timer is armed if anything is pending |
| `TokenUseDebouncer.TokenUse.Retire` | service/token_use_debouncer.go:192-202 | retires, drops what is pending and disarms |
| `TokenUseRuns.RunAwake` | service/token_use_debouncer.go:75-267 | every step keeps the relation of pending uses, epoch, timers and callbacks |
| `TokenUseRuns.NoLostWakeup` | service/token_use_debouncer.go:75-132 | in every run pending uses imply exactly one live timer, armed or running, in the current epoch |
| `TokenUseRuns.StaleCallbackInert` | service/token_use_debouncer.go:100-132 | a callback of an earlier epoch takes and changes nothing, whichever step it is at |
| `TokenUseRuns.RunGateKept` | service/token_use_debouncer.go:277-334 | an exclusive holder of the gate is alone in every run |
| `TokenUseRuns.RunSilent` | service/token_use_debouncer.go:192-202 | once retired with no batch in flight it stays so |
| `TokenUseRuns.RetiredHandsNothing` | service/runtime.go:197-217 | after a reset retires the debouncer nothing more is ever handed to the database |
| `TokenUseKept.StepMoves` | service/token_use_debouncer.go:138-275 | every step moves updates between pending, batches and the table, and drops none on the way |
| `TokenUseKept.StepKeepsIff` | service/token_use_debouncer.go:239-275 | a step other than a new use loses the update looked for exactly when a merge lets the only copy give way or a write stores over it; nothing lost comes back |
| `TokenUseKept.LastUseKeptIff` | service/token_use_debouncer.go:75-275 | after every run without a reset, whatever the clocks read, the last use of a token (as a whole, or its time) is pending, on its way or stored exactly when no step has lost it since it was recorded |
| `TokenUseKept.AlwaysKeptIff` | service/token_use_debouncer.go:75-275 | it is kept after every prefix of a run exactly when no step of the run loses it |
| `TokenUseKept.RunBounded` | service/token_use_debouncer.go:75-275 | with clocks that do not go back nothing kept is later than the last use |
| `TokenUseKept.TimeLostIff` | service/token_use_debouncer.go:269-275 | then the time of the last use is lost exactly when an earlier use is stored over the only row that has it |
| `TokenUseKept.LatestUseConserved` | service/token_use_debouncer.go:239-275 | then, with no earlier use stored over a later one, the time of the last use is never lost |
| `TokenUseKept.NewestConservedWithoutTies` | service/token_use_debouncer.go:269-275 | and if no requeue or write meets another update of the same time, neither is the update itself |
| `TokenUseKept.NewestUpdateConserved` | service/token_use_debouncer.go:269-275 | with strictly increasing times whatever keeps the time of the last use keeps its address |
| `TokenUseKept.OneBatchKeepsNewest` | service/token_use_debouncer.go:138-275 | as long as no two batches are on their way at once the last use itself is never lost: ties, partial and failed writes do no harm |
| `TokenUseKept.TieLosesNewest` | service/token_use_debouncer.go:100-132 | from every start that does not already store the last use, two timers that overlap, on two uses in one second, lose it when both writes fail |
| `TokenUseKept.LateWriteLosesLatest` | service/token_use_debouncer.go:204-211 | from every start two timers that overlap leave the earlier use stored when their writes get through in the other order |
| `TokenUseCircuit.StoppedDuringBackoff` | service/token_use_debouncer.go:213-252 | after a failed write at `now` a current callback is stopped exactly before `now + failureBackoff` |
| `TokenUseCircuit.RearmedForBackoff` | service/token_use_debouncer.go:213-252 | the timer armed after a failure waits for the backoff, under the new epoch |
| `TokenUseCircuit.SuccessLiftsCircuit` | service/token_use_debouncer.go:254-267 | after a success no current callback is stopped, and what is pending waits for the interval only |
| `TokenUseCircuit.FirstUseArms` | service/token_use_debouncer.go:75-98 | the first use after a quiet time arms a timer for the interval, or for the rest of a backoff |
| `TokenUseCircuit.BackoffHolds` | service/token_use_debouncer.go:100-252 | in every run, from a requeued failure to the next outcome, a callback that looks at the circuit only before the backoff is over takes nothing to write |
| `TokenUseCircuit.BackoffEnds` | service/token_use_debouncer.go:100-190 | a current callback that looks after the backoff takes everything pending |
| `TokenUseCircuit.OneArmedTimer` | service/token_use_debouncer.go:75-267 | in every run at most one timer is armed, the one the debouncer would stop, so a stopped timer never fires |
| `TokenUseCircuit.QuietUntilResumed` | service/token_use_debouncer.go:283-334 | in every run from the start of a stop to the next resumption only that stop or a reset takes anything to write |
| `TokenUseCircuit.ResumeReopens` | service/token_use_debouncer.go:326-334 | a resumption lets timer callbacks and flushes through the gate again |
| `AuditWriter.Writer.constructor` | service/audit_writer.go:50-70 | starts empty, with the defaults for non-positive sizes |
| `AuditWriter.Writer.Push` | service/audit_writer.go:126-144 | the queue never outgrows its capacity, one drop is counted when it is full, and a stopped writer takes nothing |
| `AuditWriter.Writer.PopBatch` | service/audit_writer.go:246-261 | takes the oldest events in order, up to the limit |
| `AuditWriter.Writer.RestoreBatch` | service/audit_writer.go:307-321 | the batch returns to the front; every event is kept or counted as dropped |
| `AuditWriter.Writer.DrainPending` | service/audit_writer.go:323-330 | hands the whole queue over and leaves it empty |
| `AuditWriter.Writer.FlushRemaining` | service/audit_writer.go:263-275 | what was written and what is left is the queue, in order; only a failed write leaves anything |
| `AuditWriter.OverflowVictim` | service/audit_writer.go:146-156 | the loop finds the oldest event of severity "" or "info", else refuses a newcomer of such a severity, else names the oldest |
| `AuditWriter.Successor` | service/runtime.go:168-181 | the loop pushes the events left, in order, into a new writer |
| `AuditQueue.Victim` | service/audit_writer.go:146-160 | who gives way in a full queue, by severity and age |
| `AuditQueue.PushKeepsOrder` | service/audit_writer.go:126-144 | a push keeps the capacity and the order of everything before and in the queue |
| `AuditQueue.PushKeepsWarnings` | service/audit_writer.go:126-156 | the number of warnings never falls; it stays put only for a low-priority newcomer or in a full queue of warnings, where the oldest goes |
| `AuditQueue.PushBySeverity` | service/audit_writer.go:126-160 | what a push leaves, by severity: room takes the event; a full queue gives up its oldest event of severity "" or "info"; with none such, a newcomer of such a severity is refused and any other replaces the oldest |
| `AuditQueue.PushKeepsSerious` | service/audit_writer.go:126-160 | no push lowers the number of events of any other severity than "" and "info" |
| `AuditRuns.RunAccounted` | service/audit_writer.go:176-330 | in every run of pushes, pops, write outcomes, retries, stop, drains and replacements, written, held, queued and drained events form, in order, a subsequence of what was offered and the rest is counted as dropped; after the first drain the loop has at most the batch it held |
| `AuditRuns.SuccessorGetsRemainderIff` | service/audit_writer.go:76-86 | for any number of stop callers, waiting or not, started writer or not: once the loop has ended every event is written, counted as dropped or with the successor if and only if the installer drained first (or the first drained nothing) and no write failed for good after the first drain (or the installer drained what was put back) |
| `AuditRuns.PatientLeavesNoStray` | service/audit_writer.go:176-199 | if every caller drains only after the loop has ended, nothing is put back after the first drain |
| `AuditRuns.OneCallerIsFirst` | service/audit_writer.go:76-86 | a single caller is always the first to drain and nobody drains after it |
| `AuditRuns.OneCallerLosesIff` | service/audit_writer.go:76-86 | one caller with any deadline loses events exactly when some step of the run is a write that fails for good after the first drain, and never if it waited for the loop |
| `AuditRuns.DeadlineLosesBatch` | service/audit_writer.go:196-197 | a run in which the deadline of the only caller passes during a write and its batch is lost |
| `AuditRuns.RaceLosesRemainder` | service/runtime.go:168-181 | a run of two callers on a writer that was never started which loses what was queued |
| `MfaStore.Store.BeginEnrollment` | service/mfa.go:96-151 | stores the pending secret, keeps the active one and deletes the unacknowledged codes |
| `MfaStore.Store.ReplaceCodes` | service/mfa.go:384-409 | the loop replaces the rows of one generation and no other |
| `MfaStore.Store.ConfirmEnrollment` | service/mfa.go:153-212 | succeeds only on an unexpired pending secret the row still holds; stages codes of the next generation |
| `MfaStore.Store.AcknowledgeRecoveryCodes` | service/mfa.go:214-260 | promotes the staged secret and codes and raises the MFA generation |
| `MfaStore.Store.VerifyTotp` | service/mfa.go:262-291 | accepts a code only past the last counter of the secret the row still holds |
| `MfaStore.Store.ConsumeRecoveryCode` | service/mfa.go:293-317 | accepts an unused code of the current generation and marks it used |
| `MfaStore.Store.RotateRecoveryCodes` | service/mfa.go:319-356 | stages codes for the next generation if the generation is still the one read |
| `MfaStore.Store.Disable` | service/mfa.go:358-369 | removes the factor and its codes and raises the MFA generation by one |
| `MfaRuns.TotpOneTime` | service/mfa.go:153-291 | whatever outdated row each call read, the counters accepted for a secret strictly increase: no code works twice, the confirming one included |
| `MfaRuns.RecoveryAtMostOnce` | service/mfa.go:153-356 | whatever outdated row each call read, no recovery code is accepted twice |
| `MfaRuns.RecoveryOneTime` | service/mfa.go:214-317 | after all sequences of whole calls the factor is consistent and every recovery code accepted came from an acknowledged set |
| `MfaRuns.ConsumedAgainIff` | service/mfa.go:293-317 | a used code is refused from then on unless the clock read 0 |
| `MfaRuns.UnfinishedRotationHarmless` | service/mfa.go:96-356 | however far an unacknowledged rotation gets, the old secret and codes work as before |
| `MfaRuns.StaleBeginIff` | service/mfa.go:96-151 | an enrollment acting on an outdated row keeps the factor consistent exactly when that row still tells whether a secret is active and which stored codes are unacknowledged |
| `MfaRuns.StaleBeginKeepsUseIff` | service/mfa.go:112-148 | an enrollment begun on an outdated row leaves the secret and codes in use alone exactly when that row had a secret and its pending codes have not become the codes in use |
| `MfaRuns.RunBacked` | service/mfa.go:96-369 | in every run with outdated reads of rows once stored, a factor has a code generation only with an active secret |
| `MfaRuns.StaleRotateHarmless` | service/mfa.go:319-356 | hence a rotation of the codes on an outdated row always finds an active secret, keeps consistent rows consistent and the secret and codes in use untouched |
| `MfaRuns.StaleConfirmIsCurrent` | service/mfa.go:153-212 | a confirmation that acts on an outdated row does what it would do on the current one |
| `MfaRuns.StepConsistentIff` | service/mfa.go:96-369 | from a consistent factor a step of any call on any row once stored breaks it exactly when it begins an enrollment on a read that does not fit any more |
| `MfaRuns.InterleavedConsistentIff` | service/mfa.go:96-369 | however the reads and transactions of all calls interleave, the factor stays consistent all along exactly when no enrollment begins on such a read |
| `MfaRuns.EnrollingReachesAcknowledgement` | service/mfa.go:96-212 | from all consistent rows beginning and confirming reach the state the next two start from |
| `MfaRuns.BeginAfterAcknowledgeDropsCodes` | service/mfa.go:112-148 | read, acknowledge a rotation, begin: the codes just acknowledged are gone and the rows still look consistent |
| `MfaRuns.BeginAfterFirstAcknowledgeTurnsOff` | service/mfa.go:112-148 | read, acknowledge the first enrollment, begin: the second factor is no longer asked for |
| `MfaRuns.BeginAfterDisableLocksOut` | service/mfa.go:112-148 | read, disable, begin: a second factor is asked for that no code meets |
| `MfaSessions.GenerationStep` | service/mfa.go:214-369 | for all rows the MFA generation rises by one exactly at a disable and at an acknowledgement that is accepted |
| `MfaSessions.RunGeneration` | service/mfa.go:96-369 | however reads and transactions interleave, the generation is what it was plus one for each of them |
| `MfaSessions.CallsEndSessions` | service/mfa.go:214-369 | a session minted before a run with such a call is not accepted after it |
| `MfaSessions.ConfirmWithinTenMinutes` | service/mfa.go:96-212 | an enrollment can be confirmed exactly within ten minutes of its begin |
| `MfaSessions.AcknowledgeWithinTenMinutes` | service/mfa.go:214-356 | rotated codes can be acknowledged exactly within ten minutes |
| `MfaSessions.AcknowledgeAfterConfirm` | service/mfa.go:153-260 | the codes of an enrollment can be acknowledged exactly until it expires |
| `MfaSessions.RunMarks` | service/mfa.go:96-369 | in every run codes that wait for their acknowledgement are not marked as acknowledged |
| `MfaSessions.CodeAcceptedIff` | service/mfa.go:262-291 | a time step is accepted exactly if the row read and the row found are in use under one secret and the step is past the last of both |
| `MfaSessions.RecoveryAcceptedIff` | service/mfa.go:293-317 | a recovery code is accepted exactly if the factor is in use and the code is stored unused under its generation; then it alone is used |
| `MfaSessions.ConfirmationAcceptedIff` | service/mfa.go:153-212 | a confirmation is accepted exactly on an unexpired secret awaiting its code, in the row read and in the row found alike |
| `MfaSessions.BeginDeletes` | service/mfa.go:96-151 | beginning deletes exactly the codes of the generation that was waiting in the row read |
| `MfaSessions.FirstEnrollment` | service/mfa.go:96-260 | begin, confirm and acknowledge from nothing: the secret is active, its confirming step used, its codes unused, nothing pending, the MFA generation one higher |
| `MfaSessions.NextEnrollment` | service/mfa.go:96-260 | from an active factor the same calls replace secret, counter and codes under the next generation |
| `MfaSessions.CodesRotated` | service/mfa.go:214-356 | rotating and acknowledging keeps the secret and its counter and replaces the codes |
| `SessionWindow.ChooseDurations` | api/session.go:71-95 | the overrides one after another give the durations of the login's kind |
| `SessionWindow.SecuritySession.ValidateAndTouch` | web/session_store.go:362-399 | valid exactly as `RequestAcceptedIff` says, from the rows read: state, user, both generations and the expiries; the window moves by compare-and-set on the stored stamp |
| `SessionWindow.SecuritySession.Save` | web/session_store.go:213-236 | writes the stamp of the saved values and lifts a revocation |
| `SessionCheck.RequestAcceptedIff` | web/session_store.go:337-399 | a request is accepted exactly if its claim is the stored one, the user row accepts its generations (`Generations.Accepts`), and the session is neither revoked nor past one of its three expiries |
| `SessionCheck.RefusedAfterChange` | web/session_store.go:337-399 | in every run of credential and factor changes in which no save finds its credential generation changed, a session minted before a change is refused after it, whatever its row says |
| `SessionCheck.AcceptedWithoutChange` | web/session_store.go:337-399 | without a change it is accepted exactly while it is live |
| `SessionCheck.NewSessionLiveIff` | api/session.go:71-151 | a new session is live for 30 idle minutes, 15 for a password reset, 10 while a second factor is awaited |
| `SessionCheck.AbsoluteLifetime` | api/session.go:71-151 | it ends for good after 12 hours, or after 7 days if remembered |
| `SessionCheck.LegacySessionLiveIff` | api/session.go:71-151 | how long a session under an explicit legacy age is live |
| `SessionCheck.UnboundedSessionLiveIff` | api/session.go:71-151 | a session without bounds lives on, for 7 days if remembered |
| `SessionCheck.TouchMovesIff` | web/session_store.go:362-399 | a live request moves the window exactly if the last recorded one is a minute old; the new window is as long, up to the absolute expiry |
| `SessionCheck.SlowerTouchLoses` | web/session_store.go:362-399 | a touch that read an older stamp, or a revoked row, changes nothing |
| `SessionWindow.StepKeepsRevokedIff` | web/session_store.go:213-236 | a step lifts a revocation exactly when it saves session values; a revoked session is never live |
| `SessionWindow.RevokedStays` | web/session_store.go:318-330 | a revoked session stays so, and is never live, in every run without such a save |
| `SessionWindow.RunSound` | web/session_store.go:337-400 | every stored or remembered stamp keeps the window length of the login |
| `SessionWindow.IdleExpiryClosedForm` | web/session_store.go:362-399 | over concurrent touches, saves and revocations the idle expiry is the smaller of last seen plus the login's window and the absolute expiry |
| `SessionWindow.ClosedAtLoginIff` | api/session.go:137-151 | that form holds at login exactly when the idle expiry is not past the absolute one |
| `SessionWindow.LoginStartsClosedIff` | api/session.go:71-151 | a login starts in that form exactly when it is not remembered, fully authenticated and under an explicit legacy age that ends, in seconds, after seven days |
| `SessionWindow.LongLegacyLoginStartsOpen` | api/session.go:71-95 | a remembered, authenticated login under an explicit legacy age a second or more past seven days does not |
| `SessionWindow.WindowIsPositive` | web/session_store.go:362-399 | the fallback for a window that is not positive is never reached |
| `SessionWindow.ClampIsPermanentIff` | web/session_store.go:362-399 | an idle expiry clamped to the absolute one stays there through all reads, touches, saves and revocations exactly when none of them saves session values kept from before the clamp |
| `SessionWindow.StepKeepsClampIff` | web/session_store.go:213-236 | a single step leaves the clamp exactly when it is such a save |
| `SessionWindow.SaveUndoesClamp` | web/session_store.go:213-236 | a run in which a request saves the values it loaded before another one clamped the row |
| `SessionWindow.DeadAtAbsoluteExpiry` | web/session_store.go:337-400 | no run keeps a session alive at or past its absolute expiry |
| `Generations.UserRow.SaveFirstUser` | service/user.go:57-97 | the stored row becomes the row that was read with its credential counted up, or a first row |
| `Generations.UserRow.ChangeCredential` | service/user.go:390-601 | counts up only if the name is free and the generations and stored hash it compares are still those read; only a recovery touches the MFA one |
| `Generations.UserRow.MigrateHash` | service/user.go:122-143 | a login upgrades the hash and counts up only if the stored hash is still the one verified |
| `Generations.UserRow.BumpMfa` | service/mfa.go:214-260 | the MFA generation counts up, with wrap-around |
| `Generations.EndsSessionsIff` | service/user.go:636-641 | a change made in one transaction fails to end sessions exactly when the generation it counts was stored as 0 |
| `Generations.GoesBackIff` | service/user.go:337-601 | a generation goes back exactly at the end of the 64-bit range |
| `Generations.StaleSaveGoesBackIff` | service/user.go:57-97 | saving an outdated first user takes a generation back exactly when the row has moved past what it writes |
| `Generations.SaveEndsSessionsIff` | service/user.go:57-97 | saving the first user ends the sessions of the current row exactly when the row it writes differs from it in a generation |
| `Generations.SaveRevivesIff` | service/user.go:57-97 | after such a save further changes can make a session of the replaced row valid again exactly when the credential had changed since the read and the MFA generation had not gone back |
| `Generations.EarlierSessionIff` | api/session.go:194-226 | after every run of reads, saves and changes, outdated saves included, an earlier session validates exactly when its generations are those last saved plus the changes counted since |
| `Generations.SessionsStayEnded` | api/session.go:194-226 | if no save finds its credential generation changed, no session minted before a change or save validates after it |
| `Generations.LegacyStaysEnded` | api/session.go:194-226 | a session without generations is ended for good by the first change or save, outdated saves included |
| `Generations.LegacyAcceptedIff` | api/session.go:194-226 | a session without generations is accepted exactly at the first generations and without a forced reset |
| `Generations.ResetForcedIff` | service/user.go:57-601 | after every run a reset is forced exactly if it was demanded, or was at the start, and no password was set since |
| `Generations.RunRaises` | service/user.go:57-601 | if every save finds both generations it read, neither ever goes back |
| `Generations.SaveAfterChangeEndsNothing` | service/user.go:57-97 | one password change between read and save: the save raises nothing and sessions survive it |
| `Generations.SaveAfterTwoChangesRevives` | service/user.go:57-97 | two changes between: a session the second one ended is valid again |
| `Traffic.NewBuckets` | service/stats.go:405-419 | the loop makes one empty bucket per span, with 64-bit arithmetic |
| `Traffic.TilesIff` | service/stats.go:366-419 | for every request the buckets are contiguous, cover the window and do not overlap, exactly when it ends after 1970 and stays within 64 bits |
| `Traffic.LastSecondDoesNotTile` | service/stats.go:405-419 | a window at the end of the range that does not tile |
| `Traffic.WindowAsRequested` | service/stats.go:366-403 | the window ends at the requested time or now, is the requested hours long unless it reaches 1970, and its span is the least that covers it with the requested number of buckets, each with its default and bound |
| `Traffic.SampleInItsBucket` | service/stats.go:94-96 | the bucket the query computes for a sample contains its time |
| `Traffic.GroupsAddUp` | service/stats.go:421-432 | grouped rows add up to the samples of their direction |
| `Traffic.OneSampleCounts` | service/stats.go:421-432 | an inbound sample counts in its direction exactly if its time is in the window |
| `Traffic.OneRowFills` | service/stats.go:434-450 | a row adds its traffic to one side of its own bucket and to nothing else |
| `Traffic.ApplyRows` | service/stats.go:434-450 | the loop adds each row to its bucket and total, ignoring rows outside |
| `Traffic.FillConserves` | service/stats.go:434-450 | the buckets gain exactly what the rows carry |
| `Traffic.SummaryConserves` | service/stats.go:366-450 | in each direction buckets, reported total and samples in the window agree, for every window |
| `ClientTraffic.AccumulatedIsSum` | service/stats.go:187-198 | the accumulated delta of a client is the sum of its samples |
| `ClientTraffic.OneSampleCounts` | service/stats.go:187-198 | a sample counts for the user it names, in its direction, and for nobody if it is not a user's or names none |
| `ClientTraffic.Accumulate` | service/stats.go:187-198 | the loop accumulates every sample |
| `ClientTraffic.NonzeroIds` | service/stats.go:241-291 | lists each client with a change once |
| `ClientTraffic.UpdateDeltas` | service/stats.go:241-291 | across batches every client gains its delta exactly once |
| `ClientTraffic.SaveTraffic` | service/stats.go:187-291 | each counter grows by the sum of its client's samples and nothing else |
| `TokenSnapshot.BuiltIsLast` | api/apiV2Handler.go:319-322 | the map holds the last listed token of each hash and no other hash |
| `TokenSnapshot.TokenCache.BeginReload` | api/apiV2Handler.go:296-301 | a reload clears all tokens and takes a new revision |
| `TokenSnapshot.TokenCache.Publish` | api/apiV2Handler.go:319-327 | the loop builds the map; it becomes visible only for the newest reload |
| `TokenSnapshot.TokenCache.FirstRead` | api/apiV2Handler.go:232-245 | finds a token that is present, enabled and unexpired |
| `TokenSnapshot.TokenCache.SecondRead` | api/apiV2Handler.go:252-258 | confirms an unchanged revision and token |
| `TokenSnapshot.SnapshotIsCurrent` | api/apiV2Handler.go:296-328 | over all overlapping reloads and table edits the visible tokens are none, or a load made after the newest reload began |
| `TokenSnapshot.RevisionTellsReloads` | api/apiV2Handler.go:296-301 | two equal revisions mean exactly that no reload began between |
| `TokenSnapshot.SnapshotStands` | api/apiV2Handler.go:323-327 | a visible snapshot stays the same until the next reload begins |
| `TokenSnapshot.AuthorizesIffNoReload` | api/apiV2Handler.go:222-270 | a usable, confirmed token authorizes exactly when no reload began between the two reads, and then the table held it after the newest reload began |
| `Reorder.ParseTags` | service/reorder.go:157-168 | refuses a blank requested tag |
| `Reorder.CollectTags` | service/reorder.go:204-220 | accepts exactly arrays of objects with distinct, non-blank tags; else names the first fault |
| `Reorder.ValidateTags` | service/reorder.go:233-252 | accepts exactly the duplicate-free permutations of the current tags; else names the first fault |
| `Reorder.Pick` | service/reorder.go:225-228 | the same items in the requested order |
| `Reorder.Pigeonhole` | service/reorder.go:233-252 | equally many distinct values from the current tags are all of them, once each |
| `Reorder.OrderDetermines` | service/reorder.go:225-229 | items and tag order determine the reordered array |
| `Reorder.ConfigDocument.ReorderArray` | service/reorder.go:197-231 | succeeds exactly on a permutation and writes it in place; a refusal names its reason and at most adds the empty section |
| `Reorder.ConfigDocument.PreserveDnsFinal` | service/reorder.go:287-306 | names the first server as final when none is named; fails only on a first entry that is no object |
| `Reorder.ConfigDocument.Reorder` | service/reorder.go:121-145 | a DNS reorder succeeds exactly on a permutation and keeps the default server and every other field; rule sets likewise |
| `Reorder.ReorderKeepsDefault` | service/reorder.go:131-138 | naming the final server first makes every accepted order keep the default server |
| `Reorder.ReorderUndone` | service/reorder.go:197-231 | asking for the original order restores the original array |
| `Reorder.RefusalNamesFault` | service/reorder.go:204-220 | the reason given for a wrong array is what is wrong with its first bad item: no object, a tag of white space only, or a tag seen before |
| `Reorder.RefusalNamesLength` | service/reorder.go:233-236 | a request of another length is refused with both lengths |
| `Reorder.RefusalNamesTag` | service/reorder.go:237-251 | otherwise the reason is the first requested tag that is repeated or unknown |
| `Reorder.OneFault` | service/reorder.go:204-220 | a wrong array has exactly one first fault of one kind |
| `Hub.Registry.constructor` | realtime/hub.go:40-46 | starts empty |
| `Hub.Registry.Reserve` | realtime/hub.go:68-86 | counts both keys up, or neither when a positive cap is reached |
| `Hub.Registry.Release` | realtime/hub.go:173-182 | counts both keys down, never below 0 |
| `Hub.Registry.Register` | realtime/hub.go:88-102 | a client with a channel is registered under a new identity |
| `Hub.Registry.Unregister` | realtime/hub.go:104-111 | removes the client without a callback |
| `Hub.Registry.CloseSession` | realtime/hub.go:114-130 | removes the clients of the session and lists each once; an empty reference closes nothing |
| `Hub.Registry.CloseAll` | realtime/hub.go:159-171 | removes every client and lists each once |
| `Hub.Registry.Drop` | realtime/hub.go:196-206 | only the caller that removes a client may tell it |
| `Hub.Registry.Publish` | realtime/hub.go:132-157 | exactly the slow clients of the topic's audience are dropped, each listed once |
| `Hub.CountsAfterRelease` | realtime/hub.go:173-182 | an outstanding reservation finds the counters of its user and address above 0 |
| `Hub.CountersAreReservations` | realtime/hub.go:68-86 | in every run both counters equal the outstanding reservations of each user and address |
| `Hub.ReleaseNeverClamped` | realtime/hub.go:173-182 | in no run is the guard against negative counters needed |
| `Hub.CapsHold` | realtime/hub.go:68-86 | under fixed positive caps no user and no address ever holds more |
| `Hub.GrantedIff` | realtime/hub.go:68-86 | in every run a reservation is granted exactly while its user and its address hold fewer than their caps; a cap that is not positive is none |
| `Hub.AudienceIs` | realtime/hub.go:184-194 | a topic for administrators goes to them only, any other to everyone |
| `Hub.ClosesTheSession` | realtime/hub.go:114-130 | closing a session removes exactly its clients and owes each one callback; an empty reference closes none |
| `Hub.ClosedStaysClosed` | realtime/hub.go:114-130 | a closed session has no client in any later run that registers none for it |
| `Hub.DroppedExactlyOnce` | realtime/hub.go:88-212 | in every run each registered client is registered, has left, is owed one drop callback or has had exactly one |

## Left out

- HTTP handlers, JSON text, cryptography, hashing and sealing, password checks, clocks and randomness: parameters or left out.
- SQL beyond the conditions of each statement; a transaction is one event, and a failed one is an event of its own.
- Timers are armed, fired or stopped in any order; nothing is said about how soon.
- Wrap-around at 64 bits of the revisions, epochs and batch numbers of the monitor, the debouncer and the token snapshot.
- Overflow of traffic sums and counters, and how SQLite stores a generation past 63 bits.
- The limit itself with a `WarmUp` after start or a plain `Record` of the client: the source does not promise it for them (`ipmonitor/policy.go:145-161`, `ipmonitor/record.go:5-22`); cache agreement covers both.
- The loop of `loadActiveEnforceEntries` that builds the warm-up entries; the run takes its result, with the salt it checks first at hand for every row.
- The recent-history address count, security-event publishing and the drop marker of the audit log.
- `downsampleStats`, other statistics queries, `preserveImplicitRouteFinal` and the reorder of database tables: easy members or other files.
- Reading TOTP digits: a code is the time step it matched.
- Frame building and size limits of realtime events; a client's channel is either full or not.
- LimitHolds: needs concurrent loads of one client to be one load, as the code's single-flight group makes them, and starts from a history within the bound.
- AcceptedNeverLost: a batch is not written to a database that replaced its own, which the maintenance lock of the source excludes.
- LastUseKeptIff: runs without a reset, because a reset drops what its own write fails to save; a write counts as stored when it succeeds, also for a token deleted meanwhile.
- StaleBatchInert: assumes that a transaction begun before a database was replaced does not write to its successor, which the maintenance lock of the source excludes.
- SummaryConserves: sums are unbounded integers; overflow of a 64-bit sum is not modelled.
- RecoveryOneTime: each service call is one step; RecoveryAtMostOnce and InterleavedConsistentIff cover calls that interleave.
- SessionsStayEnded: rows are away from the end of the 64-bit range, where GoesBackIff says what happens.
