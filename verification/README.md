# Native-key policy engine: a Dafny model

This project models the part of the access guard that decides which credentials a host API key may
use, remembers how those decisions were changed, counts what each key spends, and rotates the
credentials that serve it. Everything is stated about the Go code under `internal/policy` and
`internal/plugin`; where that code and its comments differ, the code is followed.

Parts, from the bottom up:

- `Text`, `Options`: strings in Go's byte order, sorting, trimming, lower-casing.
- `AuthIDs`, `Restrictions`: auth-ID lists in normal form, their encoding in a group string, and what a
  persisted restriction means.
- `Bindings`, `History`, `Planner`, `Operations`: bindings, the undoable log, the two planners and
  the commit, as functions from state to state.
- `Requests`, `Selections`, `Conflicts`, `Retention`: which requests are taken up, what a batch makes of each
  key, when a rollback refuses and what else it gives, and how long an operation stays in the log.
- `Undo`, `UndoRedo`, `Revisions`, `Markers`, `Marking`: what holds of whole runs of batches and rollbacks, and
  which older operations a rollback marks as reverted.
- `OneKey`, `PolicyDrift`, `Misplaced`: small concrete steps and runs, and the two results they show.
- `Store`: the same planners and commit as methods that loop over and update a store's fields, each
  proved equal to its function.
- `Persistence`, `Durability`, `Completion`: the writers of the state file as threads taking one step at a
  time under `updateMu`, `persistMu` and the ledger lock, and what each has done once it is through.
- `Ledger`, `LedgerLog`, `FirstUse`, `LedgerAliases`, `Limiter`, `Quota`, `Overshoot`, `LateBills`: usage
  windows, the per-minute allowance, the gate built on both, the quota reset, and how far spending can pass a limit.
- `Rotation`, `Recency`, `RoundRobin`, `Cursors`, `ModelAccess`, `Scheduler`, `Turns`: choosing a credential.
- `Pricing`, `Catalog`, `AliasRefs`: the merge of two price sources, and alias references.

How the surroundings enter the model: SHA-256 digests (caller scopes, fingerprints, revisions) are
injective, so the digested values are compared themselves; operation IDs drawn at random are fresh;
instants and dollar amounts are integers; the encoded size of the log and of a plan is an arbitrary
function of their contents; writing a file replaces it completely or fails and changes nothing. The
normalisation of model lists that planners and commits apply again is a parameter of the undo log
(`History.Codec`), so that its theorems hold for every such function; `PolicyDrift` puts in the real one.

What the operations come to, said of their inputs alone:

- A rollback reports each conflict for exactly one reason, told from the live bindings and the recorded changes
  (`Conflicts.PlanExactly`), and what it gives every scope is told the same way (`Conflicts.RollbackGives`). Over
  every run, edits included, it removes a binding only if that has the ID, the settings and the creation time it was
  created with (`Conflicts.RunRemovesOnlyUnedited`).
- An applied operation stays in the log exactly while every later one leaves room for it, which is for fifty
  operations if sizes do not matter (`Retention.RetainedExactly`, `Retention.AvailableExactly`).
- A binding that rotates answers the lowest eligible credential above its route's last answer, and never one of them
  twice before each other that stayed eligible (`Scheduler.App.PickScheduler`, `Turns.NoSecondTurn`).
- A report, and every alias's row, is a sum over the records: those of the present day and period for an account that
  was reset (`LedgerLog.SummaryIsLog`), those in a row under any clock for one that was not (`FirstUse.SummaryIsRow`).
  The gate refuses by what a report would show (`Quota.GateExactly`), and for its rate exactly the requests that have
  rpm others before them in the minute (`Limiter.AdmittedExactly`).
- After a synchronisation the row of an ID is the one on offer where nothing stands against it, and else the one from
  before (`Pricing.OfferedFills`, `Pricing.OthersStayExactly`).
- Once a thread is idle again after a save, an edit, a batch, a rollback or a reset that was not refused, file and
  memory show its effect if the disk worked when it wrote, and none of it if not (`Completion.MutationTakesEffect`,
  `Completion.ResetTakesEffect`).

Results where the code does less than one might expect, each with the input that shows it:

- Every commit normalises the model lists of all bindings again, not only of those it is about, and
  canonicalising a name is not idempotent. A binding that a commit does not mention comes out unchanged if
  and only if every entry of its list is its own canonical form (`PolicyDrift.UntouchedStaysExactly`).
  Rollback, undo and redo are exact where that holds of all lists, which runs preserve
  (`Undo.RunStaysTidy`). A name with three suffixes in parentheses is lost to a batch about another key,
  and undoing the batch does not bring it back (`PolicyDrift.NameIsLost`, `PolicyDrift.UndoLeavesItLost`).
  A provider named with the channel prefix twice is accepted once, and while its binding lives no batch
  can be applied (`PolicyDrift.NothingCommits`, `PolicyDrift.BatchIsRefused`).
- For a list as such: normalising it again keeps every answer to requests that name a provider if and only
  if each name's twice canonical form is complete and canonical (`ModelAccess.NormalisingAgainKeepsExactly`).
- Undoing a rollback at once restores every marker that the rollback changed. Which other records keep
  theirs can be read off the log beforehand (`Markers.MarkerRestoredExactly`). When the rollback's source was
  itself a rollback the undo can mark an older record that was not marked before: `Misplaced.RunMisplacesMarker`
  is a run of six operations that ends so. A rollback of a batch never does this
  (`Markers.UndoOfBatchRollbackRestoresAll`).
- Across a reconfiguration the state file can count a record that the live ledger has dropped
  (`Durability.FileCanLeadAfterReconfigure`). The file and all pending writes stay behind the ledger at
  every moment of a run if and only if each reconfiguration publishes while what it loaded covers the file
  and the sample of a pending flush (`Durability.LagsThroughoutExactly`).
  What the file holds of bindings and history is exactly the live pair, or that of the mutation in flight, at
  every moment of a run if and only if every reconfiguration loads a pair that loading leaves as it is
  (`Durability.ExactThroughoutExactly`); otherwise it still loads as the live one.
- The limiter admits at most 2·rpm − 1 requests in a half-open minute as long as no clock reading precedes
  the start of the bucket it meets (`Limiter.AtMostPerMinute`), and that many are possible
  (`Limiter.BoundIsReached`). With readings that do, a minute can admit any number
  (`Limiter.OutOfOrderUnbounded`), and one of them with its repetitions breaks the bound if and only if the
  minute it begins has rpm admissions already (`Limiter.BehindBreaksBound`).
- Whether spending can pass a dollar limit by more than slots times cap is decided by the times of requests
  and bills alone, whatever the clock does: it cannot if and only if at most slots bills reached the stored
  window since a request last read it (`LateBills.KeptExactly`). That holds while no bill is added to a
  window after a request was let through on reading another one (`LateBills.InTurnKept`), so with a clock in
  order (`LateBills.InOrderInTurn`), or if no bill falls in an earlier week than a request was sampled in
  (`LateBills.NoEarlierWeekInTurn`). Where a bill is out of turn, its reading and one of an earlier request,
  repeated, pass the limit by any amount (`LateBills.OutOfTurnPasses`); `LateBills.DayIsPassed` is a day
  that shows it.
- Per-alias daily rows add up to the account's day through a run, whatever the clock does, if and only if
  each record is of the day the account is on or of one that the aliases hold nothing of
  (`LedgerAliases.RunAddsUpExactly`); a report on another day adds up under the same condition
  (`LedgerAliases.ReportAddsUpExactly`), and else exceeds by what the aliases hold of it.
- A request naming only a provider that is canonically blank shares its cursor with one that names none
  (`Scheduler.RouteIgnoresOrder`, `Scheduler.PrefixAloneIsNone`).
- Saving a key with an empty list of rules drops no reference (`AliasRefs.EmptyListKeepsReferences`); the comment in
  `internal/policy/config.go` says that an explicit clear does.
- A key saved with its own expanded rules keeps table and references just when its references name each
  alias once and all are known (`AliasRefs.RoundTrip`), which any save establishes (`AliasRefs.SavedRoundTrips`).

## Model

| member | source | states |
|---|---|---|
| Text.SortStrings | internal/policy/native_keys.go:276-280 | The loop returns an ascending permutation of its input in Go's byte order. |
| Text.LessExactly | internal/policy/native_keys.go:276-280 | One string sorts before another if and only if they agree up to a place where it ends or has the smaller byte. |
| AuthIDs.NormalForm | internal/policy/native_keys.go:259-281 | A normalised list is strictly increasing and its members are exactly the trimmed, non-blank members of the input. |
| AuthIDs.NormalDependsOnMembersOnly | internal/policy/native_keys.go:259-281 | Lists with the same trimmed members normalise to the same list, whatever their order and repeats. |
| AuthIDs.NormalIdempotent | internal/policy/native_keys.go:259-281 | Normalising twice is normalising once. |
| AuthIDs.NormalizeAuthIDs | internal/policy/native_keys.go:259-281 | The loop with its seen-set returns that normal form. |
| AuthIDs.HexRoundTrip | internal/policy/native_keys.go:216-249 | Decoding the lower-case base16 of any byte string (section 8 of RFC 4648) gives it back. |
| Text.SplitJoin | internal/policy/native_keys.go:216-249 | Splitting at a separator undoes joining with it for parts without it. |
| AuthIDs.EncodingRoundTrip | internal/policy/native_keys.go:216-249 | Decoding an encoded list, also after the group was lower-cased, yields exactly its normal form when that is not empty. |
| AuthIDs.EncodingInjective | internal/policy/native_keys.go:216-249 | Two lists have the same encoding if and only if they have the same normal form. |
| AuthIDs.EncodedIsStable | internal/policy/native_keys.go:216-225 | Trimming and lower-casing an encoded group change nothing. |
| AuthIDs.EncodeAuthIDsGroup | internal/policy/native_keys.go:216-225 | The loop builds that encoding. |
| AuthIDs.DecodeAuthIDsGroup | internal/policy/native_keys.go:227-249 | The loop, with its early exits, decodes or rejects as the specification does. |
| AuthIDs.LegacyRewriteRecovers | internal/policy/native_keys.go:146-197 | A binding whose group was lower-cased and whose auth_ids were dropped loads as the very restriction that was saved. |
| AuthIDs.NormalizeIdempotent | internal/policy/native_keys.go:146-197 | Normalising a normalised restriction, list, tier or classify group, changes nothing. |
| Restrictions.UnhexExactly | internal/policy/native_keys.go:227-249 | A text decodes to a byte string if and only if it is that string in base16, in whatever letter case. |
| Restrictions.DecodeExactly | internal/policy/native_keys.go:227-249 | A group decodes to the normal form of the list it holds, and to nothing if it holds none or only blank IDs. |
| Restrictions.RejectedExactly | internal/policy/native_keys.go:146-197 | A restriction is rejected just for IDs beside a group of another kind, for having neither, and for a classification group without a name. |
| Restrictions.AcceptedIDsExactly | internal/policy/native_keys.go:146-197 | IDs given are kept in normal form; without any, those that the group holds; else none. |
| Restrictions.AcceptedGroupExactly | internal/policy/native_keys.go:146-197 | Without IDs the group stays, a classification group with its name trimmed; a marker whose list is lost stays a marker. |
| Restrictions.AcceptableExactly | internal/policy/native_binding_batch.go:603-608 | A restriction that a rollback would write is one that normalisation accepts if and only if it names a credential, a tier or a classification group; it then comes out as it is. |
| Planner.BatchDraftAccounts | internal/policy/native_binding_batch.go:398-439 | A batch's draft records exactly the differences between old and proposed bindings, one per scope and binding; a binding it changes has its model list normalised again and keeps all else but the restriction; IDs and scopes stay unique. |
| Planner.RollbackDraftAccounts | internal/policy/native_binding_batch.go:528-642 | So does a rollback's draft; without conflicts every scope of the operation ends at its recorded earlier restriction. |
| Requests.GoodInputExactly | internal/policy/native_binding_batch.go:271-376 | A batch request is in order if and only if it selects something, names a credential, keeps to all limits, and its indexes name keys of pairwise different scopes. |
| Requests.BatchRefusedExactly | internal/policy/native_binding_batch.go:328-449 | A batch is refused, always as invalid, exactly for such a request, for its size, or because normalisation rejects a binding it selects. |
| Requests.RollbackRefusedExactly | internal/policy/native_binding_batch.go:492-652 | A rollback is refused as unknown exactly if its request is in order and the log has no such operation, and as invalid for its request or its size. |
| Selections.PlanExactly | internal/policy/native_binding_batch.go:377-439 | Which conflicts a batch reports, and the planned binding of every scope, from the bindings before: a key without one gets one with default settings. |
| Selections.PlanRecordsExactly | internal/policy/native_binding_batch.go:398-439 | A batch records, by the keys' places in the catalog, one change for each key that gets the list: its binding's ID and labels, both restrictions, and the template of a new one. |
| Selections.BatchGives | internal/policy/native_binding_batch.go:692-814 | What an applied batch publishes for every scope, times included. |
| Conflicts.ConsultedExactly | internal/policy/native_binding_batch.go:513-522 | What a rollback goes by: the host's keys but for blank ones, the trimmed non-blank credentials on offer, the log and the rules. |
| Conflicts.FoundExactly | internal/policy/native_binding_batch.go:528-618 | The cascade of tests finds each conflict for exactly one reason, and else the earlier restriction on the binding it belongs to. |
| Conflicts.PlanExactly | internal/policy/native_binding_batch.go:492-652 | A rollback reports an incomplete catalog and, for each recorded change, the conflict that bindings and log from before call for, and nothing else; it changes just the scopes it does not report. |
| Conflicts.PlanRecordsExactly | internal/policy/native_binding_batch.go:618-646 | A rollback records, in the order of its source's changes, one change for each scope that it changes, with the labels of the live binding or else the recorded ones, and the template of a binding it removes or makes again. |
| Conflicts.OutcomeExactly | internal/policy/native_binding_batch.go:661-701 | Whether a rollback is denied, stale, conflicting, without effect or applied, from catalog, bindings and recorded changes. |
| Conflicts.RollbackGives | internal/policy/native_binding_batch.go:692-814 | What an applied rollback publishes for every scope. |
| Conflicts.RunRemovesOnlyUnedited | internal/policy/native_binding_batch.go:560-568 | Over every run, edits included: only a rollback of the operation that created a binding removes it, and only with the ID, settings and creation time it was created with. |
| Conflicts.EditedIsKept | internal/policy/native_binding_batch.go:565-568 | Conversely the rollback of its creation reports binding_modified for an edited binding and changes nothing. |
| Operations.StampAccounts | internal/policy/native_binding_batch.go:702-721 | After the commit's stamping, before its normalisation, the changes still tell the truth about the bindings before and after, now with times and fingerprints. |
| Operations.RewriteKeeps | internal/policy/native_binding_batch.go:730-772 | Rewriting the older records changes nothing but their markers. |
| Operations.CommitKeeps | internal/policy/native_binding_batch.go:692-814 | An applied commit prepends a record of exactly how the stamped bindings differ, publishes those with every model list, touched or not, normalised again, and keeps every invariant of bindings and log; any other outcome leaves the state as it was. |
| Operations.CommitPublishes | internal/policy/native_binding_batch.go:702-724 | The binding that an applied commit publishes for every scope, from the one before and the planned one: stamped if its restriction changes, normalised in any case. |
| Retention.StepKeepsLongest | internal/policy/native_binding_batch.go:778-794 | What an applied step keeps is the longest front, of the new record and the older ones, of at most fifty records within the size. |
| Retention.RetainedExactly | internal/policy/native_binding_batch.go:778-794 | Over every run an operation is in the log, below as many newer ones as were applied, if and only if each applied step left room down to it; else it is gone for good. |
| Retention.AvailableExactly | internal/policy/native_binding_batch.go:500-512 | Where sizes do not bind, a rollback finds an operation if and only if fewer than fifty were applied since. |
| Operations.UnstorableExactly | internal/policy/native_binding_batch.go:722-797 | On invariant states a commit with something to write is refused exactly when even one record is too large or normalisation rejects some binding's model list; the loader's validation never refuses it. |
| Operations.BatchPlanGood | internal/policy/native_binding_batch.go:328-449 | Every batch plan satisfies what the commit relies on. |
| Operations.RollbackPlanGood | internal/policy/native_binding_batch.go:492-652 | Every rollback plan does, mentions only bindings of its source, and without conflicts reaches the recorded restrictions. |
| Undo.RunSound | internal/policy/native_binding_batch.go:470-670 | Over every run of batches and rollbacks, IDs and scopes stay unique, bindings stay well formed and the log stays valid. |
| Undo.RunStaysInStep | internal/policy/native_binding_batch.go:481-490 | In every run without manual edits the newest retained change of each scope agrees with the live binding in all but its model list and update time, also after truncation. |
| Undo.BindingChangedExactly | internal/policy/native_binding_batch.go:550-601 | In such states the drift test and the missing-record case never fire: binding_changed is reported if and only if the key is present, the same deleted binding is to be re-created, what it was restricted to is available, and it has no template. |
| Undo.RollbackReaches | internal/policy/native_binding_batch.go:492-652 | A rollback of any retained operation, however many newer ones it jumps over, restores each of its scopes; bindings of other scopes only have their model lists normalised, surviving ones of its own change beyond that in restriction and update time only; otherwise nothing changes. |
| Undo.SettledRollbackReverses | internal/policy/native_binding_batch.go:492-652 | Where normalisation leaves the live model lists alone it touches no other scope at all. |
| Undo.UntouchedByStep | internal/policy/native_binding_batch.go:722-724 | A binding that an applied batch or rollback does not mention comes out with its model list normalised, so unchanged if and only if normalisation leaves that list alone. |
| Undo.RunStaysTidy | internal/policy/native_binding_batch.go:470-670 | Where normalisation leaves all live and recorded model lists alone, every run keeps it so. |
| UndoRedo.UndoNewest | internal/policy/native_binding_batch.go:528-642 | Where normalisation leaves the model lists alone, rolling back the operation committed last never conflicts, is never stale and never empty; once applied, the bindings equal those before it but for update times. |
| UndoRedo.StepThenInverse | internal/policy/native_binding_batch.go:470-670 | The same, in all its parts, for any applied step, batch or rollback, from a state whose model lists normalisation leaves alone. |
| UndoRedo.UndoThenRedo | internal/policy/native_binding_batch.go:470-670 | From such a state, step, rollback, rollback of the rollback: the bindings are first those before the step, then those after it, re-created ones with their old creation time. |
| PolicyDrift.SettledExactly | internal/policy/native_keys.go:283-337 | A stored model list is one that normalisation leaves alone if and only if every entry is its own canonical form. |
| PolicyDrift.UntouchedStaysExactly | internal/policy/native_binding_batch.go:722-724 | With the program's own normalisation, a binding that an applied step does not mention stays as it was if and only if every entry of its list is its own canonical form. |
| PolicyDrift.NameIsLost | internal/policy/native_binding_batch.go:722-724 | A binding allowing a name with three suffixes stops allowing it when any batch or rollback about other scopes is applied. |
| PolicyDrift.NameIsLostByBatch | internal/policy/native_binding_batch.go:470-479 | The step that shows it: one such binding, and a batch about another key, which is applied and records a change of that key alone. |
| PolicyDrift.UndoLeavesItLost | internal/policy/native_binding_batch.go:661-670 | Undoing that step does not bring the name back. |
| PolicyDrift.DoublePrefixRejected | internal/policy/native_keys.go:366-369 | A provider that is the channel prefix twice is accepted once; the stored list is rejected from then on. |
| PolicyDrift.NothingCommits | internal/policy/native_binding_batch.go:722-724 | While a binding with such a list lives, no batch is applied, and no rollback but one that removes the binding, whatever the sizes. |
| PolicyDrift.BatchIsRefused | internal/policy/native_binding_batch.go:722-724 | One such binding and a batch about another key: the commit is refused and nothing changes. |
| Revisions.SelectionOrderIrrelevant | internal/policy/native_binding_batch.go:343-370 | The plan and its revision do not depend on the order in which keys were selected. |
| Revisions.AcceptedAsPreviewed | internal/policy/native_binding_batch.go:303-321 | A commit accepted under a revision makes exactly the changes that any preview by the same program with this revision listed. |
| Revisions.NoRevisionTwice | internal/policy/native_binding_batch.go:692-701 | In any run no revision that applied changes is accepted a second time. |
| Markers.CapNeverReached | internal/policy/native_binding_batch.go:672-690 | Sources are older than what reverts them, so the depth cap of 50 never cuts the marking short of following every source. |
| Markers.UndoRestoresMarkers | internal/policy/native_binding_batch.go:731-777 | Undoing a rollback at once gives every retained record whose marker the rollback changed its exact earlier marker. |
| Markers.UndoOfBatchRollbackRestoresAll | internal/policy/native_binding_batch.go:731-777 | If the rollback's source was a batch, every older retained record is as it was. |
| Markers.MarkerRestoredExactly | internal/policy/native_binding_batch.go:672-777 | For any rollback and its undo, read off the log before: follow the sources from the rollback's source; a retained record keeps its marker if and only if the rollback changed it, or it is off that chain, or it already has what the chain leaves: none at even places, the ID of the record before at odd ones. |
| Marking.RollbackMarksExactly | internal/policy/native_binding_batch.go:672-777 | The marker an applied rollback leaves on every older record, from the log before: the rollback's ID on a newer batch all of whose scopes it changed; else what the source's own markers put back; else by turns along the chain of sources; else as it was. Its own record lists exactly the markers that changed, with both values. |
| Marking.BatchMarksNothing | internal/policy/native_binding_batch.go:730-777 | An applied batch leaves every older record it retains as it was. |
| Misplaced.RunMisplacesMarker | internal/policy/native_binding_batch.go:672-690 | A legal run from one binding and an empty log: batch, its rollback, the rollback of that, another batch, a rollback of operation 2, and the rollback of that. Batch 1, unmarked after four steps, ends as reverted by 2, and 2 as reverted by 3. |
| Misplaced.SomeRunMisplacesMarker | internal/policy/native_binding_batch.go:672-690 | One host key and three credentials on offer for which there is such a run. |
| Misplaced.LastRollback | internal/policy/native_binding_batch.go:731-777 | The marking and restoring of the sixth operation on the log of the first five. |
| Store.NativeBindingStore.PlanNativeBindingBatch | internal/policy/native_binding_batch.go:328-449 | The checks and loops of the batch planner compute the specified plan or refusal, candidates normalised. |
| Store.ValidateInputs | internal/policy/native_binding_batch.go:271-288 | Counts, lengths, NUL characters and the total size of a request's texts are checked as specified. |
| Store.CheckBatchInput | internal/policy/native_binding_batch.go:329-376 | All checks on a batch request together; the target list if they pass. |
| Store.CheckExpansion | internal/policy/native_binding_batch.go:345-397 | The early limit and the key-by-key limit on what a batch would expand to refuse exactly what exceeds the log's size. |
| Store.NormalizeAll | internal/policy/native_keys.go:146-213 | The commit's loop over all bindings normalises every model list, or rejects the whole. |
| Store.NativeBindingStore.PlanNativeBindingRollback | internal/policy/native_binding_batch.go:492-652 | The loops of the rollback planner compute the specified plan or refusal. |
| Store.NativeBindingStore.CommitNativeBindingPlan | internal/policy/native_binding_batch.go:692-814 | The commit changes bindings, history and file as specified, keeps the store valid with file and memory in agreement, and draws one new ID. |
| Store.NativeBindingStore.ApplyNativeBindingBatch | internal/policy/native_binding_batch.go:470-479 | Planning and committing a batch is the specified step. |
| Store.NativeBindingStore.ApplyNativeBindingRollback | internal/policy/native_binding_batch.go:661-670 | Planning and committing a rollback is the specified step. |
| Store.DraftBatch | internal/policy/native_binding_batch.go:383-439 | The loop over the selected keys, with its index of IDs in use, drafts as specified or stops at a candidate that normalisation rejects. |
| Store.DraftRollback | internal/policy/native_binding_batch.go:523-646 | The loop over the recorded changes, with both indexes, drafts as specified. |
| Store.JudgeChange | internal/policy/native_binding_batch.go:529-618 | The cascade of checks gives the specified verdict, with the same conflict in the same order of precedence. |
| Store.LatestChange | internal/policy/native_binding_batch.go:481-490 | The nested search returns the newest recorded change of a scope. |
| Store.StampPlan | internal/policy/native_binding_batch.go:702-721 | Finding bindings through their IDs, the loop stamps exactly the touched scopes. |
| Store.MarkNativeBindingOperation | internal/policy/native_binding_batch.go:672-690 | The recursive in-place marking leaves the array as specified. |
| Store.RestoreMarkers | internal/policy/native_binding_batch.go:733-747 | The in-place restoring of a source's own markers. |
| Store.SupersedeBatches | internal/policy/native_binding_batch.go:748-771 | The in-place marking of newer batches that a jump covers completely. |
| Store.RewriteHistory | internal/policy/native_binding_batch.go:730-772 | The three passes over a private copy together. |
| Store.WithMarkers | internal/policy/native_binding_batch.go:773-777 | The new record's markers are exactly the markers that the rewriting changed, with old and new value. |
| Store.TruncateHistory | internal/policy/native_binding_batch.go:778-794 | The oldest records are dropped until count and size fit, one at a time, so that the longest fitting front stays. |
| Persistence.RunSafe | internal/policy/store.go:1416-1467 | Over every interleaving of records, flushes, saves, edits, commits, resets and reconfigurations the lock discipline, the absence of pre-reset counters and the agreement of file and memory are kept. |
| Durability.ResetNeverUndone | internal/policy/native_quota.go:258-288 | Once a reset of an account has committed, no later file and no later live ledger counts a record made before it. |
| Durability.CrashConsistent | internal/policy/native_binding_batch.go:798-808 | At every step the pair of bindings and history in the file is the live pair, one that loads as the live pair, or the complete pair of the one mutation in progress. |
| Durability.PublishingExactly | internal/policy/store.go:182-271 | The step in which a reconfiguration publishes what it loaded leaves file and memory with the same pair if and only if loading left the pair as it is. |
| Durability.ExactThroughoutExactly | internal/policy/store.go:1416-1467 | Over every run, reconfigurations included, the file holds exactly the live pair or that of the mutation in flight at every moment if and only if every publication loads such a pair. |
| Durability.QuiescentFileIsLive | internal/policy/native_keys.go:466-474 | With no mutation under way, memory holds the file's pair or what it loads as; the file's pair itself where every reconfiguration loaded a pair that loading leaves alone. |
| Durability.PublishingKeepsLagExactly | internal/policy/store.go:253-282 | The publishing step of a reconfiguration leaves file and pending writes behind the live counters if and only if what was loaded covers the file and the sample of a pending flush. |
| Durability.NotKeepingUpLeads | internal/policy/store.go:253-282 | Otherwise the file leads at once, or as soon as that flush has written. |
| Durability.LagsThroughoutExactly | internal/policy/store.go:1416-1435 | Over every run, reconfigurations included, file and pending writes stay behind at every moment if and only if every publication meets that condition. |
| Durability.FileNeverLeads | internal/policy/store.go:1416-1435 | In such runs, in particular between reconfigurations, the file's counters are contained in the live ones. |
| Durability.FileCanLeadAfterReconfigure | internal/policy/store.go:253-282 | A run with a reconfiguration in which the file ends up with a record that memory lost. |
| Durability.NeverStuck | internal/policy/native_quota.go:258-330 | In every reachable state with an unfinished operation some unfinished operation can move: the lock order allows no deadlock. |
| Completion.MutationTakesEffect | internal/policy/store.go:1437-1467 | Whatever the other threads do: once the thread of a save, an edit, a batch or a rollback that was not refused is idle again, file and memory hold its pair if the disk worked when it wrote, and else what they held before. |
| Completion.ResetTakesEffect | internal/policy/native_quota.go:258-330 | The same for a quota reset: neither counts an earlier record of the chosen accounts; memory loses no other record, and none at all if the disk failed. |
| Completion.SampleIsKept | internal/policy/store.go:1406-1470 | Counters that a mutation or a reconfiguration sampled and wrote are covered by file and memory when its thread is idle again. |
| Completion.FlushTakesEffect | internal/policy/store.go:1416-1435 | A flush leaves its sample in the file, beside the pair that was there, if the disk works, and nothing else writes the file until it is through. |
| Completion.RecordIsOneMore | internal/policy/usage.go:182-247 | A record the ledger takes is one more for its account that nothing counted before, and changes no other; while a reset holds the lock it waits. |
| Ledger.UsageLedger.RecordCost | internal/policy/usage.go:182-247 | A record rolls and bills the account's and the alias's windows as specified and changes no other account. |
| Ledger.UsageLedger.Summary | internal/policy/usage.go:280-324 | A read projects the rolled windows and deadlines, including the case of a native account without a period. |
| Ledger.UsageLedger.OverLimit | internal/policy/usage.go:329-341 | Which limit is reported as exceeded, daily before weekly. |
| Ledger.UsageLedger.AliasUsage | internal/policy/usage.go:372-418 | Rows for every used alias with rolled windows, unused rows for configured ones, no others. |
| LedgerLog.RunRefines | internal/policy/usage.go:98-159 | Over every run of records, resets, saves and restarts in clock order the anchored account, and each alias in it, refines a plain log of its records since the last reset. |
| LedgerLog.SummaryIsLog | internal/policy/usage.go:280-418 | A report at any time shows, counter by counter, the sums of that log over the current UTC day and the current seven-day period counted from the reset, and a deadline that depends on reset time and present alone; so does the row of every alias with a record. |
| FirstUse.RunInARow | internal/policy/usage.go:126-159 | Over every run without a reset, under any clock, the windows of account and alias hold the last records in a row: of one day, and since the first use that opened the current week. |
| FirstUse.SummaryIsRow | internal/policy/usage.go:280-418 | Reports and rows of such accounts show those sums while the present is of their day and within their week; a native key has no weekly deadline after that. |
| LedgerAliases.WeeklyConserved | internal/policy/usage.go:98-159 | Under any clock, the alias windows that share an anchored account's weekly start add up to its weekly total, counter by counter. |
| LedgerAliases.WeeklyRowsAddUp | internal/policy/usage.go:372-418 | The weekly rows of a report all belong to the reported period and add up to the reported total. |
| LedgerAliases.DailyRowsAddUp | internal/policy/usage.go:372-418 | The same for daily rows of any account, with the clock in order. |
| LedgerAliases.ReportExcess | internal/policy/usage.go:372-418 | For any account that records and resets produce and a report on any day: the daily rows are all of that day and exceed the reported total by what the aliases hold of it, less what the account has if it is on that day. |
| LedgerAliases.ReportAddsUpExactly | internal/policy/usage.go:372-418 | Where the rows add up on the account's own day, a report adds up if and only if it is of that day or of one the aliases hold nothing of. |
| LedgerAliases.RecordExcess | internal/policy/usage.go:126-159 | A record of any day leaves the excess of that day as it was and puts the account on that day. |
| LedgerAliases.RunAddsUpExactly | internal/policy/usage.go:98-159 | Under any clock: the rows add up at every moment of a run if and only if each record was of the account's day or of one the aliases held nothing of. |
| LedgerAliases.HeldExactly | internal/policy/usage.go:148-159 | Where every record counts something, the aliases hold nothing of a day if and only if no alias was last used on it. |
| LedgerAliases.DailyRowsExceedAfterSetback | internal/policy/usage.go:148-159 | Three records around a clock set back over midnight after which they do not add up. |
| Limiter.RateLimiter.Allow | internal/policy/limiter.go:34-52 | Decision and new bucket for every limit, bucket and clock reading. |
| Limiter.RateLimiter.SnapshotID | internal/policy/limiter.go:72-84 | The count a request arriving now would meet. |
| Limiter.AdmittedExactly | internal/policy/limiter.go:34-52 | Over every run of requests, whatever the clock: one is admitted if and only if fewer than rpm came before it since the current minute was opened, admitted or not. |
| Limiter.AtMostPerMinute | internal/policy/limiter.go:34-52 | While no clock reading precedes the start of the bucket it meets, and without a reset, at most 2·rpm − 1 requests are admitted in any half-open minute. |
| Limiter.BoundIsReached | internal/policy/limiter.go:34-52 | For every rpm such readings exist that admit exactly 2·rpm − 1 in one minute. |
| Limiter.BehindBreaksBound | internal/policy/limiter.go:42-44 | For every rpm: rpm readings of a time behind the bucket are all admitted, and with them the minute that begins there passes 2·rpm − 1 if and only if it has rpm admissions already. |
| Limiter.OneBehindBreaksBound | internal/policy/limiter.go:42-44 | At rpm 1 any reading less than a minute behind its bucket makes a minute admit two. |
| Limiter.OutOfOrderUnbounded | internal/policy/limiter.go:42-44 | Whatever the limit, n readings alternating between two minutes put n admissions into one minute. |
| Quota.GateExactly | internal/policy/native_quota.go:157-187 | Each answer's one cause: for its rate if and only if the binding is enabled, has a limit and the count met has reached it; for dollars by what a report at the sampling shows. |
| Quota.AtMostPassPerMinute | internal/policy/native_quota.go:168-175 | Over any run of gate calls whose readings are never behind, at most 2·rpm − 1 get past the rate limit in any half-open minute. |
| Quota.SelectionExactly | internal/policy/native_quota.go:240-257 | Which selections are refused: none or too many IDs, too much text, an ID that is blank, too long or has a NUL. |
| Quota.SelectedOnce | internal/policy/native_quota.go:240-257 | The normalised selection names every given ID once and no other. |
| Quota.NativeQuota.CheckNativeKeyQuota | internal/policy/native_quota.go:157-187 | The gate's decision and its one side effect; unlimited bindings pass without any. |
| Quota.NativeQuota.ResetNativeKeyQuotas | internal/policy/native_quota.go:240-288 | Exactly which selections fail and how; a success resets exactly the selected accounts at one moment in memory and file, a failure changes nothing. |
| Quota.NativeQuota.ResetNativeQuotaAccounts | internal/policy/native_quota.go:294-329 | The file is written before ledger and buckets are touched; a failed write leaves both. |
| Limiter.BackwardsReadings | internal/policy/limiter.go:42-44 | Readings 2, 1 and 0 at rpm 1 put three admissions into one minute. |
| Overshoot.SpendingBounded | internal/policy/native_quota.go:157-187 | With at most k sampled but unbilled requests costing at most C each and the clock in order, a limited window's dollars stay below limit + k·C over every run, window rolls and resets included. |
| LateBills.KeptExactly | internal/policy/native_quota.go:157-187 | Under any clock, for the daily and the weekly limit: however the steps are priced and whatever limit and cap, no report at the end passes limit + k·C if and only if at most k bills reached the stored window since a request read it or it began, which the times alone decide. |
| LateBills.InTurnKept | internal/policy/native_quota.go:157-187 | Under any clock, a limited window's dollars stay below limit + k·C in every report if no bill is added to the window after a request was let through on reading another one and before one reads it again. |
| LateBills.ReportedExactly | internal/policy/usage.go:98-145 | Which readings show the stored window: those of its day; of its week or earlier by the anchored schedule; or less than seven days after its first use. All others show nothing spent. |
| LateBills.InOrderInTurn | internal/policy/usage.go:98-145 | With the clock in order bills are in turn. |
| LateBills.NoEarlierWeekInTurn | internal/policy/usage.go:106-110 | Under the anchored schedule they are, too, if no bill falls in an earlier week than the latest a request was sampled in since the reset. |
| LateBills.OutOfTurnUnbounded | internal/policy/usage.go:98-145 | For either limit and any two readings of which one shows the stored window and the other does not: requests sampled at the second and billed at the first are legal and add the cap, as often as they come. |
| LateBills.OutOfTurnPasses | internal/policy/usage.go:98-145 | Such readings are at hand in every run whose next bill is out of turn: that bill's and an earlier request's. |
| LateBills.DayIsPassed | internal/policy/usage.go:126-131 | A daily limit of one, one slot, and two requests sampled after midnight and billed with the clock back before it: the day ends at two. |
| Rotation.NextInPool | internal/plugin/native_round_robin.go:84-90 | A pick is offered, comes after the last ID, does not pass a given offered ID, and wraps at most once. |
| Rotation.NoneTwiceBetween | internal/plugin/native_round_robin.go:57-91 | With pools changing at every call, between two picks of one credential every credential that stayed on offer is picked. |
| Rotation.NeverStarved | internal/plugin/native_round_robin.go:57-91 | With n different IDs on offer in all, any n picks in a row include each that stayed on offer. |
| Rotation.FixedPoolPermutation | internal/plugin/native_round_robin.go:57-91 | With a fixed pool of n different IDs, any n picks in a row are a permutation of it. |
| RoundRobin.RunShape | internal/plugin/native_round_robin.go:14-31 | In every run of picks, prunes and clears the table holds no route twice and at most 4096. |
| RoundRobin.RunRecency | internal/plugin/native_round_robin.go:66-90 | The table is in order of last use, and each cursor holds the last answer for its route. |
| RoundRobin.Retained | internal/plugin/native_round_robin.go:69-81 | A cursor not cleared or withdrawn survives as long as fewer than 4096 other routes were used since: eviction takes only the least recently used. |
| RoundRobin.AnswersAreChain | internal/plugin/native_round_robin.go:57-91 | While its cursor stays, a route's answers are one rotation, whatever other routes do. |
| RoundRobin.FairInRun | internal/plugin/native_round_robin.go:57-91 | The fairness of rotation inside such a run. |
| Cursors.Search | internal/plugin/native_round_robin.go:85-88 | Bisection finds the first ID above the last one. |
| Cursors.NativeRoundRobin.PickNativeRoundRobin | internal/plugin/native_round_robin.go:57-91 | Map and list stay in agreement; the contents and the answer are the specified ones. |
| Cursors.NativeRoundRobin.PruneNativeRoundRobin | internal/plugin/native_round_robin.go:104-133 | Going through the map in any order removes exactly the withdrawn routes from both and keeps the order of the rest. |
| Cursors.NativeRoundRobin.ClearNativeRoundRobin | internal/plugin/native_round_robin.go:93-99 | Both are emptied. |
| ModelAccess.NormalizeNativeModelAccess | internal/policy/native_keys.go:283-337 | Mode, error cases, sorted list and both indexes of an allow-list. |
| ModelAccess.SortEntries | internal/policy/native_keys.go:327-332 | The stored list is an ascending permutation by provider and then model. |
| ModelAccess.ProviderExactly | internal/policy/native_keys.go:362-370 | Which texts have a given canonical provider name: but for case and outer space the name, or the channel's prefix before it. |
| ModelAccess.ModelExactly | internal/policy/native_keys.go:339-356 | A model name loses one suffix in parentheses if neither part is blank, and is else only folded and trimmed. |
| ModelAccess.ModeExactly | internal/policy/native_keys.go:283-307 | A missing mode means an allow-list if there are names and no restriction if there are none. |
| ModelAccess.StoredListDecides | internal/policy/native_keys.go:283-337 | Both indexes are functions of the stored list. |
| ModelAccess.AllowsIsScan | internal/policy/native_keys.go:715-730 | For a request naming its provider the index answers as a linear scan of the list as typed, with both sides canonicalised twice. |
| ModelAccess.AnyProviderIsScan | internal/policy/native_keys.go:312-326 | Which names the provider-less index holds: those of entries with no earlier entry of the same key. |
| ModelAccess.StoredStaysExactly | internal/policy/native_keys.go:283-337 | The next normalisation leaves a stored list alone if and only if every entry is its own canonical form. |
| ModelAccess.NormalisingAgainKeepsExactly | internal/policy/native_keys.go:283-360 | For any list: the next normalisation is accepted and keeps every answer to requests naming a provider if and only if each typed name's twice canonical form is complete and canonical. |
| ModelAccess.RejectedAgainExactly | internal/policy/native_keys.go:316-321 | It is rejected if and only if two rounds leave nothing of some typed provider. |
| ModelAccess.OpenAnswersStayExactly | internal/policy/native_keys.go:312-326 | Answers to requests without a provider stay if and only if every stored model name is canonical. |
| ModelAccess.ThirdSuffixIsRevoked | internal/policy/native_keys.go:342-356 | Every name with three suffixes is authorised after the first normalisation and refused after the second. |
| Scheduler.RouteIgnoresOrder | internal/plugin/native_round_robin.go:33-51 | Requests share a cursor if and only if they agree in scope, canonical model and set of canonical providers, whatever the order and repeats, or neither names a provider that is not canonically blank. |
| Scheduler.KeptExactly | internal/plugin/native_round_robin.go:104-133 | Pruning keeps a request's cursor if and only if its scope rotates and a canonical provider it named, or any if it named none, may still serve its model. |
| Scheduler.PrefixAloneIsNone | internal/plugin/native_round_robin.go:45-49 | A provider that is the channel prefix alone and no provider at all share one. |
| Scheduler.UsableExactly | internal/plugin/app.go:498-512 | Which statuses make a candidate unusable, but for case, white space and the separator. |
| Scheduler.RequestAllowedExactly | internal/plugin/app.go:468-496 | A request is allowed if and only if a provider it names may serve the model, or any may when it names none. |
| Scheduler.Best | internal/plugin/app.go:455-461 | The loop finds the highest priority and among those the lowest ID. |
| Scheduler.RotationAllowable | internal/plugin/app.go:462-464 | Whatever the cursors hold, rotation answers a candidate that the boundary allows, of maximal priority. |
| Scheduler.PickedIsNext | internal/plugin/app.go:462-464 | Rotation takes the lowest allowable ID above the route's last one, or the lowest of all if there is none above. |
| Scheduler.App.PickScheduler | internal/plugin/app.go:350-466 | A bound scope is never left to the host; only an offered, usable, model-allowed candidate inside the restriction and of maximal priority is chosen: with rotation the next one after the route's last, without it the one of lowest ID; a request refused for its model uses no allowance and moves no cursor; each refusal's exact cause. |
| Turns.NoSecondTurn | internal/plugin/app.go:350-466 | Over runs of scheduler calls, with cursors dropped in between for other routes: while a route's cursor stays, no credential is answered twice for it without each other that stayed allowable in between being answered in between. |
| Pricing.RunKeepsManual | internal/policy/pricing_file.go:905-931 | Over every run an operator's row stays exactly as it is until the operator or a manual alias names it. |
| Pricing.OutageKeepsRows | internal/policy/pricing_file.go:874-890 | Over every run in which LiteLLM stays unreachable its rows keep everything but, from the first attempt on, the status. |
| Pricing.RunPrecedence | internal/policy/pricing_file.go:809-825 | After any run, a synchronisation that reaches LiteLLM decides every ID it knows that is neither deleted nor protected, never leaves one to the fallback, and the row lasts through any later outage. |
| Pricing.SyncIdempotent | internal/policy/pricing_file.go:803-980 | The same synchronisation again changes nothing. |
| Pricing.RunApart | internal/policy/pricing_file.go:555-661 | Over every run of synchronisations, upserts, deletions, restores and alias updates no ID is both priced and deleted. |
| Pricing.OfferedFills | internal/policy/pricing_file.go:809-937 | Where nothing stands against an ID, it gets LiteLLM's row, or the fallback's if a working LiteLLM does not know it. |
| Pricing.OthersStayExactly | internal/policy/pricing_file.go:874-971 | Every other ID has a row afterwards if and only if it had one that does not hide a target, and then that row, stale if its source no longer confirms it. |
| Pricing.AliasExactly | internal/policy/pricing_file.go:1103-1219 | Row and tombstone of every ID after an alias update: which rows are released, and which of the alias's providers the row it puts has. |
| Pricing.DeletedStays | internal/policy/pricing_file.go:596-631 | A deleted ID stays without a row through every run until the operator or a manual alias brings it back. |
| Pricing.UpsertedStays | internal/policy/pricing_file.go:555-594 | A price the operator sets is there as set through every run until the operator or a manual alias names it. |
| Pricing.RestoredIsOffered | internal/policy/pricing_file.go:630-661 | A restored ID has neither row nor tombstone, and the next synchronisation gives it exactly what is on offer. |
| Pricing.AliasRowStays | internal/policy/pricing_file.go:1108-1130 | A manual alias's row stays through every run that does not name the ID while a manual alias owns it. |
| Catalog.MergeCandidates | internal/policy/pricing_file.go:893-937 | Merging in any map order gives the specified table. |
| Catalog.DropShadows | internal/policy/pricing_file.go:939-971 | Dropping shadow rows in any order of aliases gives the specified table. |
| Catalog.PriceCatalog.ApplyPricingSources | internal/policy/pricing_file.go:803-1002 | The whole synchronisation, published only if it could be written. |
| Catalog.PriceCatalog.UpsertAliasIntoPricing | internal/policy/pricing_file.go:1103-1219 | Releasing and putting alias rows, in memory even when the write fails. |
| AliasRefs.ResolveAliasRefsToModels | internal/policy/store.go:914-954 | The nested loops expand references as specified. |
| AliasRefs.ExpandedExactly | internal/policy/store.go:914-954 | Expansion gives exactly one rule for each target of each known alias, with the alias's terms except for the prices the reference overrides. |
| AliasRefs.MigrateModelsToAliases | internal/policy/config.go:372-460 | The loops with their seen-maps move rules to the table and reconcile references as specified. |
| AliasRefs.MigratedExactly | internal/policy/config.go:372-460 | The table afterwards, name by name: a known alias collects the targets of its rules, an unknown one has name and terms of its first rule, and nothing else changes. |
| AliasRefs.CollectedExactly | internal/policy/config.go:462-476 | Collecting keeps what there is in place, adds each target once up to letter case, and nothing else. |
| AliasRefs.ReconciledExactly | internal/policy/config.go:396-455 | The references afterwards, name by name: the first there was, overrides and all, else a new one; none for an alias without a rule. |
| AliasRefs.EmptyListKeepsReferences | internal/policy/config.go:383-392 | Saving with an empty list changes neither the table nor which aliases are referenced. |
| AliasRefs.HealRefs | internal/policy/config.go:636-671 | The loop over a key's references rejects an unknown alias, and otherwise keeps each alias once where it was named first, filling missing overrides from later ones. |
| AliasRefs.HealedPrices | internal/policy/config.go:650-666 | Each alias ends with the first override given for every price. |
| AliasRefs.SaveKey | internal/policy/config.go:478-483 | Migration of one key and the checks on its alias references together. |
| AliasRefs.NoTargetLost | internal/policy/config.go:372-476 | Whatever rules are saved, migration leads to references that the reference check accepts, and the key then expands to every one of the rules' alias and target pairs, but for letter case. |
| AliasRefs.RoundTrip | internal/policy/store.go:1018-1064 | Saving a key with its own expanded rules, through migration and normalisation, leaves table and references with their overrides as they are if and only if the references name each alias once and all are known. |
| AliasRefs.SavedRoundTrips | internal/policy/store.go:1018-1064 | A key that was ever saved goes through that round trip unchanged. |

## Left out

- JSON sizes are arbitrary weights of what is encoded; an operation's number and the length of its ID are given separately.
- UndoRedo.UndoNewest, UndoRedo.StepThenInverse, UndoRedo.UndoThenRedo, Undo.SettledRollbackReverses: stated where normalisation leaves all model lists alone, because otherwise they are false, as `PolicyDrift` shows.
- A reconfiguration that changes the path of the state file, and a first start without one; how loading normalises a pair is an arbitrary function.
- Loading a state file whose log or bindings are not in normal form; the list order of bindings, which are a map by scope here (the second index, by ID, is determined by it).
- White space other than ASCII in trimming, and letter case other than ASCII.
- Manual creation, update and deletion of a binding as planners (their effect on the file protocol is in `Persistence`), and display text of names and key previews.
- Critical sections of the store's read-write lock are single steps of the protocol; the other contents of the state file (keys, aliases, classification rules) and a store without a file are not part of the protocol.
- Durability.FileNeverLeads: stated where every reconfiguration publishes in time, because otherwise it is false, as shown.
- Markers.UndoOfBatchRollbackRestoresAll: stated for rollbacks of a batch only, because for rollbacks of a rollback it is false, as shown.
- LedgerLog.SummaryIsLog: stated with the clock in order, because otherwise windows do not follow the present; `FirstUse.SummaryIsRow` is for any clock.
- LedgerAliases.DailyRowsAddUp: stated with the clock in order; the exact condition under any clock is `LedgerAliases.RunAddsUpExactly`.
- RetryAfter hints, error texts, and pricing of token usage before it reaches the ledger.
- Classification rules as regular expressions and the cache of their results: a candidate carries the set of its groups.
- Cursors keep the list's elements by value: the pointers shared between map and list are not modelled.
- Scheduler.RouteIgnoresOrder, Scheduler.KeptExactly: stated for canonical provider names without NUL, which joining with NUL cannot tell from several names; likewise the scan of a model list.
- ModelAccess.NormalisingAgainKeepsExactly, ModelAccess.RejectedAgainExactly, ModelAccess.OpenAnswersStayExactly: stated for provider names without NUL.
- Overshoot.SpendingBounded: stated with the clock in order; the exact condition under any clock is `LateBills.KeptExactly`.
- Response aliases, pending picks and route selection inside `Route`; token parsing; key hashing and generation; web panel; network fetching of catalogs and the sync timer.
- Building the two source indexes from catalog entries, the counts of updated rows, `ReplaceCatalogPricing`, and price look-up.
- AliasRefs.SaveKey, AliasRefs.NoTargetLost: without the other validation of `normalizeConfig` (names, prices, modes), which can refuse a save, and without the trimming of alias names before they are compared.
- Floating-point rounding.
