# A verified model of gsbench recovery, load control and locking, and of gstop's runtime protocols

gsbench injects faults into openGauss and GaussDB clusters and must be able to undo every one of
them; gstop watches such clusters. This project models the parts of both whose correctness rests on
state that outlives a call: the recovery ledger and journal, the restore coordinator, the worker
controller, the lock-chain scenarios, the resumable data loader, the advisory locks, and gstop's
background refresher, snapshot store and alarm filter. One module stands for one component.

* **CanonicalNumber, JsonReader, CanonicalJson** - the canonical spelling of action payloads, from text
  to text. JsonReader is the decoder: documents, strings with their escapes, and numbers kept as spelled.
  What is printed reads back as the same document, so two payloads print the same bytes exactly when they
  mean the same and the comparison of mirrored actions is an equivalence. Numbers follow section 6 of
  RFC 8259; a number's value is a real.
* **RecoveryLedger** - the file that mirrors external actions: which updates it accepts, what a run of
  updates preserves, what survives a crash at any system call of the atomic replacement, and when what
  was written can be read again.
* **Journal** - forward actions, restore passes, reconciliation and crashes as one transition system,
  and the methods of the journal as producers of its runs. Write-ahead safety holds over every
  interleaving; one action's failure does not touch another's fate.
* **RestorePlan, Restore** - merging the two recovery sources, ordering the inverses, and the
  coordinator that runs the plan exactly, releases its mutex once, and never leaves runs with
  differing outcomes unreported.
* **MirrorStore** - the store that writes both mirrors of an action. Every database failure is told
  exactly once; the class works on the ledger class of RecoveryLedger.
* **Controller** - the closed-loop search for a number of workers: limits and direction of every move,
  termination, and convergence of the bracket search on a fixed load.
* **LockTopology, LockEvidence** - the layout of holder and waiters over rows, simulated on a row-lock
  manager under every schedule of the waiting threads, and the verdict on observed waits.
* **Dataset** - loading in batches under a high-water mark, and calibration under a byte target.
* **RunLock** - advisory locks on database sessions, alone and as part of the restore lock.
* **Refresher** - the single-flight refresher as a transition system over its goroutines, wait groups
  and mutex, with its methods as producers of runs.
* **MemPersist** - the bounded snapshot store, against a log that never forgets.
* **Alarm** - the alarm de-duplicator over traces with a monotone clock.

Databases, providers, the file system, clocks, contexts and threads answer as they like: they are
parameters (replies that succeed, fail, or fail after taking effect) or the steps of a transition
system. Methods of the source that update state are methods here, each tied to a specification
function or to a run of a transition system; what is promised of them is proved about those.

Places where the code is narrower than a first reading suggests, each proved with the exact condition
or a concrete input:

* The canonical spelling of a number is not always accepted again: `OutputRefused` names a literal,
  `CanonicalIdempotent` the condition (the scientific exponent fits 32 bits, or the number is zero).
* An acknowledged Put can make the ledger unreadable for good: a number whose canonical spelling is
  refused passes every check on the way in, and no later call gets past it (`SpoiledForever`, with
  `SpoilingAction` as input). It happens exactly when a scientific exponent leaves 32 bits
  (`ReadableAfterPut`, `ReadableForever`).
* Write-ahead safety needs that a restore pass does not overtake the process that applies an action. The
  exact condition is `MayTakeUp`: while the forward action is still to come, a reconciliation must leave
  the action alone, and a pass may take it up only with a snapshot that is out of date, so that its claim
  is refused. `GuardIsExact` proves both halves. In the source the restore lock and the stopping of
  tagged sessions stand for that.
* A ledger entry keeps its first diagnostic per state: a second, different one is refused, so two failed
  preflights with different texts leave the first (`RecoveryLedger.CommitSucceeds`, `Advances`).
* Marking an action restored does not change the source's own copy of its state, so the store's list of
  pending actions may still name it (`SetSourceState`, `Pending`).
* Without atomic batch commits a failure between rows and mark leaves a table whose rows are ahead of its
  mark. Nothing is loaded twice, because the primary key refuses the next batch; but every later run
  that needs more of that table fails at the same row (`ApplyPlainBatch`, `Init`, `Run`). The executor of
  the product commits atomically.
* The snapshot store makes room at every sample, even when the bucket is already there, so it answers
  like a log exactly when the window is empty or there is room for two snapshots more than it spans
  (`EnoughExactly`).
* Cleaning up alarm keys is invisible exactly when the observation window is at most twice the
  suppression window, or negative, or at most one occurrence is required (`CleanInvisible`,
  `CleanVisible`).

## Model

| member | source | states |
|---|---|---|
| CanonicalNumber.CanonicalRecoveryJsonNumber | internal/gsbench/recovery_ledger.go:525-573 | the digit-trimming loops return the canonical spelling, or refuse exactly the literals outside the grammar or with an exponent beyond 32 bits |
| CanonicalNumber.CanonicalKeepsValue | internal/gsbench/recovery_ledger.go:525-573 | the canonical spelling denotes the same rational number |
| CanonicalNumber.CanonicalDecidesValue | internal/gsbench/recovery_ledger.go:525-573 | two accepted literals get the same spelling exactly when their values are equal |
| CanonicalNumber.CanonicalIdempotent | internal/gsbench/recovery_ledger.go:538-573 | a canonical spelling is accepted again, unchanged, exactly when the number is zero or its scientific exponent fits 32 bits |
| CanonicalNumber.OutputRefused | internal/gsbench/recovery_ledger.go:543-549 | a literal that is accepted and whose canonical spelling is refused |
| CanonicalJson.ReadEncodedChar | internal/gsbench/recovery_ledger.go:477-523 | every character is read back from its escape, whatever follows |
| CanonicalJson.ReadQuoted | internal/gsbench/recovery_ledger.go:477-523 | a string is read back from its quoted form, whatever follows it |
| CanonicalJson.SortForgetsOrder | internal/gsbench/recovery_ledger.go:500-519 | the order in which object keys are collected does not matter |
| CanonicalJson.PrintPrefix | internal/gsbench/recovery_ledger.go:477-523 | unique readability: equal text with any continuations means the same value and the same continuation |
| CanonicalJson.PrintDecidesSameness | internal/gsbench/recovery_ledger.go:459-523 | two values print alike exactly when they are equal up to key order and number spelling |
| CanonicalJson.DecodePrinted | internal/gsbench/recovery_ledger.go:459-523 | reading what was printed gives the same document, with its numbers respelled and nothing else changed |
| CanonicalJson.CanonicalBytesAgain | internal/gsbench/recovery_ledger.go:459-523 | a canonical text is its own canonical text exactly when all its numbers stay in range; any other one is refused when it is read again |
| CanonicalJson.CanonicalRecoveryJson | internal/gsbench/recovery_ledger.go:459-475 | a payload's canonical bytes, or an error exactly when it is no document or one of its numbers is refused |
| CanonicalJson.AppendCanonicalJson | internal/gsbench/recovery_ledger.go:477-523 | the recursive printer over a mutable buffer appends exactly the canonical text, and fails exactly on unreadable numbers |
| CanonicalJson.AppendItems | internal/gsbench/recovery_ledger.go:477-523 | the array loop appends all items with their separators |
| CanonicalJson.AppendFields | internal/gsbench/recovery_ledger.go:477-523 | the object loop appends all members in key order |
| CanonicalJson.CollectSortedKeys | internal/gsbench/recovery_ledger.go:500-506 | keys gathered from a map in any order end up in the one sorted order |
| CanonicalJson.EqualRestoreJson | internal/gsbench/restore.go:1157-1167 | the comparison by canonical bytes, or by plain bytes when one payload has none |
| CanonicalJson.SamePayloadMeaning | internal/gsbench/restore.go:1157-1167 | readable payloads are equal exactly when they mean the same |
| CanonicalJson.SamePayloadEquivalence | internal/gsbench/restore.go:1157-1167 | the comparison is reflexive, symmetric and transitive on all payloads, readable or not |
| RecoveryLedger.CanonicalActionAgain | internal/gsbench/recovery_ledger.go:351-402 | an action with canonical payloads is valid again, and read once more it is unchanged or refused, as its numbers stay in range or not |
| RecoveryLedger.OrderedUnique | internal/gsbench/recovery_ledger.go:443-457 | the stored order is a function of the entries, not of how they came in |
| RecoveryLedger.CommitSucceeds | internal/gsbench/recovery_ledger.go:94-210 | an accepted update keeps identities unique and at most 256 entries, changes no payload and no other entry, moves no state back and keeps a same-state diagnostic |
| RecoveryLedger.LedgerRun | internal/gsbench/recovery_ledger.go:94-210 | over any run of updates nothing is dropped, payloads are immutable, restored is absorbing, planned and applied are never re-entered |
| RecoveryLedger.StoredOrderIsContent | internal/gsbench/recovery_ledger.go:443-457 | equal contents are stored as equal files |
| RecoveryLedger.EventKeepsDurable | internal/gsbench/recovery_ledger.go:669-734 | one call with any pattern of failing system calls, or a crash, keeps the disk invariant |
| RecoveryLedger.Durability | internal/gsbench/recovery_ledger.go:575-734 | after any run of calls and crashes the visible ledger is a complete version that some accepted update produced |
| RecoveryLedger.AcknowledgedPutSurvives | internal/gsbench/recovery_ledger.go:669-734 | an action whose Put returned without error is in every later version, at no lower state, whatever crashes follow |
| RecoveryLedger.AcknowledgedMarkSurvives | internal/gsbench/recovery_ledger.go:165-210 | after a MarkRestored that returned without error, also as the retry that only syncs, every later version keeps all entries, and the entry of that identity, if there was one, is restored |
| RecoveryLedger.ReadStored | internal/gsbench/recovery_ledger.go:575-667 | what is on disk reads back exactly as it was written, unless one of its entries is refused |
| RecoveryLedger.CommitReadable | internal/gsbench/recovery_ledger.go:94-210 | an update leaves the ledger readable exactly when it was and the action it brings stays readable |
| RecoveryLedger.ReadableAfterPut | internal/gsbench/recovery_ledger.go:94-163 | after an acknowledged Put the ledger can be read exactly when the numbers of the action stay in range |
| RecoveryLedger.SpoiledForever | internal/gsbench/recovery_ledger.go:94-210 | once an action with another number was acknowledged, every later call fails and changes nothing, whatever calls and crashes come between |
| RecoveryLedger.SpoilingAction | internal/gsbench/recovery_ledger.go:538-573 | such an action, which passes every check on the way in |
| RecoveryLedger.ReadableForever | internal/gsbench/recovery_ledger.go:94-210 | a ledger that is only given actions that stay readable can be read after any run of calls and crashes |
| RecoveryLedger.FileRecoveryLedger.ReadRecoveryLedger | internal/gsbench/recovery_ledger.go:575-667 | the loop checks and respells the entries; invalid or refused ones, repeated identities and too many entries spoil the file |
| RecoveryLedger.FileRecoveryLedger.CanonicalRecoveryLedgerAction | internal/gsbench/recovery_ledger.go:351-402 | all four payloads become canonical, or the action is refused |
| RecoveryLedger.FileRecoveryLedger.FindEntry | internal/gsbench/recovery_ledger.go:116-133 | the search loop returns the first entry of the identity, or the length |
| RecoveryLedger.FileRecoveryLedger.WriteRecoveryLedger | internal/gsbench/recovery_ledger.go:669-734 | the system calls leave the disk as the write specification says, for every pattern of failures |
| RecoveryLedger.FileRecoveryLedger.PutAction | internal/gsbench/recovery_ledger.go:94-163 | the new disk and the error are those of the specification, and the disk stays durable |
| RecoveryLedger.FileRecoveryLedger.MarkActionRestored | internal/gsbench/recovery_ledger.go:165-210 | likewise, with the retry that only syncs the directory |
| Journal.InvStep | internal/gsbench/journal.go:102-205 | every step of an applier, a restore pass, a reconciliation, a failing store or a crash keeps the write-ahead invariant |
| Journal.WriteAheadAlways | internal/gsbench/journal.go:102-132 | on every run, whenever a mutation may be present its row exists and is not restored |
| Journal.GuardIsExact | internal/gsbench/journal.go:149-205 | in every state the invariant admits, taking up an action can lead to a hidden mutation exactly when its forward action is still to come and the claim would succeed, or the action is only reconciled |
| Journal.Overtaking | internal/gsbench/journal.go:149-205 | the run that hides the mutation, from every state and take-up that violates the guard |
| Journal.OvertakingHidesMutation | internal/gsbench/journal.go:149-205 | such a run from the very start |
| Journal.VerifiedFirst | internal/gsbench/journal.go:168-202 | restored is written only right after a successful verification; a skip-marked inverse runs only right after a failed one |
| Journal.PassIsolates | internal/gsbench/journal.go:149-205 | each action of a pass ends, and is reported, exactly as if it alone had been restored from the starting state |
| Journal.SilentPass | internal/gsbench/journal.go:161-203 | in a whole pass, a current action that no report names is restored: its row says so and its mutation is gone |
| Journal.Journal.RestoreAction | internal/gsbench/journal.go:151-203 | one turn of the loop, branch by branch, gives the specified rows, effects and reports, as a run of the system |
| Journal.Journal.RestoreClaimed | internal/gsbench/journal.go:176-202 | after a claim: check, inverse, confirmation and the one final state write |
| Journal.Journal.RestoreActions | internal/gsbench/journal.go:149-205 | every unrestored action is tried once and in order whatever fails, and all failures are reported |
| Journal.Journal.ApplyAction | internal/gsbench/journal.go:102-132 | the row precedes the effect; the row is applied only after a successful forward action; the exact success condition |
| RestorePlan.CompareActions | internal/gsbench/restore.go:1143-1155 | two actions are mirrors exactly when all their fields agree, payloads up to their meaning |
| RestorePlan.SameIsEquivalence | internal/gsbench/restore.go:1143-1155 | being mirrors of one action is an equivalence |
| RestorePlan.ConsistentSnoc | internal/gsbench/restore.go:1101-1133 | a new action keeps the inputs free of conflicts exactly when it mirrors the kept action it clashes with |
| RestorePlan.Add | internal/gsbench/restore.go:1101-1133 | one input updates the list, both index maps and the conflicts as the merge specification says |
| RestorePlan.MergeRestoreActions | internal/gsbench/restore.go:1092-1141 | the loops keep the first of every clashing group, and report conflicts exactly when two inputs that clash are not mirrors |
| RestorePlan.MergedOnce | internal/gsbench/restore.go:1097-1133 | no identity and no positive journal id of a run is kept twice |
| RestorePlan.MergedCovers | internal/gsbench/restore.go:1097-1133 | every offered action is represented by a kept one |
| RestorePlan.PlanTotal | internal/gsbench/restore.go:586-605 | the comparison by stage, run, priority, sequence, target and kind is a total preorder |
| RestorePlan.PlanUntied | internal/gsbench/restore.go:586-605 | it ties no two different identities |
| RestorePlan.LatestRuns | internal/gsbench/restore.go:541-554 | every relevant run is kept once, under its trimmed id, with its latest start |
| RestorePlan.PlanRuns | internal/gsbench/restore.go:541-585 | the runs are distinct, sorted, and cover exactly the discovered, acted-on and requested ids |
| RestorePlan.PrepareRestorePlan | internal/gsbench/restore.go:537-607 | the plan is a sorted permutation of the merged actions over distinct runs; errors exactly on conflicts |
| RestorePlan.PlanIsDetermined | internal/gsbench/restore.go:586-606 | any two sorted permutations are the same plan, and no identity appears twice in it |
| RestorePlan.NewestFirst | internal/gsbench/restore.go:586-605 | stages never interleave, and within a stage, run and priority sequences descend |
| RestorePlan.RestoreActionGroup | internal/gsbench/restore.go:1198-1211 | the filter loop returns the actions of one run and stage, in order |
| RestorePlan.BeforeStep | internal/gsbench/restore.go:1198-1211 | in a sorted plan the group of a run and stage is exactly what follows all earlier groups |
| RestorePlan.StageEnds | internal/gsbench/restore.go:316-329 | after the last run of a stage the next stage begins, and after the last stage everything is done |
| Restore.Coordinator.RestoreGroups | internal/gsbench/restore.go:316-329 | the groups asked for, concatenated over stages and runs, are the plan, whatever fails; failures are exactly the failed groups |
| Restore.Coordinator.MarkTerminalRestoreOutcomes | internal/gsbench/restore.go:431-476 | without errors every run has the initial outcome; after any error every run that no error names is recorded as failed |
| Restore.PhasesOrdered | internal/gsbench/restore.go:258-407 | the calls keep the order of the protocol: mutex, discovery, requests, session stops, inverses, repair, verification, outcomes, release |
| Restore.Coordinator.Conclude | internal/gsbench/restore.go:331-358 | action errors are forgiven only by a successful reconciliation together with a successful verification |
| Restore.Coordinator.Finish | internal/gsbench/restore.go:360-403 | outcomes, protected operation and release; success exactly if all of them succeed, and the protected operation runs only if everything before it did |
| Restore.Coordinator.Restore | internal/gsbench/restore.go:216-420 | the mutex is released exactly once when taken; a plan is complete, and the restore succeeds, exactly under the stated answers; a refused start touches nothing; a complete plan is undone exactly; success means recorded outcomes |
| MirrorStore.JournalTable.ClaimAction | internal/gsbench/sqlstore.go:1479-1505 | the claim takes a row exactly when it is still in the state the caller saw |
| MirrorStore.CoordinatorActionStore.constructor | internal/gsbench/restore.go:643-674 | exactly the given actions are registered, each with the mirrors that hold it, the local copy winning |
| MirrorStore.CoordinatorActionStore.ClaimAction | internal/gsbench/restore.go:738-819 | both mirrors are claimed, or an error is returned, or a refused database claim leaves the local ledger and everything else untouched; the rows and the disk afterwards |
| MirrorStore.CoordinatorActionStore.SetSourceState | internal/gsbench/restore.go:821-878 | both mirrors take the new state; a database failure is deferred only if the local mirror took it; restored leaves the source's copy |
| MirrorStore.CoordinatorActionStore.SetActionState | internal/gsbench/restore.go:718-736 | writes the state of a registered action, and refuses exactly the others without a change |
| MirrorStore.CoordinatorActionStore.SetState | internal/gsbench/restore.go:685-716 | finds the one source of a run and number whatever the map order and writes its state; no match and several matches are refused without a change |
| MirrorStore.CoordinatorActionStore.DrainErrors | internal/gsbench/restore.go:880-889 | everything deferred is returned once and then all failures have been told |
| MirrorStore.CoordinatorActionStore.Pending | internal/gsbench/restore.go:898-911 | the actions of a run whose source is not restored, each once, newest first |
| MirrorStore.SettlingConserves | internal/gsbench/restore.go:808-877 | one call keeps the account: failures are told or deferred, none lost and none twice |
| MirrorStore.Perform | internal/gsbench/restore.go:738-889 | any run of claims, writes and drains, closed by a drain, reports exactly the calls whose database half failed, each once |
| Controller.Normalized | internal/gsbench/controller.go:169-198 | defaults leave limits, step and counts that are positive and consistent |
| Controller.RampAdjustment | internal/gsbench/controller.go:63-79 | a ramp moves by at least one worker |
| Controller.ObservedSafe | internal/gsbench/controller.go:245-444 | whatever is sampled: targets within limits, strictly up on low or missing samples and strictly down on high ones, no crossed bracket, ceiling counted only at the top, the exact meaning of reached |
| Controller.LowHalves | internal/gsbench/controller.go:358-398 | on a fixed load, a low sample at the target becomes the lower end, halves an inner bracket rounded up, and moves to the middle once confirmed |
| Controller.HighHalves | internal/gsbench/controller.go:399-440 | likewise for a high sample and the upper end |
| Controller.Round | internal/gsbench/controller.go:340-440 | after at most the required adjustment samples the target has moved and the bracket is found, halved or raised |
| Controller.SearchDecides | internal/gsbench/controller.go:340-440 | within requiredAdjustmentSamples times (range + 1 + halvings) samples the search stands in the band, or no allowed number of workers is in the band |
| Controller.Regulator.AdjustmentConfirmed | internal/gsbench/controller.go:228-239 | a move needs the required samples in one direction in a row |
| Controller.Regulator.OnLowSearching | internal/gsbench/controller.go:358-398 | the branch for low samples during the search does what the specification says of the whole loop state |
| Controller.Regulator.OnHighSearching | internal/gsbench/controller.go:399-440 | the branch for high samples during the search |
| Controller.Regulator.OnLowSettled | internal/gsbench/controller.go:331-357 | the branch for low samples once settled, with cooldown |
| Controller.Regulator.OnHighSettled | internal/gsbench/controller.go:377-398 | the branch for high samples once settled, with cooldown |
| Controller.Regulator.Observe | internal/gsbench/controller.go:262-444 | one turn of the loop body changes all loop variables and decides as specified |
| Controller.CurrentNext | internal/gsbench/controller.go:240-465 | each turn extends the history by one safe tick that follows from the one before |
| Controller.Run | internal/gsbench/controller.go:200-465 | the history is a chain of safe ticks; Run takes at most MaxSamples samples and RunUntil ends with its context; reached rests on the last RequiredSamples samples in the band |
| Controller.RunToMinimum | internal/gsbench/controller.go:96-154 | targets only rise, at most RequiredSamples * (MaxWorkers - MinWorkers + 1) samples whatever they are, and what reached, ceiling and the reachable maximum mean |
| LockTopology.ConfigureRowChainWaiters | internal/gsbench/lock_topology.go:91-143 | the nested loops lay out exactly the closed form: waiter i owns row i + i/depth + 2 and asks for the row above |
| LockTopology.ConfigureBranch | internal/gsbench/lock_topology.go:114-140 | the inner loop chains one branch |
| LockTopology.ConfigureDirectWaiters | internal/gsbench/lock_topology.go:145-201 | everybody waits for the holder, under distinct tags |
| LockTopology.ConfigureLockDefinition | internal/gsbench/lock_topology.go:24-83 | which definitions are configured, and the bounds that a configured row chain meets |
| LockTopology.ChainTagInjective | internal/gsbench/lock_topology.go:119 | no two waiters share a tag, and none has the holder's |
| LockTopology.OwnersFit | internal/gsbench/lock_topology.go:104-140 | a row about to be set up is free, and a requested row belongs to the blocker |
| LockTopology.RowsUsed | internal/gsbench/lock_topology.go:85-89 | the rows in use are exactly 1 up to the required number |
| LockTopology.SetupFits | internal/gsbench/lock_engine.go:236-248 | a setup takes its row without waiting |
| LockTopology.WaitFits | internal/gsbench/lock_engine.go:249-263 | a wait blocks on its blocker tag |
| LockTopology.ChainWaitsAsExpected | internal/gsbench/lock_engine.go:213-266 | under every schedule no setup waits, and in the end the wait-for graph is exactly the expected edges and the rows held exactly the required ones |
| LockTopology.ForestRootedAtHolder | internal/gsbench/lock_topology.go:114-140 | a waiter of depth k reaches the holder by exactly k edges and by no fewer; the holder waits for nobody |
| LockTopology.DepthReached | internal/gsbench/lock_topology.go:45-53 | depths lie between 1 and the requested depth, which is reached |
| LockEvidence.IsExpectedLockEvidence | internal/gsbench/lock_engine.go:678-732 | an item counts exactly when it shows one of the expected waits |
| LockEvidence.AppendExpectedLockEvidence | internal/gsbench/lock_engine.go:655-676 | the loops keep exactly the expected items that show no edge already kept |
| LockEvidence.RetainedDecides | internal/gsbench/lock_engine.go:655-676 | the verdict on the retained list equals the verdict on the whole history in every detail, however it was observed |
| LockEvidence.VerifyMonotone | internal/gsbench/lock_engine.go:820-1003 | more evidence never changes a success |
| LockEvidence.SuccessShowsEverything | internal/gsbench/lock_engine.go:845-956 | a success means that every expected wait was observed |
| LockEvidence.ChainVerdict | internal/gsbench/lock_engine.go:845-956 | for the laid-out row chain, success exactly when every expected edge was observed |
| LockEvidence.VerifyConfiguredLock | internal/gsbench/lock_engine.go:845-956 | the marking loops compute the verdict of what was seen |
| LockEvidence.VerifyRowChain | internal/gsbench/lock_engine.go:979-1003 | likewise for the fixed three-session chain |
| LockEvidence.VerifyDirect | internal/gsbench/lock_engine.go:827-843 | the first matching item decides and is the one reported |
| LockEvidence.VerifyLock | internal/gsbench/lock_engine.go:820-843 | the verdict of the three kinds |
| Dataset.Store.NextIds | internal/gsbench/dataset_dialect.go:114-200 | the primary key refuses an insertion right after the mark exactly when rows are ahead of the mark; otherwise the ids stay consecutive |
| Dataset.DatasetManager.ApplyDatasetBatch | internal/gsbench/dataset.go:835-870 | a batch keeps every table consecutive from 1, whatever the replies; a table whose rows are ahead of its mark takes no further batch |
| Dataset.DatasetManager.ApplyAtomicBatch | internal/gsbench/dataset.go:835-855 | with atomic commits a batch is inserted with its mark or not at all, whatever the reply |
| Dataset.DatasetManager.ApplyPlainBatch | internal/gsbench/dataset.go:853-868 | without them rows and mark are two calls: rows and mark after every pair of replies |
| Dataset.DatasetManager.BatchEnd | internal/gsbench/dataset.go:551-565 | a batch keeps to the batch size, the planned rows and half of the bytes that are left |
| Dataset.DatasetManager.LoadTable | internal/gsbench/dataset.go:520-619 | loading resumes after the mark, gains at most the planned rows, stops short only for the size target and does not pass it |
| Dataset.DatasetManager.LoadTables | internal/gsbench/dataset.go:505-619 | all tables, those without weight first when sizes are known; all planned rows unless stopped for size |
| Dataset.DatasetManager.RowDeficit | internal/gsbench/dataset.go:899-918 | a calibration step fits the batch size and half of the bytes that are left |
| Dataset.DatasetManager.CalibrateDataset | internal/gsbench/dataset.go:871-966 | at most three rounds, none from 90 percent on, and never past the target |
| Dataset.DatasetManager.Init | internal/gsbench/dataset.go:416-732 | one run keeps every table consecutive, never lowers a mark, and does not pass the size target but for what its indexes take; needing more of a table whose rows are ahead of its mark it fails, unless the target stops it first |
| Dataset.Run | internal/gsbench/dataset.go:416-732 | after any number of runs, failures and crashes every table holds consecutive ids from 1, each once; with atomic commits up to its mark; otherwise a table left ahead of its mark is so for good |
| Dataset.RunFromEmpty | internal/gsbench/dataset.go:416-732 | the same on a fresh database |
| Dataset.BatchesFollow | internal/gsbench/dataset.go:734-739 | the ids of a batch and of the next one are the ids of the whole range: none is left out or repeated |
| Refresher.SingleFlightStep | internal/app/refresher.go:91-108 | every step of every thread keeps at most one holder per slot, and busy exact |
| Refresher.WorkStep | internal/app/refresher.go:98-108 | every step keeps the work counter equal to the goroutines that have yet to call Done |
| Refresher.InvStep | internal/app/refresher.go:91-231 | all invariants are kept by every step |
| Refresher.ProtocolHolds | internal/app/refresher.go:91-231 | over every interleaving: one body per slot, one hook, exact counters, and nothing in flight once Stop has returned |
| Refresher.LaunchesAreAllowed | internal/app/refresher.go:91-189 | launches only while neither paused nor stopped, and no counter raised while somebody may wait for it |
| Refresher.QuietForever | internal/app/refresher.go:217-231 | after Stop returned nothing is ever in flight again |
| Refresher.StoppingIsBounded | internal/app/refresher.go:217-231 | once a stop was requested, and whatever the user calls after it, the threads make no more than a fixed number of steps, and two more for every further caller of Stop |
| Refresher.StopReturns | internal/app/refresher.go:226-231 | Stop can always be brought to return: there is no deadlock |
| Refresher.Refresher.TriggerIdle | internal/app/refresher.go:91-104 | one goroutine for each idle slot and no other, unless paused or stopped, as a run of the system |
| Refresher.Refresher.RunAfterRefreshAsync | internal/app/refresher.go:173-189 | a hook starts exactly when registered, not stopped and none is running |
| Refresher.Refresher.PauseRefresh | internal/app/refresher.go:195-199 | pausing changes the gate alone |
| Refresher.Refresher.ResumeRefresh | internal/app/refresher.go:202-214 | resuming asks for a pass unless stopped |
| RunLock.Session.Close | internal/gsbench/run_lock.go:229-384 | only a session that certainly holds nothing may go back to the pool |
| RunLock.ReleaseDatabaseAdvisoryKeys | internal/gsbench/app.go:1716-1738 | all keys are unlocked in reverse order, whatever fails; without failure none may still be held |
| RunLock.ReverseOrder | internal/gsbench/app.go:1721-1722 | the last key acquired is the first undone |
| RunLock.CleanupSession | internal/gsbench/app.go:1917-1938 | partial acquisitions are undone in reverse and the session is closed or, when uncertain, discarded |
| RunLock.Lease.Release | internal/gsbench/run_lock.go:316-331 | a lock is given back once, however often it is released, and every release returns how that ended |
| RunLock.AcquireDatabaseRunLock | internal/gsbench/run_lock.go:276-384 | an active lease on exactly the key, or a session that is finished; which of them, and when it is busy, exactly |
| RunLock.ProbeDatabaseRunLock | internal/gsbench/run_lock.go:229-274 | the probe answers from the server's reply and keeps nothing |
| RunLock.DatabaseRestoreLock.Release | internal/gsbench/app.go:1683-1714 | every key in reverse and the local mutex are freed, once; every call returns how that ended |
| RunLock.AcquireDatabaseLock | internal/gsbench/app.go:1869-2012 | all keys, or none after undoing those acquired in reverse order |
| RunLock.PlanFirstRestoreLock.Release | internal/gsbench/app.go:1302-1319 | restore lock then plan lock, once; every call returns how that ended |
| RunLock.AcquirePlanLockForRestore | internal/gsbench/app.go:1348-1407 | every session but the one that got the lock is finished |
| RunLock.AcquirePlanFirstRestoreLock | internal/gsbench/app.go:1409-1458 | plan lock, mutex and database keys together, or nothing of them |
| RunLock.AcquireRestoreLockPlanFirst | internal/gsbench/app.go:1749-1801 | likewise over the retry after an unreachable database |
| RunLock.AcquireRestoreLockLocalFirst | internal/gsbench/app.go:1803-1856 | likewise with the mutex kept across the retry |
| RunLock.WithDatasetLifecycleDatabaseLock | internal/gsbench/run_lock.go:51-89 | the work runs under an active lease, exactly when some attempt within the limit is granted after busy ones only, and every session is finished afterwards |
| RunLock.WithDatasetExecutionDatabaseLease | internal/gsbench/run_lock.go:91-118 | likewise for the shared lease, which is not waited for and whose failed release fails the run |
| MemPersist.EvictRetains | internal/emergency/persist_mem.go:131-138 | dropping the oldest bucket leaves the newest ones whole |
| MemPersist.PersistRetains | internal/emergency/persist_mem.go:48-51 | a sample of the newest snapshot keeps the buckets a complete suffix of the history |
| MemPersist.BucketsAreLog | internal/emergency/persist_mem.go:61-74 | buckets in key order are the chronological log |
| MemPersist.WindowRetained | internal/emergency/persist_mem.go:61-74 | with room for two snapshots more than the window, none of the window was dropped |
| MemPersist.StoreRetains | internal/emergency/persist_mem.go:48-51 | with room for two snapshots the buckets of any chronological log are a complete suffix of it |
| MemPersist.EnoughAnswers | internal/emergency/persist_mem.go:61-74 | under the settings below every answer is the log's |
| MemPersist.LessIsNotEnough | internal/emergency/persist_mem.go:48-51 | for every other pair of settings, one sample of each snapshot and a second of the last lose the first one of the window |
| MemPersist.EnoughExactly | internal/emergency/persist_mem.go:48-74 | the store answers like the log exactly when the window is empty or there is room for two snapshots more than it spans |
| MemPersist.MinKey | internal/emergency/persist_mem.go:140-160 | the smallest key, whatever the map order |
| MemPersist.SortedKeys | internal/emergency/persist_mem.go:162-169 | all keys, strictly rising |
| MemPersist.MemPersist.GetSnapID | internal/emergency/persist_mem.go:36-39 | ids count up |
| MemPersist.MemPersist.PersistInsInfo | internal/emergency/persist_mem.go:42-45 | the sample is stored after the oldest made room |
| MemPersist.MemPersist.PersistSqlInfo | internal/emergency/persist_mem.go:48-51 | the sample is appended after the oldest bucket made room, for any settings and ids |
| MemPersist.MemPersist.GetSqlInfoSnap | internal/emergency/persist_mem.go:61-74 | the answer is the chronological filter of everything ever persisted under those settings, and under any settings holds nothing else |
| Alarm.ReportsApart | internal/alarm/alarm.go:99-178 | any two reports of a key are at least the suppression window apart, whatever is cleaned between them |
| Alarm.CountedReport | internal/alarm/alarm.go:116-128 | a counted report has the required number of calls in its observation window |
| Alarm.ReportsArePaidFor | internal/alarm/alarm.go:116-130 | counted traces have at most one report in report_thresh calls |
| Alarm.CleanInvisible | internal/alarm/alarm.go:162-178 | with safe windows a clean-up at any point of any trace changes no later answer |
| Alarm.CleanVisible | internal/alarm/alarm.go:162-178 | with any other windows some trace is changed by a clean-up |
| Alarm.Alarm.ShouldReport | internal/alarm/alarm.go:99-130 | the answer and the new state of the key are those of the specification, and no other key is touched |
| Alarm.Alarm.CleanExpiredKeys | internal/alarm/alarm.go:162-178 | every key is cleaned as specified, whatever the map order |

## Left out

- SQL text, catalog queries, drivers, pools and EXPLAIN output; statements are row numbers or opaque texts.
- File trust checks (owner, mode, links), path aliases and flock; the ledger's mutual exclusion is taken for granted.
- RecoveryLedger.NumbersFit: looks at the decoded document, so a number under a repeated key that a later member overwrites is not checked, while the source's decoder converts it too and may refuse the payload.
- Alarm.Alarm.ShouldReport: the windows and the threshold are fixed for the life of the object; the source reads them from its configuration at every call.
- Credential patterns and the shortening of error texts; the decoder's limit on nesting, and bytes that are no UTF-8.
- Timers and contexts beyond "done or not when asked"; 64-bit overflow of counters other than snapshot ids.
- Ledger listing calls that only filter (Snapshot, Pending), the deadlock scenario 504 and the lock matrix.
- Dataset schema creation, migration, index DDL and ANALYZE; building an index only grows the size.
- Health views, screens, panels, rendering, configuration parsing and command line handling.
- Emergency baselines (the third map of the snapshot store), which use the same eviction.
- Journal.WriteAheadAlways: speaks of runs that keep to MayTakeUp, because without it the law is false; Journal.GuardIsExact shows that the guard cannot be weaker.
- Controller.SearchDecides: speaks of the search phase with SettledStep 0, on loads that answer each number of workers with one value; limits of a run on samples are in Controller.Run.
- Controller.Run: errors of the workload and of SetTarget end the run; resident worker counts are not reported.
- LockTopology.ConfigureDirectWaiters: the column names of scenario 503 come from a parameter instead of a run token.
- LockEvidence.VerifyLock: messages and metric names of the result are not part of the verdict.
- Dataset.DatasetManager.Init: schema, migration, index and ANALYZE statements, whose errors also end a run, are not steps of it; where a run ends makes no difference to what is claimed of the tables.
- MemPersist.MemPersist.GetSqlInfoSnap: the equality needs the settings of MemPersist.EnoughExactly, ids that never fall and a target no smaller than any stored id; without them the answer is only known to be sound.
