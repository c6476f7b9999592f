# pfSense backup manager: a verified model

The backup manager downloads configurations of pfSense firewalls on a schedule, keeps them as
plain or encrypted files with one database row each, copies them off-site, prunes them, and
indexes what changed between them. This project models the parts of it whose correctness is
hard to see from the code, and proves in Dafny what they promise.

* **Change index** (`Diff`, `ListDiff`, `Anchors`, `AnchorLog`, `RowReplay`, `SingleReplay`,
  `LogReplay`, `EventKinds`, `EventsOnce`, `Reindex`, `Resolver`, `ResolverPackages`, `ResolvedText`).
  Configurations are compared field by field and row by row; each difference becomes an event at an
  anchor; the events are an index. The main results: the field diff is an exact patch in both
  directions, applied in any order; the list diff is the same whatever order Python walks its sets;
  which events a step writes, of which kind and with which value, is read off the two snapshots, for
  all row lists; replaying the log gives, after every snapshot of every history, the value of that
  snapshot at every anchor whose own rows keep their diff key and whose own field does not change
  inside a nested model, whatever happens elsewhere; events written one backup at a time equal the
  events of a full reindex; and the resolver that reads one anchor straight from a snapshot is
  compared with the index on all inputs, duplicates included.
* **Retention** (`Retention`, `RetentionRuns`, `RetentionTiers`, `Cleanup`). The loops over the
  sorted list compute a choice function on the set of backups, read off the policy in microseconds,
  and pruning along the way is compared with one prune of the whole history: always the same without
  tiers, with one tier or without a cap, and otherwise under an exact condition. Clean-up built on it
  removes exactly what the policy does not keep, and keeps rows and files in agreement through failed
  unlinks and crashes.
* **Locks** (`Locks`, `LockSafety`, `LockTables`). A transition system of any number of worker
  processes and threads, with crashes, failing unlocks and exceptions around the file lock: mutual
  exclusion and exactly when it is lost, the host cap, freedom from deadlock, and termination of
  every schedule. The tables of a process are classes proved to mirror the system's state.
* **Key rotation** (`KeyRotation`). `rotate-key` stopped after any number of its atomic writes,
  any number of times, never loses a readable ciphertext.
* **Encrypted wrapper** (`Base64`, `WrapperText`, `WrapperLayout`, `Wrapper`,
  `WrapperSize`, `WrapperFormat`, `ForeignBlobs`). Blobs other tools wrote open, and encryption writes
  their format. Base64, padding, salt framing, line wrapping and the line parser are concrete; the block
  cipher, PBKDF2, MD5 and the character codec are parameters with the laws in `Wrapper.Lawful`, which
  `Wrapper.LawsAreConsistent` shows to have a model.
* **Off-site replication** (`ReplicaPayload`, `ReplicaRow`, `Offsite`). Layers and their inverse,
  the life of a replica row with its retry bounds, and the store as a whole.
* **Bulk re-encryption** (`Reencrypt`). Recorded password and file move together.
* **Search** (`Search`). An escaped LIKE pattern is substring search.

`Basics` and `Ordering` hold options, flattening and sorting.

## Reading the model

Rows and singleton sections are JSON objects; `Norm` drops `None` entries, because the code treats
a missing key and `None` alike. A `None` value counts as absent in the index. Times are integers
(microseconds), and calendar days, weeks and months are arbitrary functions of them. Randomness
(salts, new keys), clocks, fault patterns and the order in which a set is walked are arguments, so
every statement holds for all of them. Crashes are a budget of atomic writes (key rotation), a
place in the loop (clean-up), or an arbitrary end of a step sequence (locks, re-encryption).

Hypotheses a statement needs are in its `requires`, and are about the inputs: for a row anchor,
that its rows have one diff key and no other row has it (`RowReplay.AlignedAt`, implied for a
whole section by an injective sanitiser: `SafeInjectiveAligns`), distinct start times, distinct
paths, distinct object names.

What turned out false of the code is stated as such:

* A change inside a nested model of a singleton section (say `system.webgui.port`) is not
  recorded. `NestedFieldMissed` is such a history, and `FieldStepIff` proves of every field that the
  index is right there after a step exactly when the field did not change inside a nested model.
* A row anchor that loses its rows while their diff key lives on stays in the index. This happens to
  every VLAN whose device is renamed under the same key (`RenamedVlanLingers`); `VanishedStepIff`
  is the exact condition for anchors that are gone.
* On duplicate keys the resolver returns the first row and the index holds the last, and an empty
  key resolves to nothing: `ResolverAgainstIndex`.
* Mutual exclusion is lost when a call between taking the file lock and the `try` block that
  releases it raises (worker/backup_manager.py:344-358): the instance lock is released first, a
  second thread of the process takes the lock file over on the shared descriptor, and the late
  unlock frees it under that thread. `MutualExclusion` holds in every run without such a raise,
  `EarlyRaiseBreaksExclusion` extends every run that has one to two threads inside, and
  `EarlyRaiseIsTheOnlyDanger` puts the two together as an if-and-only-if.
* With several retention tiers and a count cap above one, pruning along the way can lose a backup
  that one prune of the full history keeps: `MixedPolicyForgets`. `IncrementalEqualsBatchIff` is
  the exact condition: no earlier cap cut a backup that the final prune keeps. With no tiers, one
  tier, no cap or a cap of one it never happens (`IncrementalEqualsBatch`).
* A base name ending in `.2x` makes a single-layer object look double-layered. `RoundTripIff` is
  the exact condition under which an off-site copy restores.
* Replica rows have dead ends: `StuckIffDeadEnd` says exactly which rows stay as they are until they
  are deleted, and there are lives that end in each: an off-site-only row whose replica was flagged
  (`FlaggedOffsiteIsStuck`), a row skipped because its file was missing (`MissingFileIsStuck`), and
  a row whose attempts are used up (`ExhaustedIsStuck`).
* A plain verification does not notice a damaged object that is still there; a deep one does:
  `DamageNeedsDeepCheck`.
* Re-encryption leaves replica columns alone, so a copy uploaded before it is stale: retrieving it
  brings back content under the old password beside the new recorded one (`StaleCopyReturns`).
* A failed replace that unlinks the staged file leaves the new password with the old file until
  the compensating commit (`FailedReplaceLosesRow`); `RecoverableIffNotLost` says this is the only
  way a stopped re-encryption loses a row. When the re-encryption loop is left by an exception, the job is
  reported as failed even if every row moved: `SuccessMeansAllMoved`.
* Re-encryption takes no file lock, so it excludes a backup of the same instance within its own
  process (`GuardedExcludesBackup`) and between any two processes not (`GuardedMissesOtherProcesses`). The
  comment at worker/ipc_listener.py:208-215 reads as if it excluded every backup in flight; the
  model follows the code.

## Model

| member | source | states |
|---|---|---|
| FieldDiff.CompareFields | pfsense_shared/pfsense_diff.py:648-663 | the recursive comparison loop appends exactly the changes of the declarative diff, under the given prefix |
| FieldDiff.FieldChangesMember | pfsense_shared/pfsense_diff.py:648-663 | a change is reported if and only if its path leads through dictionaries on both sides to two different values, with missing read as None |
| FieldDiff.EmptyDiffIffAgree | pfsense_shared/pfsense_diff.py:648-663 | the diff is empty if and only if the two sides agree up to missing versus None at every dictionary level |
| FieldDiff.PathsPrefixFree | pfsense_shared/pfsense_diff.py:648-663 | no reported path is a prefix of another |
| FieldDiff.FieldChangesDistinct | pfsense_shared/pfsense_diff.py:652-663 | no change is reported twice |
| FieldDiff.PatchInAnyOrder | pfsense_shared/pfsense_diff.py:648-663 | the changes applied in any order turn the old side into the new |
| FieldDiff.DiffIsExactPatch | pfsense_shared/pfsense_diff.py:648-663 | after values lead from old to new and before values from new to old, in any order of application |
| ListDiff.ByKeyIsLast | pfsense_shared/pfsense_diff.py:602-613 | on duplicate keys the last row wins, in the table and in the index |
| ListDiff.CollectSorted | pfsense_shared/pfsense_diff.py:605-606 | added and removed rows come out sorted by key whatever order the set is walked in |
| ListDiff.CompareCommon | pfsense_shared/pfsense_diff.py:615-631 | the loop over common keys finds the modified, moved and unchanged ones whatever order it walks them in |
| ListDiff.CompareLists | pfsense_shared/pfsense_diff.py:591-645 | the result does not depend on set iteration order: it is one function of the two lists |
| ListDiff.CountsPartitionKeys | pfsense_shared/pfsense_diff.py:609-645 | unchanged plus modified plus removed count the old keys, unchanged plus modified plus added the new ones |
| ListDiff.AddedMember | pfsense_shared/pfsense_diff.py:605-605 | a row is added if and only if it is filed on the new side under a key the old side lacks |
| ListDiff.RemovedMember | pfsense_shared/pfsense_diff.py:606-606 | a row is removed if and only if it is filed on the old side under a key the new side lacks |
| ListDiff.ModifiedMember | pfsense_shared/pfsense_diff.py:615-622 | an item is modified if and only if both sides have its key with differing rows, and it carries their changes |
| ListDiff.DiffRebuildsNewTable | pfsense_shared/pfsense_diff.py:591-645 | the old table and the diff rebuild the new table |
| ListDiff.ReordersPermute | pfsense_shared/pfsense_diff.py:623-631 | for duplicate-free lists over the same keys the reorder events permute positions |
| ListDiff.NoReorderIffSameOrder | pfsense_shared/pfsense_diff.py:623-631 | and there are none if and only if the orders agree |
| Anchors.SafeIdempotent | pfsense_shared/anchor_events.py:42-48 | sanitising twice is sanitising once |
| Anchors.SafeMeans | pfsense_shared/anchor_events.py:42-48 | ASCII letters, digits, underscore and dash stay, any other character becomes an underscore |
| Anchors.AliasesInverse | pfsense_shared/anchor_events.py:125-132 | the projector's and the resolver's alias tables undo each other on every section and legal field |
| RowReplay.SafeInjectiveAligns | pfsense_shared/anchor_events.py:212-217 | if the sanitiser merges no two keys in play, diff keys and anchors of a section correspond |
| RowReplay.SectionEventSound | pfsense_shared/anchor_events.py:265-316 | every row event whose anchor is told apart by its diff key says what the new snapshot shows there, and unless it is a reorder the value did change |
| RowReplay.SectionChangeReported | pfsense_shared/anchor_events.py:265-316 | every such row anchor whose value changed has an added, removed or modified event |
| RowReplay.VanishedReportedIff | pfsense_shared/anchor_events.py:265-316 | whatever the keys, an anchor no row has any more is reported if and only if a row that had it lost its diff key too |
| SingleReplay.SingleEventSound | pfsense_shared/anchor_events.py:318-376 | every singleton event says what the new snapshot shows at its field |
| SingleReplay.FieldReported | pfsense_shared/anchor_events.py:318-376 | every singleton field that changed has an event, unless it changed inside a nested model |
| LogReplay.RowEventIffChanged | pfsense_shared/anchor_events.py:265-376 | a row anchor told apart by its diff key gets an event that is not a reorder if and only if its value changed, whatever the rest of the configurations |
| EventKinds.RowEventIff | pfsense_shared/anchor_events.py:265-316 | for all row lists, duplicates and missing keys included, an event about a row is written if and only if the lists say so: added when the key is new, removed when it is gone, modified when the last rows under it differ, reordered when they sit at different positions in one of the two ordered sections; with the row it carries |
| EventKinds.ReorderedIff | pfsense_shared/anchor_events.py:310-316 | a reorder event is written if and only if a key of firewall_rules or nat_rules has different last positions in the two lists; it carries the last new row filed under that key and has its anchor |
| EventKinds.RowKindMeans | pfsense_shared/anchor_events.py:272-316 | what both snapshots show at the anchor of an event, by its kind, and that the carried value is the one shown |
| EventKinds.RowKindIff | pfsense_shared/anchor_events.py:265-316 | where the anchor is told apart by its diff key: an added event if and only if the old snapshot shows nothing there and the new one something, removed the other way round, modified if and only if both show something and they differ |
| EventKinds.FieldEventIff | pfsense_shared/anchor_events.py:318-376 | an event about a singleton field is written if and only if the two models say so, with its kind and value: a section or value that appeared, one that disappeared, or two values that differ and are not both nested models |
| EventsOnce.ProjectDistinct | pfsense_shared/anchor_events.py:248-376 | no step writes the same event twice |
| LogReplay.StepRightAt | pfsense_shared/anchor_events.py:265-376 | an index that is right at an anchor is right there after a step that is good at that anchor, whatever happens at others |
| LogReplay.FieldStepIff | pfsense_shared/anchor_events.py:318-376 | at every field the index is right after a step if and only if the field did not change inside a nested model |
| LogReplay.VanishedStepIff | pfsense_shared/anchor_events.py:265-316 | at a row anchor that no row has any more the index is right after a step if and only if there was nothing to forget or a row that had it lost its diff key too |
| LogReplay.RenamedVlanLingers | pfsense_shared/anchor_events.py:66-66 | for any two device names a renamed VLAN leaves its old anchor in the index |
| LogReplay.StepFaithfulIffFlat | pfsense_shared/anchor_events.py:265-376 | where all sections are aligned, an index that shows the old snapshot shows the new one after the step if and only if no singleton field changed inside a nested model |
| LogReplay.NestedFieldMissed | pfsense_shared/anchor_events.py:358-376 | a concrete pair of snapshots whose nested change the log misses |
| LogReplay.SeedShows | pfsense_shared/anchor_events.py:511-547 | replaying the seed events of a snapshot gives exactly that snapshot |
| EventKinds.SeedMeans | pfsense_shared/anchor_events.py:511-547 | the seed holds an added event for every row that has an anchor and every field of a section, and nothing else |
| LogReplay.ReplayAtAnchor | pfsense_shared/anchor_events.py:248-376 | for every chain of snapshots and every anchor at which its steps are good, replay up to any point gives exactly the value of the snapshot there |
| LogReplay.ReplayGivesEverySnapshot | pfsense_shared/anchor_events.py:248-376 | where the steps are good at all anchors, replay up to any point gives exactly the snapshot there |
| Reindex.ReindexInstance | worker/__main__.py:494-574 | the reindex loop with its carried previous snapshot writes the declarative log, unreadable backups skipped, and counts what it wrote |
| Reindex.IngestionEqualsReindex | worker/backup_manager.py:1567-1667 | one backup at a time writes what the full walk writes, when all are readable and start times increase |
| Reindex.IngestionEqualsReindexCommand | worker/__main__.py:494-574 | and the same as the reindex command, which sorts first |
| Reindex.LogRecords | worker/__main__.py:494-574 | the log holds exactly the records of the readable backups: own id and time, and the seed without predecessor or the events since the last readable backup before it with that backup's id |
| Reindex.IngestMeans | worker/backup_manager.py:1567-1667 | an arrival records its own id and time, and the events since the latest other backup that started before it with that backup's id, or its seed when it is the only one |
| Reindex.LogReplaysChain | worker/__main__.py:494-574 | the log of any history, unreadable backups included, replays to the index of its readable chain |
| Reindex.IndexAgreesAt | worker/__main__.py:494-574 | after every history the reindexed log shows, at every anchor at which the steps were good, the value of the last readable snapshot |
| Reindex.IndexAgreesWithSnapshots | worker/__main__.py:494-574 | and the whole snapshot where they were good at all anchors |
| Reindex.ProjectSection | pfsense_shared/anchor_events.py:265-316 | the loops over added, removed, modified and reordered rows with their lookup table yield the projection that EventKinds.RowEventIff characterises |
| Reindex.EmitRows | pfsense_shared/anchor_events.py:272-280 | one event per row that has an anchor, in order |
| Reindex.EmitLookups | pfsense_shared/anchor_events.py:294-316 | one event per key found in the lookup table |
| Resolver.ParseRender | pfsense_shared/pfsense_anchor_values.py:128-128 | the anchor pattern takes apart every id the projector builds |
| Resolver.ParsesOnly | pfsense_shared/pfsense_anchor_values.py:128-128 | and nothing else parses: a namespace, a word, and a non-empty rest or none, with at most one trailing newline |
| ResolvedText.FieldIds | pfsense_shared/anchor_events.py:125-132 | the ids of fields and rows in letters, the four dns aliases among them |
| Resolver.ResolvesFirst | pfsense_shared/pfsense_anchor_values.py:205-224 | every row anchor resolves to the first row that has it, duplicates or not, and an empty key to nothing |
| Resolver.EnumeratedRowResolves | pfsense_shared/pfsense_anchor_values.py:205-224 | resolving the id of an enumerated row returns that row when the keys of its own kind are distinct |
| Resolver.EnumeratedFieldResolves | pfsense_shared/pfsense_anchor_values.py:187-203 | resolving the id of an enumerated field returns its value as text, through the alias tables; ResolvedText.FieldAnswers says which text |
| ResolvedText.FieldAnswers | pfsense_shared/pfsense_anchor_values.py:187-203 | the answer at a field: nothing for None, yes or no for a flag, the string itself, and str() of a number or nested model |
| ResolvedText.FieldListAnswers | pfsense_shared/pfsense_anchor_values.py:235-240 | lists: empty text for none, the text of a single item with None as empty, and the texts of two lists joined by a comma and a space for the two lists together |
| ResolvedText.SectionAnswers | pfsense_shared/pfsense_anchor_values.py:163-186 | the id of a section answers with its model, of unbound with the dns model, and with nothing when it is absent |
| Resolver.SeedResolves | pfsense_shared/pfsense_anchor_values.py:163-240 | every anchor enumerated from the base sections resolves to the value enumerated with it |
| Resolver.ResolverMatchesIndex | pfsense_shared/pfsense_anchor_values.py:163-240 | with distinct keys of its kind, a row anchor resolves to the row the index holds |
| Resolver.ResolverAgainstIndex | pfsense_shared/pfsense_anchor_values.py:205-224 | a row anchor resolves to nothing if and only if it is not in the index or its key is empty; otherwise the resolver returns the first row that has it and the index holds the last |
| Resolver.FieldResolvesIffIndexed | pfsense_shared/pfsense_anchor_values.py:187-203 | a field anchor resolves if and only if it is in the index, to the text of the value held there |
| ResolverPackages.PackageFieldResolves | pfsense_shared/pfsense_anchor_values.py:187-203 | a field of an installed package resolves through the dotted path to its value as text |
| ResolvedText.PackageAnswers | pfsense_shared/pfsense_anchor_values.py:187-203 | the answer at a field of a package model, by the same literal texts |
| ResolvedText.PackageListAnswers | pfsense_shared/pfsense_anchor_values.py:235-240 | and of a list in it |
| ResolvedText.PackageSectionAnswers | pfsense_shared/pfsense_anchor_values.py:163-186 | the id of a package answers with its model, with nothing when it is absent |
| ResolverPackages.BackendResolves | pfsense_shared/pfsense_anchor_values.py:205-224 | a proxy backend resolves through the dotted path to the first backend with that id |
| ResolverPackages.SeedFullResolves | pfsense_shared/anchor_events.py:511-576 | every enumerated anchor, packages included, resolves to the value enumerated with it |
| ResolvedText.SeedFullMeans | pfsense_shared/anchor_events.py:511-576 | enumeration with packages holds the seed of the base sections, one added event per package field and per named backend, and nothing else |
| Retention.NewestFirstSorts | pfsense_shared/retention.py:74-78 | sorting yields the same backups, newest first |
| Retention.NewestPerBucket | pfsense_shared/retention.py:96-106 | the loop with its seen set adds the first backup of every bucket inside the window |
| Retention.UniteTiers | pfsense_shared/retention.py:90-124 | the union of the tiers and the newest backup |
| Retention.ComputeKeepIds | pfsense_shared/retention.py:63-132 | on every list the kept ids are those of the specification, among the given ones, with a newest backup, and within a positive cap; RetentionTiers.KeptIff reads them off the policy |
| RetentionRuns.KeepIdsIsChoice | pfsense_shared/retention.py:63-132 | with distinct ids and times the loops make an order-free choice: newest of each bucket in its window, recent ones, the newest, cut to the newest n |
| RetentionTiers.KeepMeans | pfsense_shared/retention.py:46-132 | the members of the choice from the policy fields and microseconds: without tiers the newest as many as the count, at least one; with tiers the newest of all, those inside the keep-all window and the latest of their day, week or month inside its window, cut to the newest as many as a positive count |
| RetentionTiers.KeptIff | pfsense_shared/retention.py:46-132 | and so the ids that the list computation returns, for distinct ids and times |
| RetentionRuns.TierHeritage | pfsense_shared/retention.py:90-124 | pruning by tiers, then adding, then pruning later equals pruning everything at the later time |
| RetentionRuns.TopHeritage | pfsense_shared/retention.py:80-88 | the same for the newest n |
| RetentionRuns.CappedTierHeritage | pfsense_shared/retention.py:90-130 | the same for one tier cut to the newest n |
| RetentionRuns.IncrementalEqualsBatch | pfsense_shared/retention.py:63-132 | for no tiers, one tier, no cap or a cap of one: any interleaving of arrivals and prunes that ends with a prune leaves what one prune of the never-pruned history leaves |
| RetentionRuns.SameChoiceIffPresent | pfsense_shared/retention.py:63-132 | with tiers and a cap, what is left chooses as the full set would if and only if the full choice is still there |
| RetentionRuns.CutNeedsFullCap | pfsense_shared/retention.py:126-130 | a prune cuts something only if its tiers choose more than the cap |
| RetentionRuns.IncrementalEqualsBatchIff | pfsense_shared/retention.py:63-132 | with tiers and a cap the law holds if and only if no earlier cap cut a backup that the final prune of the full history keeps |
| RetentionRuns.IncrementalEqualsBatchWhileCapIdle | pfsense_shared/retention.py:126-130 | in particular tiers with a cap obey the law while no prune chooses more than the cap |
| RetentionRuns.MixedPolicyForgets | pfsense_shared/retention.py:126-130 | a concrete history where a cutting cap loses what the batch keeps |
| Cleanup.Store.CleanupOldBackups | worker/backup_manager.py:1328-1401 | after a commit a stale row is gone, or off-site only when a verified replica is to be kept, unless its file could not be unlinked; every other row and file is as it was; the remote deletions are the keys of the deleted rows while deletions are mirrored; a crash before the commit changes no row and removes only files it was to remove |
| Cleanup.Store.DropStale | worker/backup_manager.py:1379-1400 | one stale row: blocked by a failed unlink, flipped to off-site, or deleted |
| Cleanup.StaleMeans | worker/backup_manager.py:1340-1373 | for distinct times a row is stale if and only if it is a local success of the instance, the policy sets a positive count or a tier, and the policy does not keep it |
| Cleanup.KeptUntouched | worker/backup_manager.py:1370-1373 | a row that is not stale keeps its columns and its file |
| Cleanup.GoneOnlyWithoutFile | worker/backup_manager.py:1380-1400 | a row is deleted or flipped only if its file is gone |
| Cleanup.ReplicaSurvives | worker/backup_manager.py:1389-1396 | with replication on and mirror-deletes off, a row with a verified replica is never deleted |
| Cleanup.NewestNeverStale | worker/backup_manager.py:1360-1373 | a newest candidate always stays |
| Cleanup.CrashThenRerun | worker/backup_manager.py:1328-1401 | a crash anywhere before the commit and a second run at the same time end like one undisturbed run, stale rows gone or off-site |
| LockTables.InstanceLocks.ForInstance | worker/instance_locks.py:52-54 | lazily created, and always the same lock for the same id |
| LockTables.InstanceLocks.Acquire | worker/instance_locks.py:52-54 | taking the lock succeeds exactly when the acquiring step is possible, and the table then mirrors the state after it |
| LockTables.InstanceLocks.Release | worker/ipc_listener.py:245-253 | leaving the lock mirrors the releasing step |
| LockTables.HostSemaphores.ForHost | worker/instance_locks.py:92-97 | one semaphore per normalised host with the given bound |
| LockTables.HostSemaphores.ForUrl | worker/instance_locks.py:63-97 | the semaphore of the URL's host key, none where reading the port raises |
| LockTables.SameKeyIff | worker/instance_locks.py:63-74 | two URLs that name a host share a key if and only if host and port agree up to case, where no port and port zero are the same |
| LockTables.HostlessKeys | worker/instance_locks.py:70-74 | without a host the whole URL is the key up to case, and there is none exactly when a host comes with an unreadable port |
| LockTables.HostSemaphores.Acquire | worker/backup_manager.py:364-364 | a permit is given exactly when the going-online step is possible, and free permits plus holders make the bound |
| LockTables.HostSemaphores.Release | worker/backup_manager.py:364-373 | giving the permit back mirrors the going-offline step |
| LockTables.DescriptorCache.FdFor | worker/instance_locks.py:136-150 | one descriptor per instance, reused until dropped: the one the opening step moves to |
| LockTables.DescriptorCache.Drop | worker/instance_locks.py:200-201 | a broken descriptor leaves the cache, as in the uncaching step |
| Locks.StepKeepsInv | worker/instance_locks.py:136-203 | every step except an early raise keeps lock tables, descriptor caches, kernel locks and permits in agreement with the threads |
| Locks.StepKeepsCore | worker/backup_manager.py:339-511 | every step, early raises and late unlocks included, keeps lock tables and permits in agreement with the threads, and every held lock file with someone who will free it |
| Locks.OneHolder | worker/instance_locks.py:153-203 | as long as no thread raised early, two threads past their flock call on one lock file are the same thread |
| LockSafety.MutualExclusion | worker/backup_manager.py:339-511 | in every interleaving without an exception between the file lock and its try block, at most one thread of all processes is inside the locked part for an instance |
| LockSafety.EarlyRaiseBreaksExclusion | worker/backup_manager.py:339-358 | every run in which a thread raises in that window can be continued to two threads inside for one instance |
| LockSafety.EarlyRaiseIsTheOnlyDanger | worker/backup_manager.py:339-511 | after a run without such a raise, a step is safe for exclusion in every continuation that adds none if and only if it is not such a raise itself |
| LockSafety.FlockAdmitsSharers | worker/instance_locks.py:136-166 | without the instance lock a run reaches two threads of one process inside together, through the cached descriptor |
| LockSafety.InstanceLockAdmitsProcesses | worker/instance_locks.py:43-54 | for any two processes a run in which both hold their lock of the same instance |
| LockSafety.GuardedExcludesBackup | worker/ipc_listener.py:194-253 | in every run, within one process a re-encryption never works on an instance whose backup is inside the locked part |
| LockSafety.GuardedMissesOtherProcesses | worker/ipc_listener.py:194-253 | for any two different processes a run in which it does |
| LockSafety.HostCap | worker/backup_manager.py:364-373 | at most two backups of one process are on line with one host |
| LockSafety.HostCapIsReached | worker/instance_locks.py:85-97 | for any host and two instances a run in which two of them are |
| LockSafety.DeadlockFree | worker/ipc_listener.py:220-253 | in every reachable state with an unfinished thread something can step, and without early raises it is a thread |
| LockSafety.OppositeOrdersDeadlock | worker/ipc_listener.py:208-253 | without the sorted order a run reaches a state in which two tasks block each other for good |
| LockSafety.SchedulesAreShort | worker/ipc_listener.py:183-253 | no schedule of the existing threads and the generators they leave behind is longer than the work left in the state |
| LockSafety.AllFinish | worker/ipc_listener.py:183-253 | from every state of every run the threads can be stepped to completion |
| KeyRotation.Store.WriteKeys | pfsense_shared/crypto.py:62-76 | replaces the whole key file or nothing |
| KeyRotation.Store.EnsureKeys | pfsense_shared/crypto.py:25-52 | reads the file, creates it with one key when missing, refuses an empty one |
| KeyRotation.Store.RotateInstances | worker/__main__.py:302-321 | all three columns of every row under the first key, or no change when one does not decrypt |
| KeyRotation.Store.RotateBackups | worker/__main__.py:324-357 | the offset and chunk loop re-encrypts every filled row; at any stop each row is as it was or re-encrypted |
| KeyRotation.Store.VerifyAll | worker/__main__.py:360-390 | accepts if and only if the new key alone reads every column |
| KeyRotation.Store.RotateKey | worker/__main__.py:225-299 | wherever it stops, every ciphertext keeps its plaintext and stays readable if it was; it completes only with one key that reads all, fails only on an unreadable value or an empty key file, and keeps the old keys otherwise |
| KeyRotation.Store.RotateRepeatedly | worker/__main__.py:225-299 | the same over any sequence of attempts |
| Base64.DecodeEncode | pfsense_shared/pfsense_crypto.py:227-227 | strict decoding undoes encoding |
| Base64.UnpadPad | pfsense_shared/pfsense_crypto.py:168-181 | unpadding undoes padding |
| Base64.PadUnpad | pfsense_shared/pfsense_crypto.py:168-173 | whatever unpads is the padding of its result |
| WrapperFormat.PadMeans | pfsense_shared/pfsense_crypto.py:176-181 | padding is k bytes of value k, k from 1 to 16, up to a multiple of 16 |
| WrapperFormat.EncodeMeans | pfsense_shared/pfsense_crypto.py:290-290 | every group of three bytes is spelt as four letters of the standard alphabet in base 64, with padding signs for missing bytes |
| WrapperFormat.DecodesIff | pfsense_shared/pfsense_crypto.py:227-227 | a text decodes if and only if it is whole groups of four letters, the last of which may end in one or two padding signs |
| WrapperText.FindFirst | pfsense_shared/pfsense_crypto.py:85-86 | the marker search returns the first occurrence |
| WrapperText.ParseWrapper | pfsense_shared/pfsense_crypto.py:80-121 | the line loop with its flags and buffers computes the fold over stripped lines, with its two errors |
| WrapperText.AnyLayoutIsRead | pfsense_shared/pfsense_crypto.py:92-118 | leading blanks, headers, and a body cut and spaced in any way yield the headers and the joined body |
| WrapperFormat.HeaderRead | pfsense_shared/pfsense_crypto.py:107-109 | a header line files its stripped value under its stripped, lower-cased name |
| WrapperFormat.SpacesAre | pfsense_shared/pfsense_crypto.py:96-97 | the code points that end a line and those that stripping removes |
| WrapperFormat.MarksDropped | pfsense_shared/pfsense_crypto.py:83-83 | any number of byte order marks before the text is dropped |
| WrapperLayout.LinesOfPrinted | pfsense_shared/pfsense_crypto.py:96-97 | splitting and stripping recover the lines whatever their indentation and line ends |
| WrapperLayout.WrapperIsRead | pfsense_shared/pfsense_crypto.py:80-121 | any such layout between the first markers, with anything around them, is read back |
| Wrapper.DeriveEvp | pfsense_shared/pfsense_crypto.py:157-165 | the accumulating loop yields two chained digests as key and the third as initialisation vector |
| Wrapper.DecryptBackup | pfsense_shared/pfsense_crypto.py:210-266 | the loop over key derivations computes the function that ForeignBlobs.DecryptsToIff characterises, and returns nothing implausible |
| ForeignBlobs.DecryptsToIff | pfsense_shared/pfsense_crypto.py:144-266 | a salted blob decrypts to x if and only if the first derivation in order that opens it opens it to x: PBKDF2 with 500000 and then 10000 iterations, bytes 0 to 31 as key and 32 to 47 as vector, then chained MD5; MD5 first when the Hash header says so |
| ForeignBlobs.CurrentBlobOpens | pfsense_shared/pfsense_crypto.py:144-154 | a blob anyone encrypted in the format of pfSense 2.7.1 opens |
| ForeignBlobs.EarlierBlobOpens | pfsense_shared/pfsense_crypto.py:144-266 | one with 10000 iterations opens, unless the current derivation opens it |
| ForeignBlobs.DigestBlobOpens | pfsense_shared/pfsense_crypto.py:157-207 | one under chained MD5 digests opens, at once when its header says so and otherwise unless a newer derivation opens it |
| ForeignBlobs.BodyErrors | pfsense_shared/pfsense_crypto.py:131-266 | which error a body gives: no strict base64, under 32 bytes, no salt prefix, a partial block, or no derivation opens it |
| ForeignBlobs.MarkerErrors | pfsense_shared/pfsense_crypto.py:85-90 | the markers are missing if and only if one of them is or END comes first |
| WrapperFormat.PlausibleMeans | pfsense_shared/pfsense_crypto.py:184-186 | plausible is XML or a pfsense tag after white space in the first 256 bytes, or the BEGIN marker in the first 4096 |
| ForeignBlobs.EncryptMeans | pfsense_shared/pfsense_crypto.py:269-295 | encryption writes exactly that current format, between the markers |
| WrapperFormat.WrappedMeans | pfsense_shared/pfsense_crypto.py:291-295 | in lines of 64 columns |
| Wrapper.WrappedIsRead | pfsense_shared/pfsense_crypto.py:291-295 | the 64-column layout that encryption prints is read back |
| Wrapper.DecryptEncrypt | pfsense_shared/pfsense_crypto.py:210-295 | decrypting what was encrypted gives the plaintext back if and only if it looks like XML or like a wrapped blob |
| Wrapper.EncryptedIsPlausible | pfsense_shared/pfsense_crypto.py:298-305 | every encrypted blob looks encrypted |
| Wrapper.DoubleLayer | pfsense_shared/pfsense_crypto.py:251-258 | two layers under two passwords come off in order |
| WrapperSize.DecryptShrinks | pfsense_shared/pfsense_crypto.py:210-266 | a decrypted backup is shorter than its blob |
| ReplicaPayload.KeyTells | worker/replication.py:284-308 | which layer the object key announces, for every name |
| ReplicaPayload.RoundTripIff | worker/replication.py:249-314 | for all layouts and flag changes, upload then undo restores the content in its shape if and only if an added layer held plausible content and no single-layer key of an encrypted backup ends in .2x.xml.enc |
| ReplicaPayload.PlaintextStaysHome | worker/replication.py:274-281 | a plaintext backup leaves wrapped under a set password while that option is on |
| ReplicaPayload.PreparedMeans | worker/replication.py:249-281 | what is uploaded is the content or a blob the replication password opens to it, with the suffix that says which, and the two errors |
| ReplicaPayload.ObjectKeyMeans | worker/replication.py:284-290 | the object's name: base path, instance, and the file name without .xml, .xml.gz or .gz |
| ReplicaRow.StepKeepsInv | worker/replication.py:351-393 | every event keeps: done or off-site only implies key and digest; attempts equal counted failures, at most eight, spaced by the backoff; at most one alert |
| ReplicaRow.AttemptedMeans | worker/replication.py:351-393 | every attempt is dated; a failed one is counted, a skipped one not; key and digest change only with a verified copy |
| ReplicaRow.SweptIff | worker/replication.py:396-433 | a sweep takes up a row if and only if it is pending or failed, local, under eight attempts, and 10, 10, 20, 40, 80, 160, 320 or 640 minutes have passed since the last one, by the number of attempts |
| ReplicaRow.RetryBounds | worker/replication.py:408-465 | over every life of a row: at most eight counted attempts; one alert once three have failed and at most one ever, including the path where the file is missing; a known replica when done or off-site only |
| ReplicaRow.CapNeverBinds | worker/replication.py:396-405 | the waits are 10 to 1280 minutes, doubling, and the one-day cap is never reached within the attempt limit |
| ReplicaRow.EighthFailureIsLate | worker/replication.py:396-465 | the eighth counted failure comes at least 1270 minutes after the first |
| ReplicaRow.FlaggedOffsiteIsStuck | worker/replication.py:424-433 | for any key and digest a life that ends off-site only with a flagged replica, where only deletion is left |
| ReplicaRow.StuckIffDeadEnd | worker/replication.py:408-575 | a row stays as it is until it is deleted if and only if it is skipped, or failed or pending without a local file or without attempts left |
| ReplicaRow.MissingFileIsStuck | worker/replication.py:368-370 | a life that ends skipped at its first attempt |
| ReplicaRow.ExhaustedIsStuck | worker/replication.py:424-433 | a life that ends with its eight attempts used up |
| Offsite.Replicator.ReplicateBackup | worker/replication.py:322-393 | an attempt succeeds if and only if the file is there, the payload can be prepared and arrives whole; then the object restores the content; otherwise the row is failed or skipped as the source says; no other row is affected |
| Offsite.AttemptMeans | worker/replication.py:322-393 | when an attempt uploads, which key it uses and whose digest it records, by the row's flags and the two settings |
| Offsite.Replicator.SweepPending | worker/replication.py:408-465 | every selected row that is due gets exactly one attempt with the outcome of that attempt, successes are counted, and alerts go to the failures that are third |
| Offsite.Replicator.VerifyReplicas | worker/replication.py:482-531 | with a remote store that may have lost or damaged anything, a done row is flagged if and only if its check raises, its object is missing, or the check is deep and the digest differs; both counts are exact |
| Offsite.FaultyMeans | worker/replication.py:498-530 | which checks flag, case by case, and that a flag changes the status only |
| Offsite.DeepCheckIsEnough | worker/replication.py:507-530 | a deep check that finds nothing means the object restores the content |
| Offsite.DamageNeedsDeepCheck | worker/replication.py:507-530 | damage to an object in place survives a plain verification, makes retrieval fail without writing, and is flagged by a deep one |
| Offsite.Replicator.KeepOffsite | worker/backup_manager.py:1389-1396 | dropping the local file of a replicated row keeps its content recoverable |
| Offsite.Replicator.ReplaceFile | worker/backup_manager.py:949-991 | re-encryption swaps the local content and leaves the replica columns and the uploaded copy alone |
| Offsite.Replicator.RetrieveReplica | worker/replication.py:534-575 | succeeds on an off-site-only row if and only if it is done, reachable and its object has the recorded digest; then the file holds the content of the last upload, and otherwise nothing is written |
| Offsite.UploadLoseRecover | worker/replication.py:322-575 | upload, loss of the local copy, retrieval: the content is back, whatever the encryption flags, if and only if there was a file and no layer was wanted without a password |
| Offsite.StaleCopyReturns | worker/replication.py:534-575 | after a re-encryption, losing the file and retrieving brings back the content of the last upload |
| Reencrypt.StepKeepsInv | worker/backup_manager.py:84-158 | every step of every task keeps password, file and staged file in the relation of its phase, and the counters equal to the moved and failed tasks |
| Reencrypt.CompletedIsConsistent | worker/backup_manager.py:949-1007 | after a completed run each row whose compensation did not fail has a password that opens its file with the old content: both new or both old |
| Reencrypt.RecoverableIffNotLost | worker/backup_manager.py:949-991 | at every stopping point of every run the recorded password opens the file or the one staged beside it, unless a replace failed, the staged file was unlinked and the new password does not open the old file |
| Reencrypt.FailedReplaceLosesRow | worker/backup_manager.py:949-991 | for every job, start and readable row whose old file the new password does not open, a run of three steps that loses the row |
| Reencrypt.AlwaysRecoverable | worker/backup_manager.py:949-991 | in particular, while no replace has failed every stopping point is recoverable |
| Reencrypt.VerdictIsTruthful | worker/backup_manager.py:837-869 | the counters add up to the tasks exactly at completion, and then the job succeeds if and only if every row moved |
| Reencrypt.SuccessMeansAllMoved | worker/backup_manager.py:798-869 | a reported success means every row moved however the loop was left; after a normal return it is reported exactly then, unless the instance passwords could not be rotated; after an exception any task makes it a failure |
| Reencrypt.Parent.RunChild | worker/backup_manager.py:84-158 | stages a file that was readable under its old password and otherwise reports |
| Reencrypt.Parent.HandleResult | worker/backup_manager.py:949-1007 | commit, replace and the two undo paths end each row as its fault pattern says, through enabled steps only |
| Reencrypt.EndingMeans | worker/backup_manager.py:949-1007 | a row ends moved if and only if nothing failed, stranded if and only if the replace and then putting the password back failed, and otherwise as it was |
| Reencrypt.ReencryptRows | worker/backup_manager.py:871-1019 | the parent loop is one of the runs, completes it, and its counters add up |
| Search.EscapeIsPerCharacter | web/routers/search.py:51-54 | the three replacements equal one per-character map |
| Search.SearchMeansSubstring | web/routers/search.py:94-101 | the pattern matches a text if and only if the query occurs in it up to ASCII case |

## Left out

- Packages in the log: a package appearing inside an existing block and a changed backend list are not projected row by row by the code, so replay is stated for the base sections only; enumeration and resolution cover packages.
- Row anchors whose rows share a diff key with other rows: replay is proved where `AlignedAt` holds and decided exactly where the anchor is gone; elsewhere the events are characterised (`EventKinds.RowEventIff`) but not the value their replay leaves.
- XML parsing, item labels, redaction, change summaries and excerpts: long field copying with shallow properties; a parsed configuration is given.
- JSON encoding of event values, and equality of Python values across types (`True == 1`): values are compared as JSON.
- Key columns other than strings: `KeyText` covers `str` and `None`, the declared column types.
- Dotted field names: paths are sequences of segments, so a field name containing a dot is not confused with a path.
- LogReplay.SeedShows: the order of the events inside one singleton section is by field name, where the code uses the model's field order; the index does not depend on it.
- AES, PBKDF2, MD5, SHA-256, gzip and Fernet themselves: parameters with inverse and length laws, or tagged values.
- Unicode lower-casing of wrapper headers: ASCII letters only; the one header the code reads is ASCII.
- Reading a blob given as `str`: the model takes bytes, which is what files and downloads are.
- KeyRotation.Store.RotateKey: covers Instance and Backup columns, as the command does; replication credentials are not rotated by it, and writers running beside it are not modelled.
- Locks.StepKeepsCore: descriptor numbers are never reused in the model; after an early raise and a failing unlock together the code could also unlock or close an unrelated file that got the same number.
- LockSafety.AllFinish: the five-second retry loop of flock is a step that waits until it can succeed; fairness between waiting processes is not modelled.
- Offsite.Replicator.RetrieveReplica: assumes that the object under the row's key, if it has the digest of what was uploaded there, is what was uploaded there.
- Offsite.Replicator.ReplicateBackup: the remote store may raise or cut an object short; storing different bytes of the same length is not detected by the code and is excluded.
- Mirrored remote deletions are returned by the clean-up model and not applied to the remote store, where they are best effort.
- Reencrypt.StepKeepsInv: the size column, and rows deleted while the job runs, which the instance locks prevent within a process.
- Job rows, notifications other than the replication alert, metrics, HTTP, ZeroMQ, S3 and SFTP transports, the scheduler's timing, the web interface.
