# JMVCC: a verified model

JMVCC keeps several versions of every object, so that each transaction reads a store frozen at the moment its
snapshot was taken. Old versions are put on clean-up lists and go away when the last snapshot that needs them does;
epochs can be renumbered while snapshots are live; and memory that lock-free readers may still be looking at is
freed only when every critical section that could have seen it has ended. This project models that machinery in
Dafny and proves what it is for.

`dafny verify dfyconfig.toml` checks everything.

## How it is laid out

The multi-version store:

- `Histories.dfy`: the version list of one object as a value. Reading, setting up, rolling back, removing and
  renaming a version, and how each changes what readers see.
- `Versioned.dfy`, `Versioned2.dfy`: the two kinds of object as classes, updated in place (`Versioned`) or by copying
  a block and swapping it in (`Versioned2`, `Data`), both proved against the same functions on histories.
- `Snapshots.dfy`: the table of registered snapshots with its clean-up lists.
- `Mvcc.dfy`: the store as an interleaved state machine. Every lock-protected region is a step of its own: taking or
  dropping a snapshot, setting up one object of a commit, bumping the epoch, listing one obsolete version, rolling
  back one object, carrying out one clean-up. Dropping a snapshot leaves the local values of its transaction alone, so
  a restart is a drop and a take, with anything in between. Beside the real state a run carries `ideal`: what the
  histories would be if nothing were ever cleaned up and commits took effect at once. One invariant ties the two
  together.
- `MvccSteps.dfy`, `MvccRuns.dfy`: every step keeps the invariant; what follows for every run.
- `OwnReads.dfy`: what a transaction reads, its own writes included, and what becomes of what it wrote.
- `Conservation.dfy`, `RestartFails.dfy`: exactly which commits and which runs keep the total over all objects, and a
  run in which a restarted transaction undoes another's commit.
- `Latest.dfy`, `LatestFails.dfy`: the rule that an obsolete version is on the list of the latest snapshot that sees
  it; exactly which steps and runs keep it, and a run that breaks it.
- `Lists.dfy`: what the clean-up lists satisfy in every run, whether or not that rule holds.
- `Compress.dfy`, `CompressLoop.dfy`: renumbering the epochs: what it should do to one object, and the loop over the
  entries of the table as a function of the table and the objects, which may end in a refused renaming.
- `CompressStages.dfy`, `CompressTable.dfy`: the loop renaming by renaming, exactly when it is stopped, and what live
  snapshots see on the way.
- `CompressStore.dfy`, `CompressExact.dfy`: the renumbered store. Exactly when it keeps reads, and exactly when it keeps
  everything.
- `CompressRuns.dfy`: what later removals, commits and whole runs see of renumberings.
- `CompressFailures.dfy`, `RaceFails.dfy`: runs to four stores that renumbering gets wrong, to one that it throws on, and
  to one after which a clean-up throws.
- `OneObject.dfy`, `Traces.dfy`: putting together given runs.
- `CommitStages.dfy`: the stages that a commit goes through one after the other.
- `ObjectTable.dfy`, `Store.dfy`, `Transaction.dfy`, `StoreRules.dfy`: the code's own loops over heap objects, proved
  to show the machine's states. `Store.model` is the machine's state that the fields stand for.

The critical sections:

- `Garbage.dfy`, `GarbageRuns.dfy`: deferred clean-ups as a state machine over any number of threads, and grace periods.
- `Nesting.dfy`, `Prompt.dfy`: how long a section lasts, counted in entries and exits; and exactly when a clean-up is
  started, which is not always as soon as it could be.
- `CriticalList.dfy`, `Collector.dfy`: the doubly linked list of active sections and the per-thread data on the heap,
  proved to do what the machine does.
- `Reclaim.dfy`: the lock-free object's blocks under that machine: a block being read is not freed, a compare-and-swap
  never mistakes a new block for the old one, and readers find what the block swapped in last was filled with.

## What the code does that its comments do not say

- **Renumbering epochs can change what live snapshots read.** `compress_epochs` (`jmvcc/snapshot.cc:402-447`) promises
  not to modify the behaviour of snapshots. It renames a version to the number of the entry that lists it, which is
  the entry of the *latest* snapshot that sees the version. If two registered epochs see a version that is neither
  the first nor the newest, the earlier one then reads the version before it; if the newest version does not start at
  a registered epoch it is not renamed and a new snapshot misses it; if the lowest epoch is 1, entries that already
  carry their number are passed over and a newest version after them may be missed.
  `CompressExact.CompressKeepsReads` states exactly when reads are kept, as an if-and-only-if;
  `CompressFailures` has a legal run to a store for each failure.
- **Renumbering can also make a later clean-up come too early.** A first version that two registered epochs see is
  listed afterwards under a number above the earlier snapshot's epoch, so dropping the later snapshot removes it
  while the earlier one still reads it (`CompressFailures.FirstVersionCleanedTooEarly`).
- **When renumbering is right** (`CompressExact.RenumberedExactly`): between commits, with no clean-up under way and
  some snapshot registered, it goes through, keeps all reads and leaves every invariant and every list in order if and
  only if three things hold, all of which can be read off the table and the histories beforehand. Every entry that is
  not passed over sees each version that it lists; every object is renumberable, as in the first point; and every first
  version is seen by one registered epoch only, or listed by an entry that is passed over.
- **A version is not always on the list of the latest snapshot that sees it** (`jmvcc/snapshot.cc:127-132`). When a
  snapshot is taken after a commit has bumped the epoch and before it has listed the versions it made obsolete, they
  are listed under that snapshot, which does not see them (`LatestFails.RuleCanFail`). A step breaks the rule exactly
  when it lists a version after a snapshot has been taken at the new epoch (`LatestFails.StepKeepsRuleExactly`), and a
  run keeps it throughout exactly when it has no such step (`LatestFails.RuleHoldsExactly`). The weaker invariant of
  `Mvcc` (a listed version has ended by every later registered epoch) survives all interleavings and is enough for
  every safety property of the store.
- **Renumbering after such a race can throw** (`jmvcc/versioned.h:314-321`, declared to throw nothing). In every
  state in which it may be run it throws if and only if some entry that is not passed over lists two successive versions
  of one object, neither of them its first, or lists the version before the newest, not the first either, while the
  newest starts at that entry's own epoch (`CompressStages.RefusedExactly`). `RaceFails.RenumberingThrows` has a legal
  run to such a state.
- **Or it goes through and a later clean-up throws** (`jmvcc/versioned.h:275-284`). `RaceFails.CleanupThrows` has a legal
  run to a store that renumbering goes through and keeps every read of, but lists an obsolete version under the number
  at which the newest one starts; when the snapshot goes, the clean-up is asked for a version that does not exist.
- **A restart that keeps local values loses updates** (`jmvcc/snapshot_impl.h:34-41`). `restart()` takes a new snapshot
  and keeps the sandbox, so the check of a later commit compares the objects with the new snapshot, although the local
  values were copied from the old one. `RestartFails.UpdateIsLost` has a run: one transaction copies two objects and
  moves 1 between them, another moves 5 from the first to a third and commits, the first is restarted and commits; no
  check refuses it, and the total goes from 0 to 5. Whatever goes on in between, a commit keeps the total if and only if
  the local values it begins with sum up to what its own snapshot sees of the same objects
  (`Conservation.CommitMovesTotal`), and a transaction that is never restarted with local values at hand always meets
  that when its writes sum to zero against what it copied (`Conservation.LiveEven`).
- **Clean-ups are not always called as soon as possible** (`jmvcc/garbage.cc:92-94`). One that is scheduled inside a
  critical section is handed to the newest section when its own ends, and that may have begun after the scheduling
  (`Prompt.NotAsSoonAsPossible` has a run). Whatever happens afterwards, it is started as soon as the sections it must
  wait for have ended if and only if no section that has begun since it was scheduled is active when its own ends
  (`Prompt.AsSoonAsPossibleExactly`). One that is scheduled outside always is (`Prompt.OutsideExactly`).
- **The status of a transaction after `commit()` is always `RESTARTING0A`** (`jmvcc/transaction.cc:35-48`,
  `jmvcc/snapshot_impl.h:46-65`). Removing the snapshot sets it, and registering again only recognises two other
  values, so `RESTARTED` is never reached. A failed commit takes its snapshot anew twice
  (`Transactions.Transaction.Commit` counts them).
- **The two kinds of object differ in one case of `cleanup`**: asked to remove a version by the start of the newest one,
  `Versioned` throws and `Versioned2` drops the newest version (`LockFreeObject.CleanupsAgree`). The store never asks
  for it (`MvccRuns.NeverThrows`) unless epochs were renumbered in a state that renumbering gets wrong, as in
  `RaceFails.CleanupThrows`.

## Model

| member | source | states |
|---|---|---|
| Histories.ReadIndexCovers | jmvcc/versioned2.h:142-151 | the backward scan finds the one version whose interval holds the epoch, and only that one |
| Histories.PushReads | jmvcc/versioned.h:202-208 | a version set up for an epoch is read from that epoch on and changes no read below it |
| Histories.PopReads | jmvcc/versioned.h:235-244 | a rollback changes no read below the epoch that was set up |
| Histories.PopUndoesPush | jmvcc/versioned.h:235-244 | rolling back undoes setting up exactly |
| Histories.FindDenotes | jmvcc/versioned.h:253-273 | which version a clean-up request denotes, both directions, stale names of first versions included |
| Histories.RemoveReads | jmvcc/versioned.h:246-285 | removing a version changes no read outside that version's own interval and keeps the order |
| Histories.RemovedReads | jmvcc/versioned.h:246-285 | what readers inside the removed interval see instead |
| Histories.RemoveKeepsOthers | jmvcc/versioned.h:266-271 | every other version keeps its name, its value and its end |
| Histories.RenameKeepsOrder | jmvcc/versioned.h:292-329 | a renaming that is accepted keeps the boundaries strictly increasing and every value; they stay above 1 exactly unless the first boundary itself is moved to 0 or 1 |
| Histories.RenameExactly | jmvcc/versioned.h:287-329 | which renamings are accepted, which one boundary an accepted one moves, and what it reports |
| VersionedObject.Versioned.ValueAtEpoch | jmvcc/versioned.h:127-139 | the object returns the value of the version that the epoch falls in |
| VersionedObject.Versioned.Setup | jmvcc/versioned.h:192-211 | refused exactly when the newest version is newer than the snapshot; otherwise the new version is on top |
| VersionedObject.Versioned.Rollback | jmvcc/versioned.h:235-244 | the newest version is dropped |
| VersionedObject.Versioned.Cleanup | jmvcc/versioned.h:246-285 | removes exactly the version denoted, or throws exactly when none is |
| VersionedObject.Versioned.RenameEpoch | jmvcc/versioned.h:287-339 | moves one boundary and reports where the newest version starts, or throws |
| VersionedObject.Versioned.Validate | jmvcc/versioned.h:376-397 | the object's own check passes exactly for increasing epochs no later than one past the current one |
| LockFreeObject.Data.CopyOf | jmvcc/versioned2.h:120-125 | a copied block holds the same elements |
| LockFreeObject.Data.ValueAtEpoch | jmvcc/versioned2.h:142-151 | a block is read as the history its elements stand for, whatever the last element's end is |
| LockFreeObject.Versioned2.ReadAtEpoch | jmvcc/versioned2.h:85-88 | where there is no local value, the object reads as the history its block stands for |
| LockFreeObject.Versioned2.SetData | jmvcc/versioned2.h:293-309 | the block is replaced, and handed over to be freed later, exactly when it is still in place; otherwise the new block is freed at once and the one found is reported |
| LockFreeObject.Versioned2.Setup | jmvcc/versioned2.h:314-336 | same outcome and same history as the lock-based object, in a new block, with the old one handed over to be freed |
| LockFreeObject.Versioned2.Commit | jmvcc/versioned2.h:342-345 | the start of the version that the commit made obsolete, which is what gets listed |
| LockFreeObject.Versioned2.Rollback | jmvcc/versioned2.h:350-359 | the newest version is dropped, in a new block, with the old one handed over to be freed |
| LockFreeObject.Versioned2.Cleanup | jmvcc/versioned2.h:371-451 | the new block holds all versions but the one denoted and the old one is handed over to be freed, or the source throws |
| LockFreeObject.Versioned2.CopyWithout | jmvcc/versioned2.h:401-432 | the copying loop leaves out the one element that the request names and mends the end of the one before |
| LockFreeObject.ReadWithout | jmvcc/versioned2.h:411-424 | leaving out an element of a block removes that version from the history it stands for |
| LockFreeObject.NamesOne | jmvcc/versioned2.h:407-414 | no two elements match a request, so the exception for that is never thrown |
| LockFreeObject.CleanupsAgree | jmvcc/versioned2.h:371-451 | the two kinds of object clean up alike if and only if the request does not name the newest version of several |
| Snapshots.NeededSplits | jmvcc/snapshot.cc:318-337 | splitting a list at the previous epoch loses and duplicates nothing and splits by need |
| Snapshots.SplitInOrder | jmvcc/snapshot.cc:318-337 | both parts of a split list are in the order of the list |
| Snapshots.LeaveConserves | jmvcc/snapshot.cc:209-337 | removing a snapshot keeps every clean-up: each is still listed or handed back |
| Snapshots.LeaveKeepsInfo | jmvcc/snapshot.cc:209-339 | no entry is left without a snapshot and the earliest epoch stays the lowest registered one |
| Snapshots.EarliestAdvances | jmvcc/snapshot.h:50-62 | the two checks of the setter for the earliest epoch hold |
| Snapshots.RegisterKeepsInfo | jmvcc/snapshot.cc:159-198 | registering a snapshot keeps the bookkeeping of epochs |
| MvccSteps.TakeKeeps | jmvcc/snapshot.cc:159-198 | taking a snapshot at any moment keeps the global invariant |
| MvccSteps.DropKeeps | jmvcc/snapshot.cc:209-364 | dropping a snapshot and moving its clean-ups keeps it |
| MvccSteps.SetupKeeps | jmvcc/versioned2.h:314-336 | setting up one object of a commit, or being refused, keeps it |
| MvccSteps.BumpKeeps | jmvcc/sandbox.cc:59-69 | making all new versions visible at once keeps it |
| MvccSteps.RegisterKeeps | jmvcc/snapshot.cc:368-386 | listing one obsolete version keeps it, even when snapshots were taken since the bump |
| MvccSteps.RollbackKeeps | jmvcc/sandbox.cc:78-83 | rolling back one object keeps it |
| MvccSteps.CleanKeeps | jmvcc/snapshot.cc:341-363 | a clean-up carried out at any later moment keeps it |
| MvccSteps.CleanDenotes | jmvcc/versioned2.h:401-424 | every clean-up under way denotes exactly one obsolete version, which no registered epoch sees |
| MvccRuns.RefinesIdeal | jmvcc/snapshot.cc:27-155 | in every reachable state every registered snapshot reads what histories that are never cleaned up hold |
| MvccRuns.ViewFrozen | jmvcc/snapshot.h:156-161 | a snapshot sees one and the same store for as long as it is registered, in every run |
| MvccRuns.ViewFresh | jmvcc/sandbox.cc:55-69 | a new snapshot sees the newest committed version of every object |
| MvccRuns.NeverThrows | jmvcc/snapshot.cc:159-386 | none of the store's exceptions can be thrown in a state that satisfies the invariant, epochs out of order and a decreasing epoch included |
| MvccRuns.NowUnmoved | jmvcc/sandbox.cc:53-66 | whatever goes on, half set-up commits, roll-backs and clean-ups included, a reader at the current epoch finds the same store in the real histories until an epoch is bumped |
| MvccRuns.CommitIsAtomic | jmvcc/sandbox.cc:43-91 | between its beginning and its bump, whatever else happens, none of a commit's writes is found in the real histories at the current epoch; after the bump all of them are at the new one, and nothing else has changed |
| MvccRuns.FirstCommitterWins | jmvcc/versioned2.h:322-327 | in every run, no commit to an object falls strictly between another's snapshot and that other's commit |
| MvccRuns.ConflictIsExact | jmvcc/versioned2.h:322-327 | in every run an object refuses a commit exactly when some logged commit wrote it after the snapshot, though a sole version claims to start at 1 |
| MvccRuns.Quiescence | jmvcc/snapshot.h:77-80 | with no snapshot, no commit and no clean-up under way, every object has one version, its newest |
| OwnReads.ReadsUnmoved | jmvcc/versioned2.h:50-90 | whatever else goes on, mutating the object included, what a transaction reads of it stays the same until it writes it, commits, clears its local values or drops its snapshot |
| OwnReads.LocalStays | jmvcc/snapshot_impl.h:34-41 | a local value and what it was copied from stay what they are until then, and through restarts besides |
| OwnReads.ReadsOwnWrite | jmvcc/versioned2.h:69-90 | in every such run a transaction reads the value it wrote last, restarted or not |
| OwnReads.LastWriteCommits | jmvcc/sandbox.cc:43-69 | and when it commits, that value is what every reader at the new epoch finds |
| Conservation.BumpMovesTotal | jmvcc/sandbox.cc:55-69 | a commit moves the total by as much as its local values differ in sum from what its own snapshot sees |
| Conservation.CommitMovesTotal | jmvcc/sandbox.cc:43-69 | whatever goes on between its beginning and its bump, a commit moves the total by what its local values, as it begins, gain on what its own snapshot sees then, and so keeps it exactly when that is nothing |
| Conservation.StepKeepsTotalExactly | jmvcc/sandbox.cc:55-69 | a step keeps the total that a reader finds if and only if it is no bump or its transaction gains nothing on its own snapshot |
| Conservation.TotalKeptExactly | jmvcc/snapshot_impl.h:34-41 | a run keeps the total in every state if and only if every commit of it is such, restarts with local values included |
| Conservation.LiveEven | jmvcc/snapshot_impl.h:34-41 | a transaction none of whose local values came along from an earlier snapshot keeps the total exactly when its writes sum to zero |
| Conservation.TotalIsConserved | jmvcc/testing/object_test.cc:573-588 | if every transaction's writes sum to zero against what it copied and none is restarted with local values at hand, every snapshot in every run sees the initial total |
| RestartFails.UpdateIsLost | jmvcc/snapshot_impl.h:34-41 | a legal run in which a transaction restarted with local values commits, and the total changes although its writes sum to zero |
| Latest.StepStrong | jmvcc/snapshot.cc:127-137 | a step that takes no snapshot while a commit is listing keeps the rule of the latest snapshot and that no snapshot was taken meanwhile; taking one breaks only the latter, and the listing after it the rule |
| Latest.OnLatestList | jmvcc/snapshot.cc:127-137 | under the rule each obsolete version is on exactly one list, once, that of the latest registered epoch that sees it |
| Latest.ListedNamesOne | jmvcc/snapshot.cc:33-42 | every listed clean-up names exactly one obsolete version |
| Latest.StepPending | jmvcc/sandbox.cc:69-76 | every step keeps that whatever a commit has yet to list was seen by its own snapshot and ended with the commit |
| LatestFails.StepKeepsRuleExactly | jmvcc/sandbox.cc:69-76 | every step keeps the rule if and only if it does not list a version after a snapshot was taken at the new epoch |
| LatestFails.RuleHoldsExactly | jmvcc/snapshot.cc:127-137 | the rule holds in every state of a run from the initial store if and only if the run has no such step |
| LatestFails.RuleCanFail | jmvcc/sandbox.cc:69-76 | a legal run after which the rule does not hold |
| Compress.RenumberKeepsReads | jmvcc/snapshot.cc:402-447 | renumbering keeps every read of an object if and only if a condition on its versions and the entries holds |
| Compress.RenumberSorted | jmvcc/versioned.h:315-321 | renaming every version to the number of the latest entry that sees it leaves the history strictly increasing |
| Lists.StepListsOk | jmvcc/snapshot.cc:318-337 | every step, racing or not, keeps each listed version ending no earlier than the epoch of its entry, and each list in the order of the versions it names |
| Lists.ReachedListsOk | jmvcc/snapshot.cc:368-386 | so it is, with every other invariant, in every reachable state |
| CompressStages.RenameVersion | jmvcc/snapshot.cc:500-521 | when its entry is reached, renaming a listed version is refused exactly if it clashes with the renaming before it; otherwise it takes the object to its next stage and reports the newest version if that is next |
| CompressStages.RenameNewest | jmvcc/snapshot.cc:536-565 | renaming a newest version is refused exactly if it clashes; otherwise it takes the object to its next stage |
| CompressStages.ExtrasNext | jmvcc/snapshot.cc:518-521 | the objects gathered on the side are exactly those whose newest version is still to be renamed, each once |
| CompressStages.EntryStep | jmvcc/snapshot.cc:472-589 | one round of the loop over the entries, whose body the model runs on any table, renames exactly what that entry is to rename, or is stopped exactly if something clashes there |
| CompressStages.RefusedExactly | jmvcc/versioned.h:314-321 | between commits with no clean-up under way, the whole loop goes through if and only if no entry that is not passed over lists two successive versions of an object that are not its first, or the version before the newest, not the first, with the newest starting at its own epoch |
| CompressStore.CompressGoesThrough | jmvcc/snapshot.cc:468-589 | where every entry that is not passed over sees what it lists, nothing throws and every version is renamed by the number of the latest entry that sees it |
| CompressTable.ListKeepsViews | jmvcc/snapshot.cc:412-447 | under the condition, after each single renaming of a listed version, with the snapshots renumbered so far, every live snapshot still has its whole view |
| CompressTable.FinalsKeepViews | jmvcc/snapshot.cc:538-565 | and after each single renaming of a newest version |
| CompressTable.MovingKeepsViews | jmvcc/snapshot.cc:572-576 | and so it has while the snapshots of an entry take their new epoch one by one |
| Compress.NumberBelow | jmvcc/snapshot.cc:477-486 | the number of an entry never passes its epoch, and a lowest epoch above 1 rules out passing any entry over |
| CompressExact.CompressKeepsReads | jmvcc/snapshot.cc:388-599 | where every entry that is not passed over sees what it lists, renumbering keeps what every live snapshot and a new one read of every object if and only if every object is renumberable |
| CompressExact.ReadsKeptExactly | jmvcc/snapshot.cc:402-447 | without that, it goes through and keeps those reads if and only if nothing clashes and each version is listed by the entry that its end should be renumbered to, or by one that is passed over |
| CompressExact.RenumberedExactly | jmvcc/snapshot.cc:388-599 | in any state between commits with no clean-up under way and a snapshot registered, it goes through, keeps all reads and leaves every invariant and list in order if and only if every entry that is not passed over sees what it lists, every object is renumberable and every first version is seen by one registered epoch only |
| CompressStore.CompressKeepsViews | jmvcc/snapshot.cc:388-599 | under the condition every live snapshot keeps its whole view |
| CompressStore.CompressKeeps | jmvcc/snapshot.cc:528-534 | under the condition every invariant holds again afterwards, so later removals clean up rightly |
| CompressStore.CompressNeeds | jmvcc/snapshot.cc:528-534 | where the rule of the latest snapshot holds before and after, the invariants alone hold again only under the condition, whatever is read |
| CompressRuns.RemovalCleansSame | jmvcc/snapshot.cc:318-337 | dropping a snapshot after the renumbering hands back clean-ups that denote, one by one, the same versions of the same objects as before it |
| CompressRuns.SameConflicts | jmvcc/versioned2.h:322-327 | an object is newer than a live snapshot after the renumbering if and only if it was before, so the same commits are refused |
| CompressRuns.ViewFrozenThroughout | jmvcc/snapshot.cc:388-599 | across runs with any interleaving and any number of renumberings where the condition holds, a registered snapshot's view never changes |
| CompressRuns.ConservedThroughout | jmvcc/snapshot.cc:388-599 | across such runs of balanced transactions every registered snapshot and a new one see the same total |
| CompressRuns.CompressKeepsOrder | jmvcc/versioned2.h:322-327 | by their new epochs a commit took effect by the time a live snapshot was taken if and only if it did by their old ones |
| CompressRuns.FirstCommitterWinsThroughout | jmvcc/versioned2.h:322-327 | in every run with such renumberings, a commit that wrote an object an earlier one wrote had its snapshot at or after the earlier one took effect |
| CompressRuns.ConflictIsExactThroughout | jmvcc/versioned2.h:322-327 | in every run with such renumberings, an object refuses a commit exactly when some commit of the run wrote it after the snapshot |
| CompressFailures.NewSnapshotMisreads | jmvcc/snapshot.cc:536-565 | a legal run to a store whose newest version does not start at a registered epoch, which a new snapshot misreads after the renumbering |
| CompressFailures.EarlierSharerMisreads | jmvcc/snapshot.cc:500-534 | a legal run to a store in which two epochs see a middle version, the earlier of which misreads afterwards |
| CompressFailures.FirstVersionCleanedTooEarly | jmvcc/snapshot.cc:500-534 | a legal run to a store in which two epochs see a first version, which a later removal then cleans up too early |
| CompressFailures.PassedOverMisreads | jmvcc/snapshot.cc:477-480 | a legal run to a store whose lowest epoch is 1, misread afterwards because an entry was passed over |
| RaceFails.RenumberingThrows | jmvcc/versioned.h:314-317 | a legal run, with a snapshot taken before an obsolete version was listed, to a store that the loop of the renumbering throws on |
| RaceFails.CleanupThrows | jmvcc/versioned.h:275-284 | a legal run to a store that renumbering goes through and keeps every read of, after which dropping a snapshot hands back a clean-up that throws |
| CommitStages.CommitGoesThrough | jmvcc/sandbox.cc:55-76 | a commit with no stale object is a run of the machine that pushes every object, lists what it made obsolete, and nothing else |
| CommitStages.CommitIsRefused | jmvcc/sandbox.cc:77-91 | a commit refused at one object is a run of the machine that leaves everything as it was but for the local values |
| Store.Distribute | jmvcc/snapshot.cc:318-337 | the compaction loop hands over what the previous epoch needs and keeps the rest, in order |
| Store.FindEntry | jmvcc/snapshot.cc:222-234 | finds the entry of an epoch, or none |
| Store.InsertedLast | jmvcc/snapshot.cc:176-186 | a new snapshot always lands on the last entry |
| Store.Store.TakeSnapshot | jmvcc/snapshot.cc:159-198 | the snapshot is in the last entry, which is the one for the current epoch and is made if need be; local values that are there stay, and nothing else changes; the store shows the machine's next state and the stale-snapshot exception is never thrown |
| Store.Store.RemoveSnapshot | jmvcc/snapshot.cc:209-364 | the store shows the machine's state after dropping the snapshot and carrying out every clean-up; local values stay and nothing throws |
| Store.Store.PerformCleanup | jmvcc/snapshot.cc:263-339 | takes an entry out, moves what is still needed to the entry before, hands back the rest |
| Store.Store.Read | jmvcc/versioned2.h:74-90 | a transaction reads its local value, or what a never cleaned up history holds at its epoch |
| Store.Store.ClearLocals | jmvcc/sandbox.cc:28-39 | one transaction's local values are gone and nothing else changes |
| Store.Store.Mutate | jmvcc/versioned2.h:50-67 | hands out what a read would return: the local value, which stays, or else what a never cleaned up history holds at the snapshot's epoch, which becomes the local value; no other local value changes |
| Store.Store.LocalValue | jmvcc/sandbox.h:58-71 | inserts a local value if and only if there is none; one that is there is kept |
| Store.Store.Write | jmvcc/versioned2.h:69-72 | the local value is the one written, what it was copied from stays, and every other local value of every transaction is as it was |
| Store.Store.SetupAll | jmvcc/sandbox.cc:47-57 | the set-up loop stops at the first object that refuses, with exactly the objects before it set up; no object finds the epochs out of order |
| Store.Store.RollbackAll | jmvcc/sandbox.cc:78-83 | rolling back that prefix restores every history |
| Store.Store.SetCurrentEpoch | jmvcc/snapshot.h:40-45 | the current epoch moves forward, or the source throws and nothing changes |
| Store.Store.SetEarliestEpoch | jmvcc/snapshot.h:50-62 | the earliest epoch moves forward within the current one, or the source throws and nothing changes |
| Store.Store.RegisterCleanup | jmvcc/snapshot.cc:368-386 | the last entry's list grows by one, or the source throws for want of an entry |
| Store.Store.RegisterAll | jmvcc/sandbox.cc:74-76 | the last entry's list grows by the versions the commit made obsolete, in order |
| Store.Store.Commit | jmvcc/sandbox.cc:43-91 | refused, with nothing changed but the local values gone, exactly when some object has a version newer than the snapshot; otherwise every object has its local value on top from the new epoch on and the last list has the versions that ended; nothing throws, and the store shows the end of the machine's run |
| Store.Store.RenameTokens | jmvcc/snapshot.cc:500-534 | the loop over any clean-up list renames its objects, gathers those whose newest version comes next and retags the list, or stops at the first renaming that throws |
| Store.Store.RenameFinals | jmvcc/snapshot.cc:538-565 | the loop over any gathered objects renames their newest versions, or stops at the first renaming that throws |
| Store.Store.RenameSnapshots | jmvcc/snapshot.cc:572-576 | every snapshot of the entry takes the new epoch, and its check of the old one passes |
| Store.Store.RenumberEntry | jmvcc/snapshot.cc:472-589 | one round of the outer loop takes objects, snapshots and table to the next stage, or the objects to where something was thrown |
| Store.Store.CompressEpochs | jmvcc/snapshot.cc:390-599 | with no snapshot registered nothing changes; otherwise, on any store between operations, the nested loops throw exactly when the loop as a function does and leave the objects as that does; they end with entries and snapshots numbered from 1 and the next epoch current, or at the first entry refused, with the table renumbered up to there; under the condition every invariant holds again |
| StoreRules.TakingKeepsRule | jmvcc/snapshot.cc:159-198 | taking a snapshot between commits keeps the rule of the latest snapshot |
| StoreRules.CommitKeepsRule | jmvcc/sandbox.cc:43-91 | a whole commit keeps the rule of the latest snapshot |
| StoreRules.RemovalKeepsRule | jmvcc/snapshot.cc:209-364 | a removal with all its clean-ups keeps it |
| Transactions.Transaction.SetEpoch | jmvcc/snapshot_impl.h:59-65 | the snapshot is taken anew at the current epoch, or nothing happens; either way every local value, and what it was copied from, is what it was; the status that removing sets stays |
| Transactions.Transaction.Restart | jmvcc/snapshot_impl.h:34-41 | one more retry; at the same epoch nothing else, else a new snapshot; either way every local value, and what it was copied from, is what it was |
| Transactions.Transaction.Destroy | jmvcc/snapshot_impl.h:26-31 | the local values and the snapshot are gone |
| Transactions.Transaction.Commit | jmvcc/transaction.cc:35-48 | result, retries, status, epoch, number of snapshots taken and local values after a commit, whether or not it goes through |
| Garbage.MergeConserves | jmvcc/garbage.cc:289-301 | taking over a list by swapping and appending loses and duplicates nothing |
| GarbageRuns.GracePeriod | jmvcc/garbage.cc:85-90 | in every run a clean-up is started only after every section active when it was scheduled has ended |
| GarbageRuns.EndedStays | jmvcc/garbage.cc:331-374 | a section that has ended never comes back |
| GarbageRuns.EndSectionSafe | jmvcc/garbage.cc:167-172 | handing an ended section's list to the one before, or running it when there is none, never runs a clean-up early |
| GarbageRuns.GiveNewestSafe | jmvcc/garbage.cc:365-368 | giving a thread's own list to the newest section never makes a clean-up run early |
| GarbageRuns.NeverLostNorRepeated | jmvcc/garbage.cc:352-437 | in every run each scheduled clean-up is in exactly one place and is carried out at most once |
| GarbageRuns.NoneOutstanding | jmvcc/garbage.cc:303-311 | with no section active and every leaver finished, each clean-up has been carried out exactly once |
| GarbageRuns.OnePerThreadInside | jmvcc/garbage.cc:114-115 | the list has one section for each thread that is inside one |
| GarbageRuns.StepKeeps | jmvcc/garbage.cc:331-437 | every step keeps creation order, ownership, waiting and conservation |
| Nesting.SectionLasts | jmvcc/garbage.cc:331-374 | in every run, a section is active exactly as long as its thread has left no more often than it has entered since the section began |
| Nesting.MayLeaveByCount | jmvcc/garbage.cc:352-358 | in every run, a thread can leave, without bad nesting, exactly if it has entered more often than it has left |
| Prompt.StartedExactly | jmvcc/garbage.cc:167-172 | in every run, a clean-up on the list of a section is started exactly when that section and all older ones have ended |
| Prompt.OutsideExactly | jmvcc/garbage.cc:411-426 | a clean-up scheduled outside sections is started exactly when every section that was active has ended |
| Prompt.ScheduledInsideExactly | jmvcc/garbage.cc:363-374 | in every run, a clean-up scheduled inside a section is not started while that is active, and then exactly when every other section that was active at its end has ended |
| Prompt.AsSoonAsPossibleExactly | jmvcc/garbage.cc:92-94 | whatever happens afterwards, that is as soon as the sections it must wait for have ended if and only if no section that has begun since it was scheduled is active when its own ends |
| Prompt.NotAsSoonAsPossible | jmvcc/garbage.cc:92-94 | a legal run after which every section that a clean-up must wait for has ended and it is not started |
| CriticalList.CriticalInfo.TakeCleanupsFrom | jmvcc/garbage.cc:289-301 | the longer list is kept, the other goes behind it, and the giver is left with none |
| CriticalList.SectionList.Insert | jmvcc/garbage.cc:235-251 | the list stays well linked both ways with the new section at its end |
| CriticalList.SectionList.Remove | jmvcc/garbage.cc:259-276 | removal anywhere keeps the list well linked and moves the clean-ups to the section before |
| Collector.GarbageCollector.EnterCritical | jmvcc/garbage.cc:331-350 | every entry is counted and only one from outside begins a section, which is then the newest; the heap shows the machine's state after entering |
| Collector.GarbageCollector.LeaveCritical | jmvcc/garbage.cc:352-382 | every exit is counted, only the outermost ends the section, and one without an entry is reported; the heap shows the machine's state after leaving and carrying out what is left |
| Collector.GarbageCollector.ScheduleCleanup | jmvcc/garbage.cc:390-437 | the clean-up goes behind the thread's own list inside a section, else behind the newest section's, else it is carried out at once; nothing else changes |
| Collector.GarbageCollector.CheckInvariants | jmvcc/garbage.cc:439-465 | everything the source's own check looks at holds |
| Reclaim.HeldIsKept | jmvcc/versioned2.h:236-260 | in every run a block picked up inside a section stays in use with the same contents for as long as that very section is active, however often inner ones are entered and left |
| Reclaim.HeldWhileInside | jmvcc/versioned2.h:236-260 | in every run, a block picked up after entering stays in use with the same contents as long as the thread has left no more often than it has entered since |
| Reclaim.CurrentMoves | jmvcc/versioned2.h:293-309 | only a swap that finds the block it started from changes what readers find, to what the new block holds |
| Reclaim.InstallsWhatWasFilled | jmvcc/versioned2.h:244-285 | in every run, what readers find after such a swap is what the new block was filled with, whatever went on in between |
| Reclaim.SwapFindsSameBlock | jmvcc/versioned2.h:293-309 | a swap that finds the address it started from finds the very block it copied, addresses being reused |
| Reclaim.StepKeeps | jmvcc/versioned2.h:236-309 | every block is free, being filled, an object's, retired, or doomed by the one clean-up that will free it |
| Reclaim.NothingDoomed | jmvcc/garbage.cc:303-311 | with no section active and every leaver finished, no block is waiting to be freed |

## Left out

- Epochs are unbounded numbers: the 32-bit wrap-around that renumbering exists to avoid is not modelled.
- Memory ordering, spin locks and mutexes: lock-protected regions and successful compare-and-swaps are atomic steps.
- The retry loops around compare-and-swap in `Versioned2`: one attempt, which succeeds while the commit lock is held; `Reclaim` has the failing attempt as a step. That the loops end under contention is not shown.
- `Versioned2::rename_epoch` (`jmvcc/versioned2.h:453-500`): with two versions it reports the meaningless last `valid_to`; renumbering is modelled with `Versioned::rename_epoch`.
- Creating and destroying objects while the store runs, and destroying `Versioned2` objects: the set of objects is fixed.
- Values are integers in the store (the two object classes are generic); `malloc`, `free`, allocators and destructors of values are not modelled, so neither is the front branch of `Versioned::cleanup` popping without freeing the value.
- Store.Store.CompressEpochs: runs as one atomic step, between commits and with no clean-up under way; its races with a clean-up that has released the lock are not modelled.
- CompressStore.CompressNeeds: asks for the rule of the latest snapshot before and after; `CompressExact.RenumberedExactly`, which does not, takes keeping the reads together with keeping the invariants.
- Runs that go on after a renumbering that gets the store wrong: `CompressRuns` renumbers only where the condition holds; what one step more does is shown for given stores.
- Transactions.Transaction.Commit: the epoch of the snapshot is read inside the commit rather than before the lock is taken, and leaving and entering the critical section around it is in the other half of the model.
- `Versioned2::commit` (`jmvcc/versioned2.h:338-348`) reads the block and lists the version without a lock; the machine does both in one step.
- The order in which a commit goes through its objects is a parameter; the source's is the order of its hash table.
- The branch of `register_snapshot` that cleans up a previous entry without snapshots (`jmvcc/snapshot.cc:188-195`): no entry is ever without snapshots, so it has nothing to do.
- Collector.GarbageCollector.LeaveCritical: carries out the left-over list in one call; other threads' steps in between are steps of the machine in `Garbage`.
- Clean-ups that enter critical sections or schedule further clean-ups while they run, and threads that end.
- Reading outside a transaction, dumping, statistics, debug counters and the text of exceptions.
