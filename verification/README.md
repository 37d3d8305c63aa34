# data-rover: a verified model of the session core

data-rover lets several users edit one model at once. Clients lease what they want to
change, stage batches of operations and commit them to a journal; the API layer then
undoes, replays, diffs, compacts, caches and indexes what was committed. This Dafny
project models those parts and proves what they promise, for all inputs, all batches and
all interleavings.

Code that works by changing state is modelled as classes and as methods with loops, each
proved against a specification function; code that races with other threads is modelled
as a state machine whose steps are the critical sections of the source. Everything the
source leaves to its host (the metamodel's derived facts, payload validators, id
generators, clocks, script outcomes) is a parameter, so a theorem holds for every choice
of it.

## Layout

- Shared: `Collections`, `Json`, `Graph`, `Text`, `Model` (elements, relationships,
  metamodel, containment), `ModelOps` (the model-op applier with its inverse units),
  `ModelEffects` (what each op does), `ModelUndo` (undo and rollback).
- Change requests and the log: `ChangeRequestOps` (diff and compiler),
  `CompilerCorrectness`, `Session` (the bounded log), `Changes` (compaction),
  `LogReplay` (undo on the log; compaction, compiled and run again).
- Cache invalidation: `Invalidation`, `CellCache`.
- Artifacts: `ArtifactStore` (rows, name constraint, applier), `ArtifactEffects` (what
  each op does), `ArtifactUndo`, `ArtifactPreview`, `CommitDiff`, `ArtifactRefs`,
  `ArtifactClosure`, `ImportPlan`, `ImportEffects` (what a plan and its answers mean),
  `ImportBatch`.
- Leases: `Locking` (the table), `LeaseRuns` (whole runs and restarts), `LockMirror`
  (racing write-throughs), `LockScope`, `RequiredLocks`, `LockFootprints`, `LockNeeds`
  (why each lock is needed).
- Background builders: `ScriptSweep`, `SearchIndex`, `SearchIndexBuild`,
  `ValidationSweep`; `ElementSearch` (the search that reads the index).
- Writers: `Serialize`, `SerializeBack` (reading them back).

`dafny verify dfyconfig.toml` checks everything.

## What turned out not to hold

Each of these has a lemma with an input that shows it, or a whole family of them, beside
the theorem that says when the property does hold.

- A delete checks no schema and restore mode does, so an element whose type a rebind took
  away can be deleted but not brought back, neither by undo nor by the rollback of a batch
  that fails after the delete (`ModelUndo.LegacyDeleteStays`); `ModelUndo.UndoIffFitting`
  is exact.
- A log that spans a rebind compacts to the right request, whose batch the new schema may
  refuse (`LogReplay.RebindBreaksReplay`); `LogReplay.CompactedLogReplays` is exact.
- A compiled change request rewrites a property string that equals a temporary id minted
  before it (`CompilerCorrectness.NoteReadingTmp1`), and drops a property it should set to
  null (`ChangeRequestOps.PatchTurnsBeforeIntoAfter`); it yields the target model exactly
  when no written property does either (`CompiledRequestLands`). It is refused when an id
  names an element on one side and a relationship on the other
  (`CompilerCorrectness.KindMoveIsRefused`).
- Cache invalidation misses keys when one batch deletes an entity and recreates its id
  elsewhere, which is what every compiled rewire does (`Invalidation.RewireGoesStale`):
  the recreate drops the id from the deleted set and the old endpoints' keys with it. It
  is sound exactly when each end such an id has left is an end of something else the batch
  touched (`Invalidation.TouchedKeysSoundIff`).
- Restore mode still refuses artifact kinds that are not registered, so a rename or a
  delete of a legacy row cannot be undone (`ArtifactUndo.LegacyRenameStays`);
  `ArtifactUndo.InverseRestores` is exact.
- Preview and apply can disagree on a batch that comes back to a renamed artifact
  (`ArtifactPreview.DoubleTouchDiffers`), and the preview passes a create without a
  temporary id, which the applier refuses (`ArtifactPreview.PlainCreateDiffers`).
- A bundle may repeat an id, and two places key a map by it. The import batch then gives
  both artifacts the second one's name and is refused (`ImportBatch.RepeatedIdIsRefused`;
  `ImportPlan.ImportNamesAreSafe` and `ImportBatch.ImportClashesIff` say when names are
  safe). The project import inserts both under one row id and fails in the middle
  (`ArtifactClosure.RepeatedIdDoesNotGoIn`); it goes through exactly when the landed ids
  are distinct (`ArtifactClosure.ImportArtifacts`).
- A batch that puts an existing element into a container and then deletes the container
  deletes that element under a shared pin only (`LockFootprints.AdoptThenDelete`). A batch
  touches only what it locks exactly when none of its deletes, where it runs, removes an
  unlocked element (`LockFootprints.EffectsAreLocked`); `LockFootprints.GuardIsExact`
  reads the old model and the batch's resolved ops and is enough for that. Even then two
  holders can both change one relationship
  (`LockFootprints.BothChangeOneRelationship`), each under a lock on another end of it
  (`LockFootprints.SharedRelationshipIsSplit`).
- The validation sweep takes its id list and its rules without the write mutex. If it reads
  ids while a commit that will be refused has an entity deleted, that entity is never
  validated (`ValidationSweep.RefusedDeleteIsMissed`); if it compiles its pipeline while
  such a commit has the rules swapped, it judges by the refused rules
  (`ValidationSweep.RefusedRulesAreUsed`). `ValidationSweep.SweepFullIff` is exact.
- The search score is said to rank a better name match above a worse one whatever else
  either matches (`routes/read.py:154-157`). Other matching properties add up, so nine of
  them can outrank a name (`ElementSearch.NotesOutrankAName`); eight cannot
  (`ElementSearch.TiersHold`).
- A view's lease passes for a model resource, which the comment at `locking.py:77` says
  bare ids are (`LockScope.ModelResources`).
- The comment at `locking.py:117` is not an invariant: an exclusive lease may coexist with
  peers' shared pins (`LeaseRuns.PinsCoexist`). The true one is that all exclusive leases
  on a resource have one holder (`LeaseRuns.RunKeepsExclusion`), and since it holds of
  expired leases too it needs no assumption about clocks.

## Model

| member | source | states |
|---|---|---|
| ModelOps.InversePatchUndoes | src/data_rover/api/routes/ops.py:249-474 | the recorded inverse patch undoes a merge patch exactly when no patched key held a null |
| ModelOps.OpKeeps | src/data_rover/api/routes/ops.py:249-474 | every accepted model op keeps references intact, ids apart and entities conforming, and brings a null into a null-free model exactly when it creates one |
| ModelOps.DeleteLonely | src/data_rover/core/model/model.py:189-211 | deleting an element no relationship touches removes that element and nothing else |
| ModelUndo.UndoIffFitting | src/data_rover/api/routes/ops.py:477-515 | whether a batch lands or fails at some op, running its recorded units back is refused exactly when an entity of the start that they recreate does not conform, and otherwise gives the very model it started from, whatever ids are minted meanwhile |
| ModelUndo.BatchAtomic | src/data_rover/api/routes/ops.py:477-515 | on a conforming model rollback and undo always succeed and are exact |
| ModelUndo.LegacyDeleteStays | src/data_rover/core/model/model.py:39-56 | deleting an element whose type the schema no longer has is accepted and neither undone nor rolled back |
| ModelEffects.CreateElementDoes | src/data_rover/api/routes/ops.py:249-297 | a create under a temporary id, hinted or not, is accepted exactly when its type can be instantiated, its properties are the type's and its id is free and allowed; it stores what was asked with earlier temporary ids replaced, and from then on its temporary id means the new element |
| ModelEffects.CreateRelationshipDoes | src/data_rover/api/routes/ops.py:381-425 | the same for a relationship, both of whose ends must be elements by then |
| ModelEffects.PlainCreateDoes | src/data_rover/api/routes/ops.py:275-283 | a create under a plain id is for restore mode only and reinstates that very id |
| ModelEffects.UpdateElementDoes | src/data_rover/api/routes/ops.py:299-327 | an update is accepted exactly when the element is there and the keys are its type's, and patches key by key: null removes, the rest of the bag and of the model stay |
| ModelEffects.UpdateRelationshipDoes | src/data_rover/api/routes/ops.py:427-452 | the same for a relationship, whose ends never move |
| ModelEffects.DeleteElementDoes | src/data_rover/api/routes/ops.py:329-379 | a delete takes the smallest set of elements that holds the named one and is closed under containment, the relationships with an end in it, and nothing else |
| ModelEffects.DeleteRelationshipDoes | src/data_rover/api/routes/ops.py:454-473 | a delete takes that relationship and nothing else |
| ModelEffects.BindingStays | src/data_rover/api/routes/ops.py:249-474 | a temporary id goes on meaning what it was bound to until an op creates under it again |
| ModelEffects.CreateThenConnect | src/data_rover/api/routes/ops.py:249-425 | the ordinary client batch lands: an element under a temporary id, then a relationship from it, whose source is the new element |
| ModelEffects.JournalReplays | src/data_rover/api/routes/ops.py:163-515 | the canonical ops of an accepted batch, replayed in restore mode whatever ids are minted meanwhile, give the very model the batch left |
| ChangeRequestOps.DiffModels | src/data_rover/core/model/change_request.py:281-315 | the difference of two models lists each added, changed and dropped entity once with its states, and nothing else |
| ChangeRequestOps.PatchTurnsBeforeIntoAfter | src/data_rover/api/change_request_ops.py:47-57 | the merge patch gives the after bag exactly when no key it sets is to hold a null, and is empty exactly when the bags are equal |
| ChangeRequestOps.ResolvedPatch | src/data_rover/api/change_request_ops.py:47-57 | a patch run through temporary-id resolution still gives the after bag exactly when resolution leaves it alone and it sets no null |
| ChangeRequestOps.OpsForChange | src/data_rover/api/change_request_ops.py:68-154 | the compiler as it runs, with its growing lists and its counter, is the phase-ordered specification |
| CompilerCorrectness.CleanIffUntouched | src/data_rover/api/routes/ops.py:143-159 | id resolution leaves a property bag alone exactly when it mentions none of the temporary ids minted so far |
| CompilerCorrectness.TempOfFits | src/data_rover/api/change_request_ops.py:92-109 | every created element's id maps to its own temporary id, so endpoint references resolve to it |
| CompilerCorrectness.RefusedIffRetyped | src/data_rover/api/change_request_ops.py:68-90 | the compiler refuses a difference exactly when some element changes type |
| CompilerCorrectness.RunRequest | src/data_rover/api/change_request_ops.py:68-154 | for a request that fits the metamodel, running the phases gives the phase-by-phase model and deletes exactly what the second model lacks |
| CompilerCorrectness.CompiledRequestLands | src/data_rover/api/change_request_ops.py:68-154 | between any two models whose references are intact, a request the compiler accepts lands exactly when no id changes kind and what it writes fits the metamodel, deletes exactly the dropped entities (no cascade past a named id), and yields the second model exactly when no written property mentions a temporary id minted before it and no patch sets a null |
| CompilerCorrectness.ConformingFits | src/data_rover/api/change_request_ops.py:68-154 | between two conforming models every request the compiler accepts fits the metamodel |
| CompilerCorrectness.PlainModelsAreClean | src/data_rover/api/change_request_ops.py:68-154 | models without nulls whose strings never look like temporary ids are never rewritten |
| CompilerCorrectness.NoteReadingTmp1 | src/data_rover/api/change_request_ops.py:92-120 | a note that reads `tmp_1` is rewritten to the first created element's id: the smallest request that goes wrong |
| CompilerCorrectness.KindMoveIsRefused | src/data_rover/api/change_request_ops.py:92-154 | a relationship's id that becomes an element's makes the batch refused, as creates come before deletes |
| Session.Session.RecordBatch | src/data_rover/api/session.py:300-313 | the retained log is always the history without its oldest batches, one of which is dropped exactly when the log is full |
| Session.Session.PopBatch | src/data_rover/api/routes/ops.py:811-818 | undo takes the newest batch off the log and the history; what was dropped does not come back |
| Session.Session.PushBack | src/data_rover/api/routes/ops.py:900-1054 | a refused undo leaves the log as it was before the pop |
| Session.Session.ResetLog | src/data_rover/api/session.py:239-283 | replacing or touching the model forgets the log |
| Changes.Touch | src/data_rover/api/changes.py:77-89 | the touched ids are collected once each, in first-touch order |
| Changes.MergeInto | src/data_rover/api/changes.py:68-74 | the in-place merge patch is the applier's merge patch |
| Changes.Scratch.ApplyInverse | src/data_rover/api/changes.py:92-117 | one inverse op steps the scratch states, or reports the missing entity the source would raise on |
| Changes.Scratch.Rewind | src/data_rover/api/changes.py:174-176 | newest batch first, each through its inverse ops front to back |
| Changes.RewindsBatch | src/data_rover/api/changes.py:92-117 | the inverse ops of any accepted batch rewind every set of ids that covers them to the state before it; every other id never changed |
| Changes.LogRewinds | src/data_rover/api/changes.py:120-176 | rewinding any log of accepted batches, each under its own metamodel, never misses an entity and recovers the state before its first batch for all touched ids; untouched ids are equal on both sides |
| Changes.CompactChanges | src/data_rover/api/changes.py:120-222 | collect, rewind and classify: the result is the difference from the rewound base to the current states, and it fails exactly where the rewind would raise |
| LogReplay.CompactionIsWholeDiff | src/data_rover/api/changes.py:120-222 | compaction never fails on a real log, rebinds and non-conforming entities included, and its result is the whole difference from the state just after the dropped batches to the current model |
| LogReplay.UndoPops | src/data_rover/api/routes/ops.py:811-958 | popping the newest batch leaves a history; under the metamodel it ran under its model inverse ops are refused exactly when an entity they recreate does not conform, and otherwise take the model back to where that history ends |
| LogReplay.CompactedLogReplays | src/data_rover/api/changes.py:120-222 | compacting a session's retained log, whatever was recorded, trimmed, undone or rebound, and compiling the result reproduces the log's effect: refused exactly on a retyped id, landing under any metamodel exactly when no id changed kind and what it writes fits |
| LogReplay.RebindBreaksReplay | src/data_rover/api/metamodel_ops.py:184-189 | an element created before a rebind to a schema it does not fit: the log compacts and its batch is refused |
| Invalidation.TouchedKeys | src/data_rover/api/invalidation.py:47-111 | the set-growing loops compute the written keys, or give up exactly when some entity's metadata is missing |
| Invalidation.ReadsExactly | src/data_rover/core/script/bridge.py:282-407 | what each kind of key reads, entity by entity: a scan of a type holds exactly the elements of that type or with that ancestor |
| Invalidation.TouchedElementIsScanned | src/data_rover/api/invalidation.py:47-111 | for every element an accepted batch makes, changes or deletes, the written keys hold the element, the scan of everything and the scan of its type and of each of its ancestors |
| Invalidation.EmittedIffHeld | src/data_rover/api/invalidation.py:47-111 | which keys an accepted batch emits and no others: the elements it touched, the scans of the types they have or last had, the ends that its relationships have or last had, with the containment sides for containments, and the containers of what it changed |
| Invalidation.BatchAccounted | src/data_rover/api/routes/ops.py:163-223 | through any accepted batch: changed ids exist, deleted ids do not and have metadata in the inverse units, the captured states are the pre-batch ones, and everything else is unchanged |
| Invalidation.TouchedKeysSoundIff | src/data_rover/api/invalidation.py:47-111 | for an accepted batch the translation always answers, and it covers every read whose answer changed (elements, hops, children and parents under any multi-parent containment, scans under any hierarchy) exactly when each end that a moved id has left, and each scan of a retyped id's old type, belongs to another touched entity |
| Invalidation.NoRebirthIsSound | src/data_rover/api/invalidation.py:47-111 | a batch that recreates no old id invalidates every answer it changed |
| Invalidation.RewireGoesStale | src/data_rover/api/invalidation.py:68-109 | a rewire as delete and recreate leaves the old target's incoming links stale |
| CellCache.SurvivorStaysRight | src/data_rover/core/script/cell_cache.py:122-156 | an entry whose reads miss every changed answer gives what the call would give after the commit |
| CellCache.ScriptCellCache.Get | src/data_rover/core/script/cell_cache.py:85-93 | through any sequence of puts, evictions and clears, a hit is what running the call at that revision gives |
| CellCache.ScriptCellCache.Put | src/data_rover/core/script/cell_cache.py:95-120 | a stale writer and a failure other than a runtime or syntax one change nothing; else the entry becomes the newest, more than 128 reads are stored as unknown, a newer revision clears first, and exactly the oldest entries beyond the cap go |
| CellCache.KeptInOrder | src/data_rover/core/script/cell_cache.py:85-156 | entries that stay keep their order of use, so the cap drops the least recently used |
| CellCache.ScriptCellCache.EvictTouched | src/data_rover/core/script/cell_cache.py:122-156 | one commit drops exactly the entries it may have touched and carries the rest forward as right ones |
| ArtifactStore.ArtifactTable.FindArtifact | src/data_rover/api/content.py:355-364 | the row holding a name, the same as any other search would give, or none if no row does |
| ArtifactStore.ArtifactTable.CreateArtifact | src/data_rover/api/content.py:326-348 | an insert succeeds exactly when the id is new and the name free, and keeps names unique |
| ArtifactStore.ArtifactTable.UpdateArtifact | src/data_rover/api/content.py:419-440 | an update succeeds exactly when its name is not another row's, and keeps names unique |
| ArtifactStore.ApplyArtifactOps | src/data_rover/api/artifact_ops.py:365-513 | the applier as it runs over the table and the overlay, each op's rows, canonical op, inverse unit and refusal being the specification's |
| ArtifactEffects.CreateDoes | src/data_rover/api/artifact_ops.py:302-445 | an ordinary create, its refusals in order and each exactly when it applies; the stored payload is the derived form of one that agrees with the op's at every position, but that a string equal to a temporary id bound before stands as that row's id; from then on the op's own temporary id means the new row |
| ArtifactEffects.UpdateDoes | src/data_rover/api/artifact_ops.py:329-492 | an update, its refusals in order; the payload as for a create, and the old one when the op has none |
| ArtifactEffects.DeleteDoes | src/data_rover/api/artifact_ops.py:360-513 | a delete is refused exactly when the row is missing, and takes that row only |
| ArtifactEffects.RestoreDoes | src/data_rover/api/artifact_ops.py:179-199 | a create in restore mode reinstates a row under its own id with its payload unchecked and underived |
| ArtifactEffects.BindingStays | src/data_rover/api/artifact_ops.py:365-513 | a temporary id goes on meaning its row until an op creates under it again |
| ArtifactEffects.SecondNamesFirst | src/data_rover/api/artifact_ops.py:137-149 | two artifacts made in one batch, the second naming the first by its temporary id: it is stored with the first one's row id |
| ArtifactUndo.OpKeepsClean | src/data_rover/api/artifact_ops.py:365-513 | every accepted artifact op keeps names unique and ids unreserved |
| ArtifactUndo.InverseRestores | src/data_rover/api/artifact_ops.py:151-166 | running an accepted batch's inverse ops in restore mode succeeds exactly when no updated or deleted row is of an unregistered kind, and then every name, kind and payload is back |
| ArtifactUndo.LegacyRenameStays | src/data_rover/api/artifact_ops.py:365-513 | a rename of a row of an unregistered kind is accepted and its inverse refused |
| ArtifactUndo.CanonicalReplays | src/data_rover/api/artifact_ops.py:365-513 | the canonical ops of an accepted batch replay in restore mode to the same rows |
| ArtifactUndo.ChangedExist | src/data_rover/api/artifact_ops.py:365-513 | the changed ids are exactly the touched rows that exist afterwards, all in the project; no other row moved |
| ArtifactPreview.ValidateArtifactOps | src/data_rover/api/artifact_ops.py:574-605 | the validator as it runs only reads the table |
| ArtifactPreview.OverlayIsIndex | src/data_rover/api/artifact_ops.py:211-246 | throughout any batch the overlay says about every name what a lookup of the staged rows says |
| ArtifactPreview.PreviewEqualsApply | src/data_rover/api/artifact_ops.py:302-362 | for batches that name no artifact after its delete, no revision after an update and neither a name nor a delete after a rename, with validity stable under id resolution, the applier accepts exactly when the preview passes and every create is temporary, and a refusal gives the same reason |
| ArtifactPreview.DoubleTouchDiffers | src/data_rover/api/artifact_ops.py:574-605 | rename, delete and reuse of the name in between is accepted by the applier and refused by the preview |
| ArtifactPreview.PlainCreateDiffers | src/data_rover/api/artifact_ops.py:365-605 | a create under a plain id passes the preview and is refused by the applier |
| CommitDiff.ArtifactStates | src/data_rover/api/commit_diff.py:159-204 | the two overwriting passes over the journal entry |
| CommitDiff.JournalTellsTheTruth | src/data_rover/api/commit_diff.py:159-204 | from canonical and inverse ops alone come the true states before and after of exactly the touched artifacts, however often each was touched |
| CommitDiff.DiffCommit | src/data_rover/api/commit_diff.py:286-318 | the artifact diff of a commit lists exactly the rows that appeared, vanished or changed between the tables before and after it |
| Locking.LockTable.Acquire | src/data_rover/api/locking.py:153-193 | checks every request first; without stealing any conflict refuses the whole request; stealing evicts the contested resources' other holders |
| Locking.LockTable.Release | src/data_rover/api/locking.py:195-208 | drops exactly the holder's leases under the token and reports them |
| Locking.LockTable.Renew | src/data_rover/api/locking.py:210-217 | extends exactly the holder's live leases under the token, and says whether there was one |
| Locking.LockTable.VerifyHeld | src/data_rover/api/locking.py:219-240 | reports exactly the required locks no live lease of the holder covers |
| Locking.LockTable.SweepExpired | src/data_rover/api/locking.py:242-252 | drops and reports exactly the expired leases |
| Locking.LockTable.PeerLeases | src/data_rover/api/locking.py:254-291 | exactly the live leases of other holders on the resources |
| LeaseRuns.RestoredExactly | src/data_rover/api/lock_mirror.py:115-175 | after a crash exactly the leases that outlive the elapsed wall time come back, under their own tokens, shortened by it and by the cap |
| LeaseRuns.RestoredWithinCap | src/data_rover/api/lock_mirror.py:138-175 | under any clocks a restored lease is live and never outlasts a positive cap |
| LeaseRuns.RefusedIff | src/data_rover/api/locking.py:132-173 | a request is refused exactly when it asks for something exclusive where a peer has a live exclusive lease, or for an exclusive delete where a peer has any live lease; the conflicts name such leases |
| LeaseRuns.PinsCoexist | src/data_rover/api/locking.py:132-193 | where peers hold only shared leases an exclusive edit, connect or create-child is granted, stealing or not, and every live lease of anyone stays |
| LeaseRuns.RefusalChangesNothing | src/data_rover/api/locking.py:170-173 | a refused request leaves the live leases as they were |
| LeaseRuns.StealTakesOnlyContested | src/data_rover/api/locking.py:172-193 | a steal takes the contested resources whole and leaves every live lease on any other resource |
| LeaseRuns.AcquireKeeps | src/data_rover/api/locking.py:153-193 | acquiring, stealing or not, keeps one exclusive holder per resource |
| LeaseRuns.RenewNeverRevives | src/data_rover/api/locking.py:210-217 | a renewal changes no expired lease and no other holder's |
| LeaseRuns.ReleasedExactly | src/data_rover/api/locking.py:195-208 | a release takes the holder's leases under the token and no other lease |
| LeaseRuns.RunKeepsExclusion | src/data_rover/api/locking.py:115-301 | over any run of acquires, steals, releases, renewals, checks, sweeps, write-throughs and restarts from any mirrored snapshot, under any clocks, the exclusive leases on a resource have one holder |
| LeaseRuns.AcquiredIsHeld | src/data_rover/api/locking.py:153-240 | what is granted verifies until it expires |
| LeaseRuns.HeldMeans | src/data_rover/api/locking.py:219-240 | a check passes exactly on the holder's own live lease under one of the tokens, exclusive when the lock is |
| LockMirror.MirrorSessionLeases | src/data_rover/api/lock_mirror.py:226-249 | a write-through stores exactly the live leases, and no other project's set changes |
| LockMirror.RestoreLeases | src/data_rover/api/lock_mirror.py:252-282 | a restore seeds the table with exactly the leases of the mirrored set that are still alive |
| LockMirror.StepForward | src/data_rover/api/lock_mirror.py:226-249 | each step of any number of mutating and mirroring threads keeps the ordering invariant and never moves the mirror back |
| LockMirror.MirrorOnlyForward | src/data_rover/api/lock_mirror.py:13-19 | along any run the mirrored snapshots only move forward |
| LockMirror.QuietMirrorIsCurrent | src/data_rover/api/lock_mirror.py:13-19 | when no write-through is pending the mirror holds every live lease, none expiring early, and none that the latest mutation had released |
| LockMirror.OwedIsWritten | src/data_rover/api/lock_mirror.py:226-249 | a write-through that is owed, the mutex being free, can run to its end; then its thread owes nothing and the mirror holds exactly the live leases of the latest mutation |
| LockScope.ContainmentSubtree | src/data_rover/api/locking.py:357-370 | over any containment graph, cyclic or multi-parent, the stack search ends and lists each reachable id once |
| LockScope.FolderSubtreeIds | src/data_rover/core/view/ids.py:76-94 | the stack walk yields the folder and its descendants parents first, and stands for the id itself when the view or folder is unknown |
| LockScope.DescendantsAre | src/data_rover/core/view/ids.py:19-25 | the folders of some trees are their roots and whatever lies below a root |
| LockScope.ParentIs | src/data_rover/core/view/ids.py:56-73 | the parent found is the container of a folder with the id, and none is found exactly when no folder has it |
| LockScope.ContainersApart | src/data_rover/api/locking.py:348-354 | two containers share a lease exactly when they are one folder or the roots of one view |
| LockScope.ModelResources | src/data_rover/api/locking.py:76-82 | artifact, folder and metamodel leases are no model resources, and a view's lease is taken for one |
| RequiredLocks.ExpandTargets | src/data_rover/api/locking.py:382-419 | each lock of the expansion once: whole subtrees for an exclusive delete, the resource itself otherwise |
| RequiredLocks.PinsBlockDelete | src/data_rover/api/locking.py:132-419 | while a peer holds any live lease on a member of the subtree, a delete request that does not steal is refused whole and leaves the live leases unchanged |
| RequiredLocks.RequiredLocksOf | src/data_rover/api/locking.py:432-556 | the accumulating loop derives each required lock once, for every op family, exempting what the batch itself created |
| LockNeeds.RequiredExactly | src/data_rover/api/locking.py:432-556 | a batch needs a lock exactly when some op of it asks for it by what it edits, deletes, connects or creates under, the id is not temporary, and no op up to that one creates it |
| LockNeeds.ConnectHoldsOffDelete | src/data_rover/api/locking.py:132-492 | while a batch that connects two existing elements passes the lock check, no peer's delete request that would take either end is granted unless it steals |
| LockNeeds.OneWriter | src/data_rover/api/locking.py:219-556 | two holders' batches that both pass the lock check do not both change one element, artifact, folder, container or the metamodel, but for what they create |
| LockFootprints.DisjointFootprints | src/data_rover/api/locking.py:219-556 | two holders' batches that both verify use no existing element, artifact or view container exclusively in common |
| LockFootprints.EffectsAreLocked | src/data_rover/api/locking.py:432-556 | an accepted batch touches no existing element but those it locks exclusively exactly when none of its deletes, where it runs, removes one it has not locked; then no other element changes, and no relationship but those locked at one end |
| LockFootprints.GuardIsExact | src/data_rover/api/locking.py:432-556 | reaching only locked elements from each delete, through the old containment and the edges the batch adds, is enough; for a batch that detaches no containment and revives no id it is also necessary |
| LockFootprints.PlainDeletesAreGuarded | src/data_rover/api/locking.py:432-492 | the subtree locks of deletes are enough for every batch that adopts no existing element and revives no id |
| LockFootprints.DisjointEffects | src/data_rover/api/locking.py:219-556 | two verified batches of different holders, their deletes locked, change no common element |
| LockFootprints.SharedRelationshipIsSplit | src/data_rover/api/locking.py:219-556 | they change a common relationship only if one holder locks its source and the other its target, neither both |
| LockFootprints.BothChangeOneRelationship | src/data_rover/api/locking.py:482-496 | deleting a relationship's target and patching the relationship both change it under disjoint locks |
| LockFootprints.AdoptThenDelete | src/data_rover/api/locking.py:478-492 | connecting an existing element under a container and deleting the container deletes it under a shared lock |
| ScriptSweep.Enumerate | src/data_rover/api/script_sweep.py:470-521 | every cell is one distinct call or already done: the progress total is exact |
| ScriptSweep.SuccessMeansAllOnce | src/data_rover/api/script_sweep.py:322-577 | under every interleaving a job ends done only if every queued item was called exactly once and counted |
| ScriptSweep.CountersAreStreaks | src/data_rover/api/script_sweep.py:356-403 | the two failure counters are the lengths of the unbroken runs of that outcome |
| ScriptSweep.EndsExactlyByCause | src/data_rover/api/script_sweep.py:322-403 | a running job ends in a state exactly by that state's cause: done by the join; cancelled by an aborted probe; failed by a spent budget, a crash, or threshold timeouts or unavailable runners counted in a row |
| ScriptSweep.EndedByCause | src/data_rover/api/script_sweep.py:322-403 | every job that has ended did so once, by a cause of the state it is in |
| ScriptSweep.CleanSweepSucceeds | src/data_rover/api/script_sweep.py:574-577 | a sweep in which no worker gave up or crashed and no outcome ran up to the threshold ends done at its join, every cell counted |
| ScriptSweep.FirstTerminalWins | src/data_rover/api/script_sweep.py:331-341 | the first terminal state of a drain is never overwritten |
| ScriptSweep.TimeoutsBounded | src/data_rover/api/script_sweep.py:300-403 | a table whose calls all time out costs at most threshold plus workers minus one calls |
| ScriptSweep.DrainEnds | src/data_rover/api/script_sweep.py:322-403 | the workers take at most four steps an item and one each, whatever happens: no drain runs on |
| ScriptSweep.DrainCanStep | src/data_rover/api/script_sweep.py:322-403 | until the join something can always happen: a worker that has not left has a step to take |
| ScriptSweep.LocksKept | src/data_rover/api/script_sweep.py:257-294 | throughout any run of job threads no more slots are in use than there are, and a session has at most one sweep past its run lock |
| ScriptSweep.SomeJobSteps | src/data_rover/api/script_sweep.py:257-294 | at no point of any run do the two locks, taken in that order, deadlock |
| ScriptSweep.JobsEnd | src/data_rover/api/script_sweep.py:257-294 | each job is over after three steps of its own, so with the previous line all of them get through |
| SearchIndex.DiffIsRederivation | src/data_rover/core/model/indexes.py:834-898 | dropping the old value's trigrams that no other text holds and adding the new value's equals re-deriving the element |
| SearchIndex.IndexSet.OnPropertyChanged | src/data_rover/core/model/indexes.py:385-401 | a property change leaves the index accurate, re-deriving the element's entry unless the build still owns it |
| SearchIndex.IndexSet.OnElementDeleted | src/data_rover/core/model/indexes.py:304-317 | a delete removes the entry and every posting of it |
| SearchIndex.IndexSet.IndexSearchChunk | src/data_rover/core/model/indexes.py:474-495 | a chunk indexes the current text of exactly its existing, unindexed elements |
| SearchIndex.TrigramsAre | src/data_rover/core/model/indexes.py:85-88 | a text's trigrams are its substrings of three characters |
| SearchIndex.IndexSet.SearchCandidates | src/data_rover/core/model/indexes.py:254-289 | the intersected postings are exactly the elements that hold every trigram of the query, or none are given: exactly when the index is not ready, the query short, or every trigram of it too common |
| ElementSearch.HitIffMentioned | src/data_rover/api/routes/read.py:151-188 | an element scores above zero exactly when its id, type name, resolved name or another string property contains the query |
| ElementSearch.FindHits | src/data_rover/api/routes/read.py:222-246 | searching through the candidates finds the same hits with the same scores as scanning the whole model, each once |
| ElementSearch.TiersInOrder | src/data_rover/api/routes/read.py:126-148 | a whole name scores above a start of it, that above a word in it, that above any occurrence, that above none |
| ElementSearch.TiersHold | src/data_rover/api/routes/read.py:151-188 | a better name match outranks a worse one whatever else either matches, as long as the worse one has at most eight other matching properties |
| ElementSearch.NotesOutrankAName | src/data_rover/api/routes/read.py:151-188 | with nine it need not: an element without a name match can outrank one whose name has the query inside |
| SearchIndexBuild.RunSync | src/data_rover/api/search_index_build.py:89-123 | run to completion alone, the chunked build gives the full index |
| SearchIndexBuild.ReadyMeansFull | src/data_rover/api/search_index_build.py:12-29 | however edits, resets, model swaps and any number of builds interleave, an index that says it is ready equals a synchronous build of the current model, until the next reset |
| SearchIndexBuild.FinishedBuildIsReady | src/data_rover/api/search_index_build.py:89-123 | a build that finishes while the session holds the model and generation it started on leaves that index ready and complete; on any other it changes no index |
| SearchIndexBuild.OnlyFinishMakesReady | src/data_rover/api/search_index_build.py:89-123 | nothing else makes an index ready |
| SearchIndexBuild.BuildGoesOn | src/data_rover/api/search_index_build.py:61-123 | a build started on an index that is not ready is never stuck: until it finishes or is cancelled it has a next step, and each chunk on its model and generation brings it further |
| ValidationSweep.ValidationState.Replace | src/data_rover/core/validation/state.py:64-78 | a splice replaces exactly the dirty ids' issues by the scoped run's |
| ValidationSweep.SweepFullIff | src/data_rover/api/validation_sweep.py:89-128 | along any run, a completed sweep has left every entity's issues equal to a fresh validation under the current rules exactly when each id that a list it read lacked is clean or was written by a commit or chunk, and each id that a pipeline built under other rules misjudged was written again since |
| ValidationSweep.CompletedSweepIsFull | src/data_rover/api/validation_sweep.py:89-128 | so it is whenever nothing was read through a refused commit, whatever the order of chunks, edits, deletes and rule swaps |
| ValidationSweep.SweepMovesOn | src/data_rover/api/validation_sweep.py:89-128 | each of the sweep's own steps brings it nearer to completion, which it reaches only after its last id, unless the model was replaced; nothing else but a cancel moves it |
| ValidationSweep.SweepCanMove | src/data_rover/api/validation_sweep.py:89-128 | while no commit is open a sweep that has not ended has such a step to take |
| ValidationSweep.RefusedDeleteIsMissed | src/data_rover/api/validation_sweep.py:89-96 | an id list read during a commit that is then refused can miss an entity for good |
| ValidationSweep.RefusedRulesAreUsed | src/data_rover/api/validation_sweep.py:96-116 | a pipeline built during a commit that is then refused judges by the refused rules |
| ArtifactRefs.Walk | src/data_rover/api/artifact_kinds.py:34-50 | the walk adds exactly the payload's references to its output set |
| ArtifactRefs.RefsAre | src/data_rover/api/artifact_kinds.py:34-50 | the references of a payload are the strings at the positions under the key "ref" |
| ArtifactRefs.RefsOfRewritten | src/data_rover/api/artifact_kinds.py:53-69 | the references of a rewritten payload are the mapped references, no more and no fewer |
| ArtifactRefs.RewriteAt | src/data_rover/api/artifact_kinds.py:53-69 | rewriting maps the strings under the reference key and leaves every other position of the payload as it was |
| ArtifactClosure.ComputeClosure | src/data_rover/api/artifact_bundle.py:82-106 | the queue search ends with exactly the reachable rows of the project, each once, and exactly the reachable missing ids as dangling |
| ArtifactClosure.ClosureIs | src/data_rover/api/artifact_bundle.py:82-106 | rows and dangling ids together are the smallest set that holds the roots and whatever a project row in it refers to; the rows are the project's, the dangling ids are not |
| ArtifactClosure.LandableArtifacts | src/data_rover/api/importer.py:46-125 | each bundle artifact lands, derived unless trusted, exactly when it is of a known kind, unless trusted also named, writable and valid, and no earlier such one has its name; every other is reported with the first reason that applies |
| ArtifactClosure.ImportArtifacts | src/data_rover/api/importer.py:168-192 | every insert of an import succeeds exactly when the landed bundle ids are distinct, and then the rows are the landed artifacts under their new ids |
| ArtifactClosure.ImportBundle | src/data_rover/api/importer.py:46-192 | screened and inserted, a bundle of distinct ids always goes in, and one that lands whole goes in only then |
| ArtifactClosure.RepeatedIdDoesNotGoIn | src/data_rover/api/importer.py:168-192 | one id under two names lands twice and is given one row id |
| ArtifactClosure.ImportIsIsomorphic | src/data_rover/api/importer.py:46-192 | importing a closed bundle, trusted or of payloads whose derivation keeps their references, gives one row per original of the same kind and name, referring to exactly the images of what the original referred to and otherwise equal at every position |
| ImportPlan.DedupeName | src/data_rover/api/artifact_bundle.py:167-173 | the first free suffix is found, since a finite set cannot hold every suffix |
| ImportPlan.DerivePlan | src/data_rover/api/artifact_bundle.py:207-363 | every bundle artifact is planned, a duplicate or skipped, by the two loops and the growing name sets |
| ImportPlan.DerivedPlanOk | src/data_rover/api/artifact_bundle.py:207-363 | each entry has a name reserved that no row holds and no other entry has |
| ImportEffects.PlanEntryIs | src/data_rover/api/artifact_bundle.py:207-363 | each entry is that of one bundled artifact: a create when no row holds the name; else it names the row, proposes the smallest suffix from 2 on that no row, bundled artifact or earlier proposal has, and proposes reuse exactly when the payload, derived and pointed at the clashing siblings' rows, has the row's canonical text |
| ImportEffects.EveryArtifactIsPlanned | src/data_rover/api/artifact_bundle.py:207-363 | a valid bundle artifact has an entry unless it repeats an earlier one's new name, and then it is reported as a duplicate |
| ImportEffects.PlannedAre | src/data_rover/api/artifact_bundle.py:207-251 | the artifacts planned are those with a name, a known and writable kind and a valid payload |
| ImportPlan.BuildImportOps | src/data_rover/api/artifact_bundle.py:404-521 | the decision loop, its claims and the batch it yields |
| ImportPlan.ImportOpRefers | src/data_rover/api/artifact_bundle.py:404-521 | each created op carries the bundle's payload with exactly its references changed: created siblings by their temporary ids, reused ones by their rows, strangers as they were |
| ImportPlan.ReusesAreDecided | src/data_rover/api/artifact_bundle.py:404-521 | the reuses are the entries answered so, with the rows they clash with |
| ImportEffects.ImportOpIsNamed | src/data_rover/api/artifact_bundle.py:404-521 | the ops make exactly the entries not answered with reuse; a create goes by its own name and a copy by the typed name, else the proposed one, else its own, the last entry of an id naming them all |
| ImportPlan.ImportNamesAreSafe | src/data_rover/api/artifact_bundle.py:404-521 | whatever the decisions and typed names, the names of a built batch are free and differ exactly when each claim overwritten by a later one of its id fits under the name that replaced it: always when the created ids differ, never when one repeats within a kind |
| ImportPlan.RefusedIffIllegal | src/data_rover/api/artifact_bundle.py:404-521 | without typed names a fresh plan is refused exactly when some decision is illegal |
| ImportEffects.RefusedIffNotHonored | src/data_rover/api/artifact_bundle.py:404-521 | with any answers and typed names a fresh plan is refused exactly when an answer is for an artifact without an entry, reuses nothing, creates what was not planned as a create, or takes a name that something in sight or an earlier entry goes by |
| ImportBatch.ImportClashesIff | src/data_rover/api/artifact_bundle.py:404-521 | run through the applier, an import batch with such names meets no taken name, and one without is refused |
| ImportBatch.RepeatedIdIsRefused | src/data_rover/api/artifact_bundle.py:470-521 | one bundle id under two names gives two creates of the second name, which the applier refuses |
| ImportBatch.ReimportProposesReuse | src/data_rover/api/artifact_bundle.py:243-363 | an unchanged bundle imported where it came from proposes to reuse every artifact by its own row |
| Serialize.RepadIsDeeper | src/data_rover/api/serialize.py:63-74 | re-padding the newlines of a printed value equals printing it deeper |
| Serialize.IterModelJson | src/data_rover/api/serialize.py:101-131 | the joined chunks are the whole document's two-space print |
| Serialize.IterModelJsonCompact | src/data_rover/api/serialize.py:143-186 | the joined batches are the whole document's compact print |
| Serialize.IterBuffered | src/data_rover/api/serialize.py:189-214 | re-chunking keeps the text, and every piece but the last reaches the minimum size |
| SerializeBack.ReadBack | src/data_rover/api/serialize.py:63-186 | a JSON reader (RFC 8259) gives back the very value from its compact and from its indented print |

## Left out

- FastAPI routes, authentication, settings, the feed and the frontend: plumbing around the modelled core.
- The script sandbox, Redis, object storage, SQLAlchemy and spreadsheet writers: a script call is an oracle, the row store a map with a unique (project, kind, name).
- Folder and view op semantics: views are lockable folder trees only.
- Per-entity and per-artifact revision counters are left out of the equalities: they only move forward, or restart with the row.
- The order of dictionaries and sets is not modelled: a model is a pair of maps, and results that depend on an order hold for every order.
- Python's `1 == True` and `1 == 1.0`: property values are compared structurally.
- Two elements and relationships of one model sharing an id: loaders do not exclude it, the theorems assume it away (`Model.Intact`).
- A minted id that collides with an existing one is a refusal in the applier; the id generator is otherwise arbitrary.
- ModelUndo.UndoIffFitting: assumes a null-free start and creates without nulls, a null being where an inverse patch fails (`InversePatchUndoes`); the applier is a function on values here, not an object mutated in place.
- Invalidation.TouchedKeysSoundIff: `out` and `in` answers are the relationships; the neighbours inlined with them are charged to their own element keys, and whether the queried element exists is the element key's answer.
- CellCache.ScriptCellCache.Get: results computed while a commit is half applied are outside the model, as the writer must present a result of a committed revision.
- ArtifactPreview.PreviewEqualsApply: assumes fresh ids that the batch does not guess; for a batch that comes back to a renamed or deleted artifact only a counterexample is given.
- CommitDiff.DiffCommit: the path-level payload changes (`json_structural_diff`), the kind labels and the sort order.
- Locking.LockTable.Renew: leases are values replaced in the table, so aliasing of a granted lease object with the table's is not captured.
- LockMirror.QuietMirrorIsCurrent: write-throughs do not fail; the wall clock runs a constant ahead of the monotonic one while the process lives.
- LeaseRuns.RestoredExactly: an unknown mode or intent in a stored envelope, which the source answers with an empty table.
- LockFootprints.GuardIsExact: its edges are those of the applier's resolved ops, so a caller knows them once temporary ids have their final ones; for a batch that detaches a containment or revives an id the guard is enough but may not be necessary. `EffectsAreLocked` is exact for every batch, along its run.
- LogReplay.UndoPops: an undo across a rebind, which the route refuses (routes/ops.py:826).
- LogReplay.CompactedLogReplays: the session states of its log hold no null.
- ScriptSweep.SuccessMeansAllOnce: the drain phase only; an exception while closing the context afterwards may still turn a finished job into a failed one. The job registry's get-or-create is left out as easy.
- ElementSearch.FindHits: the trimming of the query, the sort of the hits and their paging. Lower-casing and the choice of the name property are parameters.
- SearchIndexBuild.ReadyMeansFull: the id list and the generation (`search_index_build.py:93-94`) are one atomic read.
- ValidationSweep.CompletedSweepIsFull: one-way, `SweepFullIff` being the exact statement. A containment cycle's representative issue in a full run versus one per element in a scoped run is not modelled: a verdict is what a scoped run reports.
- ArtifactClosure.ComputeClosure: the sorting of the dangling ids.
- ImportPlan.DerivePlan: the texts of the skip reasons.
- Serialize.IterModelJson: entities edited mid-stream; a document is written from one state. Lone surrogates and numbers without a literal are not modelled.
- Snapshot replay, layout moves, metamodel diffs, table evaluation, eviction and the concurrency guard: true but easy, or not part of the modelled files.
