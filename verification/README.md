# Verification of the content store and the outline core

A Dafny 4.11 model of four parts of the repository, with proofs. `dafny verify dfyconfig.toml` checks all of it.

## What is modelled

**The content store** (`Content*.dfy`). A crash-tolerant, content-addressed store shared by several processes. The tables
and each `BEGIN IMMEDIATE` body are values and functions in `ContentDatabase`. `ContentProtocol` is the state machine:
every transaction and every file operation is a step of its own, calls of any number of processes interleave, a crash
ends all calls of a process wherever they stand, every step may throw instead (a look at a file that throws counts as one
that found nothing right, as in the code), and the clock only grows. Runs are finite
sequences of such steps. `ContentRows` and `ContentHistory` need no hypothesis on runs. `ContentSafety`, `ContentNaming`
and `ContentOwnership` are about pins, staging files and claims. `ContentStore` is the object itself, its methods proved
against the transactions, with opening after a crash and collection. `ContentCalls` says what whole calls of the protocol come
to when nobody interrupts them. `ContentRaces` holds four concrete schedules that
show which hypotheses are needed.

The hypotheses, each a predicate on runs:

- H0 `Honest`: the digest determines the length of what is admitted.
- H1 `ExclusiveFinishers`: one call at a time finishes a given entry of the deletion journal.
- H2 `QuarantineIsAtomic`: a failed digest check and the quarantine it triggers are one step.
- H3 `Untouched`: nobody outside the store edits blobs.
- H4 `RepairersKept`: a live repairer is not itself overtaken.
- H5 `NoOrphans`: no quarantine lands on a publication whose staged file is still in place.
- H6 `PinnedChecksRead`: no digest check throws while a pin names its digest.

Pin safety uses H0 to H3 and H6, recovery H4 and H5. The runs of `ContentRaces` fail pin safety without H1, without H2 and
without H6, and recovery without H5.

**The outline core.** `Outline` is the document: a map of nodes that forms an ordered forest. `LoroDocument` is the object
around it, with the record cache, the ids marked for re-reading and the touched ids. On top of it: references and the
display graph (`ReferenceCycle`), cascading removal (`Removal`), search results (`SearchResults`), batch moves
(`BatchMove`), document order (`DocumentOrder`), batch indent and outdent (`IndentOutdent`, one after the other in
`ThereAndBack`), transactions, drains and the projection cache (`CoreState`, with removal as a command in `CoreRemoval` and asynchronous mutations in `CorePauses`),
going back over a recorded patch (`RecoveryPatch`), the history of operations (`OperationHistory`) and the compacted log (`PersistenceLog`), the date index (`DateIndex`), and
the admission of queries (`QueryAdmission`).

**Configuration as nodes.** `ConfigSchema` is the closed schema with its codecs, `ConfigValues` the write and both readers.

**Media headers.** `MediaBoxes`: MP4 boxes, JPEG segments and WAV chunks, each with a printer and a law for it.

## Where the code does less than one would expect

- A digest check that cannot read its file, for whatever passing reason, quarantines the revision for ever, though its bytes
  are right and pins name it (`ContentRaces.PinsNeedReadableBlobs`; exactly when that costs a pin:
  `ContentSafety.ThrowingCheckCosts`, `ContentSafety.PinsHoldExactly`).
- A check that read its row while it was published may quarantine a later publication of the same digest. The staged
  file of that publication then has no row, reopening does not find it, and the digest stays quarantined
  (`ContentRaces.FourHypothesesDoNotSuffice`; exactly when: `ContentNaming.QuarantineNamesExactly`).
- After a cascading removal the cached record of the parent of the last deleted root keeps the removed child if the scrub
  rewrites that parent (`Removal.RemoveSubtree`). The core reads that record: its nodes, its projection and the patch of a
  transaction then keep the child too, and the comparison of caches does not notice (`CoreRemoval`). An abort, an undo or a
  full import puts it right.
- `applyRecoveryPatch` loses unlisted nodes under a node the transaction created, and may be refused by the order in which
  it makes its moves (`RecoveryPatch.ApplyRecoveryPatch` has the exact conditions, `RecoveryPatch.WrappedChildIsLost` and
  `RecoveryPatch.SwapStays` an example each).
- A command outside a transaction that throws half-way keeps what it wrote: `CoreState.Core.MutateAndFail`, and the
  refusals of `IndentOutdent.BatchIndentNodes` and `IndentOutdent.BatchOutdentNodes`.
- A command in a pause of an asynchronous mutation makes the core forget what the mutation has touched, and a mutation that
  throws takes back what commands wrote in its pauses (`CorePauses.WriteIsForgotten`, `CorePauses.WriteIsTakenBack`; exactly
  what is forgotten: `CorePauses.OnlyLeftBehind`).
- A configuration write goes to the row with the derived id, the projection reads the last row of a key, and the core's
  readers the first (`ConfigValues.ReadsTheRow`, `ConfigValues.TwoRowsDisagree`); with one row they still differ on a
  reference behind an empty one (`ConfigValues.ReadersAgree`).
- The same write of a configuration value twice may be refused the second time (`ConfigValues.SecondWriteReadsTheSame`).
- What batch indent did, batch outdent may refuse to undo (`ThereAndBack.TwinStaysAway`).
- An MP4 box of size 0, which by section 4.2 of ISO/IEC 14496-12 reaches to the end of the file, ends the search
  (`MediaBoxes.OpenHeaderIsMissed`; exactly when: `MediaBoxes.FoundUnlessInOpenBox`).

## Model

| member | source | states |
|---|---|---|
| `ContentRows.ExecuteSteps` | src/content/ContentStore.ts:254-358 | In any order and for any arguments, as long as an owner settles with the length it claimed, each of the seventeen transaction bodies keeps every pin on a published or quarantined row of the pin's length, keeps journals and rows matched, and moves rows and anchors only along the transition diagram |
| `ContentRows.CollectedRowsAreUnpinned` | src/content/ContentStore.ts:474-502 | The collector selects exactly the published rows without anchor and unexpired lease, and no pin that survives the purge names one of them |
| `ContentRows.ClaimOutcomes` | src/content/ContentStore.ts:542-575 | Every outcome of a claim in closed form: no row and a held stage give a publishing row, its journal row and one staging row less; a row of another length, a published, a publishing, a deleting and a quarantined row, and a stage that is gone, each give their own answer and change nothing; the journal's key is never violated |
| `ContentRows.AnchorTakesLease` | src/content/ContentStore.ts:254-303 | A live lease can be turned into an anchor unless id or coordinate is used or the row is quarantined, each refusal with its own error; exactly the lease is spent and the anchor holds what it held |
| `ContentRows.CloneHoldsTheSame` | src/content/ContentStore.ts:305-346 | An anchor can be cloned unless id or coordinate is used or its row is quarantined, each refusal with its own error; the clone holds the same revision |
| `ContentRows.DeletionsKeepLeases` | src/content/ContentStore.schema.ts:23-59 | The foreign key that cascades to leases never removes one, because rows that are deleted carry no lease |
| `ContentRows.LeasesAreHandedOver` | src/content/ContentStore.ts:254-303 | A lease row goes only by release, by expiry, or into an anchor for the same digest and length inserted by the same transaction |
| `ContentRows.LeaseSpares` | src/content/ContentStore.ts:474-502 | What a lease does to collection: one revision is spared until it expires, and nothing else changes at any time |
| `ContentRows.SettlingSpares` | src/content/ContentStore.ts:601-615 | What publishing does: from the expiry of its lease on one more revision is taken |
| `ContentRows.AnchorSpares` | src/content/ContentStore.ts:254-303 | What an anchor does: its revision is not taken at any time |
| `ContentRows.ReleaseLetsGo` | src/content/ContentStore.ts:348-358 | What a release does: its revision is taken whenever no other anchor and no unexpired lease holds it |
| `ContentRows.LeaseReleaseLetsGo` | src/content/ContentStore.ts:360-365 | A lease can always be released, and its revision is then taken exactly where that lease was the only pin |
| `ContentHistory.PinsNameKeptRows` | src/content/ContentStore.ts:474-502 | In every run, whatever the schedule, crashes and damage to blobs, a row that is being published or deleted carries no pin, so the restricting key never fires and no cascade drops a lease |
| `ContentHistory.QuarantineIsAbsorbing` | src/content/ContentStore.ts:643-651 | Once quarantined a row is there for the rest of the run, quarantined and of the same length |
| `ContentHistory.AnchorLivesOrRetires` | src/content/ContentStore.ts:254-358 | Between any two instants an active anchor either stayed, unchanged, or was retired |
| `ContentHistory.AnchorIdentity` | src/content/ContentStore.ts:841-847 | An anchor id denotes one namespace, key, digest and length for the whole run |
| `ContentHistory.ReleasedForEver` | src/content/ContentStore.ts:348-358 | An anchor id that was active and is released is never active again |
| `ContentHistory.UnexpiredLeaseStays` | src/content/ContentStore.ts:254-303 | There is no unpinned instant in the handover: an unexpired lease leaves the table only by its release or in the step that inserts an anchor for the same digest and length |
| `ContentSafety.SafeStep` | src/content/ContentStore.ts:577-615 | Each step of each call, throwing ones included, keeps the safety invariant unless it quarantines what a pin names: published rows have their bytes, journalled stages hold what they claim, owners about to publish have put or seen the right blob, and pending deletions are condemned rows |
| `ContentSafety.ScheduledRunsAreSafe` | src/content/ContentStore.ts:194-303 | Within H0 to H3 the invariant holds as long as no step quarantines what a pin names |
| `ContentSafety.DisciplinedRunsAreSafe` | src/content/ContentStore.ts:194-303 | Within H6 as well no step does, so the invariant holds in every state |
| `ContentSafety.PinSafety` | src/content/ContentStore.ts:194-303 | In every instant of every run within H0 to H3 and H6 a published row has its own bytes under its digest, and every revision with an anchor or a lease is published and verifies at once |
| `ContentSafety.ThrowingCheckCosts` | src/content/ContentStore.ts:461-472 | A digest check that throws, in a verification or in a publication, and the quarantine it leads to cost a pin if and only if one names the digest, however good the bytes are |
| `ContentSafety.PinsHoldExactly` | src/content/ContentStore.ts:643-657 | In every run within H0 to H3 all pins verify at every instant if and only if no step quarantines a digest that a pin names |
| `ContentNaming.QuarantineNamesExactly` | src/content/ContentStore.ts:643-657 | A quarantine leaves every staged file with a row if and only if it does not land on a publication whose staged file is still there |
| `ContentNaming.OrderlyRunsAreNamed` | src/content/ContentStore.ts:542-575 | In every run within H4 and H5 every staged file has a row, no stage has two, and every publishing row has its journal row |
| `ContentNaming.StagedFilesAreNamedOnce` | src/content/ContentStore.ts:542-575 | At every instant of such a run each staged file is named by its staging row or by exactly one publication, never both |
| `ContentOwnership.TokensNeverReturn` | src/content/ContentStore.ts:785-802 | A token that does not own a row never owns it again |
| `ContentOwnership.OnlyTheHolderSettles` | src/content/ContentStore.ts:776-813 | A publishing row leaves its token only by quarantine, by a step of the call that holds the token, or by an adoption that names the token it replaces |
| `ContentOwnership.SettledAtMostOnce` | src/content/ContentStore.ts:601-615 | Each claim ends at most once in a run |
| `ContentOwnership.OvertakenStep` | src/content/ContentStore.ts:601-629 | A step of an owner whose row carries another token changes no revision row and no lease |
| `ContentOwnership.OvertakenForEver` | src/content/ContentStore.ts:776-813 | An overtaken owner stays powerless for as long as it goes on with its claim |
| `ContentOwnership.AdmitReturnsLeased` | src/content/ContentStore.ts:226-252 | An admission returns only after a step of its own inserted its lease, against a row published at that instant with exactly the reported length |
| `ContentRaces.FourHypothesesDoNotSuffice` | src/content/ContentStore.ts:461-472 | A concrete run within H0 to H4 and H6, in which nothing throws, that ends with a staged file no row names and an undamaged digest quarantined for ever: H5 is needed |
| `ContentRaces.PinsNeedAtomicQuarantine` | src/content/ContentStore.ts:643-657 | A concrete run without H2 that quarantines an intact, leased revision |
| `ContentRaces.PinsNeedExclusiveFinishers` | src/content/ContentStore.ts:815-828 | A concrete run without H1 that ends with a published, leased revision whose bytes are gone |
| `ContentRaces.PinsNeedReadableBlobs` | src/content/ContentStore.ts:461-472 | A concrete run within H0 to H3 in which one check cannot read its file and quarantines an intact, leased revision: H6 is needed |
| `ContentStore.ContentStore.ClaimPublication` | src/content/ContentStore.ts:542-575 | The claim on the live tables, in rows: which answer for which row, and, when the claim is owned, the new publishing row, its journal row, and the staging row gone, all else as it was |
| `ContentStore.ContentStore.SettleOwned` | src/content/ContentStore.ts:601-615 | Goes through for the holder of the claim with an unused lease and for nobody else; then a collection spares the revision until the lease expires, takes it from then on, and takes all others as it would have; a refusal changes nothing |
| `ContentStore.ContentStore.InsertAdmissionLease` | src/content/ContentStore.ts:617-641 | Granted exactly for what is published with that length, under an unused id; a collection then spares the revision until the lease expires, and takes all others as it would have |
| `ContentStore.ContentStore.CreateAnchor` | src/content/ContentStore.ts:254-303 | Refused exactly for a used id, a taken coordinate, a lease that is gone or expired, or a quarantined revision, each with its own error; otherwise no collection takes the revision any more, and all others as it would have |
| `ContentStore.ContentStore.ReleaseAnchor` | src/content/ContentStore.ts:348-358 | Never fails; the id is retired, and collection takes the revision from then on exactly where no other pin holds it |
| `ContentStore.ContentStore.AdoptPublicationRepair` | src/content/ContentStore.ts:785-802 | Compare and swap on the token, of row and journal row together |
| `ContentStore.ContentStore.SettleRepairedPublication` | src/content/ContentStore.ts:804-813 | The row only under the token, the journal row in any case |
| `ContentStore.ContentStore.DeleteRevision` | src/content/ContentStore.schema.ts:8-59 | Refused for an anchored row, otherwise the row with its dependants in the other tables |
| `ContentStore.ContentStore.RepairPublication` | src/content/ContentStore.ts:752-783 | Good bytes as blob: the row is published and no blob changes. Else good bytes in its stage: they become the blob, and the row is published. Else the row is gone and no blob changes. The stage is gone in each case, and nothing else is concerned |
| `ContentStore.RepairEnds` | src/content/ContentStore.ts:752-783 | The three ends of one uninterrupted repair, each with its exact condition on blob and stage before it |
| `ContentStore.ContentStore.FinishDeletion` | src/content/ContentStore.ts:815-828 | Blob, row and journal entry go; a row in another state stays |
| `ContentStore.ContentStore.RepairAdmissionStages` | src/content/ContentStore.ts:678-741 | Exactly the stages of processes that are not alive lose row and file, and nothing else changes |
| `ContentStore.ContentStore.RepairPublications` | src/content/ContentStore.ts:660-676 | Every publishing row that had its bytes as blob or in its own stage is published with them, every other one is gone, and no other row or blob changes; no pin and no published revision is lost or changed |
| `ContentStore.ContentStore.FinishDeletions` | src/content/ContentStore.ts:660-676 | Every row being deleted that has a journal entry is gone with its blob, other rows and blobs without an entry are as they were, and the journal is empty |
| `ContentStore.ContentStore.RepairInterruptedState` | src/content/ContentStore.ts:660-676 | From every recoverable state with no other live owner, row by row: a publishing row with its bytes at hand ends published with them, any other is gone; deleting rows go with their blobs; published and quarantined rows stay; no staging rows or files are left, and every pin is kept |
| `ContentStore.ContentStore.MarkGarbage` | src/content/ContentStore.ts:474-502 | The row-by-row loop is the simultaneous marking of the selected rows |
| `ContentStore.ContentStore.CollectGarbage` | src/content/ContentStore.ts:474-510 | One uninterrupted collection removes exactly the published revisions without anchor and unexpired lease, row and blob, and counts them; expired leases and the stages of dead processes go, and nothing else |
| `ContentStore.CrashedStatesAreRecoverable` | src/content/ContentStore.ts:660-676 | Every state of every run within H4 and H5, so a crash at any step, is one that reopening can recover |
| `ContentStore.ReopeningKeepsPins` | src/content/ContentStore.ts:660-676 | After a crash at any step of a run within H0 to H3 and H6 reopening keeps every lease and anchor, and each still verifies |
| `ContentCalls.JudgesAlone` | src/content/ContentStore.ts:752-756 | Another's publication is taken over exactly when its owner does not run or has not moved for the given time |
| `ContentCalls.RepairAlone` | src/content/ContentStore.ts:752-783 | A repair of the protocol that runs without interruption comes to the same three ends, by blob and stage alone, as the repair of the object |
| `ContentCalls.SweepAlone` | src/content/ContentStore.ts:728-741 | An uninterrupted repair of a stage takes row and file exactly when its process does not run |
| `ContentCalls.VerifyAlone` | src/content/ContentStore.ts:461-472 | An uninterrupted verification ends well exactly when the row is published, of that length, and its blob is right; a published row with another blob ends quarantined with the blob gone; nothing else ever changes |
| `ContentCalls.CollectAlone` | src/content/ContentStore.ts:474-510 | An uninterrupted collection of the protocol: the unpinned published revisions lose row and blob, the expired leases go, and every other row and blob stays |
| `ContentCalls.GrantsLast` | src/content/ContentStore.ts:226-228 | The lease of an admission ends after its beginning, however short a time is asked for |
| `ContentCalls.WaitsAlone` | src/content/ContentStore.ts:233-249 | An admission that meets a publishing row of its length stays at its claim, however often it tries, and tables and files are untouched |
| `ContentCalls.RefusedAlone` | src/content/ContentStore.ts:542-575 | One that meets a row of another length, or one being deleted or quarantined, fails, and only its stage is gone |
| `ContentCalls.LeasesAlone` | src/content/ContentStore.ts:240-246 | One that meets a published row of its length ends with its lease and its stage gone when the blob is right, and otherwise fails with the row quarantined and the blob gone |
| `ContentCalls.PublishesAlone` | src/content/ContentStore.ts:577-615 | One that meets no row ends with the row published, its bytes under the digest, and its lease; wrong bytes found in that place are set aside with the row, and the call fails |
| `LoroDocument.DeletedIsPruned` | src/core/loroDocument.ts:579-589 | Deleting a subtree is removing exactly its nodes and their one mention in a list of children |
| `LoroDocument.SubtreeIsLeast` | src/core/loroDocument.ts:579-589 | The collected subtree lies in every set that holds the root and the children of its members |
| `LoroDocument.SubtreeIds` | src/core/loroDocument.ts:579-589 | Exactly the root and what hangs below it |
| `LoroDocument.IsDescendant` | src/core/core.ts:6207-6214 | Climbing finds the ancestor if and only if the node lies under it |
| `LoroDocument.LoroDocument.Reconcile` | src/core/loroDocument.ts:679-700 | A read of the whole document brings the cache up to what reads show, which is the tree if the cache was right |
| `LoroDocument.ShownIsTree` | src/core/loroDocument.ts:742-759 | Reads show the document if and only if the record cache agrees with it outside the ids marked for re-reading |
| `LoroDocument.LoroDocument.MaterializeNodes` | src/core/loroDocument.ts:742-759 | Each id is given as reads show it: marked ones from the tree, the others from the cache |
| `LoroDocument.LoroDocument.TouchWithSnapshot` | src/core/loroDocument.ts:870-879 | Reads show the given record, whatever was written |
| `LoroDocument.LoroDocument.Imported` | src/core/loroDocument.ts:270-311 | Affected ids show the imported document, all others what they showed before |
| `LoroDocument.LoroDocument.DeleteNode` | src/core/loroDocument.ts:579-589 | The subtree and nothing else goes, all that changed is touched, and only the parent's record is behind |
| `LoroDocument.LoroDocument.WriteNode` | src/core/loroDocument.ts:496-501 | Data change, place does not, and the cache stays right if and only if the record written carries the true place |
| `LoroDocument.LoroDocument.CreateNode` | src/core/loroDocument.ts:535-561 | A new leaf among the old children: at the index, before all of them, behind all of them, or last without an index; everything that changed is touched |
| `LoroDocument.LoroDocument.MoveNode` | src/core/loroDocument.ts:563-577 | Between nodes that exist refused if and only if something would come to lie under itself; otherwise the node stands at the index, clamped, among the other children, and the forest is kept |
| `ReferenceCycle.WouldCreateReferenceCycle` | src/core/core.ts:7082-7099 | Ends on every graph and answers yes if and only if the parent is displayed below the target |
| `ReferenceCycle.CheckIsExact` | src/core/core.ts:7082-7099 | A new display edge keeps the display graph free of cycles if and only if its source was not below its end |
| `ReferenceCycle.ShowsNext` | src/core/core.ts:7089-7095 | A node displays its children, and in place of a reference with a target that target, and nothing else |
| `ReferenceCycle.StaysAcyclic` | src/core/core.ts:4190-4196 | Checking the new edges of one node one by one against the old graph is enough |
| `ReferenceCycle.ResolveReferenceTarget` | src/core/core.ts:7126-7138 | Finds the end of a chain of references, or tells apart a loop, a missing node and a reference to nothing, on every graph |
| `ReferenceCycle.OneEnd` | src/core/core.ts:7126-7138 | A chain of references has one end |
| `ReferenceCycle.CanContain` | src/core/core.ts:7108-7124 | Agrees if and only if no other child stands for the node and none is a broken reference; otherwise the error names what was found |
| `ReferenceCycle.ShownAlready` | src/core/core.ts:7108-7124 | A child that is the node, or a reference to it, keeps the parent from showing it once more |
| `ReferenceCycle.TrashTakesAll` | src/core/core.ts:7108-7124 | Under the trash no instance is ever too many |
| `ReferenceCycle.Core.AddReference` | src/core/core.ts:3326-3354 | Succeeds exactly when the checks pass, keeps an acyclic display acyclic, reports a loop whenever the new reference would close one, and no parent shows a node twice by it or gets it under an internal node |
| `ReferenceCycle.Core.SetReferenceTarget` | src/core/core.ts:3356-3373 | The same for a reference that is pointed elsewhere; a locked one, or one of the system, is always refused, and a refusal changes nothing |
| `Removal.CollectCascade` | src/core/core.ts:5728-5761 | The fixed point ends and is the least set that holds the node, children of its members and references into it |
| `Removal.CascadeIsUnique` | src/core/core.ts:5728-5761 | There is one such set |
| `Removal.DeleteRoots` | src/core/core.ts:5763-5768 | Deleting only the roots of the set, in any order, removes exactly the set |
| `Removal.ScrubSurvivors` | src/core/core.ts:5128-5150 | Names of removed nodes leave the survivors; the cache stays right if and only if the one record that is behind is not written back |
| `Removal.RemoveSubtree` | src/core/core.ts:5115-5150 | The tree loses exactly the cascade with every mention of it; reads show it afterwards if and only if the parent of the last deleted root is not itself rewritten, and otherwise that parent, and nothing else, with the removed child still in its list |
| `Removal.NothingDangles` | src/core/core.ts:5115-5150 | No survivor names a removed node in its tags, target, query, template or text, and what is left is a forest |
| `Removal.ReferencesKeepTargets` | src/core/core.ts:5728-5761 | A surviving reference keeps its target |
| `Removal.OthersUntouched` | src/core/core.ts:5128-5150 | A survivor that named nothing removed is unchanged |
| `Removal.SurvivorKeeps` | src/core/core.ts:5128-5150 | What each survivor keeps and loses, field by field: a template that is gone is replaced by the given one if that stays, a search whose target is gone has none, tags, mentions and children that are gone are left out, and all else is as it was |
| `Removal.QuietParentKeepsCache` | src/core/loroDocument.ts:679-700 | A parent that names nothing removed apart from its child leaves the cache right |
| `Removal.MentionedChildStaysInCache` | src/core/loroDocument.ts:870-880 | A parent whose text mentions the removed child keeps that child in its cached list |
| `Removal.StaleCacheExample` | src/core/core.ts:5115-5150 | The smallest document where that happens |
| `CoreRemoval.Remove` | src/core/core.ts:2167-2175 | As a command: the core's nodes equal the document if and only if the parent of the last deleted root is not itself rewritten; otherwise that parent, and nothing else, keeps the removed child |
| `CoreRemoval.RemoveInTransaction` | src/core/core.ts:1085-1153 | As a transaction: the recorded patch is the exact difference under the same condition, and a refusal puts everything back |
| `CoreRemoval.RemoveMentioned` | src/core/core.ts:1019-1027 | At the smallest such document core and projection keep the removed child, and the comparison of caches finds nothing |
| `CoreRemoval.RecordMentioned` | src/core/core.ts:5654-5670 | There the recorded patch is wrong too |
| `SearchResults.ReorderDirectChildren` | src/core/core.ts:6062-6076 | The moves, decided on a mirror of the list, end in exactly the desired permutation, and write nothing if it is there already |
| `SearchResults.DropReference` | src/core/core.ts:5115-5150 | Removing a reference that nobody points at takes out just that child |
| `SearchResults.DropDuplicates` | src/core/core.ts:4197-4206 | Of several references to one target the first stays |
| `SearchResults.DropUnmatched` | src/core/core.ts:4208-4210 | Exactly the references to what is no hit go |
| `SearchResults.CreateMissing` | src/core/core.ts:4212-4222 | Each hit has one reference afterwards, and only missing ones are made |
| `SearchResults.UniqueNodeIds` | src/core/core.ts:6078-6087 | First occurrences in their order |
| `SearchResults.IsInTrash` | src/core/core.ts:6216-6218 | Whether the climb meets the trash |
| `SearchResults.AdmitHits` | src/core/core.ts:4192-4196 | Exactly the hits that exist, are not in the trash and would not show the search inside themselves, in their order |
| `SearchResults.HitsInOrder` | src/core/core.ts:4190-4196 | Hits stand in the order in which the evaluation names them first |
| `SearchResults.ArrangedListsExactly` | src/core/core.ts:4190-4236 | An arranged search lists exactly what belongs there, in that order, between its conditions and the rest |
| `SearchResults.MaterializeSearchResults` | src/core/core.ts:4174-4237 | Afterwards the targets listed are exactly the nodes the evaluation names that exist, are not in the trash and do not show the search, each once, in the order in which they are named first, behind the conditions and before the other children in their old order; surviving references keep their ids; the display stays acyclic; a second run with the same hits touches nothing |
| `SearchResults.RearrangedIsArranged` | src/core/core.ts:4224-4236 | The arrangement is reached whatever the children were before |
| `SearchResults.NothingToRearrange` | src/core/core.ts:4224-4236 | An arranged search is rearranged into itself |
| `SearchResults.AdmitsAlike` | src/core/core.ts:4190-4196 | Materializing changes the admission of no node |
| `SearchResults.ArrangingKeepsAcyclic` | src/core/core.ts:4190-4196 | Admitting each hit against the old document keeps the whole display free of cycles |
| `BatchMove.SwapUp` | src/core/core.ts:6186-6193 | The in-place swaps from the left compute the rotation of each selected run with the child before it |
| `BatchMove.SwapDown` | src/core/core.ts:6194-6201 | The swaps from the right compute the mirror image |
| `BatchMove.UpShifts` | src/core/core.ts:6173-6205 | A selected child outside a leading selected run moves up by exactly one place |
| `BatchMove.DownShifts` | src/core/core.ts:6173-6205 | A selected child outside a trailing selected run moves down by exactly one place |
| `BatchMove.UpKeepsOrder` | src/core/core.ts:6173-6205 | Neither selected nor unselected children change their order among themselves when moved up |
| `BatchMove.DownKeepsOrder` | src/core/core.ts:6173-6205 | Nor when moved down |
| `BatchMove.UpThenDown` | src/core/core.ts:2381-2397 | Up and then down is the identity when the first child is not selected |
| `BatchMove.UpThenDownExactly` | src/core/core.ts:2381-2397 | It is the identity if and only if no selected child leads, or all are selected |
| `BatchMove.SplitPlansAreReached` | src/core/core.ts:5546-5559 | The apply loop reaches a plan although it compares with a stale snapshot, if every place that looks right already splits the list |
| `BatchMove.OtherPlansAreMissed` | src/core/core.ts:5546-5559 | A permutation that does not split so and is missed |
| `BatchMove.UpSplits` | src/core/core.ts:6173-6205 | Plans for moving up split so |
| `BatchMove.DownSplits` | src/core/core.ts:6173-6205 | Plans for moving down split so |
| `BatchMove.ApplyPlannedOrders` | src/core/core.ts:5546-5559 | Every list of children takes the order planned for it |
| `BatchMove.TopLevel` | src/core/core.ts:6154-6171 | Exactly the selected nodes with no selected ancestor |
| `BatchMove.BatchMoveNodes` | src/core/core.ts:2381-2397 | Refused as a whole if and only if a top-level selected node may not move, which is so for every locked, system or internal one, and with a cause that one of them has; otherwise every list is shifted and nothing else changes |
| `BatchMove.BatchUpThenDown` | src/core/core.ts:2381-2397 | Up and then down gives back the whole document when no list starts with a selected node |
| `DocumentOrder.Visit` | src/core/core.ts:6136-6143 | A visit gives consecutive new places to exactly what lies under the node |
| `DocumentOrder.Places` | src/core/core.ts:6133-6148 | Every node has its own place, before all that lies under it; sibling subtrees follow one another, and so do the trees of the roots |
| `DocumentOrder.SortedKeeps` | src/core/core.ts:6149-6152 | Sorting by place keeps the ids and puts them in order |
| `DocumentOrder.OneOrder` | src/core/core.ts:6149-6152 | Placed nodes have one order only |
| `IndentOutdent.IndentTarget` | src/core/core.ts:6111-6131 | The climb along previous siblings ends at the nearest one that is not selected |
| `IndentOutdent.IndentsAll` | src/core/core.ts:2208-2223 | One move after the other has the closed form: moved nodes leave their lists and follow behind the children of their targets |
| `IndentOutdent.IndentKeepsForest` | src/core/core.ts:2208-2223 | A planned indent never puts a node under itself |
| `IndentOutdent.IndentedInRuns` | src/core/core.ts:2198-2226 | In whatever order the ids are given, each run of selected siblings goes, in its order, behind the children of the sibling before it |
| `IndentOutdent.CheckMove` | src/core/core.ts:2215-2217 | Agrees if and only if the node may move, the parent may change, and it shows no instance of the node yet; a locked, system or internal node is always refused as locked, and every other refusal names a cause that is there |
| `IndentOutdent.BatchIndentNodes` | src/core/core.ts:2198-2226 | All runs are indented, or the command ends at the first move that is refused and keeps the moves before it. In either case a locked, system or internal node keeps its parent and ends the batch when its turn comes, no node comes to lie under an internal one, and the error names a cause that is there |
| `IndentOutdent.BatchOutdentNodes` | src/core/core.ts:2228-2245 | From the last node to the first, up to the first that is refused; the same holds of pinned nodes, internal parents and causes |
| `IndentOutdent.OneThereAndBack` | src/core/core.ts:2228-2245 | Indenting under the sibling right before and outdenting restores the document |
| `IndentOutdent.IndentThenOutdent` | src/core/core.ts:2198-2245 | So does every prefix of the selection |
| `IndentOutdent.BatchThereAndBack` | src/core/core.ts:2198-2245 | For siblings in document order without the first child the effect of batch indent and then batch outdent is the identity |
| `ThereAndBack.IndentAndOutdent` | src/core/core.ts:2198-2245 | The two commands one after the other: batch indent goes through if and only if every node may join its target, batch outdent if and only if every node may come back, both read off the document before; then the document is restored exactly |
| `ThereAndBack.ProceedsExactly` | src/core/core.ts:2215-2217 | A planned indent goes ahead if and only if the node stands for something and clashes neither with the target's children nor with the nodes that went there before it |
| `ThereAndBack.GoesOutExactly` | src/core/core.ts:2238-2240 | An outdent goes ahead if and only if the node clashes with no child of the parent apart from the selected nodes before it |
| `ThereAndBack.TwinStaysAway` | src/core/core.ts:7108-7124 | A node that may be indented and not outdented again, because the parent shows it by a reference |
| `CoreState.SortedOnce` | src/core/core.ts:983-998 | A set of ids has one sorted list, so patching the order and rebuilding it agree |
| `CoreState.EmptyPatch` | src/core/core.ts:5654-5670 | The net patch is empty if and only if the documents are equal |
| `CoreState.PatchIsExact` | src/core/core.ts:5654-5670 | What is read off the values remembered on first touch is the exact net patch |
| `CoreState.SamePatch` | src/core/core.ts:5654-5670 | Two patches from one start are equal if and only if they lead to the same document |
| `CoreState.BehindExactly` | src/core/loroDocument.ts:870-879 | After any body reads differ from the document at exactly the ids whose last write was touched with another record |
| `CoreState.NothingBehind` | src/core/loroDocument.ts:870-879 | So they show the document if and only if there is no such id |
| `CoreState.Core.EnsureProjection` | src/core/core.ts:972-981 | The projection is ready and equals a rebuild from what reads show |
| `CoreState.ProjectionSays` | src/core/projection.ts:19-22 | The projection of a document has exactly its nodes, and says of each all that the node says of itself |
| `CoreState.Core.PatchProjection` | src/core/core.ts:983-998 | Folding in a superset of the changed nodes gives the rebuilt nodes and the rebuilt order |
| `CoreState.Core.VerifyCaches` | src/core/core.ts:1019-1027 | The comparison of projection and fresh projection always succeeds between commands, because both read the record cache |
| `CoreState.Core.FinalizeTouchedMutation` | src/core/core.ts:3890-3897 | If everything that changed was touched, the state is what reads show, and the document if and only if the record cache is right; revisions move if and only if the state changed, and then the history records the operation with the touched ids; what is added to the log leads from the stored history to the new one |
| `CoreState.Core.Drain` | src/core/core.ts:3955-3980 | The touched nodes, and no others, become what reads show, in state and projection; if everything that changed was touched, the state is what reads show; a change is reported if and only if there is one |
| `CoreState.Core.Mutate` | src/core/core.ts:3848-3897 | For every body of writes, reads and chunk commits: state and projection are what reads show, which is the document if and only if the record cache is right; revisions move if and only if they changed, and then the operation is recorded with the ids the body touched, in history and log alike; inside a transaction nothing of this moves |
| `CoreState.Core.DrainTransaction` | src/core/core.ts:3916-3935 | A drain inside a transaction changes neither what reads show nor what an abort restores |
| `CoreState.Core.CommitChunk` | src/core/core.ts:1155-1162 | A chunk commit keeps what the end and an abort need |
| `CoreState.Core.Finish` | src/core/core.ts:3899-3914 | The patch is the exact difference between what reads showed at the start and show now, and between the documents if and only if the record cache is right at the end; without one no revision, history or log entry moves, and with one the transaction's operation is recorded with the ids of the patch, in history and log alike |
| `CoreState.Core.Abort` | src/core/core.ts:1137-1152 | Document, revisions, history, log and delta are as at the start, and all caches are right, whatever they were |
| `CoreState.Core.Transact` | src/core/core.ts:1085-1153 | For every body, failing after any of its steps or not: everything as before, or the net patch, which with a right record cache at the start is the exact difference of the documents if and only if every record given last for an id was the node written; its ids are recorded under the given operation, and the log leads from the stored history to the new one |
| `CoreState.Core.Import` | src/core/core.ts:812-855 | Refused in a transaction; otherwise the affected nodes, or all of them, are read again, the revision moves if and only if the state changed, and the state is the imported document if and only if the record cache is right, as it is after a full comparison |
| `CoreState.Core.ReplayHistory` | src/core/core.ts:4068-4112 | Undo and redo go up to the first step that changes nothing; afterwards state, projection and record cache equal the document |
| `CoreState.Core.MutateAndFail` | src/core/core.ts:3848-3859 | A command that throws after writing outside a transaction is not undone: its writes stay, and the state is behind unless reads show no difference |
| `CoreState.Core.MutateAsyncAndFail` | src/core/core.ts:3866-3888 | An asynchronous command that throws is undone, and puts a wrong record cache right |
| `CorePauses.OnlyLeftBehind` | src/core/core.ts:3866-3888 | After any succession of stretches of an asynchronous mutation and commands in its pauses, state and reads differ only at the ids it touched before a command, unless they are touched and drained again later |
| `CorePauses.MutateAsync` | src/core/core.ts:3866-3888 | The mutation leaves just that, and the state is what reads show if and only if nothing differs at those ids; one that throws puts the document back to its own beginning, including what the commands wrote, while their revisions stay; history and log go on together through all of it |
| `CorePauses.WriteIsForgotten` | src/core/core.ts:3848-3859 | A command that does nothing, in a pause after a write: the write is in the document, and neither state nor revision tell |
| `CorePauses.WriteIsTakenBack` | src/core/core.ts:3878-3885 | A command writes in a pause and the mutation throws: the write is gone, its revision stays |
| `RecoveryPatch.PatchLeadsBack` | src/core/core.ts:3937-3953 | The net patch of a transaction agrees with its end and leads back to its start |
| `RecoveryPatch.DeleteCreated` | src/core/loroDocument.ts:598-608 | Deleting the roots removes exactly what lies at or under the created nodes |
| `RecoveryPatch.MoveChildren` | src/core/loroDocument.ts:636-649 | The moves succeed if and only if none of them puts a node under itself on the way |
| `RecoveryPatch.IndexInside` | src/core/loroDocument.ts:636-649 | With all wanted nodes there no move names a place beyond the end of a list |
| `RecoveryPatch.ApplyRecoveryPatch` | src/core/core.ts:3937-3953 | It goes through if and only if the document agrees with the patch, every node to be created finds its parent, and no move on the way puts a node under itself; unlisted nodes at or under a removed one are then missing and no others; the restored document comes out if and only if there are none of them and no root was moved down |
| `RecoveryPatch.OneRankingPasses` | src/core/loroDocument.ts:636-649 | No move is refused, in whatever order the ids stand, when old and new parents together form no cycle |
| `RecoveryPatch.WrappedChildIsLost` | src/core/loroDocument.ts:598-608 | A transaction that wraps a node in a new one: its own patch is applied without an error, and the wrapped node's child is gone |
| `RecoveryPatch.SwapIsRefused` | src/core/loroDocument.ts:633-649 | A transaction that swaps parent and child: in the order of the ids the first move would put a node under itself |
| `RecoveryPatch.SwapStays` | src/core/loroDocument.ts:633-649 | Its own patch is refused |
| `OperationHistory.RecordedIs` | src/core/operationJournal.ts:121-138 | At most 500 entries, each operation once: a known one keeps its place and gets the nodes as well, a new one comes last, and of 500 exactly the oldest gives way |
| `OperationHistory.LogFollows` | src/core/core.ts:4032-4048 | The logged change, applied to the stored history, gives the history after the recording: evicted entries go, the merged or new one is there, and nothing else differs |
| `OperationHistory.TellsOn` | src/core/core.ts:4050-4058 | What several commits add to the log leads from the first history to the last, under numbers that go on without a gap |
| `PersistenceLog.MergeIsReplay` | src/core/core.ts:5609-5626 | Merging the coalesced changes equals replaying them one by one |
| `PersistenceLog.CutAnywhere` | src/core/core.ts:752-796 | Cutting the log anywhere and merging the pieces equals merging the whole |
| `PersistenceLog.CutAtSequence` | src/core/core.ts:752-796 | The same for a cut at any captured sequence number |
| `PersistenceLog.Log.Record` | src/core/core.ts:4050-4058 | One more change under the next number |
| `PersistenceLog.Log.Capture` | src/core/core.ts:752-796 | Whatever was acknowledged before, the delta covers all changes ever recorded after the later of the two points |
| `PersistenceLog.Log.Acknowledge` | src/core/core.ts:798-801 | Only what lies up to the acknowledged point is dropped, and the point never goes back or beyond the log |
| `PersistenceLog.Merge` | src/core/core.ts:5609-5626 | Deltas are merged one after the other |
| `PersistenceLog.Replica.Store` | src/core/core.ts:752-796 | After any history of records, captures and acknowledgements one capture brings the stored state up to the replay of all changes |
| `DateIndex.EnsuredIsFound` | src/core/core.ts:5417-5423 | A date that was ensured is found under its id, and dates found before still are |
| `DateIndex.AllAreFound` | src/core/core.ts:3519-3575 | After a batch every date is found under the id given for it |
| `DateIndex.BatchIsIdempotent` | src/core/core.ts:3519-3575 | The same batch again gives the same ids and the same document |
| `DateIndex.IndexChildren` | src/core/core.ts:6882-6898 | Every entry is the first match in child order, and every child name has one |
| `DateIndex.BuildIndex` | src/core/core.ts:6872-6880 | The index is sound, and complete below every node it selects |
| `DateIndex.IndexFollows` | src/core/core.ts:5453-5472 | After a creation the index is the first match in child order again |
| `DateIndex.Core.FindOrCreate` | src/core/core.ts:5487-5504 | The child found first, or a new one in front of all children |
| `DateIndex.ChildEnsured` | src/core/core.ts:5487-5504 | A child of that name and tag is found afterwards; if there was none, a locked node with just them stands in front of the children, under the next id, and nothing else has changed |
| `DateIndex.Core.FindOrCreateIndexed` | src/core/core.ts:5453-5472 | The index gives the same child and the same document as the search, and follows |
| `DateIndex.Core.EnsureDateNode` | src/core/core.ts:3515-3517 | Invalid dates are refused before anything is written |
| `DateIndex.Core.EnsureDateNodes` | src/core/core.ts:3519-3575 | For every list of dates and every document the indexed batch gives the same ids and document as one search after the other |
| `DateIndex.Core.EnsureOneByOne` | src/core/core.ts:5417-5423 | The repeated searches reach the same specification |
| `QueryAdmission.AdmissionIssue` | src/core/core.ts:407-457 | On every heap, shared or cyclic, the explicit-stack walk ends and accepts if and only if the recursive definition does; a cycle is never accepted, and every issue reported is there at the end of a path from the root |
| `QueryAdmission.AdmittedHasNoCycle` | src/core/core.ts:407-457 | What the definition admits has no cycle |
| `QueryAdmission.OpenIsPath` | src/core/core.ts:420-441 | The groups the walk has open are a path from the root without repeats |
| `QueryAdmission.SizeIsFixed` | src/core/core.ts:407-457 | The unfolded size of a node does not depend on its depth |
| `QueryAdmission.SizeFalls` | src/core/core.ts:407-457 | Along a path unfolded sizes strictly fall |
| `QueryAdmission.WideLimit` | src/core/core.ts:407-457 | Shared groups count each time they stand: m times a group of n rules is admitted if and only if m and n are at most 1024 and 1 + m(n + 1) at most 10000 |
| `QueryAdmission.DeepLimit` | src/core/core.ts:407-457 | Groups within groups are admitted up to a depth of 1024 |
| `QueryAdmission.OperandLimit` | src/core/core.ts:407-457 | A rule is admitted with up to 256 operands |
| `ConfigSchema.CanonicalMeansTheSame` | src/core/configSchema.ts:250-258 | The canonical text means what the given text means, and is its own canonical text |
| `ConfigSchema.RowIdsDiffer` | src/core/types.ts:53-60 | Definition and key can be told from the id of their row: no two share one, whatever the ids of the definitions |
| `ConfigValues.AcceptedExactly` | src/core/core.ts:4509-4562 | A write is accepted if and only if the definition has the key and the input is valid for it, key by key: the kind of input, targets that exist, options of its list, and texts that a number, a truth value or a colour can be read from, or blank ones |
| `ConfigValues.ConfigRowsByKey` | src/core/configProjection.ts:49-56 | For each key the last row among the children, and no other key |
| `ConfigValues.Core.SetConfigValue` | src/core/core.ts:4477-4562 | Refused before anything is written exactly when the input is not prepared; otherwise the document is the rewritten one. Where every row stands under its own id and definition, it still does afterwards, the key reads as the input meant, and every other key of every definition as before |
| `ConfigValues.RewrittenShape` | src/core/core.ts:4564-4585 | The written row holds exactly the new values, the old ones are gone, a missing row stands first under its definition, and no other node changes |
| `ConfigValues.ReadsTheRow` | src/core/configProjection.ts:49-56 | The written row is the one that is read if and only if no other row of its key stands behind it |
| `ConfigValues.WriteThenRead` | src/core/core.ts:4477-4614 | A visible write reads back as the canonical value, or as nothing after a clear |
| `ConfigValues.WriteThenProject` | src/core/configProjection.ts:96-125 | The projected definition then shows the value given, or the default after a clear, for every key |
| `ConfigValues.OthersKept` | src/core/core.ts:4477-4614 | Every other key and every other definition reads as before, and a hidden write changes not even its own key |
| `ConfigValues.OthersProjectTheSame` | src/core/configProjection.ts:96-125 | Every other definition projects as before |
| `ConfigValues.SecondWriteReadsTheSame` | src/core/core.ts:4477-4614 | The same write again is accepted if and only if no target of the input was among the values the first write dropped; it then prepares the same nodes and changes what no key of no definition reads |
| `ConfigValues.ReadyAgain` | src/core/core.ts:4564-4614 | Whatever a write asks of the document holds again after it |
| `ConfigValues.OrderlyRows` | src/core/core.ts:4564-4577 | Where every row stands under its own id and definition, every write finds what it asks for and is visible |
| `ConfigValues.StaysOrderly` | src/core/core.ts:4477-4508 | A write keeps that order for all definitions and all keys at once |
| `ConfigValues.LastEditIsRead` | src/core/core.ts:4477-4614 | After any sequence of writes to any keys of any definitions, accepted or not, every key reads as the last accepted write of it meant, and as at the start where there was none |
| `ConfigValues.OldValueAsTarget` | src/core/core.ts:4564-4585 | An input that makes an old value of the row the target: accepted once, refused the second time |
| `ConfigValues.OneRowAgrees` | src/core/core.ts:6337-6438 | With one row of a key the core's readers and the projection look at the same values |
| `ConfigValues.ReadersAgree` | src/core/core.ts:6337-6438 | With one row they agree on every text and list; on a reference if and only if the first reference has a target or none has; on an option also if the target the core finds is not there |
| `ConfigValues.EmptyReferenceDisagrees` | src/core/core.ts:6337-6349 | One row whose first reference is empty: the projection reads no target, the core the next one |
| `ConfigValues.TwoRowsDisagree` | src/core/core.ts:6362-6376 | With two rows they do not: the core reads the first, the projection the last |
| `MediaBoxes.FindMvhd` | src/core/assetMetadata.ts:188-206 | The loop with its nested calls stays inside the bytes, ends on every input, and equals the recursion over boxes |
| `MediaBoxes.ReadsBox` | src/core/assetMetadata.ts:190-197 | A written box, narrow or wide, announces its own length, kind and payload (section 4.2 of ISO/IEC 14496-12) |
| `MediaBoxes.FindsFirstHeader` | src/core/assetMetadata.ts:186-207 | Searching any written forest of boxes finds exactly the first movie header in document order, at top level or inside movie boxes (section 8.2.2 of ISO/IEC 14496-12) |
| `MediaBoxes.StopsAtOpenBox` | src/core/assetMetadata.ts:186-207 | The search ends at a box of size 0, which reaches to the end of the file |
| `MediaBoxes.FindsBeforeOpenBox` | src/core/assetMetadata.ts:186-207 | A header before such a last box is found |
| `MediaBoxes.FoundUnlessInOpenBox` | src/core/assetMetadata.ts:186-207 | With an open last box the first header of the whole file is what the search gives if and only if it comes before that box, or there is none |
| `MediaBoxes.OpenHeaderIsMissed` | src/core/assetMetadata.ts:186-207 | Files whose only header is a box of size 0, or lies in a movie box of size 0: it is missed |
| `MediaBoxes.Mp4DurationMs` | src/core/assetMetadata.ts:186-218 | All reads are inside for every byte string, and for every written forest the first header decides the duration |
| `MediaBoxes.HeaderSaysDuration` | src/core/assetMetadata.ts:207-217 | A header of either version is read for the timescale and duration it states (section 8.2.2 of ISO/IEC 14496-12) |
| `MediaBoxes.NearestMillisecond` | src/core/assetMetadata.ts:213-217 | The result is the nearest whole number of milliseconds |
| `MediaBoxes.JpegDimensions` | src/core/assetMetadata.ts:133-147 | All reads are inside, and the loop equals the scan over segments |
| `MediaBoxes.ScansToFrame` | src/core/assetMetadata.ts:133-147 | Behind any list of segments the size in the frame header is the one returned |
| `MediaBoxes.JpegSaysSize` | src/core/assetMetadata.ts:133-147 | A file laid out as two bytes, segments and a frame header of any of the thirteen frame markers gives the height and width stated there |
| `MediaBoxes.WavDurationMs` | src/core/assetMetadata.ts:168-184 | All reads are inside; the result is the nearest whole number of milliseconds of data size over byte rate, and there is none exactly when the file is too short, one of the two is not said, or the rate is 0 |
| `MediaBoxes.HearsWhatIsSaid` | src/core/assetMetadata.ts:168-184 | Scanning any written list of chunks hears the byte rate and data size they say |
| `MediaBoxes.WavSaysDuration` | src/core/assetMetadata.ts:168-184 | A file laid out with a format chunk and a data chunk is heard for the byte rate behind eight bytes of format and the size of its data |
| `MediaBoxes.HighByteFirst` | src/core/assetMetadata.ts:186-217 | Boxes and pictures are read with the high byte first |
| `MediaBoxes.LowByteFirst` | src/core/assetMetadata.ts:168-184 | Sounds with the low byte first |

## Left out

- SQLite, `fsync`, file permissions, busy retries and pid probing: transactions are atomic, file operations are single steps, and liveness is the set of processes that run.
- SHA-256: a content is its digest and its length.
- Trimming and the syntax of namespaces, record keys and ids: they arrive as they are compared.
- The time of a step is the clock at that step; anchors and collections may use an earlier one, captured before their transaction.
- ContentStore.ContentStore.RepairInterruptedState: as a method of the object, like the other methods there, it runs without a throwing file operation; throwing steps are in `ContentProtocol`.
- Repairs that an admission or an opening runs inside itself are calls of their own, so more interleavings are covered than one process can have.
- `admitPath`, `admitBytes` and stable-path checks: I/O in front of `admit`.
- Listing anchors, reading verified bytes and `byteLengthOfDistinctRevisions`: reads without a hard property.
- Loro itself: its trees, text, versions, undo manager and import. The document is an ordered forest with a node map, imports and replays give an arbitrary document, and an import names what it may have changed or asks for a full comparison.
- Timestamps, authorship, icons, banners and focus hints: single writes. A write of a timestamp counts as a touch only.
- Rich text: a node has its plain text and the ids its text mentions.
- The search evaluator: its hits are an argument. That result references are leaves nobody points at, and that hits are not references, is required.
- The order of nodes without a parent: a node names its parent, and roots stand in no list; document order visits them by their ids.
- RecoveryPatch.ApplyRecoveryPatch: a move to a place beyond the end of a list goes to the end, where the code hands the place to Loro as it is; with all wanted nodes there are no such moves (`RecoveryPatch.IndexInside`), with some lost there may be. It works on values; the transaction around it rolls back when it throws, which is `CoreState.Core.Abort`.
- CoreState.Core.Transact: the body is a list of writes that touch what they write, reads and chunk commits; a body that refreshes the core's state from Loro in the middle, as the queries for backlinks and previews do, is not covered.
- CoreState.Core.ReplayHistory: the replayed documents are an argument, and so is whether the undo manager has more.
- CorePauses.MutateAsync: commands in a pause succeed; further asynchronous mutations and transactions in a pause are not modelled.
- LoroDocument.LoroDocument.Rewrite: the whole cache is built again at once, where the code marks it and builds it at the next read.
- CoreRemoval.Remove: asked of a document whose record cache is right; several removals with a wrong cache in between are not modelled.
- PersistenceLog.Log.Capture: states are equal as maps; the order of lists in the serialized form and the Loro update beside them are not modelled.
- DateIndex.Core.EnsureDateNodes: date tags have no templates, dates arrive with their names of year, week and day, and nothing runs in the pauses between dates, across which the index is kept (what a command in a pause does to the core is in `CorePauses`); the definitions of the three date tags are taken to be there, so refusals from ensuring them are left out and an error means an invalid date.
- ConfigValues.Core.SetConfigValue: the old values are leaves under no other node, so that clearing the row removes just them; new ids are ones that nothing in the document names and no row will have.
- ConfigSchema.CanonicalMeansTheSame: that a number read from a text can be written and is then read as the same number is an assumption about the host's arithmetic; white space and letter case are those of ASCII and the usual separators.
- MediaBoxes.Mp4DurationMs: durations are exact quotients rounded to the nearest millisecond; the host rounds a floating-point quotient.
- The remaining sniffers of asset metadata (PNG, GIF, WebP, PDF): fixed offsets.
- OperationHistory.RecordedIs: an entry is its summary and the set of its nodes; the code keeps a sample of a hundred of them with a count and a hash, and origin, command, tool, cause and time beside them.
- Inheritance of tags, field slots, templates, views, listing the operation journal, merges of nodes and duplicate commands: they promise no global law that the code keeps.
