# Verified model of the O2/Movistar WebDAV gateway's file store

The gateway serves a WebDAV tree out of a cloud provider that validates uploads late, lists folders with a lag and
never rejects a duplicate name. Its store hides this behind an in-memory overlay of recent uploads and tombstones, a
set of hidden remote ids, a metadata cache, and a spool directory of copies of recent uploads under a byte budget. Its
API client recovers an expired session from inside any number of concurrent tasks. This project models that logic in
Dafny and proves what it keeps.

`dafny verify dfyconfig.toml` checks everything.

## How it is laid out

- `Store` is the store itself: the class `O2CloudFileStore` with the fields the source updates, next to the world it
  works in (the provider's files, the spool directory, the clock) and ghost records (promises of accepted deletes,
  trashed ids, unlink calls, attempts to write a copy, peak disk usage). Every unlink, copy and stat may fail at any time, and every listing may
  be anything.
- `Spool`, `Eviction`, `Lookup`, `ListMerge`, `Contents` and `Steps` hold the specification of its steps on plain
  values: disk accounting, eviction passes, path resolution, laying the overlay over a listing, agreement of copies with
  the provider, and what each operation changes.
- `Runs` performs any sequence of operations and background tasks. Each step is shown to be the one `Records` describes as
  a relation between the moments before and after it, so whatever holds of every record holds of every run of the store:
  `Records` has the disk bound, true reads and remembered folders, `Deletions` what lists may still show of deleted
  objects, `OneObject` the uploads to one path.
- `Scenarios` runs the store on concrete inputs into each state that the exact conditions below exclude.
- `MetadataCache`, `CloudPath`, `Href` and `ByteRanges` are the cache, path normalisation, hrefs and range reading.
- `Session` is the session recovery protocol and `FolderCreation` the concurrent creation of one folder: step machines that
  run from one await to the next. `SessionProofs` has what every run of the former keeps, `SessionEffects` what its steps
  bring about.
- `Paging` and `MovistarPaging` are the two clients' paging loops. `Sums`, `Decimals`,
  `Integers`, `Strings`, `CloudTypes` and `Wrappers` are shared vocabulary.

## What the proofs found

- Copies and provider can come apart. After a recent upload moved from A to B, a listing that still shows its object at A
  makes the next upload to A replace the object B stands for (`Steps.StaleListingShares`; `Scenarios.MovedUploadIsOverwritten`
  is a run that does). An upload keeps all live uploads true exactly when each other live upload of the replaced object
  already has the size of the new bytes and, if the eviction pass leaves its copy, that copy holds them
  (`Contents.UploadFaithfulIff`); one that creates an object always does (`Contents.NewObjectSpares`). A trash call does
  exactly when no live upload stands for the object (`Contents.TrashingFaithfulIff`, and the run
  `Scenarios.MovedUploadIsTrashed`).
- A finished delete task finds its tombstone again by path, not by id. The mark it leaves is right exactly when the
  tombstone at the path is that of its own object, of one already trashed, or of none known
  (`Store.O2CloudFileStore.TrashRemote`). Deleting a path again while its delete task is running breaks it
  (`Scenarios.SecondDeleteIsMisled`); without that, every mark of a run is true (`Deletions.MarksStay`).
- Moving an object that is not a recent upload can succeed and leave nothing to be seen at the destination until a
  tombstone there ends. That happens exactly when the destination had a tombstone already, or the move overwrites a file
  there, because the delete that clears the way leaves a tombstone of its own (`Records.MovedShowsIff`; the runs
  `Scenarios.MovedObjectStaysHidden` and `Scenarios.OverwritingMoveHides`).
- An upload whose answer is lost leaves an object that nothing remembers: while the listing lags, the next upload makes a
  second one (`Scenarios.LostUploadLeavesTwo`). Over a run, the provider gains no others than those of lost answers and
  the first that was answered (`OneObject.GainsOneObject`).
- A download without a range asks for the remembered size: it delivers the whole object exactly when that is not too small
  (`Contents.StaleSizeCutsDownload`).
- A copy and a provider download answer the same exactly for the ranges that `Contents.CopyReadsLikeProvider` names: for
  others the copy gives no bytes, where the provider refuses the range or ignores it.
- The router announces a `Content-Range` also for a range it cannot satisfy (`ByteRanges.AnnouncedLength` says when the
  announced length is still the delivered one), and a suffix range is passed on to the provider as a header that is no
  range at all (`ByteRanges.RangeRoundTrip`).
- The Movistar client stops its second listing at the first page of which fewer than a whole page of items could be
  parsed. One such entry hides everything behind its page (`MovistarPaging.UnparsableEndsListing`); the folder
  comes out whole exactly when nothing new of it comes behind such a page (`MovistarPaging.LoadsWholeFolder`).
- A `create_folder` whose answer is lost leaves a folder behind that the next call does not know of unless a listing shows
  it (`FolderCreation.LostAnswerLeavesTwo`): the provider holds one folder for each success, each lost answer and an answer
  under way, so at most one exactly when these are at most one together (`FolderCreation.AtMostOneFolder`).

## Model
| member | source | states |
|---|---|---|
| Spool.UsageAtMostTotal | src/o2gateway/o2/store.py:351-353 | when every file is tracked once and accounted for at least its length, the directory takes no more than the accounted total |
| Spool.UsageBounded | src/o2gateway/o2/store.py:314-409 | main bound: the invariant keeps disk usage within a positive budget or what start-up found, also with leftovers of unknown size |
| Spool.UnknownLeftoverBlocksCopies | src/o2gateway/o2/store.py:323-330 | a leftover accounted as the whole budget excludes every copy of more than no bytes |
| Spool.DeletedKeeps | src/o2gateway/o2/store.py:373-378 | an eviction or drop whose unlink worked keeps the invariant |
| Spool.StrandedKeeps | src/o2gateway/o2/store.py:270-277 | a dropped entry whose copy could not be deleted keeps it, with the copy stranded at its size |
| Spool.SweptKeeps | src/o2gateway/o2/store.py:344-346 | deleting a stranded copy later keeps it |
| Spool.ReserveKeeps | src/o2gateway/o2/store.py:355-381 | a copy that fits may be accounted in full before a byte is written |
| Spool.RestateKeeps | src/o2gateway/o2/store.py:401-405 | a failed copy may be accounted for what it really left on disk |
| Spool.AdoptKeeps | src/o2gateway/o2/store.py:414-427 | a finished copy changes hands to the entry of its upload |
| Spool.MoveKeeps | src/o2gateway/o2/store.py:516-528 | a moved entry takes its copy along; no two entries come to share one |
| Eviction.EvictingTakes | src/o2gateway/o2/store.py:373-380 | an eviction pass takes the copy of exactly the tried entries whose unlink worked |
| Eviction.UntriedUntouched | src/o2gateway/o2/store.py:369-377 | the next candidate of a pass is still as it was |
| Eviction.OldestGoesFirst | src/o2gateway/o2/store.py:369-380 | a copy that was taken expires no later than any that stayed without being tried |
| Store.O2CloudFileStore.constructor | src/o2gateway/o2/store.py:44-57 | the start-up purge establishes the invariant with whatever an earlier process left |
| Store.O2CloudFileStore.DiskBounded | src/o2gateway/o2/store.py:351-409 | in every state between operations the recorded peak covers what the directory takes, and with a positive budget it is within the budget or what start-up found |
| Store.O2CloudFileStore.EveryFileTrackedOnce | src/o2gateway/o2/store.py:270-277 | each spool file is the copy of exactly one entry or else stranded, and is accounted for its size |
| Store.O2CloudFileStore.CopyFile | src/o2gateway/o2/store.py:394-406 | the lengths written are reported; the directory at each of them is covered by the peak, which only grows and stays bounded, however the copy fails; the attempt is on record |
| Store.O2CloudFileStore.DropEntry | src/o2gateway/o2/store.py:270-277 | the slot and its remembered item go; its copy is deleted, or stranded at its size |
| Store.O2CloudFileStore.LocalCopiesSize | src/o2gateway/o2/store.py:351-353 | the sum of the accounted sizes |
| Store.O2CloudFileStore.EvictionOrder | src/o2gateway/o2/store.py:369-372 | exactly the entries that hold a copy, each once, oldest expiry first |
| Store.O2CloudFileStore.ReserveLocalCopy | src/o2gateway/o2/store.py:355-381 | evicts in expiry order and only while the rest does not make room; admits exactly when the recomputed total fits; refuses only an oversized copy or after trying every candidate |
| Store.O2CloudFileStore.MakeLocalCopy | src/o2gateway/o2/store.py:383-407 | a copy is made whole or not at all, and given up only when the upload is too large, does not fit even after trying every candidate, or cannot be written; every older file is left as it is or gone |
| Store.O2CloudFileStore.AbandonCopy | src/o2gateway/o2/store.py:401-406 | after a failed copy the partial file is gone, or stranded at its size on disk or its full size |
| Store.O2CloudFileStore.SweepExpiredEntries | src/o2gateway/o2/store.py:336-346 | exactly the expired entries go, and no file grows or appears |
| Store.O2CloudFileStore.RetryStranded | src/o2gateway/o2/store.py:344-346 | every stranded copy is unlinked once more, and forgotten exactly when that worked |
| Store.O2CloudFileStore.PurgeOrphanedLocalCopies | src/o2gateway/o2/store.py:314-334 | every leftover is deleted, or stranded at its size or at the whole budget |
| Store.O2CloudFileStore.StoreUploaded | src/o2gateway/o2/store.py:409-433 | the path gets a live entry for the upload with an exact copy, or none when it is given up as above; of the others only expired entries go and copies are evicted |
| Store.O2CloudFileStore.EntryAt | src/o2gateway/o2/store.py:252-260 | the live entry of a path; an expired one is dropped |
| Store.O2CloudFileStore.OverlayChildren | src/o2gateway/o2/store.py:262-268 | exactly the live entries below the folder; the expired ones are dropped |
| Store.O2CloudFileStore.IsHiddenRemoteId | src/o2gateway/o2/store.py:279-286 | whether an id is hidden now; a hiding that has run out is forgotten |
| Store.O2CloudFileStore.ItemForPath | src/o2gateway/o2/store.py:486-511 | equals the resolution function, forgets only what has expired, and remembers all visible uncovered objects of the listings it asked for and nothing else |
| Store.O2CloudFileStore.LearnChildren | src/o2gateway/o2/store.py:500-511 | the loop finds the last visible child of the name, and remembers exactly the visible children that no slot covers |
| Lookup.FindsTheOnlyMatch | src/o2gateway/o2/store.py:500-511 | a listing with one visible object of the name in any case makes the lookup find it |
| Lookup.FoundIsListed | src/o2gateway/o2/store.py:500-511 | a lookup finds neither hidden objects nor paths the overlay covers |
| Lookup.LowerForgetsCase | src/o2gateway/o2/store.py:500-511 | two names are the same to a lookup exactly when they differ at most in the case of letters |
| Lookup.FindsTheAnswer | src/o2gateway/o2/store.py:500-511 | in a listing a lookup finds the last object of the name in any case that no delete in force hides and no live slot covers, and nothing exactly when there is none |
| Lookup.ResolvesTo | src/o2gateway/o2/store.py:486-511 | a slot in force decides, then memory of a path without a slot, then the listing of the folder above |
| Lookup.ResolveAged | src/o2gateway/o2/store.py:252-260 | dropping expired entries never changes how a path resolves |
| Lookup.ListedIsTarget | src/o2gateway/o2/store.py:453-464 | when memory has lost a path, an upload goes to the one object listed there |
| Lookup.KnownStaysTied | src/o2gateway/o2/store.py:486-511 | a lookup never loses the object a known path is tied to |
| Lookup.KnownIsTarget | src/o2gateway/o2/store.py:453-464 | an upload to a path memory knows targets the object it is tied to |
| Lookup.UploadGoesTo | src/o2gateway/o2/store.py:453-464 | by slots and lookups: an upload replaces a file it may overwrite, and never a folder or what a tombstone covers |
| Lookup.UploadNeedsFolder | src/o2gateway/o2/store.py:172-176 | an upload into what is missing or no folder is refused |
| ListMerge.PassesKeep | src/o2gateway/o2/store.py:71-90 | an overlay entry is retired only by a listed object that settles it (id and size: RetiredWhenConfirmed), and no tombstoned path is emitted, whatever is listed |
| ListMerge.RetiredWhenConfirmed | src/o2gateway/o2/store.py:79-86 | whatever is listed, only an upload is retired, and only by a visible listed object of its name, id and size; with distinct names it then is |
| ListMerge.HiddenNeverEmitted | src/o2gateway/o2/store.py:71-90 | no hidden object is emitted, whatever is listed |
| ListMerge.PassIsFilter | src/o2gateway/o2/store.py:71-90 | with distinct names the stateful pass equals a filter by the overlay as it was |
| ListMerge.UploadShown | src/o2gateway/o2/store.py:79-96 | every live upload below the folder is in the result, from the overlay or from the object that settles it |
| ListMerge.EachPathOnce | src/o2gateway/o2/store.py:71-96 | no path is emitted twice |
| ListMerge.NothingElseShown | src/o2gateway/o2/store.py:71-96 | everything emitted is a live upload or a visible object the overlay says nothing about |
| ListMerge.ListIsOverlayOverRemote | src/o2gateway/o2/store.py:61-98 | main result: for every stale or partial listing whose visible names are distinct, the result is exactly the live uploads, once each, and the visible objects elsewhere |
| ListMerge.ListInIdsAndSizes | src/o2gateway/o2/store.py:71-97 | the same in ids and sizes: what is shown at a live upload's path has its id and size, or is the upload; everything due is shown and nothing else |
| Store.O2CloudFileStore.MergeRemote | src/o2gateway/o2/store.py:71-90 | the first loop is that pass, on output, overlay, memory and cache |
| Store.O2CloudFileStore.EmitWaiting | src/o2gateway/o2/store.py:91-96 | the second loop emits, remembers and caches exactly the uploads still waiting |
| Store.O2CloudFileStore.SweepSettledTombstones | src/o2gateway/o2/store.py:288-298 | drops and unhides exactly the tombstones below the folder that are marked and whose object is not listed |
| Store.O2CloudFileStore.List | src/o2gateway/o2/store.py:61-98 | the whole effect of a list on result, memory, cache and hidden ids; no object whose delete is in force is emitted |
| Lookup.OnlyFoldersAreListed | src/o2gateway/o2/store.py:61-66 | a list of a file or of nothing is not found, a folder is listed under its own id |
| Steps.ChildrenInForce | src/o2gateway/o2/store.py:262-268 | a list judges exactly the slots of the folder that are in force |
| Steps.ListLeavesSlots | src/o2gateway/o2/store.py:71-97 | the slots after a list: all of other folders; of its own no expired one, the tombstones it is not done with, and each upload unless its own object is listed with its size |
| Steps.ListLeavesHidden | src/o2gateway/o2/store.py:288-298 | what was hidden stays hidden, but for the objects of marked tombstones of the folder that are not listed |
| Steps.SettledUntouched | src/o2gateway/o2/store.py:79-97 | the sweep at the end sees the tombstones that were there at the start |
| Steps.PromisedNotEmitted | src/o2gateway/o2/store.py:73-74 | a delete in force keeps its object out of the listing |
| Steps.ListedIsKnown | src/o2gateway/o2/store.py:61-114 | what a list emitted is what a metadata read answers until the cache forgets it, whatever the provider says by then |
| Records.ListedIsAnswered | src/o2gateway/o2/store.py:61-114 | in every run: a metadata read of an emitted path within the cache time answers what the list emitted, with other reads, lookups, provider renames and time in between |
| Steps.LiftedAreTrashed | src/o2gateway/o2/store.py:288-298 | while every mark is true, a list unhides only trashed objects that it did not see |
| Store.O2CloudFileStore.GetMetadata | src/o2gateway/o2/store.py:100-114 | overlay first, then a cache row whose time is not over, then lookup; the answer is a function of memory, cache and provider, and so is the cache afterwards |
| Steps.MetadataReadsTo | src/o2gateway/o2/store.py:100-114 | a slot in force decides; without one a row until its time; once that is over the answer describes what the lookup finds |
| Steps.LookedUpIsCached | src/o2gateway/o2/store.py:108-114 | what was looked up is found in the cache for its time and not longer, a miss is found at no time; other paths are untouched |
| CloudTypes.MetadataDescribes | src/o2gateway/o2/api.py:843-856 | id, name, kind, size, time and fingerprint of the object, at the path asked for; folders have no size |
| CloudTypes.ETagsTellApart | src/o2gateway/o2/api.py:845-845 | objects without a fingerprint have equal etags exactly when id, size and time agree, whatever characters the ids have |
| Store.O2CloudFileStore.RemoteTargetId | src/o2gateway/o2/store.py:453-464 | the object an upload replaces, as a function of memory and provider |
| Store.O2CloudFileStore.Upload | src/o2gateway/o2/store.py:172-182 | answer, provider, slots, memory and cache as the lookups and the provider decide them, also when the provider refuses the bytes or its answer is lost; a tied path keeps its object, a tombstone never gives a target; live uploads stay true exactly under a condition on the state before |
| Steps.UploadReaches | src/o2gateway/o2/store.py:172-182 | the bytes are at the provider under the target or a new object, also when the answer is lost, and nowhere when they are refused; every other object is as it was |
| Steps.UploadIsNamed | src/o2gateway/o2/store.py:172-182 | an accepted upload is known by the object its bytes went to, if the provider discloses that |
| Contents.ThinnedStaysFaithful | src/o2gateway/o2/store.py:336-381 | dropping entries, evicting copies and adding files keeps every copy equal to the provider's bytes |
| Contents.UploadFaithfulIff | src/o2gateway/o2/store.py:172-182 | exact condition on overlay and disk before an upload under which every live upload equals the provider's bytes after it |
| Contents.NewObjectSpares | src/o2gateway/o2/store.py:172-182 | an upload that creates an object always meets it |
| Steps.StaleListingShares | src/o2gateway/o2/store.py:453-464 | how an upload comes to replace the object of a moved upload |
| Scenarios.MovedUploadIsOverwritten | src/o2gateway/o2/store.py:453-464 | a run from start-up in which it does, and a live upload is untrue afterwards |
| Steps.SeenTarget | src/o2gateway/o2/store.py:172-182 | what memory ties a path to before an upload survives the parent lookup and decides the target |
| Contents.CopyReadsLikeProvider | src/o2gateway/o2/store.py:116-132 | a copy answers like a provider download exactly for satisfiable ranges; otherwise it gives no bytes |
| Contents.StaleSizeCutsDownload | src/o2gateway/o2/api.py:365-368 | a download without a range delivers the whole object exactly when the remembered size is not too small, and a prefix otherwise |
| Contents.DownloadsTo | src/o2gateway/o2/api.py:365-368 | a range delivers its bytes as far as they exist, one that ends before it starts the whole file, one beyond the file an error |
| Contents.FetchesTo | src/o2gateway/o2/api.py:365-368 | without a range the first bytes up to the remembered size; of an object that is gone nothing |
| Store.O2CloudFileStore.OpenRead | src/o2gateway/o2/store.py:116-137 | a live upload reads as the provider's bytes for its id whether its copy is there or not: from the copy, as nothing when it is empty, by download otherwise; a tombstone reads as missing; any other path reads what the lookup finds |
| Store.O2CloudFileStore.StoreTombstone | src/o2gateway/o2/store.py:435-449 | the slot gets an unmarked tombstone without a copy, and a known object is hidden until its end |
| Store.O2CloudFileStore.Delete | src/o2gateway/o2/store.py:184-214 | answer, slot, memory and cache as a function of memory and provider; an accepted delete of a known object hides it for the whole TTL, and one of a file or folder takes the path out of memory and the path and its parent out of the cache; no other slot or promise changes |
| Records.DeletedFolderIsGone | src/o2gateway/o2/store.py:206-210 | in every record: after an accepted folder delete no cache row answers for the folder or its parent at any time, its path resolves only through the provider, and a metadata read answers what the provider lists then |
| Steps.DeletesTo | src/o2gateway/o2/store.py:184-214 | a tombstone leaves nothing to do, an upload or file the trashing of exactly its object, a folder is trashed at once |
| Steps.TombstoneStands | src/o2gateway/o2/store.py:435-449 | a tombstone is unmarked, holds no copy, and stands for its object until its end |
| Contents.TrashingFaithfulIff | src/o2gateway/o2/store.py:544-563 | exact condition under which trashing an object keeps live uploads true |
| Scenarios.MovedUploadIsTrashed | src/o2gateway/o2/store.py:184-214 | a run that trashes the object a moved upload stands for |
| Contents.RenamingKeepsFaithful | src/o2gateway/o2/store.py:533-541 | renaming an object at the provider keeps the copies true |
| Contents.RenameReaches | src/o2gateway/o2/store.py:533-541 | a renamed object keeps its bytes, and no other changes |
| Steps.MarkKeeps | src/o2gateway/o2/store.py:559-562 | the mark of a finished delete changes no slot, copy or object |
| Store.O2CloudFileStore.TrashRemote | src/o2gateway/o2/store.py:544-563 | exact conditions on the state before, under which the mark is true and live uploads stay true; also when the answer to the trash call is lost |
| Scenarios.SecondDeleteIsMisled | src/o2gateway/o2/store.py:559-562 | a run in which a task marks the tombstone of an object nobody trashed |
| Steps.MovedCopies | src/o2gateway/o2/store.py:516-528 | a moved entry keeps its copy, object and truth |
| Steps.MovedIsSame | src/o2gateway/o2/store.py:516-528 | a moved upload has a new name and folder, and the object, copy, size and end it had |
| Store.O2CloudFileStore.MoveEntry | src/o2gateway/o2/store.py:516-542 | the entry, renamed, goes over to the destination with copy, object and expiry; both paths and their folders leave the cache and the destination enters it |
| Store.O2CloudFileStore.ClearDestination | src/o2gateway/o2/store.py:227-231 | without overwrite, anything visible at the destination refuses the move; otherwise it is deleted like by any delete; a cleared destination has a live tombstone exactly when it had one or the delete left one |
| Store.O2CloudFileStore.Move | src/o2gateway/o2/store.py:216-248 | the whole answer of a move, in the order of its lookups: missing folder, occupied destination without overwrite, recent upload, any other object; what it leaves in overlay, memory, cache and provider, and whether the destination shows what was moved; clearing the destination hides and promises what a delete would |
| Steps.MoveIsCached | src/o2gateway/o2/store.py:235-248 | after a move the old path and both folders are found at no time in the cache, the new path for its time and not longer |
| Steps.MoveReaches | src/o2gateway/o2/store.py:235-248 | the object has its new name and folder at the provider and its bytes; a recent upload is not renamed there yet |
| Steps.OverwritingLeavesTombstone | src/o2gateway/o2/store.py:227-231 | a move leaves a new tombstone at its destination exactly when it overwrites a file seen there |
| Records.MovedShowsIff | src/o2gateway/o2/store.py:216-248 | exact condition for a moved object to be seen at its destination: it is a recent upload, or no tombstone was there and no file is overwritten |
| Store.O2CloudFileStore.MoveRemote | src/o2gateway/o2/store.py:235-248 | a move of any other object to a destination that has been cleared, and whether it shows there |
| Steps.MovesTo | src/o2gateway/o2/store.py:235-248 | answer and memory have the same object under its new name and folder; a missing object is not found, and a failure of the provider is reported |
| Scenarios.MovedObjectStaysHidden | src/o2gateway/o2/store.py:235-248 | a run in which a moved object is invisible behind an earlier tombstone |
| Scenarios.OverwritingMoveHides | src/o2gateway/o2/store.py:227-248 | a run from start-up in which one overwriting move makes both files invisible at the destination |
| Records.PeakGrows | src/o2gateway/o2/store.py:383-409 | over a run the peak only grows |
| Records.DiskBoundedThroughout | src/o2gateway/o2/store.py:314-409 | the disk at every moment of a run is covered by the last peak, which a positive budget bounds |
| Records.FaithfulWhileHarmless | src/o2gateway/o2/store.py:116-182 | in every run live uploads are true to the provider while each upload and trash call meets its exact condition, and the first that does not makes one untrue |
| Records.ReadsAreTrue | src/o2gateway/o2/store.py:116-137 | up to then, a read of a live upload gives the provider's bytes for its id |
| Records.KnownFolderStays | src/o2gateway/o2/store.py:486-511 | lists, metadata reads and downloads never lose a folder that memory holds at a path without an overlay slot, while the provider lists no file there |
| Deletions.PromisesStand | src/o2gateway/o2/store.py:435-449 | in every run each accepted delete stays in force for its whole time, unless a list lifted it, also for an object deleted before |
| Deletions.LookedUpFirst | src/o2gateway/o2/store.py:61-68 | the folder lookup of a list does not change what the list does |
| Deletions.HiddenUntilLifted | src/o2gateway/o2/store.py:61-98 | no list of a run emits a deleted object before its time, unless a list in between lifted that |
| Deletions.TasksStillMatch | src/o2gateway/o2/store.py:184-214 | while a path has no pending delete task, a new tombstone leaves all tasks with their own tombstones |
| Deletions.MarkMatches | src/o2gateway/o2/store.py:559-562 | the mark a task leaves is then that of its own object |
| Deletions.MarksStay | src/o2gateway/o2/store.py:544-563 | in every run without overlapping deletes of a path, all marks are true and everything trashed was trashed by one of its steps |
| Deletions.LiftedForGood | src/o2gateway/o2/store.py:288-298 | in such a run a list unhides only an object that an earlier step trashed, that it does not see, and whose marked tombstone is in the folder it lists |
| Runs.Step | src/o2gateway/o2/store.py:43-563 | each operation and task does what its record says of the state before and after, for every kind of step; it keeps live uploads true exactly when it is harmless |
| Runs.Run | src/o2gateway/o2/store.py:43-563 | main result on runs: performing any operations and tasks, with any provider answers and disk failures, is a recorded run, one step per operation, from start-up to the final state |
| Deletions.DeletedStaysHidden | src/o2gateway/o2/store.py:279-298 | main result on deleted objects: in every run, between an accepted delete and a list that emits the object before its time, the object had been trashed and then found missing by a list of the folder that holds its tombstone; provided deletes of a path do not overlap |
| OneObject.ListKeepsTied | src/o2gateway/o2/store.py:71-97 | a list keeps a path tied to its object, also when it retires the overlay entry |
| OneObject.TiedIsTarget | src/o2gateway/o2/store.py:453-464 | an upload to a tied path carries that id, from memory or from a listing that shows the object |
| OneObject.LookupHolds | src/o2gateway/o2/store.py:486-511 | a lookup leaves a path in memory until its upload expires |
| OneObject.ListHolds | src/o2gateway/o2/store.py:71-97 | so does a list, also one that retires the upload |
| OneObject.StepHolds | src/o2gateway/o2/store.py:61-182 | every step of a run on one path keeps memory of the path for the time of its last landed upload |
| OneObject.UploadHolds | src/o2gateway/o2/store.py:409-433 | an upload that landed is held for the whole upload time |
| OneObject.UploadStep | src/o2gateway/o2/store.py:172-182 | an upload of a run to a tied path goes to its object and keeps it tied, also when refused or lost |
| OneObject.OtherStep | src/o2gateway/o2/store.py:61-137 | lists, metadata reads and downloads of any path keep the path tied and the objects as they are |
| OneObject.OneObject | src/o2gateway/o2/store.py:172-182 | main result on one path: in every run, from an answered upload on, every upload to the path replaces its object, the provider gains no other, and the object holds what was uploaded last; listings may lag until the entry of the last upload ends |
| OneObject.ProviderGains | src/o2gateway/o2/store.py:172-182 | what the provider holds after such a run is what it held and exactly the objects its uploads ended in |
| OneObject.GainsOneObject | src/o2gateway/o2/store.py:172-182 | over a whole run every gained object is that of the first answered upload, or of a lost answer before it |
| Scenarios.LostUploadLeavesTwo | src/o2gateway/o2/store.py:172-182 | a run in which a lost answer leaves a second object |
| MetadataCache.DecodeEncode | src/o2gateway/persistence/metadata_cache.py:58-91 | decoding undoes encoding for every metadata value, and no encoding looks like a negative row |
| MetadataCache.PutAllFinds | src/o2gateway/persistence/metadata_cache.py:18-35 | items of different paths cached in turn are all found unchanged until they expire |
| MetadataCache.RowsRunOut | src/o2gateway/persistence/metadata_cache.py:18-28 | a row answers no later than its time, and only for its own path |
| MetadataCache.RowsStay | src/o2gateway/persistence/metadata_cache.py:18-28 | until then the answer does not depend on the time |
| MetadataCache.InvalidatedIsGone | src/o2gateway/persistence/metadata_cache.py:44-48 | invalidated paths and their parents are found at no time, all others as before |
| MetadataCache.MetadataCache.Get | src/o2gateway/persistence/metadata_cache.py:18-28 | a row whose time is not over and that is not negative, decoded; nothing otherwise |
| MetadataCache.MetadataCache.Put | src/o2gateway/persistence/metadata_cache.py:30-35 | the item is found unchanged up to its time and at no later one, and no other row changes |
| MetadataCache.MetadataCache.PutNegative | src/o2gateway/persistence/metadata_cache.py:37-42 | the path is found at no time, and no other row changes |
| MetadataCache.MetadataCache.Invalidate | src/o2gateway/persistence/metadata_cache.py:44-48 | exactly the paths and their parents go |
| ByteRanges.ReadChunks | src/o2gateway/o2/store.py:613-620 | the chunk loop delivers the bytes of the range that exist, in chunks of at most the chunk size, however short the reads |
| ByteRanges.ReadLocalFile | src/o2gateway/o2/store.py:604-620 | the chunks together are the slice the range stands for |
| ByteRanges.ReadSimulated | src/o2gateway/cloud/simulated.py:41-54 | likewise for the simulated reader and its own range normalisation |
| ByteRanges.ReadersAgree | src/o2gateway/cloud/simulated.py:163-177 | the two readers agree on every non-negative start, and on a suffix exactly when it covers the file |
| ByteRanges.DeliversWhatIsAnnounced | src/o2gateway/webdav/router.py:181-192 | for a satisfiable range both readers deliver exactly the bytes of Content-Range (sections 14.1.2 and 14.4 of RFC 9110) |
| ByteRanges.SuffixDeliversWhatIsAnnounced | src/o2gateway/webdav/router.py:311-317 | so does the simulated reader for a suffix of at least one byte |
| ByteRanges.AnnouncedLength | src/o2gateway/webdav/router.py:311-317 | exactly when the announced length is the delivered one |
| ByteRanges.RangeRoundTrip | src/o2gateway/o2/api.py:523-525 | a range printed for the provider parses back exactly when its start is not negative |
| ByteRanges.ReadsLocally | src/o2gateway/o2/store.py:604-620 | the local reader delivers the bytes from the start, or the first byte for a negative one, as far as they exist |
| ByteRanges.ReadsSuffix | src/o2gateway/cloud/simulated.py:163-177 | of a suffix the simulated reader delivers so many of the last bytes |
| ByteRanges.Announces | src/o2gateway/webdav/router.py:311-317 | announced are the bytes asked for up to the end of the file, of a suffix the last bytes |
| ByteRanges.ReadsRange | src/o2gateway/webdav/parsing.py:47-57 | every header of the byte range form is read: first and last byte, or a suffix; blanks around it do not matter |
| ByteRanges.ReadsOnlyRanges | src/o2gateway/webdav/parsing.py:47-57 | no other header is read as a range |
| CloudPath.NormalizeCloudPath | src/o2gateway/cloud/base.py:67-82 | the loop computes the normal form |
| CloudPath.SegmentsAreProper | src/o2gateway/cloud/base.py:67-82 | a normal form has no empty, dot or slash-bearing segment, whatever the input |
| CloudPath.NormalizeIdempotent | src/o2gateway/cloud/base.py:67-82 | normalising twice is normalising once |
| CloudPath.CanonicalBijection | src/o2gateway/cloud/base.py:67-82 | canonical strings correspond one to one to lists of proper segments |
| CloudPath.SegmentsOfRendered | src/o2gateway/cloud/base.py:67-82 | rendered segments are read back, also with a trailing slash |
| CloudPath.SegmentsOneMore | src/o2gateway/cloud/base.py:67-82 | one part more behind a slash adds a segment; an empty part and a dot add nothing, two dots lead to the parent, and at the root to the root |
| CloudPath.SegmentsFromRoot | src/o2gateway/cloud/base.py:67-82 | a slash in front changes nothing, and no path is the root |
| CloudPath.BackslashIsSlash | src/o2gateway/cloud/base.py:67-82 | a backslash counts as a slash |
| CloudPath.ParentAndName | src/o2gateway/cloud/base.py:85-95 | on strings, parent and name are the list without its last segment and that segment |
| CloudPath.JoinRebuilds | src/o2gateway/o2/store.py:598-601 | joining parent and name rebuilds every canonical path but the root, and parents get shorter |
| Href.DecodeEncode | src/o2gateway/webdav/parsing.py:32-35 | decoding UTF-8 undoes encoding it for every text |
| Href.Utf8 | src/o2gateway/webdav/parsing.py:32-35 | the octets of a character are those of section 3 of RFC 3629 |
| Href.DecodesOnlyEncoded | src/o2gateway/webdav/parsing.py:12-17 | only the encoding of a text decodes, so overlong forms and surrogates do not |
| Href.QuotedSegment | src/o2gateway/webdav/parsing.py:32-35 | a quoted segment has only unreserved characters and percent triplets (sections 2.1 and 2.3 of RFC 3986) and unquotes to the segment |
| Href.HexDigits | src/o2gateway/webdav/parsing.py:32-35 | the digits of a percent triplet are read in either case |
| Href.PercentStandsFor | src/o2gateway/webdav/parsing.py:12-17 | a percent sign with two hexadecimal digits stands for their octet, any other for itself |
| Href.PlainText | src/o2gateway/webdav/parsing.py:12-17 | text without percent signs unquotes to itself |
| Href.QuotedAs | src/o2gateway/webdav/parsing.py:32-35 | exactly the unreserved characters stand for themselves, any other octet for a percent sign and two upper-case digits (sections 2.1 and 2.3 of RFC 3986) |
| Href.HrefShape | src/o2gateway/webdav/parsing.py:20-29 | an href is the base without trailing slashes, the quoted segments, and a slash for folders |
| Href.RequestUndoesHref | src/o2gateway/webdav/parsing.py:12-29 | main result: for every base and canonical path, a request for the href is understood as the path |
| Href.RequestsAreCanonical | src/o2gateway/webdav/parsing.py:12-17 | every request that is understood gives a canonical path, and one outside the base is read as it is |
| Href.HrefsAreDistinct | src/o2gateway/webdav/parsing.py:20-29 | different canonical paths have different hrefs |
| Session.DelaysGrow | src/o2gateway/o2/api.py:717-723 | delays never decrease and lie between base and cap |
| SessionEffects.DelaysDouble | src/o2gateway/o2/api.py:717-723 | the first delay is the configured one, at least a minute; the next six double up to the cap; then they stay |
| SessionProofs.LockKept | src/o2gateway/o2/api.py:635-664 | every step keeps: the lock is held exactly by the task whose attempt is in progress |
| SessionProofs.GenerationKept | src/o2gateway/o2/api.py:635-715 | every step keeps: a recovered generation is neither stored nor being recovered again |
| SessionProofs.EventKept | src/o2gateway/o2/api.py:95-131 | every step keeps: the event is set exactly while a marking is in force and undelivered (which steps mark: RejectionIsMarked) |
| SessionProofs.BackoffKept | src/o2gateway/o2/api.py:649-723 | every step keeps the spacing of retries |
| SessionProofs.SingleFlight | src/o2gateway/o2/api.py:635-664 | in every run at most one recovery attempt is in progress |
| SessionProofs.RecoveredOnce | src/o2gateway/o2/api.py:635-647 | in every run a generation is recovered at most once, and no attempt for it starts afterwards |
| SessionProofs.RejectedJoins | src/o2gateway/o2/api.py:635-647 | a task rejected with a generation recovered meanwhile sends again without an attempt |
| SessionProofs.DeliveredOnce | src/o2gateway/o2/api.py:123-131 | in every run markings are delivered in order and once, and the waiter never sleeps through one |
| SessionProofs.WaiterDelivers | src/o2gateway/o2/api.py:111-131 | a waiter that runs delivers exactly a marking still in force for the stored session |
| SessionProofs.NoFlaggedSend | src/o2gateway/o2/api.py:801-819 | no step sends an ordinary request with a session flagged expired |
| SessionEffects.RejectionIsMarked | src/o2gateway/o2/api.py:95-101 | a second rejection, a rejection with no session or no means to recover it, a failed recovery and a failed probe each mark the stored session, set the event and wake the waiter, unless it was marked already |
| SessionEffects.RejectionReachesWaiter | src/o2gateway/o2/api.py:95-131 | main result on markings: in every run each such rejection is delivered to the waiter: it has been, or is when the waiter next runs |
| SessionEffects.InForceIsDelivered | src/o2gateway/o2/api.py:123-131 | in every run a marking in force when the waiter runs is delivered by then |
| SessionEffects.MarkedIsNotSent | src/o2gateway/o2/api.py:801-819 | a request never goes out with a marked session |
| SessionEffects.Requests | src/o2gateway/o2/api.py:801-819 | a request is sent exactly with a stored session that is not marked; with a marked one it fails fast or, once the backoff is over, waits to recover first |
| SessionEffects.Recovers | src/o2gateway/o2/api.py:649-653 | a recovery asked for while the backoff runs fails at once |
| SessionEffects.Responds | src/o2gateway/o2/api.py:548-552 | a first rejection waits to recover, a second one ends as expired |
| SessionEffects.RetryEnters | src/o2gateway/o2/api.py:649-664 | inside the lock: a retry gives up, uses a session that is no longer the marked one, or attempts exactly the marked one |
| SessionEffects.RejectionEnters | src/o2gateway/o2/api.py:635-647 | inside the lock: a rejected request sends again when the session was replaced, and otherwise attempts it with the bundle the rejection brought |
| SessionEffects.AttemptEnds | src/o2gateway/o2/api.py:666-715 | an answered attempt stores the new session, ends the marking and sends it; a failed one tries the browser once and then waits out the next delay |
| SessionEffects.ClientSteps | src/o2gateway/o2/api.py:103-121 | a login, logout, probe or status read changes the session or ends a stale marking, and nothing else |
| SessionProofs.NoRetryInsideWindow | src/o2gateway/o2/api.py:649-664 | a retry starts only inside the lock and after the backoff, also for tasks that already waited for the lock |
| SessionProofs.RetriesSpaced | src/o2gateway/o2/api.py:649-723 | in every run retries start a delay apart, and the n-th failed one comes no earlier than the sum of the delays before it |
| FolderCreation.StepKeeps | src/o2gateway/o2/store.py:144-170 | every step between two awaits keeps the protocol's invariant |
| FolderCreation.ParentDecides | src/o2gateway/o2/store.py:144-160 | 502 when the parent lookup fails, 404 without a parent, 405 when the path is known; only otherwise the provider is asked |
| FolderCreation.AnswerDecides | src/o2gateway/o2/store.py:160-170 | 201 and the new folder remembered when the answer arrives; 502 and nothing remembered when it is refused or lost, although in the latter case the folder exists |
| FolderCreation.AtMostOneFolder | src/o2gateway/o2/store.py:144-170 | in every interleaving the provider holds exactly one folder per success, lost answer and answer under way; at most one exactly when these are at most one together |
| FolderCreation.LostAnswerLeavesTwo | src/o2gateway/o2/store.py:144-170 | an interleaving that ends with two folders |
| FolderCreation.ExactlyOneSucceeds | src/o2gateway/o2/store.py:144-170 | at most one call succeeds, and exactly one if a folder was created and no answer was lost |
| FolderCreation.LatecomersTurnedAway | src/o2gateway/webdav/router.py:246-255 | a call that enters the lock after a success gets 405 and asks the provider for nothing (section 9.3.1 of RFC 4918) |
| Paging.LoadFiles | src/o2gateway/o2/api.py:460-507 | the loop computes the specification function |
| Paging.PageIsTaken | src/o2gateway/o2/api.py:474-504 | from a page exactly the files with a name and a new key are taken |
| Paging.TakenAsServed | src/o2gateway/o2/api.py:474-504 | nothing comes out that a page did not serve, with its id, name and size |
| Paging.PageGoesOn | src/o2gateway/o2/api.py:505-506 | a page that adds something is followed by the next unless it is short and announced as the last |
| Paging.NoDuplicates | src/o2gateway/o2/api.py:460-507 | no file comes out twice, whatever pages are served |
| Paging.RepeatedPageEnds | src/o2gateway/o2/api.py:469-472 | a listing in which a page comes again gives what it would give if it ended before the repetition |
| Paging.SignatureHead | src/o2gateway/o2/api.py:469-469 | a page's first id can be read off its signature, so pages with different first files are not taken for repeats |
| Paging.SignatureOfIds | src/o2gateway/o2/api.py:469-469 | pages are told apart by the ids of their files alone |
| Paging.LoadsEverything | src/o2gateway/o2/api.py:460-507 | main result: a fixed list of up to 100000 well-formed files with distinct ids and a correct more flag comes out whole, in order |
| MovistarPaging.LoadFiles | src/o2gateway/o2/movistar.py:26-70 | the two loops compute the specification functions; every item that comes out names the folder, or no folder |
| MovistarPaging.PicturesSound | src/o2gateway/o2/movistar.py:48-70 | each id comes out once and only for items of the folder, whatever is listed |
| MovistarPaging.TakeExact | src/o2gateway/o2/movistar.py:38-44 | from a listing exactly the items of the folder with new ids are taken |
| MovistarPaging.OnlyOfTheFolder | src/o2gateway/o2/movistar.py:38-65 | in raw ids: an item that comes out with a parent id has the folder's, as a number when both are digits and as text otherwise |
| MovistarPaging.TakenById | src/o2gateway/o2/movistar.py:38-44 | and nothing else of a page with a new id is left out |
| MovistarPaging.IdsCompared | src/o2gateway/o2/api.py:1073-1077 | leading zeros do not matter, any other difference does |
| MovistarPaging.MediaGoesOn | src/o2gateway/o2/movistar.py:26-46 | the first listing goes on exactly after a full page that announces more |
| MovistarPaging.PicturesGoOn | src/o2gateway/o2/movistar.py:48-70 | the second one exactly after a page of which a whole page of items could be parsed |
| MovistarPaging.ItemsFromPayload | src/o2gateway/o2/movistar.py:99-127 | the loop keeps exactly the entries that can be parsed, in order |
| MovistarPaging.ParsedAsServed | src/o2gateway/o2/movistar.py:99-127 | entries that can be parsed come out as served, in order, and no others |
| MovistarPaging.LoadsFolder | src/o2gateway/o2/movistar.py:26-70 | for listings that keep still, exactly the folder's files that can be parsed come out and its pictures up to the first page that does not parse in full, each id once |
| MovistarPaging.LoadsWholeFolder | src/o2gateway/o2/movistar.py:26-70 | main result: every item of the folder that can be parsed comes out exactly when nothing new of it comes behind such a page |
| MovistarPaging.FullPagesReadOn | src/o2gateway/o2/movistar.py:60-69 | when every page before the last parses in full, everything is read |
| MovistarPaging.UnparsableEndsListing | src/o2gateway/o2/movistar.py:60-69 | a listing in which one entry without a name hides a picture behind its page |

## Left out

- Runs: `create_folder` is not one of its operations, because its provider call interleaves with others; `FolderCreation` models it at the awaits instead.
- OneObject.OneObject: the provider must be honest about the path: it lists no other object there, discloses the ids of answered uploads, and lists the object by the time the entry of its last upload ends. Deletes, moves and uploads of other paths are not among the steps of such a run.
- FolderCreation.AtMostOneFolder: no upload, delete or move touches the path, so memory of it keeps (`Records.KnownFolderStays`); the dropping of a tombstone at the start of `create_folder` is not part of it.
- Deletions.DeletedStaysHidden: it is about what lists show from their listings; the entry of an upload that replaced an object is shown as that upload.
- A rename or move call whose answer is lost appears as a failed `Move` followed by a `Rename` step of its own. Downloads do not fail on the way; the fallback that looks for the new object when an upload response names no id is left to the provider's answer, which then discloses it or not.
- Store operations run as one step each, with one clock reading and a provider that answers the same within the step; background tasks are steps of their own. Interleavings of two store operations at their awaits are covered for `create_folder` only.
- `_retry_while_not_validated` and the retry loop of `_delete_remote` appear as their outcomes. `_find_and_delete_remote` appears as a task that finds any object or none.
- An overlay entry is a value: the field updates of the source replace the entry in its slot, so aliasing of entries is not captured.
- Store paths are lists of segments (`CloudPath` proves the correspondence with canonical strings). Names from the provider that contain a slash or consist of dots are taken as one segment.
- Names are compared up to ASCII case only in `Lookup`; Python lower-cases all of Unicode.
- Folder ids are numbers in `MovistarPaging` when they are all digits; Python's `int` also takes signs, blanks and underscores.
- Href.RequestUndoesHref: octets that are no UTF-8 text give no path here, where Python puts replacement characters; the web server's own decoding of the request target is not part of this model.
- Whole folders: deleting or moving a folder does not touch what memory holds of its descendants, neither here nor in the source; no property is claimed for them. A trashed folder leaves the provider's files as they are.
- Times are whole numbers of seconds; dates in the cache's JSON are values that print and parse as themselves; content types guessed from names are absent from metadata.
- HTTP, SQLite, asyncio, file-system internals, JSON shape guessing, URL building, quotas and logging. Items arrive parsed; calls succeed or fail as their callers see it.
- Login by browser or OAuth: an attempt either stores a new session or fails. Creation times of sessions are taken as distinct, cookies are left out, and answers in flight do not change the stored session.
- The session client and folder creation are step machines over values instead of classes with methods, because their tasks interleave inside the methods.
- The simulated store's tree operations, WebDAV locks, the admin pages, CSRF and secrets: only easy members or library code.
