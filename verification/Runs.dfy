/**
 Whole runs of the store: any sequence of operations and background tasks, with any answers of the provider
 and any failures of the disk in between. What such runs keep is proved in modules Records, Deletions and
 OneObject of their records.
 */
module Runs {
  import opened Wrappers
  import opened CloudTypes
  import opened Spool
  import opened Lookup
  import opened ListMerge
  import opened Contents
  import opened Steps
  import opened ByteRanges
  import opened Records
  import opened Store
  import MetadataCache

  ghost function ConfigOf(s: O2CloudFileStore): Config {
    Config(s.setup.budget, s.setup.leftovers, s.uploadTtl, s.tombstoneTtl, s.cache.ttl, s.cache.negativeTtl)
  }

  /** The store, the world around it and the background tasks still running. */
  ghost function MomentOf(s: O2CloudFileStore, tasks: seq<Task>): Moment
    reads s, s.cache
  {
    Moment(s.Memory(), s.cache.rows, s.disk, s.peak, s.provider, s.deletedUntil, s.settled, s.trashed, tasks)
  }

  lemma ValidMoment(s: O2CloudFileStore, tasks: seq<Task>)
    requires s.Valid()
    ensures MomentOk(ConfigOf(s), MomentOf(s, tasks))
  {
    hide Inv, SlotsOk, PromisesKept, Usage;
  }

  // ------------------------------------------------------------------ one step

  method StepUpload(s: O2CloudFileStore, op: Op, tasks: seq<Task>) returns (ghost n: Note)
    requires op.Upload? && s.Valid() && Possible(MomentOf(s, tasks), op.answer)
    modifies s, s.cache
    ensures s.Valid()
    ensures UploadRecorded(ConfigOf(s), old(MomentOf(s, tasks)), op, n, MomentOf(s, tasks))
    ensures StepKept(old(MomentOf(s, tasks)), op, n, MomentOf(s, tasks))
  {
    hide O2CloudFileStore.SpoolOk, O2CloudFileStore.LedgerOk, SlotsOk, Faithful, UploadTarget, LookupEffects, LearnsElsewhere, UploadLanded, UploadedItem,
         Tied, Known, Spares, KeptCopies, CachePut, MetadataCache.Without, LiveTombstone, Pruned, ProviderAfter;
    var r;
    ghost var seen, folderId, target;
    r, seen, folderId, target := s.Upload(op.path, op.source, op.overwrite, op.remote, op.answer);
    n := Uploading(seen, r);
  }

  method StepList(s: O2CloudFileStore, op: Op, tasks: seq<Task>) returns (ghost n: Note)
    requires op.List? && s.Valid()
    modifies s, s.cache
    ensures s.Valid()
    ensures ListRecorded(ConfigOf(s), old(MomentOf(s, tasks)), op, n, MomentOf(s, tasks))
    ensures StepKept(old(MomentOf(s, tasks)), op, n, MomentOf(s, tasks))
  {
    hide O2CloudFileStore.SpoolOk, O2CloudFileStore.LedgerOk, SlotsOk, Faithful, FolderItems, LookupEffects, CachedAll, SettledIds, Ids,
         NoneEmitted, Enumerates, Keyed, HiddenAfterList, OverlayAfterList, MemoryAfterList, ListOutput, ChildrenOf;
    var r;
    ghost var seen, b, items, order;
    r, seen, b, items, order := s.List(op.path, op.remote);
    n := Listing(seen, order, r);
    if r.Ok? {
      ListStarts(seen, s.Memory(), op.path, items, b, order, r.value);
    }
  }

  lemma ListStarts(seen: View, v': View, folder: Path, items: seq<Item>, b: Before, order: seq<Path>, output: seq<Metadata>)
    requires ListedFrom(seen, v', folder, items, b, order, output)
    ensures b == BeforeList(seen, folder)
  {
  }

  method StepGetMetadata(s: O2CloudFileStore, op: Op, tasks: seq<Task>) returns (ghost n: Note)
    requires op.GetMetadata? && s.Valid()
    modifies s, s.cache
    ensures s.Valid()
    ensures LookRecorded(ConfigOf(s), old(MomentOf(s, tasks)), op, n, MomentOf(s, tasks))
    ensures StepKept(old(MomentOf(s, tasks)), op, n, MomentOf(s, tasks))
  {
    hide O2CloudFileStore.SpoolOk, O2CloudFileStore.LedgerOk, SlotsOk, Faithful, LookupEffects, MetadataAt, RowsAfterLook;
    var r := s.GetMetadata(op.path, op.remote);
    n := Looking(r);
  }

  method StepOpenRead(s: O2CloudFileStore, op: Op, tasks: seq<Task>) returns (ghost n: Note)
    requires op.OpenRead? && s.Valid()
    modifies s
    ensures s.Valid()
    ensures ReadRecorded(old(MomentOf(s, tasks)), op, n, MomentOf(s, tasks))
    ensures StepKept(old(MomentOf(s, tasks)), op, n, MomentOf(s, tasks))
  {
    hide O2CloudFileStore.SpoolOk, O2CloudFileStore.LedgerOk, SlotsOk, Faithful, LookupEffects, Satisfiable, LocalSlice, Fetch, Resolve;
    var r := s.OpenRead(op.path, op.range, op.remote);
    n := Reading(r);
  }

  method StepDelete(s: O2CloudFileStore, op: Op, tasks: seq<Task>) returns (tasks': seq<Task>, ghost n: Note)
    requires op.Delete? && s.Valid()
    modifies s, s.cache
    ensures s.Valid()
    ensures DeleteRecorded(ConfigOf(s), old(MomentOf(s, tasks)), op, n, MomentOf(s, tasks'))
    ensures StepKept(old(MomentOf(s, tasks)), op, n, MomentOf(s, tasks'))
  {
    hide O2CloudFileStore.SpoolOk, O2CloudFileStore.LedgerOk, O2CloudFileStore.HiddenUntil, SlotsOk, Faithful, TombstonesAfter,
         PromisesAfter, HidesAfter, LearnsFrom, OnlySlotChanged, DeleteAnswer, Tombstone, LiveTombstone;
    var r := s.Delete(op.path, op.remote, op.trash);
    tasks' := TasksAfter(tasks, op.path, Left(r));
    n := Deleting(r);
  }

  method StepMove(s: O2CloudFileStore, op: Op, tasks: seq<Task>) returns (tasks': seq<Task>, ghost n: Note)
    requires op.Move? && s.Valid()
    modifies s, s.cache
    ensures s.Valid()
    ensures MoveRecorded(ConfigOf(s), old(MomentOf(s, tasks)), op, n, MomentOf(s, tasks'))
    ensures StepKept(old(MomentOf(s, tasks)), op, n, MomentOf(s, tasks'))
  {
    hide O2CloudFileStore.SpoolOk, O2CloudFileStore.LedgerOk, SlotsOk, Faithful, TombstonesAfter, PromisesAfter, HidesAfter, MetadataAt,
         LookupEffects, MoveAnswered, ProviderMoved, Resolve;
    var r, scheduled;
    ghost var folderId, seen, found, clear;
    r, scheduled, folderId, seen, found, clear := s.Move(op.src, op.dst, op.overwrite, op.remote, op.trash, op.renamed);
    tasks' := TasksAfter(tasks, op.dst, scheduled);
    n := Moving(seen, found, clear, folderId, scheduled, r);
  }

  method StepTask(s: O2CloudFileStore, op: Op, tasks: seq<Task>) returns (tasks': seq<Task>)
    requires op.RunTask? && s.Valid()
    modifies s
    ensures s.Valid()
    ensures MomentOf(s, tasks') == AfterTask(old(MomentOf(s, tasks)), op)
    ensures StepKept(old(MomentOf(s, tasks)), op, Silent, MomentOf(s, tasks'))
  {
    hide O2CloudFileStore.SpoolOk, O2CloudFileStore.LedgerOk, SlotsOk, Faithful, MarksTrue, StandsFor, MarkDeleted, MisleadsMark;
    tasks' := tasks;
    if op.index >= |tasks| {
      return;
    }
    tasks' := tasks[..op.index] + tasks[op.index + 1..];
    var item := Found(tasks[op.index].job, op.found);
    if item.Some? {
      s.TrashRemote(tasks[op.index].path, item.value, op.outcome);
    }
  }

  method StepRename(s: O2CloudFileStore, op: Op, ghost tasks: seq<Task>)
    requires op.Rename? && s.Valid()
    modifies s
    ensures s.Valid()
    ensures StepRecorded(ConfigOf(s), old(MomentOf(s, tasks)), op, Silent, MomentOf(s, tasks))
    ensures StepKept(old(MomentOf(s, tasks)), op, Silent, MomentOf(s, tasks))
  {
    hide O2CloudFileStore.SpoolOk, O2CloudFileStore.LedgerOk, SlotsOk, Faithful, Renamed;
    s.RenameRemote(op.item, op.name, op.folderId);
  }

  method StepTick(s: O2CloudFileStore, op: Op, ghost tasks: seq<Task>)
    requires op.Tick? && s.Valid()
    modifies s
    ensures s.Valid()
    ensures StepRecorded(ConfigOf(s), old(MomentOf(s, tasks)), op, Silent, MomentOf(s, tasks))
    ensures StepKept(old(MomentOf(s, tasks)), op, Silent, MomentOf(s, tasks))
  {
    hide O2CloudFileStore.SpoolOk, O2CloudFileStore.LedgerOk, SlotsOk, Faithful;
    s.Tick(op.elapsed);
  }

  /** One step of a run, recorded. */
  method Step(s: O2CloudFileStore, op: Op, tasks: seq<Task>) returns (tasks': seq<Task>, ghost n: Note)
    requires s.Valid()
    modifies s, s.cache
    ensures s.Valid()
    ensures StepRecorded(ConfigOf(s), old(MomentOf(s, tasks)), op, n, MomentOf(s, tasks'))
    ensures StepKept(old(MomentOf(s, tasks)), op, n, MomentOf(s, tasks'))
  {
    hide O2CloudFileStore.Valid, UploadRecorded, ListRecorded, LookRecorded, ReadRecorded, DeleteRecorded, MoveRecorded, StepKept, AfterTask;
    tasks', n := tasks, Silent;
    match op
    case Upload(_, _, _, _, answer) =>
      if !answer.Refused? ==> answer.freshId !in s.provider {
        n := StepUpload(s, op, tasks);
      } else {
        NothingHappens(MomentOf(s, tasks), op);
      }
    case List(_, _) =>
      n := StepList(s, op, tasks);
    case GetMetadata(_, _) =>
      n := StepGetMetadata(s, op, tasks);
    case OpenRead(_, _, _) =>
      n := StepOpenRead(s, op, tasks);
    case Delete(_, _, _) =>
      tasks', n := StepDelete(s, op, tasks);
    case Move(_, _, _, _, _, _) =>
      tasks', n := StepMove(s, op, tasks);
    case RunTask(_, _, _) =>
      tasks' := StepTask(s, op, tasks);
    case Rename(_, _, _) =>
      StepRename(s, op, tasks);
    case Tick(_) =>
      StepTick(s, op, tasks);
  }

  lemma NothingHappens(m: Moment, op: Op)
    requires op.Upload? && !Possible(m, op.answer)
    ensures StepKept(m, op, Silent, m)
  {
  }

  // ------------------------------------------------------------------ runs

  /** Main result on runs: start the store with whatever an earlier process left behind, and perform any steps in any
      order, with any provider answers and any unlink and copy failures. What happens is a recorded run from the
      store's start to its end, one step for each operation. */
  method Run(budget: nat, maxCopySize: nat, uploadTtl: nat, tombstoneTtl: nat, cache: MetadataCache.MetadataCache,
             provider: Provider, leftovers: Disk, now: int, uuids: nat, ops: seq<Op>)
    returns (s: O2CloudFileStore, tasks: seq<Task>, ghost notes: seq<Note>, ghost moments: seq<Moment>)
    requires forall n :: n in leftovers ==> n < uuids
    modifies cache
    ensures s.Valid() && s.cache == cache
    ensures ConfigOf(s) == Config(budget, leftovers, uploadTtl, tombstoneTtl, cache.ttl, cache.negativeTtl)
    ensures RunRecorded(ConfigOf(s), ops, notes, moments)
    ensures moments[0].view.now == now && moments[0].provider == provider && moments[0].rows == old(cache.rows)
    ensures moments[|ops|] == MomentOf(s, tasks)
  {
    hide O2CloudFileStore.Valid, StepRecorded, StepKept, MomentOk, Faithful;
    s := new O2CloudFileStore(budget, maxCopySize, uploadTtl, tombstoneTtl, cache, provider, leftovers, now, uuids);
    tasks, notes, moments := [], [], [MomentOf(s, [])];
    ghost var c := ConfigOf(s);
    ValidMoment(s, tasks);
    for i := 0 to |ops|
      invariant s.Valid() && fresh(s) && s.cache == cache && ConfigOf(s) == c
      invariant |notes| == i && |moments| == i + 1 && moments[i] == MomentOf(s, tasks)
      invariant moments[0].view.now == now && moments[0].provider == provider && moments[0].rows == old(cache.rows) && StartOf(moments[0])
      invariant forall k :: 0 <= k <= i ==> MomentOk(c, moments[k])
      invariant forall k :: 0 <= k < i ==> StepRecorded(c, moments[k], ops[k], notes[k], moments[k + 1])
      invariant forall k :: 0 <= k < i ==> StepKept(moments[k], ops[k], notes[k], moments[k + 1])
    {
      var left;
      ghost var n;
      left, n := Step(s, ops[i], tasks);
      tasks, notes, moments := left, notes + [n], moments + [MomentOf(s, left)];
      ValidMoment(s, tasks);
    }
  }
}
